/**
 * User records: the row `create_user` inserts and the field-by-field update of `update_user`,
 * which turns the request into a dictionary of the fields the client actually sent and assigns
 * them one at a time, the password excepted (it is hashed first and stored as a hash).
 */
module Users {
  import opened Wrappers
  import opened Records

  /** A field of an update request: left out by the client, or sent (possibly as null). */
  datatype Patch<T> = Unset | Set(value: T)

  /** The body of a user update; the user name is a required field, so it is always sent. */
  datatype UserUpdate = UserUpdate(
    username: string,
    contactName: Patch<Option<string>>,
    address: Patch<Option<string>>,
    photoUrl: Patch<Option<string>>,
    adminNotes: Patch<Option<string>>,
    password: Patch<Option<string>>)

  datatype Key = Username | ContactName | Address | PhotoUrl | AdminNotes | Password

  /** One entry of the dictionary `user_update.dict(exclude_unset=True)`. */
  datatype Entry = Entry(key: Key, value: Option<string>)

  function Sent(key: Key, p: Patch<Option<string>>): seq<Entry> {
    if p.Set? then [Entry(key, p.value)] else []
  }

  /** The dictionary of sent fields, in the order the request schema declares them. */
  function UpdateData(upd: UserUpdate): (r: seq<Entry>)
    ensures forall i, j :: 0 <= i < j < |r| ==> r[i].key != r[j].key
  {
    [Entry(Username, Some(upd.username))] + Sent(ContactName, upd.contactName) + Sent(Address, upd.address)
    + Sent(PhotoUrl, upd.photoUrl) + Sent(AdminNotes, upd.adminNotes) + Sent(Password, upd.password)
  }

  /** The value sent for the password, when the dictionary holds one. */
  function PasswordSent(data: seq<Entry>): (r: Option<Option<string>>)
    ensures r.Some? <==> exists i :: 0 <= i < |data| && data[i].key == Password
  {
    if data == [] then None
    else if data[|data| - 1].key == Password then Some(data[|data| - 1].value)
    else
      var r := PasswordSent(data[..|data| - 1]);
      assert forall i :: 0 <= i < |data| - 1 ==> data[..|data| - 1][i] == data[i];
      r
  }

  /** `setattr(db_user, key, value)` for one entry; the password entry is skipped by the loop. */
  function SetAttr(u: User, e: Entry): User {
    match e.key
    case Username => (match e.value case Some(name) => u.(username := name) case None => u)
    case ContactName => u.(contactName := e.value)
    case Address => u.(address := e.value)
    case PhotoUrl => u.(photoUrl := e.value)
    case AdminNotes => u.(adminNotes := e.value)
    case Password => u
  }

  /** The user after the loop has assigned the entries of `data`, first to last. */
  function AssignAll(u: User, data: seq<Entry>): User {
    if data == [] then u else SetAttr(AssignAll(u, data[..|data| - 1]), data[|data| - 1])
  }

  function Pick<T>(p: Patch<T>, current: T): T {
    if p.Set? then p.value else current
  }

  /** Whether the password branch runs: a password was sent and it is not empty (Python truthiness). */
  predicate ChangesPassword(upd: UserUpdate) {
    upd.password.Set? && upd.password.value.Some? && upd.password.value.value != ""
  }

  /**
   * The user `update_user` stores, field by field: the sent fields take the sent values, the others
   * keep theirs, a non-empty password is replaced by its hash, and id and role never change.
   */
  function Updated(u: User, upd: UserUpdate, hash: string -> string): (r: User)
    ensures r.id == u.id && r.role == u.role && r.username == upd.username
    ensures upd.contactName.Set? ==> r.contactName == upd.contactName.value
    ensures upd.contactName.Unset? ==> r.contactName == u.contactName
    ensures upd.address.Set? ==> r.address == upd.address.value
    ensures upd.address.Unset? ==> r.address == u.address
    ensures upd.photoUrl.Set? ==> r.photoUrl == upd.photoUrl.value
    ensures upd.photoUrl.Unset? ==> r.photoUrl == u.photoUrl
    ensures upd.adminNotes.Set? ==> r.adminNotes == upd.adminNotes.value
    ensures upd.adminNotes.Unset? ==> r.adminNotes == u.adminNotes
    ensures !ChangesPassword(upd) ==> r.hashedPassword == u.hashedPassword
    ensures ChangesPassword(upd) ==> r.hashedPassword == hash(upd.password.value.value)
  {
    u.(username := upd.username,
       contactName := Pick(upd.contactName, u.contactName),
       address := Pick(upd.address, u.address),
       photoUrl := Pick(upd.photoUrl, u.photoUrl),
       adminNotes := Pick(upd.adminNotes, u.adminNotes),
       hashedPassword := if ChangesPassword(upd) then hash(upd.password.value.value) else u.hashedPassword)
  }

  lemma {:induction false} AssignAllAppend(u: User, a: seq<Entry>, b: seq<Entry>)
    ensures AssignAll(u, a + b) == AssignAll(AssignAll(u, a), b)
    decreases |b|
  {
    if b != [] {
      assert (a + b)[..|a + b| - 1] == a + b[..|b| - 1];
      AssignAllAppend(u, a, b[..|b| - 1]);
    } else {
      assert a + b == a;
    }
  }

  lemma AssignSent(u: User, key: Key, p: Patch<Option<string>>)
    ensures AssignAll(u, Sent(key, p)) == if p.Set? then SetAttr(u, Entry(key, p.value)) else u
  {
    if p.Set? {
      assert Sent(key, p)[..0] == [];
    }
  }

  /** The password that the dictionary holds is the one the request sent. */
  lemma PasswordSentOfUpdate(upd: UserUpdate)
    ensures PasswordSent(UpdateData(upd)) == (if upd.password.Set? then Some(upd.password.value) else None)
  {
    var data := UpdateData(upd);
    if upd.password.Set? {
      assert data[|data| - 1] == Entry(Password, upd.password.value);
    } else {
      assert forall i :: 0 <= i < |data| ==> data[i].key != Password;
    }
  }

  /**
   * Assigning the dictionary entries one by one, skipping the password, to a user whose hash has
   * already been brought up to date, gives exactly the updated user.
   */
  lemma AssignUpdateData(u: User, upd: UserUpdate, hash: string -> string)
    ensures var u1 := u.(hashedPassword := Updated(u, upd, hash).hashedPassword);
      AssignAll(u1, UpdateData(upd)) == Updated(u, upd, hash)
  {
    var u1 := u.(hashedPassword := Updated(u, upd, hash).hashedPassword);
    var e0 := [Entry(Username, Some(upd.username))];
    var s1 := Sent(ContactName, upd.contactName);
    var s2 := Sent(Address, upd.address);
    var s3 := Sent(PhotoUrl, upd.photoUrl);
    var s4 := Sent(AdminNotes, upd.adminNotes);
    var s5 := Sent(Password, upd.password);
    assert UpdateData(upd) == e0 + s1 + s2 + s3 + s4 + s5;
    AssignAllAppend(u1, e0 + s1 + s2 + s3 + s4, s5);
    AssignAllAppend(u1, e0 + s1 + s2 + s3, s4);
    AssignAllAppend(u1, e0 + s1 + s2, s3);
    AssignAllAppend(u1, e0 + s1, s2);
    AssignAllAppend(u1, e0, s1);
    assert e0[..0] == [];
    var v0 := AssignAll(u1, e0);
    AssignSent(v0, ContactName, upd.contactName);
    var v1 := AssignAll(v0, s1);
    AssignSent(v1, Address, upd.address);
    var v2 := AssignAll(v1, s2);
    AssignSent(v2, PhotoUrl, upd.photoUrl);
    var v3 := AssignAll(v2, s3);
    AssignSent(v3, AdminNotes, upd.adminNotes);
    var v4 := AssignAll(v3, s4);
    AssignSent(v4, Password, upd.password);
  }

  /** The row `create_user` inserts: the given fields, the photo path and the hash of the password. */
  function NewUser(id: int, req: UserCreate, photoUrl: Option<string>, hash: string -> string): User {
    User(id, req.username, hash(req.password), req.role, req.contactName, req.address, photoUrl, req.adminNotes)
  }

  /** User names are unique (the column is declared unique). */
  predicate UniqueUsernames(users: map<int, User>) {
    forall j, k :: j in users && k in users && users[j].username == users[k].username ==> j == k
  }

  /** Whether some user other than `id` already has the name `username`. */
  predicate NameTakenByOther(users: map<int, User>, id: int, username: string) {
    exists k :: k in users && k != id && users[k].username == username
  }

  /** Renaming a user to a name no other user has keeps user names unique. */
  lemma RenameKeepsUnique(users: map<int, User>, id: int, u: User)
    requires UniqueUsernames(users) && !NameTakenByOther(users, id, u.username)
    ensures UniqueUsernames(users[id := u])
  {
  }

  /**
   * What `update_user` leads to: no such user, the updated user, or a commit the database refuses
   * because the new user name belongs to another user (the unique constraint).
   */
  datatype UpdateResult = UserNotFound | UserUpdated(user: User) | NameConflict
}
