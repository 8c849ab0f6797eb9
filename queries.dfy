/**
 * The read queries of `app/crud.py`: a table listed in key order (the `get_*` queries that have no
 * `order_by`), SQL `OFFSET`/`LIMIT` paging, orders newest first, orders of one customer, one
 * order or user by key, and the filters used by the endpoints.
 */
module Queries {
  import opened Wrappers
  import opened Records
  import Keys

  /** The first row an `OFFSET skip` reads, in a result of `n` rows. */
  function Offset(skip: int, n: nat): (start: nat)
    ensures start <= n
  {
    if skip < 0 then 0 else if skip > n then n else skip
  }

  /** How many rows `OFFSET skip LIMIT limit` reads from a result of `n` rows. */
  function PageSize(n: nat, skip: int, limit: int): (size: nat)
    ensures Offset(skip, n) + size <= n
  {
    var start := Offset(skip, n);
    if limit < 0 || start + limit > n then n - start else limit
  }

  /**
   * `OFFSET skip LIMIT limit` as SQLite evaluates it: a negative offset counts as 0 and a negative
   * limit means no limit.
   */
  function Window<T>(s: seq<T>, skip: int, limit: int): (r: seq<T>)
    ensures limit >= 0 ==> |r| <= limit
    ensures |r| == PageSize(|s|, skip, limit)
    ensures forall i :: 0 <= i < |r| ==> r[i] == s[Offset(skip, |s|) + i]
  {
    var start := Offset(skip, |s|);
    var end := if limit < 0 || start + limit > |s| then |s| else start + limit;
    s[start..end]
  }

  /** A page holds only rows of the whole result, and without an offset or a limit it is the whole result. */
  lemma WindowWithin<T>(s: seq<T>, skip: int, limit: int)
    ensures forall x :: x in Window(s, skip, limit) ==> x in s
    ensures limit < 0 && skip <= 0 ==> Window(s, skip, limit) == s
  {
    var start := Offset(skip, |s|);
    var end := if limit < 0 || start + limit > |s| then |s| else start + limit;
    assert Window(s, skip, limit) == s[start..end];
  }

  /** Consecutive pages fit together: reading `n` rows and then `p` more is reading `n + p` rows. */
  lemma WindowsTile<T>(s: seq<T>, skip: nat, n: nat, p: nat)
    ensures Window(s, skip, n) + Window(s, skip + n, p) == Window(s, skip, n + p)
  {
    var start := Offset(skip, |s|);
    var mid := if start + n > |s| then |s| else start + n;
    var end := if mid + p > |s| then |s| else mid + p;
    assert Offset(skip + n, |s|) == mid;
    assert Window(s, skip, n) == s[start..mid];
    assert Window(s, skip + n, p) == s[mid..end];
    assert Window(s, skip, n + p) == s[start..end];
    assert s[start..end] == s[start..mid] + s[mid..end];
  }

  /** The rows of a table in ascending key order, the order in which SQLite returns them without `ORDER BY`. */
  function Listing<V>(m: map<int, V>): (r: seq<V>)
    ensures |r| == |m|
    ensures forall i :: 0 <= i < |r| ==> Keys.Ascending(m.Keys)[i] in m && r[i] == m[Keys.Ascending(m.Keys)[i]]
  {
    var ids := Keys.Ascending(m.Keys);
    AscendingKeys(m);
    seq(|ids|, i requires 0 <= i < |ids| => m[ids[i]])
  }

  /** The key of rank `n`, counting from 0, in increasing key order. */
  function KeyAt<V>(m: map<int, V>, n: int): (k: int)
    requires 0 <= n < |m|
    ensures k in m && k == Keys.Ascending(m.Keys)[n]
  {
    AscendingKeys(m);
    Keys.Ascending(m.Keys)[n]
  }

  /** The ascending key list of a table has one entry per row, each a key of the table. */
  lemma AscendingKeys<V>(m: map<int, V>)
    ensures |Keys.Ascending(m.Keys)| == |m|
    ensures forall i :: 0 <= i < |Keys.Ascending(m.Keys)| ==> Keys.Ascending(m.Keys)[i] in m
  {
    var ids := Keys.Ascending(m.Keys);
    assert |m.Keys| == |m|;
    forall i | 0 <= i < |ids| ensures ids[i] in m {
      assert ids[i] in ids;
    }
  }

  /** When each batch row carries its own key, the listing holds every batch once, in increasing id order. */
  lemma ListingBatches(m: map<int, Batch>)
    requires forall k :: k in m ==> m[k].id == k
    ensures forall i, j :: 0 <= i < j < |Listing(m)| ==> Listing(m)[i].id < Listing(m)[j].id
    ensures forall k :: k in m ==> m[k] in Listing(m)
    ensures forall b :: b in Listing(m) ==> b.id in m && m[b.id] == b
  {
    var ids := Keys.Ascending(m.Keys);
    var r := Listing(m);
    forall k | k in m ensures m[k] in r {
      var i :| 0 <= i < |ids| && ids[i] == k;
      assert r[i] == m[k];
    }
  }

  /**
   * `get_flowers`: one page of the batches in increasing id order, each the row stored under its
   * id: row `i` of the page is the batch of rank `Offset(skip) + i` in id order.
   */
  function FlowerPage(m: map<int, Batch>, skip: int, limit: int): (r: seq<Batch>)
    requires forall k :: k in m ==> m[k].id == k
    ensures limit >= 0 ==> |r| <= limit
    ensures |r| == PageSize(|m|, skip, limit)
    ensures forall i :: 0 <= i < |r| ==> r[i] == m[KeyAt(m, Offset(skip, |m|) + i)]
    ensures forall b :: b in r ==> b.id in m && m[b.id] == b
    ensures forall i, j :: 0 <= i < j < |r| ==> r[i].id < r[j].id
    ensures limit < 0 && skip <= 0 ==> forall k :: k in m ==> m[k] in r
  {
    var all := Listing(m);
    ListingBatches(m);
    WindowOfListing(m, skip, limit);
    WindowWithin(all, skip, limit);
    WindowIncreasing(all, skip, limit);
    Window(all, skip, limit)
  }

  /** Without an offset or a limit, the page of a table's listing holds every row. */
  lemma WholeListing<V>(m: map<int, V>, skip: int, limit: int)
    ensures limit < 0 && skip <= 0 ==> forall k :: k in m ==> m[k] in Window(Listing(m), skip, limit)
  {
    ListingHas(m);
    WindowWithin(Listing(m), skip, limit);
  }

  /** Row `i` of a page of a table's listing is the row of rank `Offset(skip) + i` in key order. */
  lemma WindowOfListing<V>(m: map<int, V>, skip: int, limit: int)
    ensures var r := Window(Listing(m), skip, limit);
      && |r| == PageSize(|m|, skip, limit)
      && forall i :: 0 <= i < |r| ==> r[i] == m[KeyAt(m, Offset(skip, |m|) + i)]
  {
    var all := Listing(m);
    var r := Window(all, skip, limit);
    forall i | 0 <= i < |r| ensures r[i] == m[KeyAt(m, Offset(skip, |m|) + i)] {
      assert r[i] == all[Offset(skip, |m|) + i];
    }
  }

  lemma WindowIncreasing(s: seq<Batch>, skip: int, limit: int)
    requires forall i, j :: 0 <= i < j < |s| ==> s[i].id < s[j].id
    ensures var r := Window(s, skip, limit);
      forall i, j :: 0 <= i < j < |r| ==> r[i].id < r[j].id
  {
    var r := Window(s, skip, limit);
    var start := Offset(skip, |s|);
    forall i, j | 0 <= i < j < |r| ensures r[i].id < r[j].id {
      assert r[i] == s[start + i] && r[j] == s[start + j];
    }
  }

  /**
   * `get_users`: one page of the users in increasing key order: row `i` of the page is the user of
   * rank `Offset(skip) + i` in key order.
   */
  function UserPage(m: map<int, User>, skip: int, limit: int): (r: seq<User>)
    ensures limit >= 0 ==> |r| <= limit
    ensures |r| == PageSize(|m|, skip, limit)
    ensures forall i :: 0 <= i < |r| ==> r[i] == m[KeyAt(m, Offset(skip, |m|) + i)]
    ensures limit < 0 && skip <= 0 ==> forall k :: k in m ==> m[k] in r
  {
    WindowOfListing(m, skip, limit);
    WholeListing(m, skip, limit);
    Window(Listing(m), skip, limit)
  }

  /**
   * The elements of `s` that satisfy `p`, each as often as it occurs in `s` (the elements are
   * taken in their order in `s`, which the contract does not state).
   */
  function Filter<T(!new)>(s: seq<T>, p: T -> bool): (r: seq<T>)
    ensures |r| <= |s|
    ensures forall x :: x in r <==> x in s && p(x)
    ensures forall x :: multiset(r)[x] == if p(x) then multiset(s)[x] else 0
  {
    if s == [] then []
    else
      assert s == [s[0]] + s[1..];
      (if p(s[0]) then [s[0]] else []) + Filter(s[1..], p)
  }

  /** Orders sorted newest first. */
  predicate NewestFirstOrder(s: seq<Order>) {
    forall i, j :: 0 <= i < j < |s| ==> s[i].createdAt >= s[j].createdAt
  }

  /** `o` put in front of the first order of `s` that is not newer than it. */
  function Insert(o: Order, s: seq<Order>): (r: seq<Order>)
    ensures multiset(r) == multiset(s) + multiset{o}
  {
    if s == [] then [o]
    else if s[0].createdAt <= o.createdAt then [o] + s
    else
      assert s == [s[0]] + s[1..];
      [s[0]] + Insert(o, s[1..])
  }

  lemma {:induction false} InsertKeepsOrder(o: Order, s: seq<Order>)
    requires NewestFirstOrder(s)
    ensures NewestFirstOrder(Insert(o, s))
  {
    if s != [] && s[0].createdAt > o.createdAt {
      var tail := s[1..];
      var rest := Insert(o, tail);
      InsertKeepsOrder(o, tail);
      forall i | 0 <= i < |tail| ensures tail[i].createdAt <= s[0].createdAt {
        assert tail[i] == s[i + 1];
      }
      InsertNotNewer(o, tail, s[0].createdAt);
      var r := [s[0]] + rest;
      forall i, j | 0 <= i < j < |r| ensures r[i].createdAt >= r[j].createdAt {
        assert r[j] == rest[j - 1];
        if i > 0 { assert r[i] == rest[i - 1]; }
      }
    }
  }

  /** Inserting into orders none newer than `t` an order not newer than `t` gives none newer than `t`. */
  lemma {:induction false} InsertNotNewer(o: Order, s: seq<Order>, t: Time)
    requires o.createdAt <= t && forall i :: 0 <= i < |s| ==> s[i].createdAt <= t
    ensures forall j :: 0 <= j < |Insert(o, s)| ==> Insert(o, s)[j].createdAt <= t
  {
    var r := Insert(o, s);
    if s == [] {
      assert r == [o];
    } else if s[0].createdAt <= o.createdAt {
      assert r == [o] + s;
      forall j | 0 < j < |r| ensures r[j].createdAt <= t {
        assert r[j] == s[j - 1];
      }
    } else {
      var tail := s[1..];
      forall i | 0 <= i < |tail| ensures tail[i].createdAt <= t {
        assert tail[i] == s[i + 1];
      }
      InsertNotNewer(o, tail, t);
      var rest := Insert(o, tail);
      assert r == [s[0]] + rest;
      forall j | 0 < j < |r| ensures r[j].createdAt <= t {
        assert r[j] == rest[j - 1];
      }
    }
  }

  /**
   * `ORDER BY created_at DESC`. Orders with the same time keep the order they were placed in (the
   * database leaves that order open).
   */
  function NewestFirst(s: seq<Order>): (r: seq<Order>)
    ensures NewestFirstOrder(r)
    ensures multiset(r) == multiset(s)
    ensures |r| == |s|
  {
    if s == [] then []
    else
      assert s == [s[0]] + s[1..];
      InsertKeepsOrder(s[0], NewestFirst(s[1..]));
      Insert(s[0], NewestFirst(s[1..]))
  }

  /**
   * `get_orders`: one page of all orders newest first: row `i` of the page is the order of rank
   * `Offset(skip) + i` in newest-first order.
   */
  function AllOrders(orders: seq<Order>, skip: int, limit: int): (r: seq<Order>)
    ensures limit >= 0 ==> |r| <= limit
    ensures |r| == PageSize(|orders|, skip, limit)
    ensures forall i :: 0 <= i < |r| ==> r[i] == NewestFirst(orders)[Offset(skip, |orders|) + i]
    ensures NewestFirstOrder(r)
    ensures forall o :: o in r ==> o in orders
    ensures limit < 0 && skip <= 0 ==> multiset(r) == multiset(orders)
  {
    var sorted := NewestFirst(orders);
    assert |sorted| == |multiset(sorted)| == |multiset(orders)| == |orders|;
    WindowWithin(sorted, skip, limit);
    WindowKeepsOrder(sorted, skip, limit);
    assert forall o :: o in sorted ==> o in multiset(orders);
    Window(sorted, skip, limit)
  }

  lemma WindowKeepsOrder(s: seq<Order>, skip: int, limit: int)
    requires NewestFirstOrder(s)
    ensures NewestFirstOrder(Window(s, skip, limit))
  {
    var r := Window(s, skip, limit);
    var start := Offset(skip, |s|);
    forall i, j | 0 <= i < j < |r| ensures r[i].createdAt >= r[j].createdAt {
      assert r[i] == s[start + i] && r[j] == s[start + j];
    }
  }

  /** `get_orders_by_customer`: exactly the customer's orders, each as often as it is stored, newest first. */
  function CustomerOrders(orders: seq<Order>, customerId: int): (r: seq<Order>)
    ensures NewestFirstOrder(r)
    ensures forall o :: o in r ==> o.customerId == Some(customerId)
    ensures forall o :: o in orders && o.customerId == Some(customerId) ==> o in r
    ensures forall o :: multiset(r)[o] == if o.customerId == Some(customerId) then multiset(orders)[o] else 0
  {
    var mine := Filter(orders, (o: Order) => o.customerId == Some(customerId));
    var r := NewestFirst(mine);
    assert forall o :: o in r <==> o in mine by {
      forall o ensures o in r <==> o in mine {
        assert o in r <==> o in multiset(r);
      }
    }
    r
  }

  /** No two orders share an id. */
  predicate DistinctOrderIds(orders: seq<Order>) {
    forall i, j :: 0 <= i < j < |orders| ==> orders[i].id != orders[j].id
  }

  /** `get_order`: the first stored order with that id, if any. */
  function FindOrder(orders: seq<Order>, id: int): (r: Option<Order>)
    ensures r.Some? <==> exists i :: 0 <= i < |orders| && orders[i].id == id
    ensures r.Some? ==> r.value in orders && r.value.id == id
  {
    if orders == [] then None
    else if orders[0].id == id then Some(orders[0])
    else
      var r := FindOrder(orders[1..], id);
      assert forall i :: 1 <= i < |orders| ==> orders[i] == orders[1..][i - 1];
      r
  }

  /** Every row of a table appears in its listing, and nothing else does. */
  lemma ListingHas<V>(m: map<int, V>)
    ensures forall k :: k in m ==> m[k] in Listing(m)
    ensures forall v :: v in Listing(m) ==> v in m.Values
    ensures forall v :: v in Listing(m) ==> exists k :: k in m && m[k] == v
  {
    var ids := Keys.Ascending(m.Keys);
    forall k | k in m ensures m[k] in Listing(m) {
      var i :| 0 <= i < |ids| && ids[i] == k;
      assert Listing(m)[i] == m[k];
    }
    forall v | v in Listing(m) ensures exists k :: k in m && m[k] == v {
      var i :| 0 <= i < |Listing(m)| && Listing(m)[i] == v;
      assert ids[i] in m && m[ids[i]] == v;
    }
  }

  /** `get_user_by_username`: the first user, in key order, with that user name. */
  function FindByUsername(users: map<int, User>, username: string): (r: Option<User>)
    ensures r.Some? <==> exists k :: k in users && users[k].username == username
    ensures r.Some? ==> r.value in users.Values && r.value.username == username
    ensures r.Some? ==> exists k :: k in users && users[k] == r.value
  {
    ListingHas(users);
    var named := Filter(Listing(users), (u: User) => u.username == username);
    assert forall k :: k in users && users[k].username == username ==> users[k] in named;
    if named == [] then None
    else
      assert named[0] in named;
      Some(named[0])
  }

  /** A strictly increasing list holds as many keys as it has entries. */
  lemma {:induction false} IncreasingCard(s: seq<int>)
    requires Keys.Increasing(s)
    ensures |set k | k in s| == |s|
  {
    if s != [] {
      IncreasingCard(s[1..]);
      assert (set k | k in s) == {s[0]} + (set k | k in s[1..]);
      assert s[0] !in s[1..];
    }
  }

  /** The keys of `ks` whose batch in `m` was created at or after `since`, in the order of `ks`. */
  function KeysSince(m: map<int, Batch>, ks: seq<int>, since: Time): seq<int> {
    if ks == [] then []
    else (if ks[0] in m && m[ks[0]].createdAt >= since then [ks[0]] else []) + KeysSince(m, ks[1..], since)
  }

  lemma {:induction false} KeysSinceHas(m: map<int, Batch>, ks: seq<int>, since: Time)
    ensures forall k :: k in KeysSince(m, ks, since) <==> k in ks && k in m && m[k].createdAt >= since
  {
    if ks != [] {
      KeysSinceHas(m, ks[1..], since);
      assert forall k :: k in ks <==> k == ks[0] || k in ks[1..];
    }
  }

  lemma {:induction false} KeysSinceIncreasing(m: map<int, Batch>, ks: seq<int>, since: Time)
    requires Keys.Increasing(ks)
    ensures Keys.Increasing(KeysSince(m, ks, since))
  {
    if ks != [] {
      var tail := ks[1..];
      assert Keys.Increasing(tail) by {
        forall i, j | 0 <= i < j < |tail| ensures tail[i] < tail[j] {
          assert tail[i] == ks[i + 1] && tail[j] == ks[j + 1];
        }
      }
      KeysSinceIncreasing(m, tail, since);
      KeysSinceHas(m, tail, since);
      var rest := KeysSince(m, tail, since);
      if ks[0] in m && m[ks[0]].createdAt >= since {
        forall z | z in rest ensures ks[0] < z {
          var n :| 0 <= n < |tail| && tail[n] == z;
          assert tail[n] == ks[n + 1];
        }
        Keys.PrependLeast(ks[0], rest);
      }
    }
  }

  /** The ids of the batches created at or after `since`. */
  function RecentIds(m: map<int, Batch>, since: Time): set<int> {
    set k | k in m && m[k].createdAt >= since
  }

  lemma RecentKeysFacts(m: map<int, Batch>, since: Time)
    ensures Keys.Increasing(KeysSince(m, Keys.Ascending(m.Keys), since))
    ensures forall k :: k in KeysSince(m, Keys.Ascending(m.Keys), since) <==> k in m && m[k].createdAt >= since
    ensures |KeysSince(m, Keys.Ascending(m.Keys), since)| == |RecentIds(m, since)|
  {
    var ks := Keys.Ascending(m.Keys);
    var r := KeysSince(m, ks, since);
    KeysSinceHas(m, ks, since);
    KeysSinceIncreasing(m, ks, since);
    IncreasingCard(r);
    SameIds(m, since, r);
  }

  lemma SameIds(m: map<int, Batch>, since: Time, r: seq<int>)
    requires forall k :: k in r <==> k in m && m[k].createdAt >= since
    ensures (set k | k in r) == RecentIds(m, since)
  {
    var ids := RecentIds(m, since);
    var inR := set k | k in r;
    forall k | k in inR ensures k in ids {
      assert k in r;
    }
    forall k | k in ids ensures k in inR {
      assert k in m && m[k].createdAt >= since;
    }
  }

  /** The keys of the batches created at or after `since`, in ascending order, each once. */
  function RecentKeys(m: map<int, Batch>, since: Time): (r: seq<int>)
    ensures Keys.Increasing(r)
    ensures forall k :: k in r <==> k in m && m[k].createdAt >= since
    ensures |r| == |RecentIds(m, since)|
  {
    RecentKeysFacts(m, since);
    KeysSince(m, Keys.Ascending(m.Keys), since)
  }

  /**
   * The batches created at or after `since`, in key order (the filter of `notify_new_flowers`):
   * each such batch once, so the list is as long as there are such batches.
   */
  function CreatedSince(m: map<int, Batch>, since: Time): (r: seq<Batch>)
    ensures |r| == |RecentIds(m, since)|
    ensures forall b :: b in r ==> b in m.Values && b.createdAt >= since
    ensures forall k :: k in m && m[k].createdAt >= since ==> m[k] in r
  {
    var ks := RecentKeys(m, since);
    KeysInTable(m, since, ks);
    var r := RowsOf(m, ks);
    RecentRows(m, since, ks, r);
    r
  }

  /** The rows stored under the keys `ks`, in the order of `ks`. */
  function RowsOf(m: map<int, Batch>, ks: seq<int>): (r: seq<Batch>)
    requires forall i :: 0 <= i < |ks| ==> ks[i] in m
    ensures |r| == |ks| && forall i :: 0 <= i < |ks| ==> r[i] == m[ks[i]]
  {
    seq(|ks|, i requires 0 <= i < |ks| => m[ks[i]])
  }

  lemma KeysInTable(m: map<int, Batch>, since: Time, ks: seq<int>)
    requires forall k :: k in ks <==> k in m && m[k].createdAt >= since
    ensures forall i :: 0 <= i < |ks| ==> ks[i] in m
  {
    forall i | 0 <= i < |ks| ensures ks[i] in m {
      var k := ks[i];
      assert k in ks;
      assert k in m && m[k].createdAt >= since;
    }
  }

  lemma RecentRows(m: map<int, Batch>, since: Time, ks: seq<int>, r: seq<Batch>)
    requires forall k :: k in ks <==> k in m && m[k].createdAt >= since
    requires |r| == |ks| && forall i :: 0 <= i < |ks| ==> ks[i] in m && r[i] == m[ks[i]]
    requires |ks| == |RecentIds(m, since)|
    ensures |r| == |RecentIds(m, since)|
    ensures forall b :: b in r ==> b in m.Values && b.createdAt >= since
    ensures forall k :: k in m && m[k].createdAt >= since ==> m[k] in r
  {
    forall b | b in r ensures b in m.Values && b.createdAt >= since {
      var i :| 0 <= i < |r| && r[i] == b;
      var k := ks[i];
      assert k in ks && k in m && m[k] == b;
      assert m[k].createdAt >= since;
      assert m[k] in m.Values;
    }
    forall k | k in m && m[k].createdAt >= since ensures m[k] in r {
      var i :| 0 <= i < |ks| && ks[i] == k;
      assert r[i] == m[k];
    }
  }
}
