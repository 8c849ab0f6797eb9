/**
 * Integer primary keys: the next key SQLite assigns to an `INTEGER PRIMARY KEY` column
 * (one more than the largest key in the table, or 1 for an empty table), and a set of keys
 * listed in ascending order (the row order of an unordered query, and the order in which
 * JavaScript's `Object.keys` lists integer-like property names).
 */
module Keys {

  predicate Increasing(s: seq<int>) {
    forall i, j :: 0 <= i < j < |s| ==> s[i] < s[j]
  }

  lemma NonEmptyHasMember(s: set<int>)
    requires s != {}
    ensures exists x :: x in s
  {
    if forall x :: x !in s {
      assert false;
    }
  }

  /** Every non-empty finite set of integers has a least element. */
  lemma {:induction false} HasLeast(s: set<int>)
    requires s != {}
    ensures exists x :: x in s && forall y :: y in s ==> x <= y
  {
    NonEmptyHasMember(s);
    var x :| x in s;
    var rest := s - {x};
    if rest == {} {
      assert s == {x};
    } else {
      HasLeast(rest);
      var z :| z in rest && forall y :: y in rest ==> z <= y;
      var m := if x < z then x else z;
      forall y | y in s ensures m <= y {
        if y != x { assert y in rest; }
      }
      assert m in s;
    }
  }

  /** Every non-empty finite set of integers has a greatest element. */
  lemma {:induction false} HasGreatest(s: set<int>)
    requires s != {}
    ensures exists x :: x in s && forall y :: y in s ==> y <= x
  {
    NonEmptyHasMember(s);
    var x :| x in s;
    var rest := s - {x};
    if rest == {} {
      assert s == {x};
    } else {
      HasGreatest(rest);
      var z :| z in rest && forall y :: y in rest ==> y <= z;
      var m := if x > z then x else z;
      forall y | y in s ensures y <= m {
        if y != x { assert y in rest; }
      }
      assert m in s;
    }
  }

  function Least(s: set<int>): (x: int)
    requires s != {}
    ensures x in s && forall y :: y in s ==> x <= y
  {
    HasLeast(s);
    var x :| x in s && forall y :: y in s ==> x <= y;
    x
  }

  function Greatest(s: set<int>): (x: int)
    requires s != {}
    ensures x in s && forall y :: y in s ==> y <= x
  {
    HasGreatest(s);
    var x :| x in s && forall y :: y in s ==> y <= x;
    x
  }

  /**
   * The key the database gives the next row inserted into a table whose keys are `s`: 1 in an
   * empty table, otherwise one more than the largest key.
   */
  function NextKey(s: set<int>): (k: int)
    ensures k !in s
    ensures forall y :: y in s ==> y < k
    ensures s == {} ==> k == 1
    ensures s != {} ==> k - 1 in s
  {
    if s == {} then 1 else Greatest(s) + 1
  }

  /** The keys of `s` from smallest to largest. */
  function Ascending(s: set<int>): (r: seq<int>)
    ensures |r| == |s|
    ensures forall x :: x in r <==> x in s
    ensures Increasing(r)
    decreases |s|
  {
    if s == {} then []
    else
      var x := Least(s);
      var rest := Ascending(s - {x});
      PrependLeast(x, rest);
      [x] + rest
  }

  /** A key below every key of an increasing list can go in front of it. */
  lemma PrependLeast(x: int, rest: seq<int>)
    requires Increasing(rest) && forall z :: z in rest ==> x < z
    ensures Increasing([x] + rest)
  {
    var r := [x] + rest;
    forall i, j | 0 <= i < j < |r| ensures r[i] < r[j] {
      assert r[j] == rest[j - 1] && rest[j - 1] in rest;
      if i > 0 { assert r[i] == rest[i - 1]; }
    }
  }
}
