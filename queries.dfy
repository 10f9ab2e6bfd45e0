/** The one query shape the handlers use to list rows: every row of a table
    that satisfies a `where` condition, newest first. Rows are keyed by ids
    the store allocates in increasing order, so newest first is descending
    id order. */
module Queries {
  import opened Common

  /** Every key of the table is below `n`. */
  ghost predicate KeysBelow<T>(m: map<Id, T>, n: nat)
  {
    forall k :: k in m ==> k < n
  }

  /** A bound above every key of the table, found from the table alone. */
  ghost function Bound<T>(m: map<Id, T>): (n: nat)
    ensures KeysBelow(m, n)
    decreases |m.Keys|
  {
    if m == map[] then 0
    else
      var k :| k in m;
      var rest := m - {k};
      assert rest.Keys == m.Keys - {k};
      var b := Bound(rest);
      assert forall j :: j in m ==> j == k || j in rest;
      if k < b then b else k + 1
  }

  /** The ids below `n` whose rows satisfy `keep`, largest first. */
  function NewestFirst<T>(m: map<Id, T>, keep: T -> bool, n: nat): (r: seq<Id>)
    ensures forall k :: 0 <= k < |r| ==> r[k] < n && r[k] in m && keep(m[r[k]])
    decreases n
  {
    if n == 0 then []
    else
      var older := NewestFirst(m, keep, n - 1);
      if n - 1 in m && keep(m[n - 1]) then [n - 1] + older else older
  }

  /** Every row below the bound that satisfies the condition is listed. */
  lemma {:induction false} NewestFirstComplete<T>(m: map<Id, T>, keep: T -> bool, n: nat, id: Id)
    requires id < n && id in m && keep(m[id])
    ensures id in NewestFirst(m, keep, n)
  {
    if id < n - 1 {
      NewestFirstComplete(m, keep, n - 1, id);
    }
  }

  /** With a bound above every key, the listing holds exactly the rows that
      satisfy the condition. */
  lemma NewestFirstExact<T>(m: map<Id, T>, keep: T -> bool, n: nat)
    requires KeysBelow(m, n)
    ensures forall id :: id in NewestFirst(m, keep, n) <==> id in m && keep(m[id])
  {
    forall id | id in m && keep(m[id]) ensures id in NewestFirst(m, keep, n) {
      NewestFirstComplete(m, keep, n, id);
    }
  }

  /** A condition no row satisfies lists nothing. */
  lemma {:induction false} NewestFirstNone<T>(m: map<Id, T>, keep: T -> bool, n: nat)
    requires forall k :: k in m ==> !keep(m[k])
    ensures NewestFirst(m, keep, n) == []
  {
    if n > 0 {
      NewestFirstNone(m, keep, n - 1);
    }
  }

  ghost predicate Descending(r: seq<Id>)
  {
    forall i, j :: 0 <= i < j < |r| ==> r[i] > r[j]
  }

  /** The listing is strictly descending, hence newest first and without
      repetitions. */
  lemma {:induction false} NewestFirstDescending<T>(m: map<Id, T>, keep: T -> bool, n: nat)
    ensures Descending(NewestFirst(m, keep, n))
  {
    if n > 0 {
      NewestFirstDescending(m, keep, n - 1);
      var older := NewestFirst(m, keep, n - 1);
      if n - 1 in m && keep(m[n - 1]) {
        var r := [n - 1] + older;
        forall i, j | 0 <= i < j < |r| ensures r[i] > r[j] {
          if i > 0 {
            assert r[i] == older[i - 1] && r[j] == older[j - 1];
          } else {
            assert r[j] == older[j - 1];
          }
        }
      }
    }
  }

  /** Two listings agree when the two tables agree, below the bound, on which
      ids hold a row that satisfies the condition. */
  lemma {:induction false} NewestFirstFrame<T, U>(m1: map<Id, T>, keep1: T -> bool, m2: map<Id, U>, keep2: U -> bool, n: nat)
    requires forall i :: 0 <= i < n ==> ((i in m1 && keep1(m1[i])) <==> (i in m2 && keep2(m2[i])))
    ensures NewestFirst(m1, keep1, n) == NewestFirst(m2, keep2, n)
  {
    if n > 0 {
      NewestFirstFrame(m1, keep1, m2, keep2, n - 1);
    }
  }

  /** Any bound above every key lists the whole table: listing up to `n`
      is listing every row. */
  lemma NewestFirstAll<T>(m: map<Id, T>, keep: T -> bool, n: nat)
    requires KeysBelow(m, n)
    ensures NewestFirst(m, keep, n) == NewestFirst(m, keep, Bound(m))
  {
    var b := Bound(m);
    if n <= b {
      NewestFirstBeyond(m, keep, n, b);
    } else {
      NewestFirstBeyond(m, keep, b, n);
    }
  }

  /** Raising the bound past every key of the table lists nothing more. */
  lemma {:induction false} NewestFirstBeyond<T>(m: map<Id, T>, keep: T -> bool, n: nat, n': nat)
    requires n <= n'
    requires forall k :: k in m ==> k < n
    ensures NewestFirst(m, keep, n') == NewestFirst(m, keep, n)
    decreases n' - n
  {
    if n < n' {
      NewestFirstBeyond(m, keep, n, n' - 1);
    }
  }
}
