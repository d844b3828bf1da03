/** Database row order by (created_at, id), over rows known by their creation times. */
module RowOrder {

  type Id = nat
  type Times = map<Id, real>

  predicate Before(times: Times, x: Id, y: Id)
    requires x in times && y in times
  {
    times[x] < times[y] || (times[x] == times[y] && x < y)
  }

  ghost predicate IsEarliest(times: Times, ids: set<Id>, x: Id)
    requires ids <= times.Keys
  {
    x in ids && forall y :: y in ids && y != x ==> Before(times, x, y)
  }

  lemma {:induction false} EarliestExists(times: Times, ids: set<Id>) returns (x: Id)
    requires ids <= times.Keys && ids != {}
    ensures IsEarliest(times, ids, x)
    decreases |ids|
  {
    var a :| a in ids;
    x := a;
    var rest := ids - {a};
    if rest != {} {
      var b := EarliestExists(times, rest);
      if Before(times, b, a) { x := b; }
      forall y | y in ids && y != x ensures Before(times, x, y) {
        assert y == a || y == b || Before(times, b, y);
      }
    } else {
      assert ids == {a};
    }
  }

  function Earliest(times: Times, ids: set<Id>): (x: Id)
    requires ids <= times.Keys && ids != {}
    ensures IsEarliest(times, ids, x)
  {
    assert exists x :: IsEarliest(times, ids, x) by { var x := EarliestExists(times, ids); }
    var x :| x in ids && forall y :: y in ids && y != x ==> Before(times, x, y);
    x
  }

  /** The rows of a set in row order. */
  function Sorted(times: Times, ids: set<Id>): seq<Id>
    requires ids <= times.Keys
    decreases |ids|
  {
    if ids == {} then []
    else var x := Earliest(times, ids); [x] + Sorted(times, ids - {x})
  }

  /** Each row of the set is listed once, in strictly increasing row order. */
  lemma {:induction false} SortedOrder(times: Times, ids: set<Id>)
    requires ids <= times.Keys
    ensures var s := Sorted(times, ids);
      && |s| == |ids|
      && (forall i :: 0 <= i < |s| ==> s[i] in ids)
      && (forall x :: x in ids ==> x in s)
      && (forall i, j :: 0 <= i < j < |s| ==> Before(times, s[i], s[j]))
    decreases |ids|
  {
    if ids != {} {
      var x := Earliest(times, ids);
      SortedOrder(times, ids - {x});
      var s, t := Sorted(times, ids), Sorted(times, ids - {x});
      assert s == [x] + t;
      forall i, j | 0 <= i < j < |s| ensures Before(times, s[i], s[j]) {
        assert s[j] == t[j - 1];
        if i > 0 { assert s[i] == t[i - 1]; }
      }
    }
  }

  /** The listing depends on the times of the listed rows only. */
  lemma {:induction false} SortedStable(t: Times, u: Times, ids: set<Id>)
    requires ids <= t.Keys && ids <= u.Keys
    requires forall id :: id in ids ==> t[id] == u[id]
    ensures Sorted(t, ids) == Sorted(u, ids)
    decreases |ids|
  {
    if ids != {} {
      var x, y := Earliest(t, ids), Earliest(u, ids);
      assert x == y;
      SortedStable(t, u, ids - {x});
    }
  }

  lemma SortedSingle(times: Times, id: Id)
    requires id in times
    ensures Sorted(times, {id}) == [id]
  {
  }

  /** A listing in strictly increasing row order of exactly the rows of a set is the sorted one. */
  lemma {:induction false} SortedUnique(times: Times, ids: set<Id>, s: seq<Id>)
    requires ids <= times.Keys
    requires forall i :: 0 <= i < |s| ==> s[i] in ids
    requires forall x :: x in ids ==> x in s
    requires forall i, j :: 0 <= i < j < |s| ==> Before(times, s[i], s[j])
    ensures Sorted(times, ids) == s
    decreases |s|
  {
    if s == [] {
      assert ids == {};
    } else {
      var x, rest := s[0], s[1..];
      assert forall y :: y in ids && y != x ==> y in rest;
      assert IsEarliest(times, ids, x);
      assert x == Earliest(times, ids);
      forall i | 0 <= i < |rest| ensures rest[i] in ids - {x} { assert Before(times, s[0], s[i + 1]); }
      SortedUnique(times, ids - {x}, rest);
    }
  }

  /** row_number() over the rows of a set. */
  function RowNumber(times: Times, ids: set<Id>, id: Id): nat
    requires ids <= times.Keys && id in times
  {
    |set x | x in ids && Before(times, x, id)| + 1
  }

  lemma {:induction false} PrefixCount(s: seq<Id>, n: nat)
    requires n <= |s| && forall i, j :: 0 <= i < j < |s| ==> s[i] != s[j]
    ensures |set i | 0 <= i < n :: s[i]| == n
  {
    if n > 0 {
      PrefixCount(s, n - 1);
      assert (set i | 0 <= i < n :: s[i]) == (set i | 0 <= i < n - 1 :: s[i]) + {s[n - 1]};
    }
  }

  lemma NumberFromOrder(times: Times, ids: set<Id>, s: seq<Id>, i: nat)
    requires ids <= times.Keys && i < |s|
    requires forall j :: 0 <= j < |s| ==> s[j] in ids
    requires forall x :: x in ids ==> x in s
    requires forall j, k :: 0 <= j < k < |s| ==> Before(times, s[j], s[k])
    ensures RowNumber(times, ids, s[i]) == i + 1
  {
    var earlier := set x | x in ids && Before(times, x, s[i]);
    var prefix := set j | 0 <= j < i :: s[j];
    forall x | x in earlier ensures x in prefix {
      var j :| 0 <= j < |s| && s[j] == x;
      assert j < i;
    }
    assert earlier == prefix;
    assert |prefix| == i by {
      assert forall j, k :: 0 <= j < k < |s| ==> Before(times, s[j], s[k]) && s[j] != s[k];
      PrefixCount(s, i);
    }
  }

  /** A row's number is its place in the listing. */
  lemma RowNumberIsPlace(times: Times, ids: set<Id>, i: nat)
    requires ids <= times.Keys && i < |Sorted(times, ids)|
    ensures Sorted(times, ids)[i] in times
    ensures RowNumber(times, ids, Sorted(times, ids)[i]) == i + 1
  {
    SortedOrder(times, ids);
    hide Sorted;
    NumberFromOrder(times, ids, Sorted(times, ids), i);
  }

  ghost predicate Increasing(times: Times, s: seq<Id>) {
    && (forall i :: 0 <= i < |s| ==> s[i] in times)
    && forall i, j :: 0 <= i < j < |s| ==> Before(times, s[i], s[j])
  }

  lemma IncreasingWithout(times: Times, s: seq<Id>, p: nat)
    requires Increasing(times, s) && p < |s|
    ensures Increasing(times, s[..p] + s[p + 1..])
  {
    var rest := s[..p] + s[p + 1..];
    forall i, j | 0 <= i < j < |rest| ensures rest[i] in times && rest[j] in times && Before(times, rest[i], rest[j]) {
      assert rest[i] == s[if i < p then i else i + 1] && rest[j] == s[if j < p then j else j + 1];
    }
  }

  lemma ElementsWithout(times: Times, s: seq<Id>, p: nat, x: Id)
    requires Increasing(times, s) && p < |s|
    ensures x in s[..p] + s[p + 1..] <==> x in s && x != s[p]
  {
    if x in s && x != s[p] {
      var j :| 0 <= j < |s| && s[j] == x;
      assert x in if j < p then s[..p] else s[p + 1..];
    }
    if x in s[..p] { var j :| 0 <= j < p && s[j] == x; assert Before(times, s[j], s[p]); }
    if x in s[p + 1..] { var j :| p < j < |s| && s[j] == x; assert Before(times, s[p], s[j]); }
  }

  /** A further row is listed after exactly the rows before it. */
  lemma SortedInsert(times: Times, ids: set<Id>, id: Id)
    requires ids <= times.Keys && id in times && id !in ids
    ensures var s, p := Sorted(times, ids), RowNumber(times, ids, id) - 1;
      p <= |s| && Sorted(times, ids + {id}) == s[..p] + [id] + s[p..]
  {
    var all := ids + {id};
    var s := Sorted(times, all);
    hide Sorted, Before, RowNumber, Increasing;
    SortedIncreasing(times, all);
    var p :| 0 <= p < |s| && s[p] == id;
    RowNumberIsPlace(times, all, p);
    SameNumber(times, ids, id);
    SplicedIsSorted(times, ids, id, s, p);
    SpliceBack(s, p);
  }

  lemma SortedIncreasing(times: Times, ids: set<Id>)
    requires ids <= times.Keys
    ensures Increasing(times, Sorted(times, ids))
    ensures forall x :: x in Sorted(times, ids) <==> x in ids
  {
    SortedOrder(times, ids);
    hide Sorted, Before;
  }

  lemma SpliceBack(s: seq<Id>, p: nat)
    requires p < |s|
    ensures var rest := s[..p] + s[p + 1..];
      p <= |rest| && s == rest[..p] + [s[p]] + rest[p..]
  {
  }

  lemma SplicedIsSorted(times: Times, ids: set<Id>, id: Id, s: seq<Id>, p: nat)
    requires ids <= times.Keys && id !in ids && p < |s| && s[p] == id && Increasing(times, s)
    requires forall x :: x in s <==> x in ids + {id}
    ensures Sorted(times, ids) == s[..p] + s[p + 1..]
  {
    var rest := s[..p] + s[p + 1..];
    hide Sorted, Before;
    IncreasingWithout(times, s, p);
    forall x ensures x in rest <==> x in ids { ElementsWithout(times, s, p, x); }
    SortedUnique(times, ids, rest);
  }

  lemma SameNumber(times: Times, ids: set<Id>, id: Id)
    requires ids <= times.Keys && id in times
    ensures RowNumber(times, ids + {id}, id) == RowNumber(times, ids, id)
  {
    assert (set x | x in ids + {id} && Before(times, x, id)) == (set x | x in ids && Before(times, x, id));
  }
}
