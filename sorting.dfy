/** Python's `sorted(xs, key=...)` (a stable sort) and the "start a new group
    when the next element is not close to the previous one" loop that the
    layout code uses for clusters, rows and columns; and the "append unless
    already present" de-duplication that keeps first-seen order. */
module Sorting {
  import opened Text

  /** `le` is a total preorder: what a key comparison `key(a) <= key(b)` gives. */
  ghost predicate TotalPreorder<T(!new)>(le: (T, T) -> bool) {
    (forall x, y :: le(x, y) || le(y, x))
    && (forall x, y, z :: le(x, y) && le(y, z) ==> le(x, z))
  }

  predicate SortedBy<T>(s: seq<T>, le: (T, T) -> bool) {
    forall i, j :: 0 <= i < j < |s| ==> le(s[i], s[j])
  }

  /** Inserts `x` in front of the first element it is not greater than. */
  function Insert<T>(x: T, s: seq<T>, le: (T, T) -> bool): (r: seq<T>)
    ensures multiset(r) == multiset(s) + multiset{x}
  {
    if s == [] then [x]
    else if le(x, s[0]) then [x] + s
    else
      assert s == [s[0]] + s[1..];
      [s[0]] + Insert(x, s[1..], le)
  }

  /** A stable sort; `SortBy(s, (a, b) => key(a) <= key(b))` is `sorted(s, key=key)`
      and `SortBy(s, (a, b) => key(a) >= key(b))` is `sorted(s, key=key, reverse=True)`. */
  function SortBy<T>(s: seq<T>, le: (T, T) -> bool): (r: seq<T>)
    ensures multiset(r) == multiset(s)
    ensures |r| == |s|
  {
    if s == [] then []
    else
      assert s == [s[0]] + s[1..];
      Insert(s[0], SortBy(s[1..], le), le)
  }

  lemma {:induction false} InsertSorted<T(!new)>(x: T, s: seq<T>, le: (T, T) -> bool)
    requires TotalPreorder(le)
    requires SortedBy(s, le)
    ensures SortedBy(Insert(x, s, le), le)
  {
    if s != [] && !le(x, s[0]) {
      InsertSorted(x, s[1..], le);
      var r := Insert(x, s, le);
      var t := Insert(x, s[1..], le);
      assert r == [s[0]] + t;
      assert le(s[0], x);
      forall j | 0 < j < |r| ensures le(r[0], r[j]) {
        assert r[j] in multiset(t);
        assert r[j] == x || r[j] in multiset(s[1..]);
        if r[j] != x {
          var k :| 0 <= k < |s[1..]| && s[1..][k] == r[j];
          assert s[k + 1] == r[j];
        }
      }
    }
  }

  /** The result of SortBy is ordered. */
  lemma {:induction false} SortBySorted<T(!new)>(s: seq<T>, le: (T, T) -> bool)
    requires TotalPreorder(le)
    ensures SortedBy(SortBy(s, le), le)
  {
    if s != [] {
      SortBySorted(s[1..], le);
      InsertSorted(s[0], SortBy(s[1..], le), le);
    }
  }

  /** Elements of `s` equivalent to `v` under `le`, in their order. */
  function EquivalentTo<T>(s: seq<T>, le: (T, T) -> bool, v: T): (r: seq<T>)
    ensures |r| <= |s|
  {
    if s == [] then []
    else if le(s[0], v) && le(v, s[0]) then [s[0]] + EquivalentTo(s[1..], le, v)
    else EquivalentTo(s[1..], le, v)
  }

  lemma {:induction false} InsertStable<T(!new)>(x: T, s: seq<T>, le: (T, T) -> bool, v: T)
    requires TotalPreorder(le)
    ensures EquivalentTo(Insert(x, s, le), le, v)
         == if le(x, v) && le(v, x) then [x] + EquivalentTo(s, le, v) else EquivalentTo(s, le, v)
  {
    if s != [] && !le(x, s[0]) {
      InsertStable(x, s[1..], le, v);
      assert Insert(x, s, le) == [s[0]] + Insert(x, s[1..], le);
      assert Insert(x, s, le)[1..] == Insert(x, s[1..], le);
      if le(x, v) && le(v, x) {
        // s[0] is strictly below x, so it is not equivalent to v
        assert !(le(s[0], v) && le(v, s[0]));
      }
    } else if s != [] {
      assert Insert(x, s, le) == [x] + s;
      assert ([x] + s)[1..] == s;
    }
  }

  /** Stability: the elements with equal keys keep their relative order. */
  lemma {:induction false} SortByStable<T(!new)>(s: seq<T>, le: (T, T) -> bool, v: T)
    requires TotalPreorder(le)
    ensures EquivalentTo(SortBy(s, le), le, v) == EquivalentTo(s, le, v)
  {
    if s != [] {
      SortByStable(s[1..], le, v);
      InsertStable(s[0], SortBy(s[1..], le), le, v);
    }
  }

  // ---------------------------------------------------------------- consecutive runs

  function Flatten<T>(groups: seq<seq<T>>): seq<T> {
    if groups == [] then [] else Flatten(groups[..|groups| - 1]) + Last(groups)
  }

  /** The groups built by a loop that keeps the current group and appends the
      next element to it when `near(previous, next)`, otherwise closes the group
      and starts a new one. */
  function Runs<T>(s: seq<T>, near: (T, T) -> bool): (r: seq<seq<T>>)
    ensures |r| <= |s|
    ensures (|r| == 0) == (|s| == 0)
    ensures forall k :: 0 <= k < |r| ==> r[k] != []
    ensures |s| > 0 ==> Last(Last(r)) == Last(s)
  {
    if |s| == 0 then []
    else if |s| == 1 then [s]
    else
      var r := Runs(s[..|s| - 1], near);
      if near(s[|s| - 2], s[|s| - 1]) then r[..|r| - 1] + [Last(r) + [Last(s)]]
      else r + [[Last(s)]]
  }

  lemma {:induction false} FlattenSnoc<T>(groups: seq<seq<T>>, g: seq<T>)
    ensures Flatten(groups + [g]) == Flatten(groups) + g
  {
    assert (groups + [g])[..|groups|] == groups;
  }

  /** The groups, concatenated, are the input: nothing is lost, duplicated or reordered. */
  lemma {:induction false} RunsFlatten<T>(s: seq<T>, near: (T, T) -> bool)
    ensures Flatten(Runs(s, near)) == s
  {
    if |s| == 1 {
      assert Flatten([s]) == Flatten([s][..0]) + s;
    } else if |s| > 1 {
      RunsFlatten(s[..|s| - 1], near);
      RunsFlattenStep(s, near);
      ButLastSnoc(s);
    }
  }

  /** Adding an element adds it at the end of the concatenated groups, whether it joins the last group or not. */
  lemma RunsFlattenStep<T>(s: seq<T>, near: (T, T) -> bool)
    requires |s| > 1
    ensures Flatten(Runs(s, near)) == Flatten(Runs(s[..|s| - 1], near)) + [Last(s)]
  {
    var r := Runs(s[..|s| - 1], near);
    if near(s[|s| - 2], s[|s| - 1]) {
      var init := r[..|r| - 1];
      assert r == init + [Last(r)];
      FlattenExtendLast(init, Last(r), Last(s));
    } else {
      FlattenSnoc(r, [Last(s)]);
    }
  }

  lemma FlattenExtendLast<T>(init: seq<seq<T>>, g: seq<T>, x: T)
    ensures Flatten(init + [g + [x]]) == Flatten(init + [g]) + [x]
  {
    FlattenSnoc(init, g + [x]);
    FlattenSnoc(init, g);
    ConcatAssoc(Flatten(init), g, [x]);
  }

  /** One step of the grouping loop: an element near its predecessor joins the last group. */
  lemma RunsJoin<T>(s: seq<T>, i: nat, near: (T, T) -> bool)
    requires 1 <= i < |s| && near(s[i - 1], s[i])
    ensures var r := Runs(s[..i], near);
            Runs(s[..i + 1], near) == r[..|r| - 1] + [Last(r) + [s[i]]]
  {
    var p := s[..i + 1];
    assert p[..|p| - 1] == s[..i];
    assert p[|p| - 2] == s[i - 1] && p[|p| - 1] == s[i];
  }

  /** One step of the grouping loop: an element far from its predecessor opens a new group. */
  lemma RunsBreak<T>(s: seq<T>, i: nat, near: (T, T) -> bool)
    requires 1 <= i < |s| && !near(s[i - 1], s[i])
    ensures Runs(s[..i + 1], near) == Runs(s[..i], near) + [[s[i]]]
  {
    var p := s[..i + 1];
    assert p[..|p| - 1] == s[..i];
    assert p[|p| - 2] == s[i - 1] && p[|p| - 1] == s[i];
  }

  /** Inside a group every element is near its predecessor. */
  predicate Cohesive<T>(groups: seq<seq<T>>, near: (T, T) -> bool) {
    forall k, i :: 0 <= k < |groups| && 0 < i < |groups[k]| ==> near(groups[k][i - 1], groups[k][i])
  }

  /** A group starts exactly where an element is not near its predecessor. */
  predicate Separated<T>(groups: seq<seq<T>>, near: (T, T) -> bool)
    requires forall k :: 0 <= k < |groups| ==> groups[k] != []
  {
    forall k :: 0 < k < |groups| ==> !near(Last(groups[k - 1]), groups[k][0])
  }

  lemma {:induction false} RunsCohesiveSeparated<T>(s: seq<T>, near: (T, T) -> bool)
    ensures Cohesive(Runs(s, near), near)
    ensures Separated(Runs(s, near), near)
  {
    if |s| > 1 {
      var p := s[..|s| - 1];
      var r := Runs(p, near);
      RunsCohesiveSeparated(p, near);
      var out := Runs(s, near);
      assert Last(Last(r)) == s[|s| - 2];
      if near(s[|s| - 2], s[|s| - 1]) {
        assert out == r[..|r| - 1] + [Last(r) + [Last(s)]];
        forall k, i | 0 <= k < |out| && 0 < i < |out[k]| ensures near(out[k][i - 1], out[k][i]) {
          if k < |r| - 1 { assert out[k] == r[k]; }
          else if i < |Last(r)| { assert out[k][i - 1] == Last(r)[i - 1] && out[k][i] == Last(r)[i]; }
        }
        forall k | 0 < k < |out| ensures !near(Last(out[k - 1]), out[k][0]) {
          assert out[k - 1] == r[k - 1];
          assert out[k][0] == r[k][0];
        }
      } else {
        assert out == r + [[Last(s)]];
        forall k | 0 < k < |out| ensures !near(Last(out[k - 1]), out[k][0]) {
          if k < |r| { assert out[k - 1] == r[k - 1] && out[k] == r[k]; }
        }
      }
    }
  }

  // ---------------------------------------------------------------- de-duplication

  predicate NoDuplicates<T(==)>(s: seq<T>) {
    forall i, j :: 0 <= i < j < |s| ==> s[i] != s[j]
  }

  /** The position of the first occurrence of x. */
  function FirstIndex<T(==)>(s: seq<T>, x: T): (r: nat)
    requires x in s
    ensures r < |s| && s[r] == x && x !in s[..r]
  {
    var init := s[..|s| - 1];
    assert s == init + [Last(s)];
    if x in init then
      var i := FirstIndex(init, x);
      assert s[..i] == init[..i];
      i
    else |s| - 1
  }

  /** The loop `if v not in out: out.append(v)` over s. */
  function Dedup<T(==,!new)>(s: seq<T>): (r: seq<T>)
    ensures forall x :: x in r <==> x in s
  {
    if s == [] then []
    else
      var init := s[..|s| - 1];
      assert s == init + [Last(s)];
      var d := Dedup(init);
      if Last(s) in d then d else d + [Last(s)]
  }

  /** The de-duplicated values are distinct and in the order of their first
      occurrence. */
  lemma {:induction false} DedupFacts<T(!new)>(s: seq<T>)
    ensures NoDuplicates(Dedup(s))
    ensures forall k, l :: 0 <= k < l < |Dedup(s)| ==> FirstIndex(s, Dedup(s)[k]) < FirstIndex(s, Dedup(s)[l])
  {
    if s != [] {
      var init := s[..|s| - 1];
      DedupFacts(init);
      var d := Dedup(init);
      assert s == init + [Last(s)];
      forall x | x in init ensures FirstIndex(s, x) == FirstIndex(init, x) {
      }
      if Last(s) !in d {
        var r := d + [Last(s)];
        assert Last(s) !in init;
        assert FirstIndex(s, Last(s)) == |s| - 1;
        forall k | 0 <= k < |d| ensures FirstIndex(s, r[k]) < FirstIndex(s, Last(s)) {
          assert r[k] == d[k] && d[k] in init;
        }
      }
    }
  }
}
