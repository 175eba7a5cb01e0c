/**
 * The ranking order between teams and the facts about ranking lists that the
 * engine relies on: the comparator is a strict total order on distinct team
 * names, sorted lists are unique, and the two ways the engine reshapes a
 * sorted list (inserting one name, moving one improved team upward) keep it
 * sorted.
 */
module Ranking {
  import opened Problem
  import opened Standing

  /** Every team by name, with its problem records in letter order. */
  type Teams = map<string, seq<ProblemStatus>>

  /**
   * Ordering of team names as `std::string::operator<`: lexicographic by
   * character code, a proper prefix before any of its extensions.
   */
  function StrLess(a: string, b: string): bool
    decreases |a|
  {
    if a == [] then b != []
    else if b == [] then false
    else if a[0] != b[0] then a[0] < b[0]
    else StrLess(a[1..], b[1..])
  }

  lemma {:induction false} StrLessIrreflexive(a: string)
    ensures !StrLess(a, a)
    decreases |a|
  {
    if a != [] {
      StrLessIrreflexive(a[1..]);
    }
  }

  lemma {:induction false} StrLessAsymmetric(a: string, b: string)
    requires StrLess(a, b)
    ensures !StrLess(b, a)
    decreases |a|
  {
    if a != [] && b != [] && a[0] == b[0] {
      StrLessAsymmetric(a[1..], b[1..]);
    }
  }

  lemma {:induction false} StrLessTransitive(a: string, b: string, c: string)
    requires StrLess(a, b) && StrLess(b, c)
    ensures StrLess(a, c)
    decreases |a|
  {
    if a != [] && a[0] == b[0] && b[0] == c[0] {
      StrLessTransitive(a[1..], b[1..], c[1..]);
    }
  }

  lemma {:induction false} StrLessTotal(a: string, b: string)
    requires a != b
    ensures StrLess(a, b) || StrLess(b, a)
    decreases |a|
  {
    if a != [] && b != [] && a[0] == b[0] {
      assert a == [a[0]] + a[1..] && b == [b[0]] + b[1..];
      StrLessTotal(a[1..], b[1..]);
    }
  }

  /** Outcome of the positional comparison of two solve-time lists. */
  datatype Order = Before | Tie | After {
    function Flip(): Order {
      match this
      case Before => After
      case Tie => Tie
      case After => Before
    }
  }

  /**
   * Compares two solve-time lists position by position over the shorter
   * length: the first position where they differ decides, the smaller time
   * coming first.
   */
  function CompareTimes(t1: seq<int>, t2: seq<int>): Order
    decreases |t1|
  {
    if t1 == [] || t2 == [] then Tie
    else if t1[0] != t2[0] then (if t1[0] < t2[0] then Before else After)
    else CompareTimes(t1[1..], t2[1..])
  }

  lemma {:induction false} CompareTimesFlip(t1: seq<int>, t2: seq<int>)
    ensures CompareTimes(t2, t1) == CompareTimes(t1, t2).Flip()
    decreases |t1|
  {
    if t1 != [] && t2 != [] && t1[0] == t2[0] {
      CompareTimesFlip(t1[1..], t2[1..]);
    }
  }

  /** Two lists of the same length that tie are equal. */
  lemma {:induction false} CompareTimesTie(t1: seq<int>, t2: seq<int>)
    requires |t1| == |t2| && CompareTimes(t1, t2) == Tie
    ensures t1 == t2
    decreases |t1|
  {
    if t1 != [] {
      CompareTimesTie(t1[1..], t2[1..]);
      assert t1 == [t1[0]] + t1[1..] && t2 == [t2[0]] + t2[1..];
    }
  }

  lemma {:induction false} CompareTimesTransitive(t1: seq<int>, t2: seq<int>, t3: seq<int>)
    requires |t1| == |t2| == |t3|
    requires CompareTimes(t1, t2) == Before && CompareTimes(t2, t3) == Before
    ensures CompareTimes(t1, t3) == Before
    decreases |t1|
  {
    if t1[0] == t2[0] && t2[0] == t3[0] {
      CompareTimesTransitive(t1[1..], t2[1..], t3[1..]);
    }
  }

  /**
   * `compareTeams`: does the first team rank above the second? More solved
   * problems first, then less penalty, then the first differing solve time
   * (smaller first), then the name.
   */
  function Beats(n1: string, a1: Aggregate, n2: string, a2: Aggregate): bool {
    if a1.solved != a2.solved then a1.solved > a2.solved
    else if a1.penalty != a2.penalty then a1.penalty < a2.penalty
    else match CompareTimes(a1.times, a2.times)
      case Before => true
      case After => false
      case Tie => StrLess(n1, n2)
  }

  /** No team ranks above itself. */
  lemma BeatsIrreflexive(n: string, a: Aggregate)
    ensures !Beats(n, a, n, a)
  {
    CompareTimesFlip(a.times, a.times);
    StrLessIrreflexive(n);
  }

  /** Of two teams, at most one ranks above the other. */
  lemma BeatsAsymmetric(n1: string, a1: Aggregate, n2: string, a2: Aggregate)
    requires Beats(n1, a1, n2, a2)
    ensures !Beats(n2, a2, n1, a1)
  {
    CompareTimesFlip(a1.times, a2.times);
    if a1.solved == a2.solved && a1.penalty == a2.penalty && CompareTimes(a1.times, a2.times) == Tie {
      StrLessAsymmetric(n1, n2);
    }
  }

  /** The comparator is transitive on standings whose time lists match their solved counts. */
  lemma BeatsTransitive(n1: string, a1: Aggregate, n2: string, a2: Aggregate, n3: string, a3: Aggregate)
    requires |a1.times| == a1.solved && |a2.times| == a2.solved && |a3.times| == a3.solved
    requires Beats(n1, a1, n2, a2) && Beats(n2, a2, n3, a3)
    ensures Beats(n1, a1, n3, a3)
  {
    if a1.solved == a2.solved == a3.solved && a1.penalty == a2.penalty == a3.penalty {
      var c12, c23 := CompareTimes(a1.times, a2.times), CompareTimes(a2.times, a3.times);
      if c12 == Tie {
        CompareTimesTie(a1.times, a2.times);
        if c23 == Tie {
          CompareTimesTie(a2.times, a3.times);
          StrLessTransitive(n1, n2, n3);
        }
      } else if c23 == Tie {
        CompareTimesTie(a2.times, a3.times);
      } else {
        CompareTimesTransitive(a1.times, a2.times, a3.times);
      }
    }
  }

  /** Of two teams with different names, one ranks above the other. */
  lemma BeatsTotal(n1: string, a1: Aggregate, n2: string, a2: Aggregate)
    requires n1 != n2
    ensures Beats(n1, a1, n2, a2) || Beats(n2, a2, n1, a1)
  {
    CompareTimesFlip(a1.times, a2.times);
    StrLessTotal(n1, n2);
  }

  /** `compareTeams` on two registered teams, with their current standings. */
  predicate Better(teams: Teams, x: string, y: string) {
    x in teams && y in teams && Beats(x, Summarize(teams[x]), y, Summarize(teams[y]))
  }

  lemma BetterTransitive(teams: Teams, x: string, y: string, z: string)
    requires Better(teams, x, y) && Better(teams, y, z)
    ensures Better(teams, x, z)
  {
    BeatsTransitive(x, Summarize(teams[x]), y, Summarize(teams[y]), z, Summarize(teams[z]));
  }

  lemma BetterTotal(teams: Teams, x: string, y: string)
    requires x in teams && y in teams && x != y
    ensures Better(teams, x, y) || Better(teams, y, x)
  {
    BeatsTotal(x, Summarize(teams[x]), y, Summarize(teams[y]));
  }

  lemma BetterAsymmetric(teams: Teams, x: string, y: string)
    requires Better(teams, x, y)
    ensures !Better(teams, y, x)
  {
    BeatsAsymmetric(x, Summarize(teams[x]), y, Summarize(teams[y]));
  }

  ghost predicate Sorted(r: seq<string>, teams: Teams) {
    forall i, j {:trigger Better(teams, r[i], r[j])} :: 0 <= i < j < |r| ==> Better(teams, r[i], r[j])
  }

  ghost predicate Distinct(r: seq<string>) {
    forall i, j :: 0 <= i < j < |r| ==> r[i] != r[j]
  }

  /** `r` lists every name of `names` exactly once. */
  ghost predicate IsPermutationOf(r: seq<string>, names: set<string>) {
    Distinct(r) && forall x :: x in r <==> x in names
  }

  /** A sorted ranking names no team twice. */
  lemma SortedDistinct(r: seq<string>, teams: Teams)
    requires Sorted(r, teams)
    ensures Distinct(r)
  {
    forall i, j | 0 <= i < j < |r| ensures r[i] != r[j] {
      assert Better(teams, r[i], r[j]);
      if r[i] == r[j] {
        BeatsIrreflexive(r[i], Summarize(teams[r[i]]));
      }
    }
  }

  /**
   * A ranking in which every adjacent pair is in comparator order is sorted:
   * the adjacent check that the source's sort guarantees is enough.
   */
  lemma {:induction false} AdjacentSorted(r: seq<string>, teams: Teams)
    requires forall i :: 0 <= i < |r| - 1 ==> Better(teams, r[i], r[i + 1])
    ensures Sorted(r, teams)
    decreases |r|
  {
    if |r| > 1 {
      var tail := r[1..];
      AdjacentSorted(tail, teams);
      forall i, j | 0 <= i < j < |r| ensures Better(teams, r[i], r[j]) {
        if i == 0 && j > 1 {
          assert Better(teams, tail[0], tail[j - 1]);
          BetterTransitive(teams, r[0], r[1], r[j]);
        } else if i > 0 {
          assert Better(teams, tail[i - 1], tail[j - 1]);
        }
      }
    }
  }

  /**
   * Two sorted rankings of the same teams are the same list: the result of
   * sorting does not depend on the order the names were collected in.
   */
  lemma {:induction false} SortedUnique(r1: seq<string>, r2: seq<string>, teams: Teams)
    requires Sorted(r1, teams) && Sorted(r2, teams)
    requires forall x :: x in r1 <==> x in r2
    ensures r1 == r2
    decreases |r1|
  {
    SortedDistinct(r1, teams);
    SortedDistinct(r2, teams);
    if r1 != [] { assert r1[0] in r2; }
    if r2 != [] { assert r2[0] in r1; }
    if r1 != [] && r2 != [] {
      {
        if r1[0] != r2[0] {
          assert r2[0] in r1;
          var i :| 0 <= i < |r1| && r1[i] == r2[0];
          assert r1[0] in r2;
          var j :| 0 <= j < |r2| && r2[j] == r1[0];
          assert Better(teams, r1[0], r1[i]);
          assert Better(teams, r2[0], r2[j]);
          BetterAsymmetric(teams, r1[0], r2[0]);
          assert false;
        }
        var t1, t2 := r1[1..], r2[1..];
        forall x ensures x in t1 <==> x in t2 {
          if x in t1 {
            var k :| 0 <= k < |t1| && t1[k] == x;
            assert r1[k + 1] == x && x != r1[0];
            assert x in r2;
          }
          if x in t2 {
            var k :| 0 <= k < |t2| && t2[k] == x;
            assert r2[k + 1] == x && x != r2[0];
            assert x in r1;
          }
        }
        assert Sorted(t1, teams) by {
          forall i, j | 0 <= i < j < |t1| ensures Better(teams, t1[i], t1[j]) {
            assert t1[i] == r1[i + 1] && t1[j] == r1[j + 1];
          }
        }
        assert Sorted(t2, teams) by {
          forall i, j | 0 <= i < j < |t2| ensures Better(teams, t2[i], t2[j]) {
            assert t2[i] == r2[i + 1] && t2[j] == r2[j + 1];
          }
        }
        SortedUnique(t1, t2, teams);
        assert r1 == [r1[0]] + t1 && r2 == [r2[0]] + t2;
      }
    }
  }

  /**
   * `ranking.erase(from)` followed by `ranking.insert(to, ranking[from])`:
   * the team at `from` moves up to `to` and the teams in between shift down
   * by one place.
   */
  function Relocate(r: seq<string>, from: nat, to: nat): (r': seq<string>)
    requires to <= from < |r|
    ensures |r'| == |r|
    ensures r'[to] == r[from]
    ensures forall k :: 0 <= k < to ==> r'[k] == r[k]
    ensures forall k :: to < k <= from ==> r'[k] == r[k - 1]
    ensures forall k :: from < k < |r| ==> r'[k] == r[k]
  {
    var erased := r[..from] + r[from + 1..];
    erased[..to] + [r[from]] + erased[to..]
  }

  /** Moving a team keeps the ranking a permutation of the same names. */
  lemma RelocatePermutation(r: seq<string>, from: nat, to: nat, names: set<string>)
    requires to <= from < |r|
    requires IsPermutationOf(r, names)
    ensures IsPermutationOf(Relocate(r, from, to), names)
  {
    var r' := Relocate(r, from, to);
    // Position k of the moved list holds the name at Source(k) of the original.
    forall k | 0 <= k < |r'| ensures r'[k] == r[Source(k, from, to)] {
    }
    forall i, j | 0 <= i < j < |r'| ensures r'[i] != r'[j] {
      assert Source(i, from, to) != Source(j, from, to);
    }
    forall x ensures x in r' <==> x in r {
      if x in r {
        var k :| 0 <= k < |r| && r[k] == x;
        var k' := if k == from then to else if to <= k < from then k + 1 else k;
        assert r'[k'] == x;
      }
    }
  }

  /** The original position of the name at position `k` after `Relocate(r, from, to)`. */
  function Source(k: nat, from: nat, to: nat): nat
    requires to <= from
  {
    if k == to then from else if to < k <= from then k - 1 else k
  }

  /** Sortedness depends only on the standings of the listed teams. */
  lemma SortedFrame(r: seq<string>, before: Teams, after: Teams)
    requires Sorted(r, before)
    requires forall x :: x in r ==> x in before && x in after && Summarize(after[x]) == Summarize(before[x])
    ensures Sorted(r, after)
  {
    forall i, j | 0 <= i < j < |r| ensures Better(after, r[i], r[j]) {
      assert Better(before, r[i], r[j]);
    }
  }

  /** Between two teams whose records did not change, the order did not change. */
  lemma BetterUnchanged(before: Teams, after: Teams, x: string, y: string)
    requires x in before && y in before && x in after && y in after
    requires after[x] == before[x] && after[y] == before[y]
    ensures Better(after, x, y) == Better(before, x, y)
  {
  }

  /** A team that gained a solved problem still beats every team it beat. */
  lemma BetterImproved(before: Teams, after: Teams, t: string, u: string)
    requires Better(before, t, u)
    requires t in after && u in after && after[u] == before[u]
    requires Summarize(after[t]).solved > Summarize(before[t]).solved
    ensures Better(after, t, u)
  {
  }

  /**
   * One reveal step of the unfreeze: the team at `from` has gained a solved
   * problem, and it is moved up to `to`, the first place (going upward) where
   * it does not beat the team above. The list stays sorted.
   */
  lemma MoveUpKeepsSorted(r: seq<string>, before: Teams, after: Teams, from: nat, to: nat)
    requires to <= from < |r|
    requires Distinct(r) && forall x :: x in r ==> x in before
    requires Sorted(r, before)
    requires after.Keys == before.Keys
    requires forall n :: n in before && n != r[from] ==> after[n] == before[n]
    requires Summarize(after[r[from]]).solved > Summarize(before[r[from]]).solved
    requires forall k :: to <= k < from ==> Better(after, r[from], r[k])
    requires to == 0 || !Better(after, r[from], r[to - 1])
    ensures Sorted(Relocate(r, from, to), after)
  {
    var t := r[from];
    var r' := Relocate(r, from, to);
    if to > 0 {
      BetterTotal(after, t, r[to - 1]);
    }
    forall i, j | 0 <= i < j < |r'| ensures Better(after, r'[i], r'[j]) {
      var si, sj := Source(i, from, to), Source(j, from, to);
      assert r'[i] == r[si] && r'[j] == r[sj];
      if i == to {
        if sj > from {
          BetterImproved(before, after, t, r[sj]);
        }
      } else if j == to {
        if i < to - 1 {
          BetterUnchanged(before, after, r[i], r[to - 1]);
          BetterTransitive(after, r[i], r[to - 1], t);
        }
      } else {
        assert si < sj;
        BetterUnchanged(before, after, r[si], r[sj]);
      }
    }
  }

  /**
   * The reveal step in which the improved team stays where it is, because it
   * does not beat the team directly above: the list stays sorted.
   */
  lemma StayKeepsSorted(r: seq<string>, before: Teams, after: Teams, from: nat)
    requires from < |r|
    requires Distinct(r) && forall x :: x in r ==> x in before
    requires Sorted(r, before)
    requires after.Keys == before.Keys
    requires forall n :: n in before && n != r[from] ==> after[n] == before[n]
    requires Summarize(after[r[from]]).solved > Summarize(before[r[from]]).solved
    requires from == 0 || !Better(after, r[from], r[from - 1])
    ensures Sorted(r, after)
  {
    var t := r[from];
    if from > 0 {
      BetterTotal(after, t, r[from - 1]);
    }
    forall i, j | 0 <= i < j < |r| ensures Better(after, r[i], r[j]) {
      if i == from {
        BetterImproved(before, after, t, r[j]);
      } else if j == from {
        if i < from - 1 {
          BetterUnchanged(before, after, r[i], r[from - 1]);
          BetterTransitive(after, r[i], r[from - 1], t);
        }
      } else {
        BetterUnchanged(before, after, r[i], r[j]);
      }
    }
  }

  /** Position `m` of the list with `name` inserted at `k`. */
  lemma InsertedAt(r: seq<string>, k: nat, name: string)
    requires k <= |r|
    ensures var r' := r[..k] + [name] + r[k..];
      |r'| == |r| + 1 &&
      forall m :: 0 <= m < |r'| ==> r'[m] == if m < k then r[m] else if m == k then name else r[m - 1]
  {
  }

  /** `name`, placed before the first team that does not beat it, beats every team after it. */
  lemma BeatsRest(teams: Teams, r: seq<string>, k: nat, name: string)
    requires k <= |r| && name in teams && name !in r
    requires forall x :: x in r ==> x in teams
    requires Sorted(r, teams)
    requires k < |r| ==> !Better(teams, r[k], name)
    ensures forall j :: k <= j < |r| ==> Better(teams, name, r[j])
  {
    if k < |r| {
      assert r[k] in r;
      BetterTotal(teams, r[k], name);
      forall j | k < j < |r| ensures Better(teams, name, r[j]) {
        BetterTransitive(teams, name, r[k], r[j]);
      }
    }
  }

  /** Putting `name` at position `k` of a sorted list, after all that beat it, keeps it sorted. */
  lemma InsertKeepsSorted(teams: Teams, r: seq<string>, k: nat, name: string)
    requires k <= |r| && name in teams && name !in r
    requires forall x :: x in r ==> x in teams
    requires Sorted(r, teams)
    requires forall i :: 0 <= i < k ==> Better(teams, r[i], name)
    requires k < |r| ==> !Better(teams, r[k], name)
    ensures Sorted(r[..k] + [name] + r[k..], teams)
  {
    var r' := r[..k] + [name] + r[k..];
    InsertedAt(r, k, name);
    BeatsRest(teams, r, k, name);
    forall i, j | 0 <= i < j < |r'| ensures Better(teams, r'[i], r'[j]) {
      var si, sj := if i <= k then i else i - 1, if j <= k then j else j - 1;
      if i == k {
        assert r'[j] == r[sj];
      } else if j == k {
        assert r'[i] == r[si];
      } else {
        assert r'[i] == r[si] && r'[j] == r[sj] && si < sj;
      }
    }
  }

  /**
   * Inserts `name` into a sorted ranking after every team that beats it. The
   * result is sorted and holds exactly the old names and `name`.
   */
  method InsertRanked(teams: Teams, r: seq<string>, name: string) returns (r': seq<string>)
    requires name in teams && name !in r
    requires forall x :: x in r ==> x in teams
    requires Sorted(r, teams)
    ensures Sorted(r', teams)
    ensures |r'| == |r| + 1
    ensures forall x :: x in r' <==> x in r || x == name
  {
    var k := 0;
    while k < |r| && Better(teams, r[k], name)
      invariant 0 <= k <= |r|
      invariant forall i :: 0 <= i < k ==> Better(teams, r[i], name)
    {
      k := k + 1;
    }
    InsertKeepsSorted(teams, r, k, name);
    r' := r[..k] + [name] + r[k..];
    assert r == r[..k] + r[k..];
  }
}
