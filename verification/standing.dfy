/**
 * A team's standing, derived from its problem records: the number of solved
 * problems, the penalty time, and the solve times latest-first. The source
 * caches these values behind a validity flag; here they are a pure function
 * of the records, which is what the cache always holds when it is read.
 */
module Standing {
  import opened Problem

  /** Minutes of penalty per wrong attempt on a solved problem. */
  const PenaltyPerWrong: int := 20

  datatype Aggregate = Aggregate(solved: nat, penalty: int, times: seq<int>)

  /** The standing of a team with nothing solved. */
  const Zero: Aggregate := Aggregate(0, 0, [])

  ghost predicate Descending(s: seq<int>) {
    forall i, j :: 0 <= i < j < |s| ==> s[i] >= s[j]
  }

  /** Puts `x` into a descending list at its place. */
  function InsertDescending(x: int, s: seq<int>): (r: seq<int>)
    ensures |r| == |s| + 1
  {
    if s == [] || s[0] <= x then [x] + s
    else [s[0]] + InsertDescending(x, s[1..])
  }

  /** Sorts a list latest-first, as `sort(rbegin, rend)` does. */
  function SortDescending(s: seq<int>): (r: seq<int>)
    ensures |r| == |s|
  {
    if s == [] then [] else InsertDescending(s[0], SortDescending(s[1..]))
  }

  /** Insertion keeps a descending list descending. */
  lemma {:induction false} InsertDescendingSorts(x: int, s: seq<int>)
    requires Descending(s)
    ensures Descending(InsertDescending(x, s))
    decreases |s|
  {
    var r := InsertDescending(x, s);
    if s == [] || s[0] <= x {
      forall i, j | 0 <= i < j < |r| ensures r[i] >= r[j] {
        if i == 0 {
          assert r[j] == s[j - 1] && s[0] >= s[j - 1];
        } else {
          assert r[i] == s[i - 1] && r[j] == s[j - 1];
        }
      }
    } else {
      var rest := InsertDescending(x, s[1..]);
      InsertDescendingSorts(x, s[1..]);
      // The old head stays on top: the rest starts with x or with s[1].
      assert rest[0] == x || rest[0] == s[1];
      forall i, j | 0 <= i < j < |r| ensures r[i] >= r[j] {
        if i == 0 {
          assert r[j] == rest[j - 1] && rest[0] >= rest[j - 1];
        } else {
          assert r[i] == rest[i - 1] && r[j] == rest[j - 1];
        }
      }
    }
  }

  /** Insertion adds exactly `x`. */
  lemma {:induction false} InsertDescendingAdds(x: int, s: seq<int>)
    ensures multiset(InsertDescending(x, s)) == multiset(s) + multiset{x}
    decreases |s|
  {
    if s != [] && s[0] > x {
      InsertDescendingAdds(x, s[1..]);
      assert s == [s[0]] + s[1..];
    }
  }

  /** The sort yields a descending permutation of its input. */
  lemma {:induction false} SortDescendingSorts(s: seq<int>)
    ensures Descending(SortDescending(s))
    ensures multiset(SortDescending(s)) == multiset(s)
    decreases |s|
  {
    if s != [] {
      SortDescendingSorts(s[1..]);
      InsertDescendingSorts(s[0], SortDescending(s[1..]));
      InsertDescendingAdds(s[0], SortDescending(s[1..]));
      assert s == [s[0]] + s[1..];
    }
  }

  /**
   * The accumulating pass over the problems in letter order: counts a solved
   * problem, adds its solve time plus the penalty per wrong attempt, and
   * collects its solve time; unsolved problems are skipped.
   */
  function Tally(ps: seq<ProblemStatus>): (a: Aggregate)
    ensures |a.times| == a.solved
    decreases |ps|
  {
    if ps == [] then Zero
    else
      var a := Tally(ps[..|ps| - 1]);
      var p := ps[|ps| - 1];
      if p.solved then
        Aggregate(a.solved + 1, a.penalty + p.solveTime + PenaltyPerWrong * p.wrongAttempts,
                  a.times + [p.solveTime])
      else a
  }

  /** The team's standing: the tally with its solve times sorted latest-first. */
  function Summarize(ps: seq<ProblemStatus>): (a: Aggregate)
    ensures |a.times| == a.solved
  {
    var t := Tally(ps);
    t.(times := SortDescending(t.times))
  }

  /**
   * The solve times of a standing are latest-first and are exactly the
   * solve times the tally collected.
   */
  lemma SummarizeDescending(ps: seq<ProblemStatus>)
    ensures Descending(Summarize(ps).times)
    ensures multiset(Summarize(ps).times) == multiset(Tally(ps).times)
  {
    SortDescendingSorts(Tally(ps).times);
  }

  /** What a problem brings to the standing: its solve time and wrong attempts, if solved. */
  datatype Credit = Unsolved | Solved(time: int, wrong: nat)

  /** What a problem contributes to the standing: nothing unless it is solved. */
  function Contribution(p: ProblemStatus): Credit
  {
    if p.solved then Solved(p.solveTime, p.wrongAttempts) else Unsolved
  }

  ghost function SolvedSet(ps: seq<ProblemStatus>): set<nat> {
    set j: nat | j < |ps| && ps[j].solved
  }

  /** The solved count is the number of solved problems. */
  lemma {:induction false} SolvedCountIsSolvedProblems(ps: seq<ProblemStatus>)
    ensures Summarize(ps).solved == |SolvedSet(ps)|
    decreases |ps|
  {
    if ps != [] {
      var init := ps[..|ps| - 1];
      SolvedCountIsSolvedProblems(init);
      assert Summarize(ps).solved == Tally(ps).solved;
      assert Summarize(init).solved == Tally(init).solved;
      var last: nat := |ps| - 1;
      if ps[last].solved {
        assert SolvedSet(ps) == SolvedSet(init) + {last};
      } else {
        assert SolvedSet(ps) == SolvedSet(init);
      }
    }
  }

  /** The solved problems whose solve time is `t`. */
  ghost function SolvedAt(ps: seq<ProblemStatus>, t: int): set<nat> {
    set j: nat | j < |ps| && ps[j].solved && ps[j].solveTime == t
  }

  lemma {:induction false} TallyTimesAreSolveTimes(ps: seq<ProblemStatus>, t: int)
    ensures multiset(Tally(ps).times)[t] == |SolvedAt(ps, t)|
    decreases |ps|
  {
    if ps != [] {
      var init := ps[..|ps| - 1];
      var last: nat := |ps| - 1;
      TallyTimesAreSolveTimes(init, t);
      if ps[last].solved && ps[last].solveTime == t {
        assert SolvedAt(ps, t) == SolvedAt(init, t) + {last};
      } else {
        assert SolvedAt(ps, t) == SolvedAt(init, t);
      }
    }
  }

  /**
   * A team's solve times are those of its solved problems: each time occurs
   * once per solved problem solved at that time.
   */
  lemma SolveTimesAreSolvedProblems(ps: seq<ProblemStatus>, t: int)
    ensures multiset(Summarize(ps).times)[t] == |SolvedAt(ps, t)|
  {
    SummarizeDescending(ps);
    TallyTimesAreSolveTimes(ps, t);
  }

  /** Nothing solved, nothing counted: the standing is zero. */
  lemma {:induction false} NothingSolvedIsZero(ps: seq<ProblemStatus>)
    requires forall j :: 0 <= j < |ps| ==> !ps[j].solved
    ensures Summarize(ps) == Zero
    decreases |ps|
  {
    if ps != [] {
      NothingSolvedIsZero(ps[..|ps| - 1]);
    }
  }

  lemma {:induction false} TallyFrame(ps: seq<ProblemStatus>, qs: seq<ProblemStatus>)
    requires |ps| == |qs|
    requires forall j :: 0 <= j < |ps| ==> Contribution(ps[j]) == Contribution(qs[j])
    ensures Tally(ps) == Tally(qs)
    decreases |ps|
  {
    if ps != [] {
      TallyFrame(ps[..|ps| - 1], qs[..|qs| - 1]);
      assert Contribution(ps[|ps| - 1]) == Contribution(qs[|qs| - 1]);
    }
  }

  /**
   * The standing depends only on the solved problems: wrong attempts and
   * queued submissions on unsolved problems change nothing.
   */
  lemma SummarizeFrame(ps: seq<ProblemStatus>, qs: seq<ProblemStatus>)
    requires |ps| == |qs|
    requires forall j :: 0 <= j < |ps| ==> Contribution(ps[j]) == Contribution(qs[j])
    ensures Summarize(ps) == Summarize(qs)
  {
    TallyFrame(ps, qs);
  }

  lemma {:induction false} TallyOnSolve(ps: seq<ProblemStatus>, j: nat, q: ProblemStatus)
    requires j < |ps| && !ps[j].solved && q.solved
    ensures Tally(ps[j := q]).solved == Tally(ps).solved + 1
    ensures Tally(ps[j := q]).penalty ==
            Tally(ps).penalty + q.solveTime + PenaltyPerWrong * q.wrongAttempts
    ensures multiset(Tally(ps[j := q]).times) == multiset(Tally(ps).times) + multiset{q.solveTime}
    decreases |ps|
  {
    var n := |ps| - 1;
    var qs := ps[j := q];
    assert qs[..n] == if j == n then ps[..n] else ps[..n][j := q];
    if j < n {
      TallyOnSolve(ps[..n], j, q);
      if ps[n].solved {
        var a, b := Tally(ps[..n]), Tally(qs[..n]);
        assert Tally(ps).times == a.times + [ps[n].solveTime];
        assert Tally(qs).times == b.times + [ps[n].solveTime];
      }
    }
  }

  /**
   * A newly solved problem raises the solved count by exactly one, adds its
   * solve time plus 20 minutes per wrong attempt to the penalty, and adds its
   * solve time to the list of solve times.
   */
  lemma SummarizeOnSolve(ps: seq<ProblemStatus>, j: nat, q: ProblemStatus)
    requires j < |ps| && !ps[j].solved && q.solved
    ensures Summarize(ps[j := q]).solved == Summarize(ps).solved + 1
    ensures Summarize(ps[j := q]).penalty ==
            Summarize(ps).penalty + q.solveTime + PenaltyPerWrong * q.wrongAttempts
    ensures multiset(Summarize(ps[j := q]).times) == multiset(Summarize(ps).times) + multiset{q.solveTime}
  {
    TallyOnSolve(ps, j, q);
    SummarizeDescending(ps);
    SummarizeDescending(ps[j := q]);
  }
}
