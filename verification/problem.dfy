/**
 * The per-(team, problem) record of the scoreboard: the submissions filed
 * against one problem, the visible verdict they produced, and the queue of
 * submissions held back while the scoreboard is frozen.
 */
module Problem {

  /** The status string that counts as a solve. */
  const Accepted: string := "Accepted"

  /** One submission event, as filed: problem name, judge status, minute. */
  datatype Submission = Submission(problem: string, status: string, time: int)

  /** The visible outcome of a problem: solved?, when, and how many rejections count. */
  datatype Verdict = Verdict(solved: bool, solveTime: int, wrongAttempts: nat)

  /** A problem nobody has submitted to. */
  const Unattempted: Verdict := Verdict(false, 0, 0)

  /**
   * The record kept for one problem of one team. `submissions` is the whole
   * audit trail; `frozenSubs` the submissions still hidden by the freeze, with
   * `frozenSubmissions` their count.
   */
  datatype ProblemStatus = ProblemStatus(
    solved: bool,
    solveTime: int,
    wrongAttempts: nat,
    frozenSubmissions: nat,
    submissions: seq<Submission>,
    frozenSubs: seq<Submission>)

  /** The record every problem starts from when the competition starts. */
  const Blank: ProblemStatus := ProblemStatus(false, 0, 0, 0, [], [])

  function VerdictOf(ps: ProblemStatus): Verdict {
    Verdict(ps.solved, ps.solveTime, ps.wrongAttempts)
  }

  /**
   * Applies one visible submission: a solved problem ignores it, an accepted
   * one solves the problem at its time, anything else is one more wrong attempt.
   */
  function Judge(v: Verdict, s: Submission): Verdict {
    if v.solved then v
    else if s.status == Accepted then Verdict(true, s.time, v.wrongAttempts)
    else Verdict(false, v.solveTime, v.wrongAttempts + 1)
  }

  /** Applies the submissions in arrival order, starting from `v`. */
  function Replay(v: Verdict, subs: seq<Submission>): Verdict
    decreases |subs|
  {
    if subs == [] then v else Judge(Replay(v, subs[..|subs| - 1]), subs[|subs| - 1])
  }

  /** Index of the first accepted submission, or |subs| when there is none. */
  function FirstAccepted(subs: seq<Submission>): (k: nat)
    ensures k <= |subs|
    ensures forall i :: 0 <= i < k ==> subs[i].status != Accepted
    ensures k < |subs| ==> subs[k].status == Accepted
  {
    if subs == [] then 0
    else if subs[0].status == Accepted then 0
    else 1 + FirstAccepted(subs[1..])
  }

  /** Replaying a concatenation is replaying the parts one after the other. */
  lemma {:induction false} ReplayAppend(v: Verdict, a: seq<Submission>, b: seq<Submission>)
    ensures Replay(v, a + b) == Replay(Replay(v, a), b)
    decreases |b|
  {
    if b == [] {
      assert a + b == a;
    } else {
      var b' := b[..|b| - 1];
      assert (a + b)[..|a + b| - 1] == a + b';
      ReplayAppend(v, a, b');
    }
  }

  /** Once solved, no later submission changes the verdict: a solve is never undone. */
  lemma {:induction false} SolvedIsFinal(v: Verdict, subs: seq<Submission>)
    requires v.solved
    ensures Replay(v, subs) == v
    decreases |subs|
  {
    if subs != [] {
      SolvedIsFinal(v, subs[..|subs| - 1]);
    }
  }

  /**
   * Closed form of a problem's verdict: it is solved exactly when some
   * submission was accepted, at the time of the first accepted one, and the
   * wrong attempts are the submissions before that one (all of them if none
   * was accepted).
   */
  lemma {:induction false} ReplayClosedForm(subs: seq<Submission>)
    ensures var k := FirstAccepted(subs);
      Replay(Unattempted, subs) ==
        if k < |subs| then Verdict(true, subs[k].time, k) else Verdict(false, 0, |subs|)
    decreases |subs|
  {
    if subs != [] {
      var init := subs[..|subs| - 1];
      var x := subs[|subs| - 1];
      ReplayClosedForm(init);
      var k := FirstAccepted(subs);
      var k' := FirstAccepted(init);
      assert forall i :: 0 <= i < |init| ==> init[i] == subs[i];
      if k' < |init| {
        assert k == k';
      } else if x.status == Accepted {
        assert k == |init|;
      } else {
        assert k == |subs|;
      }
    }
  }

  /**
   * Submissions already applied to the visible verdict: every submission
   * except the trailing ones still held in the frozen queue.
   */
  function Applied(ps: ProblemStatus): seq<Submission>
    requires |ps.frozenSubs| <= |ps.submissions|
  {
    ps.submissions[..|ps.submissions| - |ps.frozenSubs|]
  }

  /**
   * The invariant of a problem record: the frozen queue is the tail of the
   * audit trail and is counted by `frozenSubmissions`; the visible verdict is
   * the replay of the submissions before it; a queue exists only on an
   * unsolved problem.
   */
  ghost predicate StatusWF(ps: ProblemStatus) {
    && ps.frozenSubmissions == |ps.frozenSubs|
    && |ps.frozenSubs| <= |ps.submissions|
    && ps.submissions == Applied(ps) + ps.frozenSubs
    && VerdictOf(ps) == Replay(Unattempted, Applied(ps))
    && (ps.frozenSubs != [] ==> !ps.solved)
  }

  /**
   * The record once its frozen queue has been revealed: the queue replayed
   * onto the visible verdict, then emptied.
   */
  function Revealed(ps: ProblemStatus): ProblemStatus {
    var v := Replay(VerdictOf(ps), ps.frozenSubs);
    ps.(solved := v.solved, solveTime := v.solveTime, wrongAttempts := v.wrongAttempts,
        frozenSubmissions := 0, frozenSubs := [])
  }

  /** The blank record satisfies the invariant. */
  lemma BlankWF()
    ensures StatusWF(Blank) && Applied(Blank) == []
  {
  }

  /**
   * Revealing a well-formed record keeps it well-formed with nothing left
   * hidden: its verdict is then the replay of the whole audit trail.
   */
  lemma RevealedWF(ps: ProblemStatus)
    requires StatusWF(ps)
    ensures StatusWF(Revealed(ps))
    ensures Applied(Revealed(ps)) == ps.submissions
    ensures VerdictOf(Revealed(ps)) == Replay(Unattempted, ps.submissions)
  {
    var r := Revealed(ps);
    var a := Applied(ps);
    assert Applied(r) == ps.submissions by {
      assert r.submissions[..|r.submissions| - |r.frozenSubs|] == r.submissions;
    }
    calc {
      VerdictOf(r);
      Replay(VerdictOf(ps), ps.frozenSubs);
      Replay(Replay(Unattempted, a), ps.frozenSubs);
      { ReplayAppend(Unattempted, a, ps.frozenSubs); }
      Replay(Unattempted, a + ps.frozenSubs);
      Replay(Unattempted, ps.submissions);
    }
  }

  /**
   * Filing a submission on a well-formed record: when the scoreboard is
   * frozen and the problem unsolved it goes to the tail of the queue and the
   * verdict does not move; otherwise it is judged at once. Either way the
   * record stays well-formed.
   */
  lemma FileKeepsWF(ps: ProblemStatus, s: Submission, frozen: bool)
    requires StatusWF(ps)
    requires !frozen ==> ps.frozenSubs == []
    ensures frozen && !ps.solved ==>
      StatusWF(ps.(submissions := ps.submissions + [s],
                   frozenSubmissions := ps.frozenSubmissions + 1,
                   frozenSubs := ps.frozenSubs + [s]))
    ensures !(frozen && !ps.solved) ==>
      var v := Judge(VerdictOf(ps), s);
      StatusWF(ps.(submissions := ps.submissions + [s],
                   solved := v.solved, solveTime := v.solveTime, wrongAttempts := v.wrongAttempts))
  {
    var a := Applied(ps);
    if frozen && !ps.solved {
      var q := ps.(submissions := ps.submissions + [s],
                   frozenSubmissions := ps.frozenSubmissions + 1,
                   frozenSubs := ps.frozenSubs + [s]);
      assert ps.submissions + [s] == a + (ps.frozenSubs + [s]);
      assert Applied(q) == a;
    } else {
      var v := Judge(VerdictOf(ps), s);
      var q := ps.(submissions := ps.submissions + [s],
                   solved := v.solved, solveTime := v.solveTime, wrongAttempts := v.wrongAttempts);
      assert a == ps.submissions;
      assert Applied(q) == ps.submissions + [s];
      assert (ps.submissions + [s])[..|ps.submissions|] == ps.submissions;
    }
  }
}
