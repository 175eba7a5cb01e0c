/**
 * The scoreboard engine: teams registered before the start, submissions
 * applied or held back by the freeze, the ranking rebuilt on flush, and the
 * unfreeze ("scroll") that reveals held-back results one problem at a time,
 * lowest-ranked team first, moving each team that gains a solve upward.
 * Console messages of the source become returned outcomes and reports.
 */
module Engine {
  import opened Problem
  import opened Standing
  import opened Ranking

  /** Why a directive was refused; a refused directive changes nothing. */
  datatype Failure = CompetitionStarted | DuplicatedTeam | AlreadyFrozen | NotFrozen | TeamNotFound

  datatype Outcome = Pass | Fail(reason: Failure)

  datatype Result<T> = Ok(value: T) | Err(reason: Failure)

  datatype Option<T> = None | Some(value: T)

  /** One line of the unfreeze: `team` passed `overtaken` and now has these totals. */
  datatype RankChange = RankChange(team: string, overtaken: string, solved: nat, penalty: int)

  /** The ranking shown before the reveals, the rank changes in order, and the final ranking. */
  datatype ScrollReport = ScrollReport(frozenView: seq<string>, changes: seq<RankChange>, finalView: seq<string>)

  /** A team's 1-based rank, and whether the scoreboard was frozen when asked. */
  datatype RankReport = RankReport(rank: nat, frozenWarning: bool)

  /** Number of problem letters 'A'..'Z'; also the "none found" value of the scan ('Z' + 1). */
  const Letters: nat := 26

  /** The filter value that matches every problem or every status. */
  const All: string := "ALL"

  /** Offset of a problem's letter from 'A': its index in a team's records. */
  function ProblemIndex(problem: string): int
    requires |problem| > 0
  {
    problem[0] as int - 'A' as int
  }

  ghost predicate TeamWF(ps: seq<ProblemStatus>, problemCount: nat) {
    |ps| == problemCount && forall j :: 0 <= j < |ps| ==> StatusWF(ps[j])
  }

  /** No submission is held back anywhere. */
  ghost predicate NoPending(teams: Teams) {
    forall n, j :: n in teams && 0 <= j < |teams[n]| ==> teams[n][j].frozenSubs == []
  }

  /** The (team, problem) pairs whose frozen queue is not empty. */
  ghost function PendingPairs(teams: Teams): set<(string, int)> {
    set n, j | n in teams && 0 <= j < |teams[n]| && teams[n][j].frozenSubs != [] :: (n, j)
  }

  /** The audit trails of `a` and `b` are the same. */
  ghost predicate SameSubmissions(a: Teams, b: Teams) {
    && a.Keys == b.Keys
    && (forall n :: n in a ==> |a[n]| == |b[n]|)
    && (forall n, j :: n in a && 0 <= j < |a[n]| ==> a[n][j].submissions == b[n][j].submissions)
  }

  /**
   * The engine's invariant: at most 26 problems, none before the start; every
   * record well-formed; the ranking lists every team once; nothing held back
   * unless frozen; before the start the ranking is in comparator order.
   */
  ghost predicate Consistent(teams: Teams, ranking: seq<string>, started: bool, frozen: bool, problemCount: nat) {
    && problemCount <= Letters
    && (!started ==> problemCount == 0)
    && (forall n :: n in teams ==> TeamWF(teams[n], problemCount))
    && IsPermutationOf(ranking, teams.Keys)
    && (!frozen ==> NoPending(teams))
    && (!started ==> Sorted(ranking, teams))
  }

  /**
   * `ranking[rank]` is the team the unfreeze reveals next and `prob` its
   * problem: the lowest-ranked team with a non-empty frozen queue, and its
   * smallest problem letter with one.
   */
  ghost predicate LowestPending(teams: Teams, ranking: seq<string>, rank: int, prob: int) {
    && 0 <= rank < |ranking| && ranking[rank] in teams
    && 0 <= prob < |teams[ranking[rank]]|
    && teams[ranking[rank]][prob].frozenSubs != []
    && (forall j :: 0 <= j < prob ==> teams[ranking[rank]][j].frozenSubs == [])
    && (forall k, j :: rank < k < |ranking| && ranking[k] in teams && 0 <= j < |teams[ranking[k]]| ==>
          teams[ranking[k]][j].frozenSubs == [])
  }

  /** The records once the frozen queue of problem `prob` of `team` has been revealed. */
  ghost function RevealAt(teams: Teams, team: string, prob: int): Teams
    requires team in teams && 0 <= prob < |teams[team]|
  {
    teams[team := teams[team][prob := Revealed(teams[team][prob])]]
  }

  /**
   * Where the upward walk of the team at `from` stops: it beats every team
   * from `to` down to its old place, and not the team just above `to`.
   */
  ghost predicate StopsAt(teams: Teams, r: seq<string>, from: int, to: int) {
    && 0 <= to <= from < |r|
    && (forall k :: to <= k < from ==> Better(teams, r[from], r[k]))
    && (to == 0 || !Better(teams, r[from], r[to - 1]))
  }

  /** Whether a submission passes the problem and status filters of a query. */
  predicate Matches(s: Submission, problem: string, status: string) {
    (problem == All || s.problem == problem) && (status == All || s.status == status)
  }

  /** A team's audit trail: the submissions of each problem in letter order, each in arrival order. */
  function AllSubmissions(ps: seq<ProblemStatus>): seq<Submission>
    decreases |ps|
  {
    if ps == [] then [] else AllSubmissions(ps[..|ps| - 1]) + ps[|ps| - 1].submissions
  }

  /**
   * `all[k]` is the answer of a submission query: it matches, it is strictly
   * later than every matching submission before it and no earlier than every
   * matching submission after it.
   */
  ghost predicate IsLatestMatch(all: seq<Submission>, k: int, problem: string, status: string) {
    && 0 <= k < |all|
    && Matches(all[k], problem, status)
    && (forall j :: 0 <= j < k && Matches(all[j], problem, status) ==> all[j].time < all[k].time)
    && (forall j :: k < j < |all| && Matches(all[j], problem, status) ==> all[j].time <= all[k].time)
  }

  ghost predicate LatestSoFar(seen: seq<Submission>, last: Option<Submission>, at: int, problem: string, status: string) {
    && (last.None? ==> forall k :: 0 <= k < |seen| ==> !Matches(seen[k], problem, status))
    && (last.Some? ==> IsLatestMatch(seen, at, problem, status) && seen[at] == last.value)
  }

  /**
   * One submission more: it becomes the answer when it matches and is
   * strictly later than the current answer (or there is none yet).
   */
  lemma LatestStep(seen: seq<Submission>, last: Option<Submission>, at: int, sub: Submission,
                   problem: string, status: string)
    requires LatestSoFar(seen, last, at, problem, status)
    ensures var take := Matches(sub, problem, status) && (last.None? || sub.time > last.value.time);
      LatestSoFar(seen + [sub], if take then Some(sub) else last, if take then |seen| else at, problem, status)
  {
    var s' := seen + [sub];
    assert forall k :: 0 <= k < |seen| ==> s'[k] == seen[k];
  }

  /** Position of the first occurrence of `x` in `r`, or |r| if it is absent. */
  method IndexOf(r: seq<string>, x: string) returns (i: nat)
    ensures i <= |r|
    ensures i < |r| ==> r[i] == x
    ensures forall k :: 0 <= k < i ==> r[k] != x
  {
    i := 0;
    while i < |r| && r[i] != x
      invariant i <= |r|
      invariant forall k :: 0 <= k < i ==> r[k] != x
    {
      i := i + 1;
    }
  }

  /**
   * The scan of the unfreeze: from the bottom of the ranking upward, the first
   * team with a non-empty frozen queue, and its smallest such problem letter.
   */
  method FindPending(ranking: seq<string>, teams: Teams, problemCount: nat)
    returns (found: bool, rank: nat, prob: nat)
    requires problemCount <= Letters
    requires forall k :: 0 <= k < |ranking| ==> ranking[k] in teams && |teams[ranking[k]]| == problemCount
    ensures found ==> rank < |ranking| && prob < problemCount
    ensures found ==> teams[ranking[rank]][prob].frozenSubmissions > 0
    ensures found ==> forall j :: 0 <= j < prob ==> teams[ranking[rank]][j].frozenSubmissions == 0
    ensures found ==> forall k, j :: rank < k < |ranking| && 0 <= j < problemCount ==>
      teams[ranking[k]][j].frozenSubmissions == 0
    ensures !found ==> forall k, j :: 0 <= k < |ranking| && 0 <= j < problemCount ==>
      teams[ranking[k]][j].frozenSubmissions == 0
  {
    found, rank, prob := false, 0, 0;
    var i := |ranking|;
    while i > 0
      invariant 0 <= i <= |ranking|
      invariant forall k, j :: i <= k < |ranking| && 0 <= j < problemCount ==>
        teams[ranking[k]][j].frozenSubmissions == 0
    {
      i := i - 1;
      var ps := teams[ranking[i]];
      var smallest: nat := Letters;
      var j: nat := 0;
      while j < problemCount
        invariant j <= problemCount && |ps| == problemCount
        invariant smallest == Letters || (smallest < j && ps[smallest].frozenSubmissions > 0)
        invariant forall j' :: 0 <= j' < j && j' < smallest ==> ps[j'].frozenSubmissions == 0
      {
        if ps[j].frozenSubmissions > 0 {
          smallest := if j < smallest then j else smallest;
        }
        j := j + 1;
      }
      if smallest < Letters {
        return true, i, smallest;
      }
    }
  }

  /**
   * Replays a problem's frozen queue in arrival order (the first accepted
   * submission fixes the solve time, only rejections before it count), then
   * empties the queue. `changed` tells whether the problem became solved.
   */
  method RevealQueue(ps: ProblemStatus) returns (r: ProblemStatus, changed: bool)
    ensures r == Revealed(ps)
    ensures changed == (!ps.solved && r.solved)
  {
    r := ps;
    changed := false;
    var i := 0;
    while i < |ps.frozenSubs|
      invariant 0 <= i <= |ps.frozenSubs|
      invariant VerdictOf(r) == Replay(VerdictOf(ps), ps.frozenSubs[..i])
      invariant r.submissions == ps.submissions && r.frozenSubs == ps.frozenSubs
      invariant r.frozenSubmissions == ps.frozenSubmissions
      invariant changed == (!ps.solved && r.solved)
      invariant ps.solved ==> r.solved
    {
      var sub := ps.frozenSubs[i];
      if !r.solved {
        if sub.status == Accepted {
          r := r.(solved := true, solveTime := sub.time);
          changed := true;
        } else {
          r := r.(wrongAttempts := r.wrongAttempts + 1);
        }
      }
      assert ps.frozenSubs[..i + 1][..i] == ps.frozenSubs[..i];
      i := i + 1;
    }
    assert ps.frozenSubs[..i] == ps.frozenSubs;
    r := r.(frozenSubmissions := 0, frozenSubs := []);
  }

  /** Revealing one queue removes exactly that (team, problem) pair from the pending ones. */
  lemma PendingShrinks(teams: Teams, team: string, prob: nat, q: ProblemStatus)
    requires team in teams && prob < |teams[team]|
    requires teams[team][prob].frozenSubs != [] && q.frozenSubs == []
    ensures (team, prob as int) in PendingPairs(teams)
    ensures PendingPairs(teams[team := teams[team][prob := q]]) == PendingPairs(teams) - {(team, prob as int)}
  {
    var after := teams[team := teams[team][prob := q]];
    forall x | x in PendingPairs(after) ensures x in PendingPairs(teams) - {(team, prob as int)} {
      var (n, j) := x;
      assert n in after && 0 <= j < |after[n]| && after[n][j].frozenSubs != [];
    }
    forall x | x in PendingPairs(teams) - {(team, prob as int)} ensures x in PendingPairs(after) {
      var (n, j) := x;
      assert n in teams && 0 <= j < |teams[n]| && teams[n][j].frozenSubs != [];
      assert after[n][j] == teams[n][j];
    }
  }

  /** With every team in the ranking, a scan that finds nothing means nothing is held back. */
  lemma ScanEmptyMeansNoPending(teams: Teams, ranking: seq<string>, problemCount: nat)
    requires forall n :: n in teams ==> TeamWF(teams[n], problemCount)
    requires forall n :: n in teams ==> n in ranking
    requires forall k, j :: 0 <= k < |ranking| && ranking[k] in teams && 0 <= j < |teams[ranking[k]]| ==>
      teams[ranking[k]][j].frozenSubmissions == 0
    ensures NoPending(teams)
  {
    forall n, j | n in teams && 0 <= j < |teams[n]| ensures teams[n][j].frozenSubs == [] {
      var k :| 0 <= k < |ranking| && ranking[k] == n;
      assert StatusWF(teams[n][j]);
    }
  }

  /** Before the start every team has no records, so the comparator orders by name alone. */
  lemma BetterByName(teams: Teams, x: string, y: string)
    requires x in teams && y in teams && teams[x] == [] && teams[y] == []
    ensures Better(teams, x, y) == StrLess(x, y)
  {
    assert Summarize(teams[x]) == Zero && Summarize(teams[y]) == Zero;
  }

  /** Blank records for every team, once started: the engine's invariant holds. */
  lemma BlanksConsistent(teams: Teams, ranking: seq<string>, frozen: bool, problems: nat)
    requires problems <= Letters
    requires forall n :: n in teams ==> teams[n] == seq(problems, _ => Blank)
    requires IsPermutationOf(ranking, teams.Keys)
    ensures Consistent(teams, ranking, true, frozen, problems)
  {
    BlankWF();
    forall n | n in teams ensures TeamWF(teams[n], problems) {
      forall j | 0 <= j < problems ensures StatusWF(teams[n][j]) {
        assert teams[n][j] == Blank;
      }
    }
  }

  /** Once nothing is held back, every verdict is the replay of the whole audit trail. */
  lemma AllRevealed(teams: Teams, problemCount: nat)
    requires forall n :: n in teams ==> TeamWF(teams[n], problemCount)
    requires NoPending(teams)
    ensures forall n, j :: n in teams && 0 <= j < |teams[n]| ==>
      VerdictOf(teams[n][j]) == Replay(Unattempted, teams[n][j].submissions)
  {
    forall n, j | n in teams && 0 <= j < |teams[n]|
      ensures VerdictOf(teams[n][j]) == Replay(Unattempted, teams[n][j].submissions)
    {
      var ps := teams[n][j];
      assert StatusWF(ps);
      assert Applied(ps) == ps.submissions[..|ps.submissions| - 0] == ps.submissions;
    }
  }

  /**
   * The facts the scan gives about the chosen team and the teams below it,
   * stated on the queues rather than on their counters.
   */
  lemma PendingFacts(teams: Teams, ranking: seq<string>, problemCount: nat, rank: nat, prob: nat)
    requires forall n :: n in teams ==> TeamWF(teams[n], problemCount)
    requires rank < |ranking| && prob < problemCount
    requires forall k :: 0 <= k < |ranking| ==> ranking[k] in teams && |teams[ranking[k]]| == problemCount
    requires teams[ranking[rank]][prob].frozenSubmissions > 0
    requires forall j :: 0 <= j < prob ==> teams[ranking[rank]][j].frozenSubmissions == 0
    requires forall k, j :: rank < k < |ranking| && 0 <= j < problemCount ==>
      teams[ranking[k]][j].frozenSubmissions == 0
    ensures LowestPending(teams, ranking, rank, prob)
  {
    assert TeamWF(teams[ranking[rank]], problemCount);
    assert StatusWF(teams[ranking[rank]][prob]);
    forall j | 0 <= j < prob ensures teams[ranking[rank]][j].frozenSubs == [] {
      assert StatusWF(teams[ranking[rank]][j]);
    }
    forall k, j | rank < k < |ranking| && ranking[k] in teams && 0 <= j < |teams[ranking[k]]|
      ensures teams[ranking[k]][j].frozenSubs == []
    {
      assert TeamWF(teams[ranking[k]], problemCount);
      assert StatusWF(teams[ranking[k]][j]);
    }
  }

  /**
   * Revealing one queue keeps every record well-formed, leaves the audit
   * trails alone and removes exactly that queue from the pending ones.
   */
  lemma RevealedTeams(teams: Teams, team: string, prob: nat, problemCount: nat)
    requires forall n :: n in teams ==> TeamWF(teams[n], problemCount)
    requires team in teams && prob < |teams[team]| == problemCount && teams[team][prob].frozenSubs != []
    ensures var after := RevealAt(teams, team, prob);
      && (forall n :: n in after ==> TeamWF(after[n], problemCount))
      && SameSubmissions(teams, after)
      && (team, prob as int) in PendingPairs(teams)
      && PendingPairs(after) == PendingPairs(teams) - {(team, prob as int)}
  {
    var ps := teams[team][prob];
    assert TeamWF(teams[team], problemCount);
    RevealedWF(ps);
    PendingShrinks(teams, team, prob, Revealed(ps));
  }

  /**
   * A revealed queue that does not solve its problem leaves the team's
   * standing, and so the whole ranking order, as it was.
   */
  lemma QuietRevealKeepsOrder(r: seq<string>, before: Teams, team: string, prob: nat)
    requires team in before && prob < |before[team]|
    requires !Revealed(before[team][prob]).solved
    requires forall x :: x in r ==> x in before
    requires Sorted(r, before)
    ensures Sorted(r, RevealAt(before, team, prob))
  {
    var ps := before[team][prob];
    var after := RevealAt(before, team, prob);
    if ps.solved {
      SolvedIsFinal(VerdictOf(ps), ps.frozenSubs);
    }
    assert Contribution(ps) == Unsolved == Contribution(Revealed(ps));
    SummarizeFrame(before[team], after[team]);
    SortedFrame(r, before, after);
  }

  /**
   * A revealed queue that solves its problem: moving the team from `from` to
   * `to`, past exactly the teams it now beats, keeps the ranking sorted and
   * still a listing of every team.
   */
  lemma SolvingRevealMovesUp(r: seq<string>, before: Teams, from: nat, prob: nat, to: nat)
    requires to <= from < |r|
    requires IsPermutationOf(r, before.Keys) && Sorted(r, before)
    requires prob < |before[r[from]]|
    requires !before[r[from]][prob].solved && Revealed(before[r[from]][prob]).solved
    requires StopsAt(RevealAt(before, r[from], prob), r, from, to)
    ensures var after := RevealAt(before, r[from], prob);
      && (to == from ==> Sorted(r, after))
      && (to < from ==> Sorted(Relocate(r, from, to), after) && IsPermutationOf(Relocate(r, from, to), after.Keys))
  {
    var team := r[from];
    var after := RevealAt(before, team, prob);
    SummarizeOnSolve(before[team], prob, Revealed(before[team][prob]));
    if to == from {
      StayKeepsSorted(r, before, after, from);
    } else {
      MoveUpKeepsSorted(r, before, after, from, to);
      RelocatePermutation(r, from, to, after.Keys);
    }
  }

  /**
   * The upward walk of the unfreeze: from `from`, the position just below
   * the nearest team above that `r[from]` does not beat.
   */
  method Promote(teams: Teams, r: seq<string>, from: nat) returns (to: nat)
    requires from < |r|
    ensures StopsAt(teams, r, from, to)
  {
    to := from;
    while to > 0 && Better(teams, r[from], r[to - 1])
      invariant to <= from
      invariant forall k :: to <= k < from ==> Better(teams, r[from], r[k])
    {
      to := to - 1;
    }
  }

  /**
   * The first half of a round of the unfreeze: finds the lowest-ranked team
   * with a frozen queue and its smallest such problem, locates the team in
   * the ranking, and reveals that queue. Returns the new records and whether
   * the problem became solved.
   */
  method RevealLowest(teams: Teams, ranking: seq<string>, problemCount: nat)
    returns (found: bool, rank: nat, prob: nat, revealed: Teams, changed: bool)
    requires problemCount <= Letters
    requires forall n :: n in teams ==> TeamWF(teams[n], problemCount)
    requires IsPermutationOf(ranking, teams.Keys)
    ensures !found ==> NoPending(teams) && revealed == teams
    ensures found ==>
      && LowestPending(teams, ranking, rank, prob) && prob < problemCount
      && !teams[ranking[rank]][prob].solved
      && revealed == RevealAt(teams, ranking[rank], prob)
      && changed == revealed[ranking[rank]][prob].solved
    ensures found ==>
      && (forall n :: n in revealed ==> TeamWF(revealed[n], problemCount))
      && SameSubmissions(teams, revealed)
      && (ranking[rank], prob as int) in PendingPairs(teams)
      && PendingPairs(revealed) == PendingPairs(teams) - {(ranking[rank], prob as int)}
  {
    var at;
    found, at, prob := FindPending(ranking, teams, problemCount);
    rank, revealed, changed := 0, teams, false;
    if !found {
      ScanEmptyMeansNoPending(teams, ranking, problemCount);
      return;
    }
    var team := ranking[at];
    rank := IndexOf(ranking, team);
    assert rank == at;
    assert TeamWF(teams[team], problemCount);
    PendingFacts(teams, ranking, problemCount, rank, prob);
    assert StatusWF(teams[team][prob]);
    var q;
    q, changed := RevealQueue(teams[team][prob]);
    RevealedTeams(teams, team, prob, problemCount);
    revealed := teams[team := teams[team][prob := q]];
  }

  /**
   * Moves the team at `from`, which has just solved problem `prob`, up past
   * every team it now beats, and reports the move with the team it passed
   * last, now directly below it.
   */
  method MoveUp(teams: Teams, ranking: seq<string>, from: nat, ghost before: Teams, prob: nat)
    returns (to: nat, ranking': seq<string>, change: Option<RankChange>)
    requires from < |ranking|
    requires IsPermutationOf(ranking, before.Keys) && Sorted(ranking, before)
    requires prob < |before[ranking[from]]|
    requires !before[ranking[from]][prob].solved && Revealed(before[ranking[from]][prob]).solved
    requires teams == RevealAt(before, ranking[from], prob)
    ensures StopsAt(teams, ranking, from, to)
    ensures to == from ==> ranking' == ranking
    ensures to < from ==> ranking' == Relocate(ranking, from, to)
    ensures Sorted(ranking', teams) && IsPermutationOf(ranking', teams.Keys)
    ensures change.Some? <==> to < from
    ensures change.Some? ==>
      && ranking'[to + 1] == ranking[to]
      && change.value == RankChange(ranking[from], ranking'[to + 1],
                                    Summarize(teams[ranking[from]]).solved, Summarize(teams[ranking[from]]).penalty)
  {
    to := Promote(teams, ranking, from);
    ranking' := ranking;
    change := None;
    SolvingRevealMovesUp(ranking, before, from, prob, to);
    if to < from {
      ranking' := Relocate(ranking, from, to);
      var a := Summarize(teams[ranking[from]]);
      change := Some(RankChange(ranking[from], ranking'[to + 1], a.solved, a.penalty));
    }
  }

  /**
   * One round of the unfreeze as it happened: the records and the ranking it
   * started from, the team and problem it revealed, the team's rank before and
   * after, and the rank change it reported.
   */
  datatype Round = Round(teams: Teams, ranking: seq<string>, team: string, prob: nat,
                         oldRank: nat, newRank: nat, change: Option<RankChange>)

  /**
   * `rd` led to `teams` and `ranking`. The queue revealed is that of the
   * lowest-ranked pending team's smallest problem, and exactly that pair
   * leaves the pending ones. If the problem became solved, the team stops
   * where its upward walk stops; otherwise it stays. The ranking changes by
   * that move alone. A move is reported exactly when the rank improved, with
   * the team now directly below and the team's new totals.
   */
  ghost predicate RoundStep(rd: Round, teams: Teams, ranking: seq<string>) {
    && LowestPending(rd.teams, rd.ranking, rd.oldRank, rd.prob)
    && rd.team == rd.ranking[rd.oldRank]
    && (rd.team, rd.prob as int) in PendingPairs(rd.teams)
    && PendingPairs(teams) == PendingPairs(rd.teams) - {(rd.team, rd.prob as int)}
    && teams == RevealAt(rd.teams, rd.team, rd.prob)
    && (teams[rd.team][rd.prob].solved ==> StopsAt(teams, rd.ranking, rd.oldRank, rd.newRank))
    && (!teams[rd.team][rd.prob].solved ==> rd.newRank == rd.oldRank)
    && (rd.newRank == rd.oldRank ==> ranking == rd.ranking)
    && (rd.newRank < rd.oldRank ==> ranking == Relocate(rd.ranking, rd.oldRank, rd.newRank))
    && (rd.change.Some? <==> rd.newRank < rd.oldRank)
    && (rd.change.Some? ==>
          && ranking[rd.newRank + 1] == rd.ranking[rd.newRank]
          && rd.change.value == RankChange(rd.team, ranking[rd.newRank + 1],
                                           Summarize(teams[rd.team]).solved, Summarize(teams[rd.team]).penalty))
  }

  /**
   * `rounds` leads from (`teams0`, `ranking0`) to (`teams`, `ranking`), each
   * round starting where the one before it ended.
   */
  ghost predicate Chain(rounds: seq<Round>, teams0: Teams, ranking0: seq<string>, teams: Teams, ranking: seq<string>) {
    if rounds == [] then teams == teams0 && ranking == ranking0
    else
      && rounds[0].teams == teams0 && rounds[0].ranking == ranking0
      && (forall i :: 0 <= i < |rounds| - 1 ==> RoundStep(rounds[i], rounds[i + 1].teams, rounds[i + 1].ranking))
      && RoundStep(rounds[|rounds| - 1], teams, ranking)
  }

  /** The rank changes reported by `rounds`, in order: at most one per round. */
  function Events(rounds: seq<Round>): (e: seq<RankChange>)
    ensures |e| <= |rounds|
  {
    if rounds == [] then []
    else
      var last := rounds[|rounds| - 1];
      Events(rounds[..|rounds| - 1]) + (if last.change.Some? then [last.change.value] else [])
  }

  /** A reported rank change names two different registered teams: the mover and the team it passed. */
  lemma ChangeNamesTwoTeams(rd: Round, teams: Teams, ranking: seq<string>)
    requires RoundStep(rd, teams, ranking) && IsPermutationOf(rd.ranking, rd.teams.Keys)
    requires rd.change.Some?
    ensures rd.change.value.team in teams && rd.change.value.overtaken in teams
    ensures rd.change.value.team != rd.change.value.overtaken
  {
    assert rd.change.value.team == rd.ranking[rd.oldRank];
    assert rd.change.value.overtaken == rd.ranking[rd.newRank];
  }

  /** With nothing held back, no (team, problem) pair is pending. */
  lemma NoPendingNoPairs(teams: Teams)
    requires NoPending(teams)
    ensures PendingPairs(teams) == {}
  {
  }

  /** Every reported change names two different registered teams. */
  ghost predicate ChangesNameTeams(changes: seq<RankChange>, teams: Teams) {
    forall c :: c in changes ==> c.team in teams && c.overtaken in teams && c.team != c.overtaken
  }

  /** One more round extends the chain to the state the round ended in. */
  lemma ChainExtend(rounds: seq<Round>, teams0: Teams, ranking0: seq<string>,
                    rd: Round, teams: Teams, ranking: seq<string>)
    requires Chain(rounds, teams0, ranking0, rd.teams, rd.ranking)
    requires RoundStep(rd, teams, ranking)
    ensures Chain(rounds + [rd], teams0, ranking0, teams, ranking)
  {
    var rs := rounds + [rd];
    if rounds != [] {
      forall i | 0 <= i < |rs| - 1 ensures RoundStep(rs[i], rs[i + 1].teams, rs[i + 1].ranking) {
        if i < |rounds| - 1 {
          assert rs[i] == rounds[i] && rs[i + 1] == rounds[i + 1];
        } else {
          assert rs[i] == rounds[|rounds| - 1] && rs[i + 1] == rd;
        }
      }
    }
  }

  /**
   * One more round: the chain reaches the round's end state, the round's
   * change (if any) joins the events, every change still names two registered
   * teams, and exactly one (team, problem) pair stopped being pending.
   */
  lemma AdvanceTrace(rounds: seq<Round>, teams0: Teams, ranking0: seq<string>,
                     rd: Round, teams: Teams, ranking: seq<string>)
    requires Chain(rounds, teams0, ranking0, rd.teams, rd.ranking)
    requires RoundStep(rd, teams, ranking) && IsPermutationOf(rd.ranking, rd.teams.Keys)
    requires ChangesNameTeams(Events(rounds), rd.teams)
    ensures Chain(rounds + [rd], teams0, ranking0, teams, ranking)
    ensures Events(rounds + [rd]) == Events(rounds) + (if rd.change.Some? then [rd.change.value] else [])
    ensures ChangesNameTeams(Events(rounds + [rd]), teams)
    ensures |PendingPairs(teams)| + 1 == |PendingPairs(rd.teams)|
  {
    ChainExtend(rounds, teams0, ranking0, rd, teams, ranking);
    EventsAppend(rounds, rd);
    RoundRemovesOnePair(rd, teams, ranking);
    if rd.change.Some? {
      ChangeNamesTwoTeams(rd, teams, ranking);
    }
  }

  /** The events of one more round are the earlier events and that round's change, if any. */
  lemma EventsAppend(rounds: seq<Round>, rd: Round)
    ensures Events(rounds + [rd]) == Events(rounds) + (if rd.change.Some? then [rd.change.value] else [])
  {
    assert (rounds + [rd])[..|rounds|] == rounds;
  }

  /** A round leaves the same teams registered and one pending pair fewer. */
  lemma RoundRemovesOnePair(rd: Round, teams: Teams, ranking: seq<string>)
    requires RoundStep(rd, teams, ranking)
    ensures teams.Keys == rd.teams.Keys
    ensures |PendingPairs(teams)| + 1 == |PendingPairs(rd.teams)|
  {
  }

  /** The contest: every team's records, the lifecycle flags and the current ranking. */
  class ICPCSystem {
    var teams: Teams
    var started: bool
    var frozen: bool
    var problemCount: nat
    var ranking: seq<string>

    ghost predicate Valid()
      reads this
    {
      Consistent(teams, ranking, started, frozen, problemCount)
    }

    constructor ()
      ensures Valid()
      ensures teams == map[] && ranking == [] && !started && !frozen && problemCount == 0
    {
      teams := map[];
      started := false;
      frozen := false;
      problemCount := 0;
      ranking := [];
    }

    /**
     * Registers a team before the start; the ranking is kept sorted by name.
     * Refused after the start or for a name already taken.
     */
    method AddTeam(name: string) returns (r: Outcome)
      requires Valid()
      modifies this
      ensures Valid()
      ensures old(started) ==> r == Fail(CompetitionStarted) && unchanged(this)
      ensures !old(started) && name in old(teams) ==> r == Fail(DuplicatedTeam) && unchanged(this)
      ensures !old(started) && name !in old(teams) ==>
        && r == Pass
        && teams == old(teams)[name := []]
        && started == old(started) && frozen == old(frozen) && problemCount == old(problemCount)
        && (forall x :: x in ranking <==> x in old(ranking) || x == name)
        && (forall i, j :: 0 <= i < j < |ranking| ==> StrLess(ranking[i], ranking[j]))
    {
      if started {
        return Fail(CompetitionStarted);
      }
      if name in teams {
        return Fail(DuplicatedTeam);
      }
      var teams' := teams[name := []];
      SortedFrame(ranking, teams, teams');
      ranking := InsertRanked(teams', ranking, name);
      teams := teams';
      SortedDistinct(ranking, teams);
      forall i, j | 0 <= i < j < |ranking| ensures StrLess(ranking[i], ranking[j]) {
        BetterByName(teams, ranking[i], ranking[j]);
      }
      r := Pass;
    }

    /**
     * Starts the competition with `problems` problems, 'A' onward: every team
     * gets a blank record per problem. Refused if already started. The
     * duration is recorded by the source but never read.
     */
    method StartCompetition(duration: int, problems: nat) returns (r: Outcome)
      requires Valid()
      requires problems <= Letters
      modifies this
      ensures Valid()
      ensures old(started) ==> r == Fail(CompetitionStarted) && unchanged(this)
      ensures !old(started) ==>
        && r == Pass
        && started && problemCount == problems
        && frozen == old(frozen) && ranking == old(ranking)
        && teams.Keys == old(teams).Keys
        && forall n :: n in teams ==> teams[n] == seq(problems, _ => Blank)
    {
      if started {
        return Fail(CompetitionStarted);
      }
      started := true;
      problemCount := problems;
      var blanks := seq(problems, _ => Blank);
      var ts := teams;
      var rest := ts.Keys;
      while rest != {}
        invariant rest <= ts.Keys && ts.Keys == teams.Keys
        invariant forall n :: n in ts && n !in rest ==> ts[n] == blanks
        decreases |rest|
      {
        var n :| n in rest;
        ts := ts[n := blanks];
        rest := rest - {n};
      }
      BlankWF();
      BlanksConsistent(ts, ranking, frozen, problems);
      teams := ts;
      r := Pass;
    }

    /**
     * Files a submission. It always joins the problem's audit trail. On a
     * solved problem nothing else changes; while frozen, on an unsolved
     * problem, it joins the frozen queue; otherwise an accepted one solves the
     * problem at `time` and any other status is one more wrong attempt.
     */
    method Submit(problem: string, teamName: string, status: string, time: int)
      requires Valid()
      requires teamName in teams
      requires |problem| > 0 && 0 <= ProblemIndex(problem) < problemCount
      modifies this
      ensures Valid()
      ensures started == old(started) && frozen == old(frozen)
      ensures problemCount == old(problemCount) && ranking == old(ranking)
      ensures var p := ProblemIndex(problem);
        var sub := Submission(problem, status, time);
        var ps := old(teams)[teamName][p];
        var q := teams[teamName][p];
        && teams == old(teams)[teamName := old(teams)[teamName][p := q]]
        && q.submissions == ps.submissions + [sub]
        && (ps.solved ==> q == ps.(submissions := q.submissions))
        && (frozen && !ps.solved ==>
              q == ps.(submissions := q.submissions,
                       frozenSubmissions := ps.frozenSubmissions + 1,
                       frozenSubs := ps.frozenSubs + [sub]))
        && (!frozen && !ps.solved && status == Accepted ==>
              q == ps.(submissions := q.submissions, solved := true, solveTime := time))
        && (!frozen && !ps.solved && status != Accepted ==>
              q == ps.(submissions := q.submissions, wrongAttempts := ps.wrongAttempts + 1))
    {
      var p := ProblemIndex(problem);
      var ps := teams[teamName][p];
      var sub := Submission(problem, status, time);
      assert StatusWF(ps);
      FileKeepsWF(ps, sub, frozen);
      ps := ps.(submissions := ps.submissions + [sub]);
      if frozen && !ps.solved {
        ps := ps.(frozenSubmissions := ps.frozenSubmissions + 1, frozenSubs := ps.frozenSubs + [sub]);
      } else if !ps.solved {
        if status == Accepted {
          ps := ps.(solved := true, solveTime := time);
        } else {
          ps := ps.(wrongAttempts := ps.wrongAttempts + 1);
        }
      }
      teams := teams[teamName := teams[teamName][p := ps]];
    }

    /**
     * Rebuilds the ranking from scratch: every team once, in comparator
     * order, so each team beats the one just below it.
     */
    method Flush()
      requires Valid()
      modifies this
      ensures Valid()
      ensures teams == old(teams) && started == old(started) && frozen == old(frozen)
      ensures problemCount == old(problemCount)
      ensures Sorted(ranking, teams)
      ensures forall i :: 0 <= i < |ranking| - 1 ==> Better(teams, ranking[i], ranking[i + 1])
    {
      var rest := teams.Keys;
      var r: seq<string> := [];
      while rest != {}
        invariant rest <= teams.Keys
        invariant forall x :: x in r <==> x in teams.Keys - rest
        invariant Sorted(r, teams)
        invariant unchanged(this)
        decreases |rest|
      {
        var n :| n in rest;
        r := InsertRanked(teams, r, n);
        rest := rest - {n};
      }
      ranking := r;
      SortedDistinct(ranking, teams);
    }

    /** Freezes the scoreboard; refused if it already is. */
    method Freeze() returns (r: Outcome)
      requires Valid()
      modifies this
      ensures Valid()
      ensures old(frozen) ==> r == Fail(AlreadyFrozen) && unchanged(this)
      ensures !old(frozen) ==>
        && r == Pass && frozen
        && teams == old(teams) && ranking == old(ranking)
        && started == old(started) && problemCount == old(problemCount)
    {
      if frozen {
        return Fail(AlreadyFrozen);
      }
      frozen := true;
      r := Pass;
    }

    /**
     * One round of the unfreeze. Picks the lowest-ranked team with a frozen
     * queue and its smallest such problem, reveals that queue, and, if the
     * problem became solved, moves the team up past every team it now beats,
     * stopping below the first one it does not. A move is reported with the
     * team now directly below it.
     */
    method RevealNext() returns (found: bool, team: string, prob: nat, oldRank: nat, newRank: nat,
                                 change: Option<RankChange>)
      requires Valid() && frozen && Sorted(ranking, teams)
      modifies this
      ensures Valid() && frozen && Sorted(ranking, teams)
      ensures started == old(started) && problemCount == old(problemCount)
      ensures SameSubmissions(old(teams), teams)
      ensures !found ==> NoPending(teams) && teams == old(teams) && ranking == old(ranking) && change == None
      ensures found ==> RoundStep(Round(old(teams), old(ranking), team, prob, oldRank, newRank, change), teams, ranking)
    {
      var revealed, changed;
      found, oldRank, prob, revealed, changed := RevealLowest(teams, ranking, problemCount);
      team, newRank, change := "", oldRank, None;
      if !found {
        return;
      }
      team := ranking[oldRank];
      var r := ranking;
      if changed {
        newRank, r, change := MoveUp(revealed, ranking, oldRank, teams, prob);
      } else {
        QuietRevealKeepsOrder(ranking, teams, team, prob);
      }
      teams, ranking := revealed, r;
    }

    /**
     * The reveal loop of the unfreeze: rounds until no queue is left, one
     * round per queue, collecting the reported rank changes in order.
     */
    method RevealAll() returns (changes: seq<RankChange>, ghost rounds: seq<Round>)
      requires Valid() && frozen && Sorted(ranking, teams)
      modifies this
      ensures Valid() && frozen && Sorted(ranking, teams)
      ensures started == old(started) && problemCount == old(problemCount)
      ensures SameSubmissions(old(teams), teams) && NoPending(teams)
      ensures Chain(rounds, old(teams), old(ranking), teams, ranking)
      ensures |rounds| == |PendingPairs(old(teams))|
      ensures changes == Events(rounds) && ChangesNameTeams(changes, teams)
    {
      changes, rounds := [], [];
      while true
        invariant Valid() && frozen && Sorted(ranking, teams)
        invariant started == old(started) && problemCount == old(problemCount)
        invariant SameSubmissions(old(teams), teams)
        invariant Chain(rounds, old(teams), old(ranking), teams, ranking)
        invariant |rounds| + |PendingPairs(teams)| == |PendingPairs(old(teams))|
        invariant changes == Events(rounds) && ChangesNameTeams(changes, teams)
        decreases PendingPairs(teams)
      {
        ghost var before, order := teams, ranking;
        assert IsPermutationOf(order, before.Keys);
        var found, team, prob, oldRank, newRank, change := RevealNext();
        if !found {
          NoPendingNoPairs(teams);
          return;
        }
        ghost var rd := Round(before, order, team, prob, oldRank, newRank, change);
        AdvanceTrace(rounds, old(teams), old(ranking), rd, teams, ranking);
        rounds := rounds + [rd];
        if change.Some? {
          changes := changes + [change.value];
        }
      }
    }

    /**
     * Unfreezes the scoreboard: refused unless frozen. Rebuilds the ranking
     * (the view shown before the reveals), then reveals queue after queue
     * until none is left, collecting the rank changes, and unfreezes.
     */
    method Scroll() returns (r: Result<ScrollReport>, ghost rounds: seq<Round>)
      requires Valid()
      modifies this
      ensures Valid()
      ensures !old(frozen) ==> r == Err(NotFrozen) && unchanged(this) && rounds == []
      ensures old(frozen) ==>
        && r.Ok? && !frozen
        && started == old(started) && problemCount == old(problemCount)
        && IsPermutationOf(r.value.frozenView, old(teams).Keys) && Sorted(r.value.frozenView, old(teams))
        && SameSubmissions(old(teams), teams)
        && NoPending(teams)
        && r.value.finalView == ranking && Sorted(ranking, teams)
        && (forall n, j :: n in teams && 0 <= j < |teams[n]| ==>
              VerdictOf(teams[n][j]) == Replay(Unattempted, teams[n][j].submissions))
      ensures old(frozen) ==>
        && Chain(rounds, old(teams), r.value.frozenView, teams, ranking)
        && |rounds| == |PendingPairs(old(teams))|
        && r.value.changes == Events(rounds)
        && ChangesNameTeams(r.value.changes, teams)
    {
      rounds := [];
      if !frozen {
        return Err(NotFrozen), rounds;
      }
      Flush();
      var frozenView := ranking;
      var changes;
      changes, rounds := RevealAll();
      frozen := false;
      AllRevealed(teams, problemCount);
      r := Ok(ScrollReport(frozenView, changes, ranking));
    }

    /** A team's current 1-based rank, flagged when the scoreboard is frozen. */
    method QueryRanking(teamName: string) returns (r: Result<RankReport>)
      requires Valid()
      ensures teamName !in teams ==> r == Err(TeamNotFound)
      ensures teamName in teams ==>
        && r.Ok? && 1 <= r.value.rank <= |ranking|
        && ranking[r.value.rank - 1] == teamName
        && r.value.frozenWarning == frozen
    {
      if teamName !in teams {
        return Err(TeamNotFound);
      }
      var i := IndexOf(ranking, teamName);
      var rank := if i < |ranking| then i + 1 else 0;
      r := Ok(RankReport(rank, frozen));
    }

    /**
     * The latest submission of a team passing the problem and status filters
     * ("ALL" passes everything), frozen or not. Among equal times the first
     * found wins, in letter order and then arrival order. No match is a
     * normal answer; an unknown team is an error.
     */
    method QuerySubmission(teamName: string, problem: string, status: string)
      returns (r: Result<Option<Submission>>)
      ensures teamName !in teams ==> r == Err(TeamNotFound)
      ensures teamName in teams ==>
        var all := AllSubmissions(teams[teamName]);
        && r.Ok?
        && (r.value.None? <==> forall k :: 0 <= k < |all| ==> !Matches(all[k], problem, status))
        && (r.value.Some? ==> exists k :: IsLatestMatch(all, k, problem, status) && all[k] == r.value.value)
    {
      if teamName !in teams {
        return Err(TeamNotFound);
      }
      var ps := teams[teamName];
      var last: Option<Submission> := None;
      ghost var seen: seq<Submission> := [];
      ghost var at: int := 0;
      var i := 0;
      while i < |ps|
        invariant 0 <= i <= |ps|
        invariant seen == AllSubmissions(ps[..i])
        invariant LatestSoFar(seen, last, at, problem, status)
      {
        var subs := ps[i].submissions;
        var j := 0;
        while j < |subs|
          invariant 0 <= j <= |subs|
          invariant seen == AllSubmissions(ps[..i]) + subs[..j]
          invariant LatestSoFar(seen, last, at, problem, status)
        {
          var sub := subs[j];
          LatestStep(seen, last, at, sub, problem, status);
          if Matches(sub, problem, status) && (last.None? || sub.time > last.value.time) {
            last := Some(sub);
            at := |seen|;
          }
          seen := seen + [sub];
          assert subs[..j + 1] == subs[..j] + [sub];
          j := j + 1;
        }
        assert ps[..i + 1][..i] == ps[..i];
        assert subs[..j] == subs;
        i := i + 1;
      }
      assert ps[..i] == ps;
      r := Ok(last);
    }
  }
}
