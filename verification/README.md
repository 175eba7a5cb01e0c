# ICPC scoreboard engine, modelled in Dafny

A model of the scoreboard engine of an ICPC-style contest judge (`main.cpp`).
The engine registers teams before the start and opens the contest with a number of problems, 'A' onward.
It files submissions against (team, problem) records.
When the scoreboard is frozen, submissions to unsolved problems are held back in a per-problem queue.
The ranking is rebuilt on flush.
On "scroll", the held-back results are revealed one queue at a time.
Each round takes the lowest-ranked team that still has a queue, and that team's smallest such problem letter.
A team that gains a solve moves up past every team it now beats.

The project is four modules:

- `Problem` (`problem.dfy`) holds the record of one problem of one team.
  - The record has the visible verdict, the audit trail and the frozen queue.
  - `Replay` gives the verdict of a sequence of submissions: the first accepted one solves the problem, and each rejection before it is a wrong attempt.
  - `StatusWF` is the record's invariant: the verdict is the replay of every submission except those still queued.
- `Standing` (`standing.dfy`) holds the team aggregate of `Team::updateCache`: solved count, penalty and solve times latest-first.
  - The source caches it behind a validity flag.
  - Here it is a pure function of the records.
  - On the inputs the model accepts, that is the value the cache holds whenever it is read (see "Left out" for the one input where the source's cache goes stale).
- `Ranking` (`ranking.dfy`) holds the comparator `compareTeams` and its properties.
  - The comparator is irreflexive, asymmetric, transitive and total on distinct names.
  - Sorted rankings are unique.
  - The two ways the engine reshapes a ranking keep it sorted: inserting a name, and moving an improved team up.
- `Engine` (`engine.dfy`) holds the class `ICPCSystem`, whose fields are those of the source class except `durationTime` and `freezeTime` (`main.cpp:82-83`), which nothing reads.
  - Its methods update those fields in place.
  - The class invariant `Valid` states:
    - every record is well formed;
    - the ranking lists every team once;
    - nothing is held back unless the board is frozen;
    - before the start, the ranking is in name order.
  - The scroll loop is the method `RevealAll`, and its body is the method `RevealNext`, one round of the unfreeze.
  - Each round is recorded as a ghost `Round`, and `RoundStep` states what a round does.
  - The changes that scroll reports are exactly those of its rounds, in order.
  - The loop ends because each round removes one (team, problem) pair from the set of pending queues.

Console messages become returned values:

- A refused directive returns `Fail(reason)` or `Err(reason)` and changes nothing.
- The lines printed during scroll become a `ScrollReport`: the frozen view, the rank changes and the final ranking.
- The answers to the two queries become `RankReport` and `Option<Submission>`.

## Model

| member | source | states |
|---|---|---|
| Problem.Judge | main.cpp:205-217 | (definition) one visible submission: a solved problem ignores it, an accepted one solves the problem at its time, anything else is one more wrong attempt |
| Problem.Replay | main.cpp:289-299 | (definition) the submissions judged one after another in arrival order, as the reveal loop does |
| Problem.Revealed | main.cpp:287-301 | (definition) the record after its frozen queue is replayed onto the verdict and emptied |
| Problem.ReplayClosedForm | main.cpp:205-217 | the verdict of a submission sequence is solved exactly when one was accepted, at the time of the first accepted one, with the submissions before it as wrong attempts (all of them when none was accepted) |
| Problem.SolvedIsFinal | main.cpp:205-208 | once a problem is solved, no later submission changes its verdict |
| Problem.ReplayAppend | main.cpp:287-299 | replaying a concatenation equals replaying the first part and then the second, which lets a frozen queue be revealed later with the same result |
| Problem.FirstAccepted | main.cpp:289-299 | the index of the first accepted submission: none before it is accepted, and it is accepted when in range |
| Problem.BlankWF | main.cpp:186-192 | the blank record created at the start satisfies the record invariant, with nothing applied |
| Problem.FileKeepsWF | main.cpp:197-218 | filing a submission keeps the record invariant, both when it joins the frozen queue and when it is judged at once |
| Problem.RevealedWF | main.cpp:287-301 | revealing a queue keeps the record invariant, empties the queue and makes the verdict the replay of the whole audit trail |
| Standing.Tally | main.cpp:46-56 | (definition) the pass over the problems in letter order: counts each solved problem, adds its time plus 20 per wrong attempt, collects its time; the time list has one entry per solve |
| Standing.SortDescending | main.cpp:57 | (definition) the latest-first sort of the solve times; it keeps the length |
| Standing.Summarize | main.cpp:43-59 | (definition) the team's cached standing: the tally with its times sorted latest-first; one time per solve |
| Standing.SortDescendingSorts | main.cpp:57 | the solve-time sort yields a descending permutation of its input |
| Standing.SummarizeDescending | main.cpp:43-59 | a team's solve times are latest-first and are a permutation of the times the pass collected |
| Standing.TallyTimesAreSolveTimes | main.cpp:50-55 | each time occurs in the collected list once per solved problem solved at that time |
| Standing.SolveTimesAreSolvedProblems | main.cpp:43-59 | each time occurs in a team's solve times once per solved problem solved at that time, so the times are exactly those of the solved problems |
| Standing.SolvedCountIsSolvedProblems | main.cpp:50-55 | the solved count is the number of solved problems |
| Standing.NothingSolvedIsZero | main.cpp:46-56 | a team with nothing solved has solved count 0, penalty 0 and no solve times |
| Standing.SummarizeFrame | main.cpp:50-56 | the standing depends only on the solved problems, their times and their wrong attempts; queued submissions and unsolved attempts change nothing |
| Standing.SummarizeOnSolve | main.cpp:51-54 | a newly solved problem adds exactly one to the solved count, its solve time plus 20 per wrong attempt to the penalty, and its solve time to the times |
| Ranking.StrLess | main.cpp:107 | (definition) `std::string` ordering: lexicographic by character code, a proper prefix first |
| Ranking.CompareTimes | main.cpp:102-105 | (definition) the first differing position over the shorter list decides, the smaller time first |
| Ranking.Beats | main.cpp:87-108 | (definition) `compareTeams` on two standings: more solved first, then less penalty, then the solve times, then the name |
| Ranking.Better | main.cpp:87-108 | (definition) `compareTeams` on two registered teams, each with the standing its records give |
| Ranking.StrLessIrreflexive | main.cpp:107 | name order is irreflexive |
| Ranking.StrLessAsymmetric | main.cpp:107 | name order is asymmetric |
| Ranking.StrLessTransitive | main.cpp:107 | name order is transitive |
| Ranking.StrLessTotal | main.cpp:107 | any two distinct names are ordered |
| Ranking.CompareTimesFlip | main.cpp:102-105 | comparing solve-time lists the other way round gives the opposite answer |
| Ranking.CompareTimesTie | main.cpp:102-105 | two equally long time lists that tie position by position are equal |
| Ranking.CompareTimesTransitive | main.cpp:102-105 | the positional comparison of equally long time lists is transitive |
| Ranking.BeatsIrreflexive | main.cpp:87-108 | no team ranks above itself |
| Ranking.BeatsAsymmetric | main.cpp:87-108 | of two teams, at most one ranks above the other |
| Ranking.BeatsTransitive | main.cpp:87-108 | the comparator is transitive (on standings whose time list length equals the solved count) |
| Ranking.BeatsTotal | main.cpp:87-108 | of two differently named teams, one ranks above the other, so the comparator is a strict total order |
| Ranking.BetterTransitive | main.cpp:87-108 | the comparator on registered teams is transitive |
| Ranking.BetterTotal | main.cpp:87-108 | the comparator orders any two distinct registered teams |
| Ranking.BetterAsymmetric | main.cpp:87-108 | the comparator on registered teams is asymmetric |
| Ranking.SortedDistinct | main.cpp:110-118 | a ranking in comparator order names no team twice |
| Ranking.AdjacentSorted | main.cpp:110-118 | a ranking whose adjacent pairs are in comparator order is in comparator order throughout |
| Ranking.SortedUnique | main.cpp:110-118 | two rankings of the same teams in comparator order are equal, so the rebuilt ranking does not depend on the order in which teams were collected |
| Ranking.Relocate | main.cpp:313-317 | erase at `from` and insert at `to`: the team lands at `to`, the teams in between shift down one place, the rest stay put |
| Ranking.RelocatePermutation | main.cpp:313-317 | the move keeps the ranking a listing of the same teams, each once |
| Ranking.SortedFrame | main.cpp:303 | a ranking stays sorted when no listed team's standing changes |
| Ranking.BetterUnchanged | main.cpp:87-108 | the order between two teams whose records did not change is unchanged |
| Ranking.BetterImproved | main.cpp:305-311 | a team that gained a solved problem still beats every team it beat |
| Ranking.MoveUpKeepsSorted | main.cpp:305-317 | moving the improved team up to where its upward walk stops keeps the ranking sorted |
| Ranking.StayKeepsSorted | main.cpp:305-313 | an improved team that does not beat the team above stays, and the ranking stays sorted |
| Ranking.InsertKeepsSorted | main.cpp:171-173 | inserting a name after every team that beats it keeps a ranking sorted |
| Ranking.InsertRanked | main.cpp:171-173 | the insertion yields a sorted ranking holding the old names plus the new one |
| Engine.ProblemIndex | main.cpp:199 | (definition) a problem's letter offset from 'A', the key of its record |
| Engine.Matches | main.cpp:362-365 | (definition) a submission passes the problem filter and the status filter, "ALL" passing everything |
| Engine.AllSubmissions | main.cpp:360-361 | (definition) a team's submissions in the order the query visits them: problems in letter order, each in arrival order |
| Engine.IndexOf | main.cpp:279-285 | the first position of the team in the ranking, or the length when absent |
| Engine.FindPending | main.cpp:247-273 | the bottom-up scan finds the lowest-ranked team with a frozen queue and its smallest such problem, or reports that no queue is left |
| Engine.RevealQueue | main.cpp:287-301 | replaying the queue gives the revealed record; `changed` holds exactly when the problem became solved |
| Engine.PendingShrinks | main.cpp:300-301 | revealing one queue removes exactly that (team, problem) pair from the pending ones |
| Engine.ScanEmptyMeansNoPending | main.cpp:253-273 | when the scan over the ranking finds nothing, no team holds anything back |
| Engine.BetterByName | main.cpp:173 | before the start the comparator is the name order used by the registration sort |
| Engine.BlanksConsistent | main.cpp:177-195 | after the start with blank records, the engine's invariant holds |
| Engine.AllRevealed | main.cpp:321-323 | once nothing is held back, every verdict is the replay of the team's whole audit trail for that problem |
| Engine.PendingFacts | main.cpp:253-271 | the scan's counter facts, restated on the queues: the chosen queue is the lowest-ranked and smallest-lettered |
| Engine.RevealedTeams | main.cpp:287-301 | revealing a queue keeps every record well formed, leaves the audit trails alone and shrinks the set of pending queues |
| Engine.QuietRevealKeepsOrder | main.cpp:303 | a reveal that does not solve its problem leaves the ranking sorted |
| Engine.SolvingRevealMovesUp | main.cpp:305-317 | a reveal that solves its problem, followed by the upward move, leaves the ranking sorted and a listing of every team |
| Engine.Promote | main.cpp:307-311 | the upward walk stops at the first team above that the revealed team does not beat, having beaten every team it passed |
| Engine.RevealLowest | main.cpp:247-301 | the first half of a round reveals the queue of the lowest-ranked pending team's smallest problem, or finds none left |
| Engine.MoveUp | main.cpp:305-320 | the second half of a round moves the team to where its walk stops, keeps the ranking sorted, and reports the move with the team now directly below it and the new totals |
| Engine.ChangeNamesTwoTeams | main.cpp:313-319 | a reported rank change names the moving team and the team it passed, which are two different registered teams |
| Engine.NoPendingNoPairs | main.cpp:273 | with nothing held back, no (team, problem) pair is pending |
| Engine.ChainExtend | main.cpp:247-321 | a round that starts where the chain of earlier rounds ended extends that chain |
| Engine.Events | main.cpp:313-320 | (definition) the rank changes the rounds reported, in order, at most one per round |
| Engine.EventsAppend | main.cpp:313-320 | the changes reported so far are the earlier rounds' changes followed by this round's change, if any |
| Engine.RoundRemovesOnePair | main.cpp:300-301 | a round keeps the same teams and leaves exactly one pending (team, problem) pair fewer |
| Engine.AdvanceTrace | main.cpp:247-321 | one more round extends the chain, adds its change to the reported ones, keeps every change naming two registered teams, and removes one pending pair |
| Engine.ICPCSystem.constructor | main.cpp:77-85 | an empty contest, not started and not frozen |
| Engine.ICPCSystem.AddTeam | main.cpp:162-175 | refused after the start or for a taken name; otherwise the team joins with no records and the ranking is in name order |
| Engine.ICPCSystem.StartCompetition | main.cpp:177-195 | refused once started; otherwise every team gets a blank record per problem |
| Engine.ICPCSystem.Submit | main.cpp:197-218 | the submission joins the audit trail; it is queued while frozen on an unsolved problem, ignored on a solved one, and otherwise solves the problem or adds a wrong attempt |
| Engine.ICPCSystem.Flush | main.cpp:110-118 | the ranking is rebuilt in comparator order with every adjacent pair in order; records and flags are unchanged |
| Engine.ICPCSystem.Freeze | main.cpp:225-232 | refused when already frozen; otherwise only the frozen flag changes |
| Engine.ICPCSystem.RevealNext | main.cpp:247-320 | one round of the unfreeze: reveals the queue of the lowest-ranked pending team's smallest problem, or reports none left; audit trails are kept and exactly that (team, problem) pair stops being pending; when the problem became solved the team stops where its upward walk stops, otherwise the ranking is unchanged; the ranking stays sorted; a move is reported exactly when the rank improved, with the team now directly below |
| Engine.ICPCSystem.RevealAll | main.cpp:247-321 | runs rounds until no queue is left, one round per queue pending at the start. The rounds form a chain from the starting state to the final one. The collected changes are exactly the changes of those rounds in order, each naming two different registered teams |
| Engine.ICPCSystem.Scroll | main.cpp:234-325 | refused unless frozen. Otherwise it reports the rebuilt frozen view, reveals until nothing is held back and unfreezes. Every verdict is then the replay of the audit trail, and the final ranking is sorted. The rounds run from the frozen view to the final ranking, one per queue held back. The reported changes are exactly those the rounds made, in order |
| Engine.ICPCSystem.QueryRanking | main.cpp:327-347 | an unknown team is an error; otherwise the 1-based rank at which the team is listed, with the frozen warning |
| Engine.ICPCSystem.QuerySubmission | main.cpp:349-379 | an unknown team is an error; otherwise nothing exactly when no submission matches the filters, else the latest match, the earliest of equal times winning |

## Left out

- Command parsing and the `main` loop (`main.cpp:392-453`) are not modelled. Directives are method calls.
- Console output is not modelled.
  - The scoreboard printing and per-problem display (`main.cpp:120-159`) are left out.
  - Each message becomes a returned `Outcome`, `Result`, `ScrollReport` or `RankReport`.
- The cached aggregate and its validity flag (`main.cpp:31-41`) are not modelled.
  - The standing is computed from the records each time.
  - On the inputs the model accepts, this is the value the cache holds whenever it is read.
  - Every change to a solved problem's time or wrong attempts goes through `invalidateCache()` (`main.cpp:212`, `main.cpp:215`, `main.cpp:305`).
  - Before the start, every standing is zero.
- Team objects on the heap, their pointers and the destructor are not modelled.
  - Teams are a map from name to that team's records, one per problem in letter order.
- `end()` only prints, so it is left out.
- Engine.ICPCSystem.StartCompetition ignores its `duration` argument, which the source stores but never reads.
- Engine.ICPCSystem.StartCompetition requires at most 26 problems.
  - With more, the source creates records for '[' onward (`main.cpp:188-190`).
  - `submit`, `updateCache` (`main.cpp:50-55`), `querySubmission` and the printout (`main.cpp:151`) treat those records as problems.
  - The unfreeze scan never selects them, because its sentinel is 'Z' + 1 (`main.cpp:250`, `main.cpp:255`, `main.cpp:261`, `main.cpp:265`).
  - So a frozen queue on such a problem is never revealed, and `scroll` clears the freeze with that queue still full.
  - The model's invariant that nothing is held back once unfrozen would fail there.
- Engine.ICPCSystem.Submit requires a registered team and a problem letter among the started problems.
  - The source dereferences a missing team, which is undefined behaviour.
  - For a letter outside the contest, the source creates an extra record for that letter, and the model does not cover it.
    - The extra record still counts: an unfrozen accepted submission on it adds a solve and penalty in `updateCache` (`main.cpp:50-55`) and moves the team in the ranking.
    - `querySubmission` reports its submissions (`main.cpp:360-361`).
    - The unfreeze scan (`main.cpp:257`) and the scoreboard printout skip it, so a frozen queue on it is never revealed.
  - Submissions before the start are excluded too, since no problem exists yet.
    - In the source, such a submission creates a record that `startCompetition` later overwrites with a blank one (`main.cpp:190`).
    - `startCompetition` does not call `invalidateCache()` (`main.cpp:177-195`).
    - So a FLUSH or SCROLL before the start leaves the team's cached standing counting the overwritten record.
    - `updateCache` then returns early on the stale value (`main.cpp:44`) until the team's next visible solve or wrong attempt.
    - Example: ADDTEAM a; ADDTEAM b; SUBMIT A BY b WITH Accepted AT 5; FLUSH; START with 1 problem; FLUSH.
      - b keeps ranking first on 1 solve and penalty 5, although its record is blank.
      - Computing from the records would put a first by name.
    - The model excludes this input and computes from the records.
- Engine.ICPCSystem.Flush returns no ranking snapshot.
  - The code of `flush()` (`main.cpp:220-223`) only prints an info line, and the model follows the code.
- Engine.ICPCSystem.Flush collects the names in an unspecified order, where the source uses the map's key order. `Ranking.SortedUnique` shows that the sorted result is the same either way.
- Integers are unbounded. The source's 32-bit `int` penalties and times could overflow only on inputs far beyond any contest.
- `Ranking.StrLess` compares characters by code point. This equals `std::string` ordering for the ASCII team names the system uses.
