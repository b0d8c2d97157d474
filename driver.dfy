/**
 * The simulation driver: build one random team per run, tag each team's rows
 * with its `run_ID`, concatenate them, sum the score per run, take the first
 * run with the highest sum, and report that run's players, points and spend.
 */
module Driver {
  import opened Roster
  import opened PositionSampler
  import opened TeamBuilder

  /** The formation the simulation asks for: 2 GK, 5 DEF, 5 MID, 3 FWD, in that order. */
  const TeamStructure: seq<Slot> := [Slot(GK, 2), Slot(DEF, 5), Slot(MID, 5), Slot(FWD, 3)]

  /** At most 4 players per club and a spend of at most 1000. */
  const SimulationLimits: Limits := Limits(4, 1000)

  /** One row of the concatenated table: a selected player and its `run_ID`. */
  datatype Row = Row(runId: nat, player: Player)

  /** The rows of one team once its `run_ID` column is set. */
  function Tag(team: seq<Player>, runId: nat): (r: seq<Row>)
    ensures |r| == |team|
  {
    seq(|team|, k requires 0 <= k < |team| => Row(runId, team[k]))
  }

  /** The tagged frames of consecutive runs, the first one numbered `from`. */
  function Frames(teams: seq<seq<Player>>, from: nat): (r: seq<seq<Row>>)
    ensures |r| == |teams|
    decreases |teams|
  {
    if teams == [] then [] else [Tag(teams[0], from)] + Frames(teams[1..], from + 1)
  }

  /** The player of one row, if the row belongs to run `run`. */
  function Pick(row: Row, run: nat): seq<Player>
  {
    if row.runId == run then [row.player] else []
  }

  /** The players of the rows whose `run_ID` is `run`, in row order. */
  function RunTeam(rows: seq<Row>, run: nat): seq<Player>
  {
    if rows == [] then [] else Pick(rows[0], run) + RunTeam(rows[1..], run)
  }

  /** The per-run score sum of the `groupby('run_ID')` step. */
  function RunTotal(rows: seq<Row>, run: nat): int
  {
    TotalScore(RunTeam(rows, run))
  }

  /**
   * `idxmax` over the per-run sums: the run ids that occur in `rows` are the
   * group keys, visited in ascending order, and the first key with the
   * highest sum wins; there is no answer when no key below `n` occurs.
   */
  function IdxMax(rows: seq<Row>, n: nat): (r: Option<nat>)
    ensures r.None? ==> forall k :: 0 <= k < n ==> RunTeam(rows, k) == []
    ensures r.Some? ==> r.value < n && RunTeam(rows, r.value) != []
    ensures r.Some? ==> forall k :: 0 <= k < n && RunTeam(rows, k) != [] ==> RunTotal(rows, k) <= RunTotal(rows, r.value)
    ensures r.Some? ==> forall k :: 0 <= k < r.value && RunTeam(rows, k) != [] ==> RunTotal(rows, k) < RunTotal(rows, r.value)
  {
    if n == 0 then None
    else
      var prev := IdxMax(rows, n - 1);
      if RunTeam(rows, n - 1) == [] then prev
      else if prev.None? then Some(n - 1)
      else if RunTotal(rows, n - 1) > RunTotal(rows, prev.value) then Some(n - 1)
      else prev
  }

  /** The best run, its players, their summed score and their summed value. */
  datatype Report = Report(bestRun: nat, bestTeam: seq<Player>, totalPoints: int, totalSpend: int)

  /**
   * The end of a simulation: a report, or one of the ways the analysis stops
   * (no frame to concatenate, or no row carrying a score column for the
   * per-run sums because every team is empty), or the draws running out
   * before every run has built its team.
   */
  datatype Outcome = Chosen(report: Report) | NothingToConcatenate | NoScoredRows | DrawsRanOut

  /**
   * Concatenation, per-run sums, `idxmax`, and the best run's rows and sums.
   * When no run has a row there is no score column to sum, which `IdxMax`
   * reports as having no answer.
   */
  function Analyse(frames: seq<seq<Row>>): Outcome
  {
    if frames == [] then NothingToConcatenate
    else
      var rows := Flatten(frames);
      match IdxMax(rows, |frames|)
      case None => NoScoredRows
      case Some(b) =>
        var best := RunTeam(rows, b);
        Chosen(Report(b, best, TotalScore(best), TotalValue(best)))
  }

  /** The teams of `runs` runs, the draws they consumed, and how the runs ended. */
  datatype Runs = Runs(teams: seq<seq<Player>>, used: nat, exit: Exit)

  /**
   * `runs` runs, each building a team from scratch with the draws the earlier
   * runs left over; stops at the first run whose draws run out.
   */
  function RunAll(scope: Scope, formation: seq<Slot>, lim: Limits, data: seq<Player>,
                  runs: nat, draws: seq<nat>): (r: Runs)
    ensures r.used <= |draws|
    ensures r.exit == Returned ==> |r.teams| == runs
    ensures r.exit == DrawsExhausted ==> r.used == |draws| && |r.teams| < runs
    decreases runs
  {
    if runs == 0 then Runs([], 0, Returned)
    else
      var t := Build(scope, formation, lim, data, [], 0, map[], draws);
      if t.exit == DrawsExhausted then Runs([], t.used, DrawsExhausted)
      else
        var rest := RunAll(scope, formation, lim, data, runs - 1, draws[t.used..]);
        Runs([Flatten(t.blocks)] + rest.teams, t.used + rest.used, rest.exit)
  }

  /** The whole simulation: `runs` runs, then the analysis of their frames. */
  function Simulation(scope: Scope, formation: seq<Slot>, lim: Limits, data: seq<Player>,
                      runs: nat, draws: seq<nat>): Outcome
  {
    var r := RunAll(scope, formation, lim, data, runs, draws);
    if r.exit == DrawsExhausted then DrawsRanOut else Analyse(Frames(r.teams, 0))
  }

  function AfterRuns(teams: seq<seq<Player>>, used: nat, r: Runs): Runs
  {
    Runs(teams + r.teams, used + r.used, r.exit)
  }

  lemma AfterRunsAssoc(teams: seq<seq<Player>>, used: nat, team: seq<Player>, n: nat, r: Runs)
    ensures AfterRuns(teams, used, AfterRuns([team], n, r)) == AfterRuns(teams + [team], used + n, r)
  {
    assert teams + ([team] + r.teams) == teams + [team] + r.teams;
  }

  /** One run of `RunAll`, unfolded. */
  lemma RunAllStep(scope: Scope, formation: seq<Slot>, lim: Limits, data: seq<Player>, runs: nat, draws: seq<nat>)
    requires runs > 0
    ensures var t := Build(scope, formation, lim, data, [], 0, map[], draws);
      var r := RunAll(scope, formation, lim, data, runs, draws);
      && t.used <= |draws|
      && (t.exit == DrawsExhausted ==> r == Runs([], t.used, DrawsExhausted))
      && (t.exit == Returned ==>
            r == AfterRuns([Flatten(t.blocks)], t.used, RunAll(scope, formation, lim, data, runs - 1, draws[t.used..])))
  {
  }

  lemma FramesAppend(teams: seq<seq<Player>>, team: seq<Player>, from: nat)
    ensures Frames(teams + [team], from) == Frames(teams, from) + [Tag(team, from + |teams|)]
    decreases |teams|
  {
    if teams == [] {
      assert teams + [team] == [team];
    } else {
      assert (teams + [team])[1..] == teams[1..] + [team];
      FramesAppend(teams[1..], team, from + 1);
    }
  }

  /** Appending the next run's tagged team keeps the frames in step with the teams. */
  lemma FramesSnoc(teams: seq<seq<Player>>, team: seq<Player>, runId: nat, frames: seq<seq<Row>>,
                   teams': seq<seq<Player>>, frames': seq<seq<Row>>)
    requires frames == Frames(teams, 0) && runId == |teams|
    requires teams' == teams + [team] && frames' == frames + [Tag(team, runId)]
    ensures frames' == Frames(teams', 0)
  {
    FramesAppend(teams, team, 0);
  }

  /**
   * A pass of the run loop whose team is complete, stated on the loop's state
   * before the pass (`teams`, `used`, `left` runs to go, the `rest` of the
   * draws) and after it.
   */
  lemma RunAllStepAt(scope: Scope, formation: seq<Slot>, lim: Limits, data: seq<Player>,
                     teams: seq<seq<Player>>, used: nat, left: nat, rest: seq<nat>, team: seq<Player>, n: nat,
                     teams': seq<seq<Player>>, used': nat, left': nat, rest': seq<nat>)
    requires left > 0
    requires Build(scope, formation, lim, data, [], 0, map[], rest) == Team(Build(scope, formation, lim, data, [], 0, map[], rest).blocks, n, Returned)
    requires team == Flatten(Build(scope, formation, lim, data, [], 0, map[], rest).blocks)
    requires teams' == teams + [team] && used' == used + n && left' == left - 1 && rest' == rest[n..]
    ensures AfterRuns(teams, used, RunAll(scope, formation, lim, data, left, rest))
         == AfterRuns(teams', used', RunAll(scope, formation, lim, data, left', rest'))
  {
    var next := RunAll(scope, formation, lim, data, left', rest');
    RunAllStep(scope, formation, lim, data, left, rest);
    assert RunAll(scope, formation, lim, data, left, rest) == AfterRuns([team], n, next);
    AfterRunsAssoc(teams, used, team, n, next);
  }

  /** A pass of the run loop whose draws run out ends the runs. */
  lemma RunAllStopAt(scope: Scope, formation: seq<Slot>, lim: Limits, data: seq<Player>,
                     teams: seq<seq<Player>>, used: nat, left: nat, rest: seq<nat>, n: nat)
    requires left > 0
    requires Build(scope, formation, lim, data, [], 0, map[], rest).exit == DrawsExhausted
    requires Build(scope, formation, lim, data, [], 0, map[], rest).used == n
    ensures AfterRuns(teams, used, RunAll(scope, formation, lim, data, left, rest)) == Runs(teams, used + n, DrawsExhausted)
  {
    assert teams + [] == teams;
  }

  /**
   * The run loop: each run builds a team with the draws left over, sets the
   * team's `run_ID` and appends the tagged team to `allTeams`.
   */
  method RunTeams(scope: Scope, formation: seq<Slot>, lim: Limits, data: seq<Player>, runs: nat, draws: seq<nat>)
    returns (allTeams: seq<seq<Row>>, used: nat, exit: Exit)
    ensures var r := RunAll(scope, formation, lim, data, runs, draws);
      allTeams == Frames(r.teams, 0) && used == r.used && exit == r.exit
  {
    allTeams, used, exit := [], 0, Returned;
    ghost var teams: seq<seq<Player>> := [];
    ghost var whole := RunAll(scope, formation, lim, data, runs, draws);
    assert [] + whole.teams == whole.teams;
    var runId: nat, left: nat, rest := 0, runs, draws;
    while left > 0
      invariant runId + left == runs && |teams| == runId
      invariant allTeams == Frames(teams, 0)
      invariant whole == AfterRuns(teams, used, RunAll(scope, formation, lim, data, left, rest))
    {
      var team, u, e := SelectRandomTeam(scope, formation, lim, data, rest);
      if e == DrawsExhausted {
        RunAllStopAt(scope, formation, lim, data, teams, used, left, rest, u);
        used, exit := used + u, DrawsExhausted;
        return;
      }
      ghost var teams0, used0, left0, rest0 := teams, used, left, rest;
      used, left, rest := used + u, left - 1, rest[u..];
      RunAllStepAt(scope, formation, lim, data, teams0, used0, left0, rest0, team, u, teams + [team], used, left, rest);
      ghost var allTeams0 := allTeams;
      allTeams := allTeams + [Tag(team, runId)];
      teams := teams + [team];
      FramesSnoc(teams0, team, runId, allTeams0, teams, allTeams);
      runId := runId + 1;
    }
    assert teams + [] == teams;
  }

  /** The run loop followed by the analysis of its frames. */
  method Simulate(scope: Scope, formation: seq<Slot>, lim: Limits, data: seq<Player>, runs: nat, draws: seq<nat>)
    returns (outcome: Outcome, used: nat)
    ensures outcome == Simulation(scope, formation, lim, data, runs, draws)
    ensures used == RunAll(scope, formation, lim, data, runs, draws).used
  {
    var allTeams, exit;
    allTeams, used, exit := RunTeams(scope, formation, lim, data, runs, draws);
    if exit == DrawsExhausted {
      outcome := DrawsRanOut;
    } else {
      outcome := Analyse(allTeams);
    }
  }

  lemma {:induction false} RunTeamAppend(a: seq<Row>, b: seq<Row>, run: nat)
    ensures RunTeam(a + b, run) == RunTeam(a, run) + RunTeam(b, run)
  {
    if a == [] {
      assert a + b == b;
    } else {
      var h := Pick(a[0], run);
      assert (a + b)[0] == a[0] && (a + b)[1..] == a[1..] + b;
      assert RunTeam(a + b, run) == h + RunTeam(a[1..] + b, run);
      RunTeamAppend(a[1..], b, run);
      assert h + (RunTeam(a[1..], run) + RunTeam(b, run)) == (h + RunTeam(a[1..], run)) + RunTeam(b, run);
    }
  }

  /** Selecting one run from a tagged team gives back the team, or nothing. */
  lemma {:induction false} RunTeamTag(team: seq<Player>, runId: nat, run: nat)
    ensures RunTeam(Tag(team, runId), run) == if runId == run then team else []
  {
    if team != [] {
      assert Tag(team, runId)[1..] == Tag(team[1..], runId);
      RunTeamTag(team[1..], runId, run);
      assert team == [team[0]] + team[1..];
    }
  }

  /** The rows of run `run` in the first frame and in the frames after it, joined. */
  lemma RunTeamSplit(teams: seq<seq<Player>>, from: nat, run: nat, head: seq<Player>, tail: seq<Player>)
    requires teams != [] && head == RunTeam(Tag(teams[0], from), run)
    requires tail == if from + 1 <= run < from + |teams| then teams[1..][run - (from + 1)] else []
    ensures head + tail == if from <= run < from + |teams| then teams[run - from] else []
  {
    RunTeamTag(teams[0], from, run);
    if run == from {
      assert head + tail == teams[0] + [];
    } else if from < run < from + |teams| {
      assert teams[1..][run - (from + 1)] == teams[run - from];
      assert head + tail == [] + tail;
    } else {
      assert head + tail == [] + [];
    }
  }

  /** In the concatenated frames, each run's rows are exactly that run's team. */
  lemma {:induction false} RunTeamFrames(teams: seq<seq<Player>>, from: nat, run: nat)
    ensures RunTeam(Flatten(Frames(teams, from)), run)
         == if from <= run < from + |teams| then teams[run - from] else []
    decreases |teams|
  {
    if teams != [] {
      var fs := Frames(teams, from);
      assert fs[0] == Tag(teams[0], from) && fs[1..] == Frames(teams[1..], from + 1);
      assert Flatten(fs) == fs[0] + Flatten(fs[1..]);
      RunTeamAppend(fs[0], Flatten(fs[1..]), run);
      RunTeamFrames(teams[1..], from + 1, run);
      RunTeamSplit(teams, from, run, RunTeam(fs[0], run), RunTeam(Flatten(fs[1..]), run));
    }
  }

  /** Run `k`'s rows in the concatenated frames of `teams` are that run's team. */
  lemma RunTeamOfFrames(teams: seq<seq<Player>>, k: nat)
    requires k < |teams|
    ensures RunTeam(Flatten(Frames(teams, 0)), k) == teams[k]
  {
    RunTeamFrames(teams, 0, k);
  }

  /**
   * The analysis of the frames of `teams` fails exactly when there are no
   * frames or every team is empty, and otherwise reports the first run among
   * those with the highest team score, with that run's team and sums.
   */
  lemma AnalyseFrames(teams: seq<seq<Player>>)
    ensures Analyse(Frames(teams, 0)) == NothingToConcatenate <==> teams == []
    ensures Analyse(Frames(teams, 0)) == NoScoredRows
        <==> teams != [] && forall k :: 0 <= k < |teams| ==> teams[k] == []
    ensures Analyse(Frames(teams, 0)) != DrawsRanOut
    ensures var o := Analyse(Frames(teams, 0));
      o.Chosen? ==>
        var b := o.report.bestRun;
        && b < |teams| && teams[b] != []
        && o.report.bestTeam == teams[b]
        && o.report.totalPoints == TotalScore(teams[b])
        && o.report.totalSpend == TotalValue(teams[b])
        && (forall k :: 0 <= k < |teams| && teams[k] != [] ==> TotalScore(teams[k]) <= o.report.totalPoints)
        && (forall k :: 0 <= k < b && teams[k] != [] ==> TotalScore(teams[k]) < o.report.totalPoints)
  {
    var frames := Frames(teams, 0);
    if teams == [] {
      assert frames == [];
    } else {
      var rows := Flatten(frames);
      forall k | 0 <= k < |teams| ensures RunTeam(rows, k) == teams[k] {
        RunTeamOfFrames(teams, k);
      }
      var m := IdxMax(rows, |teams|);
      if m.None? {
        assert Analyse(frames) == NoScoredRows;
      } else {
        var b := m.value;
        assert Analyse(frames) == Chosen(Report(b, teams[b], TotalScore(teams[b]), TotalValue(teams[b])));
        forall k | 0 <= k < |teams| && teams[k] != []
          ensures TotalScore(teams[k]) <= TotalScore(teams[b])
          ensures k < b ==> TotalScore(teams[k]) < TotalScore(teams[b])
        {
          assert RunTotal(rows, k) == TotalScore(teams[k]);
        }
      }
    }
  }

  /**
   * What every team of a run satisfies: no player twice, no more players
   * than the formation asks for, and, when spend and club counts carry over
   * between positions, the spend limit and the club cap.
   */
  ghost predicate ValidTeam(scope: Scope, formation: seq<Slot>, lim: Limits, team: seq<Player>)
  {
    && Distinct(Ids(team))
    && |team| <= Requested(formation)
    && (scope == WholeTeam ==> WithinLimits(team, lim, 0, map[]))
  }

  ghost predicate AllValid(scope: Scope, formation: seq<Slot>, lim: Limits, teams: seq<seq<Player>>)
  {
    forall k :: 0 <= k < |teams| ==> ValidTeam(scope, formation, lim, teams[k])
  }

  /** A team built from scratch is a valid team. */
  lemma BuiltTeamValid(scope: Scope, formation: seq<Slot>, lim: Limits, data: seq<Player>, draws: seq<nat>)
    ensures ValidTeam(scope, formation, lim, Flatten(Build(scope, formation, lim, data, [], 0, map[], draws).blocks))
  {
    BuildIdsDistinct(scope, formation, lim, data, [], 0, map[], draws);
    BuildSize(scope, formation, lim, data, [], 0, map[], draws);
    if scope == WholeTeam {
      BuildWholeTeamLimits(formation, lim, data, [], 0, map[], draws);
    }
  }

  /** Each run's team, built from scratch, is a valid team. */
  lemma {:induction false} RunAllTeamsValid(scope: Scope, formation: seq<Slot>, lim: Limits, data: seq<Player>,
                                            runs: nat, draws: seq<nat>)
    ensures AllValid(scope, formation, lim, RunAll(scope, formation, lim, data, runs, draws).teams)
    decreases runs
  {
    if runs > 0 {
      var t := Build(scope, formation, lim, data, [], 0, map[], draws);
      if t.exit == Returned {
        var rest := RunAll(scope, formation, lim, data, runs - 1, draws[t.used..]);
        var all := RunAll(scope, formation, lim, data, runs, draws).teams;
        assert all == [Flatten(t.blocks)] + rest.teams;
        RunAllTeamsValid(scope, formation, lim, data, runs - 1, draws[t.used..]);
        forall k | 0 <= k < |all| ensures ValidTeam(scope, formation, lim, all[k]) {
          if k == 0 {
            BuiltTeamValid(scope, formation, lim, data, draws);
          } else {
            assert all[k] == rest.teams[k - 1];
          }
        }
      }
    }
  }

  ghost predicate AllOfSize(teams: seq<seq<Player>>, size: nat)
  {
    forall k :: 0 <= k < |teams| ==> |teams[k]| == size
  }

  lemma AllOfSizeCons(team: seq<Player>, teams: seq<seq<Player>>, all: seq<seq<Player>>, size: nat)
    requires |team| == size && AllOfSize(teams, size) && all == [team] + teams
    ensures AllOfSize(all, size)
  {
    forall k | 0 < k < |all| ensures |all[k]| == size {
      assert all[k] == teams[k - 1];
    }
  }

  /** A build that returns on a stocked formation has the formation's total number of players. */
  lemma BuiltTeamFull(scope: Scope, formation: seq<Slot>, lim: Limits, data: seq<Player>, draws: seq<nat>)
    requires Stocked(formation, data)
    requires Build(scope, formation, lim, data, [], 0, map[], draws).exit == Returned
    ensures |Flatten(Build(scope, formation, lim, data, [], 0, map[], draws).blocks)| == Requested(formation)
  {
    BuildSize(scope, formation, lim, data, [], 0, map[], draws);
  }

  /**
   * When the formation is stocked, every team the runs keep has exactly the
   * formation's total number of players: a run keeps its team only when the
   * build returned.
   */
  lemma {:induction false} RunAllTeamsFull(scope: Scope, formation: seq<Slot>, lim: Limits, data: seq<Player>,
                                           runs: nat, draws: seq<nat>)
    ensures Stocked(formation, data) ==> AllOfSize(RunAll(scope, formation, lim, data, runs, draws).teams, Requested(formation))
    decreases runs
  {
    if runs > 0 && Stocked(formation, data) {
      var t := Build(scope, formation, lim, data, [], 0, map[], draws);
      if t.exit == Returned {
        var rest := RunAll(scope, formation, lim, data, runs - 1, draws[t.used..]);
        var all := RunAll(scope, formation, lim, data, runs, draws).teams;
        assert all == [Flatten(t.blocks)] + rest.teams;
        RunAllTeamsFull(scope, formation, lim, data, runs - 1, draws[t.used..]);
        assert AllOfSize(rest.teams, Requested(formation));
        BuiltTeamFull(scope, formation, lim, data, draws);
        assert |Flatten(t.blocks)| == Requested(formation);
        AllOfSizeCons(Flatten(t.blocks), rest.teams, all, Requested(formation));
      }
    }
  }

  /**
   * The reported team is the team of the reported run, the first run among
   * those with the highest score; its points and spend are its sums; it has
   * no player twice and no more players than the formation asks for, and
   * exactly as many when the formation is stocked; and
   * when spend and club counts carry over between positions, its spend is
   * within the limit and no club is over the cap.
   */
  lemma SimulationReport(scope: Scope, formation: seq<Slot>, lim: Limits, data: seq<Player>,
                         runs: nat, draws: seq<nat>, report: Report)
    requires Simulation(scope, formation, lim, data, runs, draws) == Chosen(report)
    ensures var teams := RunAll(scope, formation, lim, data, runs, draws).teams;
      && report.bestRun < runs && |teams| == runs
      && report.bestTeam == teams[report.bestRun] && report.bestTeam != []
      && (forall k :: 0 <= k < runs && teams[k] != [] ==> TotalScore(teams[k]) <= report.totalPoints)
      && (forall k :: 0 <= k < report.bestRun && teams[k] != [] ==> TotalScore(teams[k]) < report.totalPoints)
    ensures report.totalPoints == TotalScore(report.bestTeam) && report.totalSpend == TotalValue(report.bestTeam)
    ensures Distinct(Ids(report.bestTeam)) && |report.bestTeam| <= Requested(formation)
    ensures Stocked(formation, data) ==> |report.bestTeam| == Requested(formation)
    ensures scope == WholeTeam ==>
      && report.totalSpend <= lim.maxSpend
      && forall c :: CountClub(report.bestTeam, c) > 0 ==> CountClub(report.bestTeam, c) <= lim.clubCap
  {
    var r := RunAll(scope, formation, lim, data, runs, draws);
    AnalyseFrames(r.teams);
    RunAllTeamsValid(scope, formation, lim, data, runs, draws);
    RunAllTeamsFull(scope, formation, lim, data, runs, draws);
    assert ValidTeam(scope, formation, lim, r.teams[report.bestRun]);
  }

  /**
   * The simulation stops without a report exactly when the draws run out,
   * when there are no runs, or when every run's team is empty.
   */
  lemma SimulationFailures(scope: Scope, formation: seq<Slot>, lim: Limits, data: seq<Player>,
                           runs: nat, draws: seq<nat>)
    ensures var r := RunAll(scope, formation, lim, data, runs, draws);
      var o := Simulation(scope, formation, lim, data, runs, draws);
      && (o == DrawsRanOut <==> r.exit == DrawsExhausted)
      && (o == NothingToConcatenate <==> r.exit == Returned && runs == 0)
      && (o == NoScoredRows <==> r.exit == Returned && runs > 0 && forall k :: 0 <= k < runs ==> r.teams[k] == [])
  {
    var r := RunAll(scope, formation, lim, data, runs, draws);
    AnalyseFrames(r.teams);
  }

  /**
   * With the script's own formation and limits: the reported team has at most
   * 15 distinct players, exactly 15 when every position has players, and when spend and club counts carry over between
   * positions it costs at most 1000 and has at most 4 players from any club.
   */
  lemma ScriptReport(scope: Scope, data: seq<Player>, runs: nat, draws: seq<nat>, report: Report)
    requires Simulation(scope, TeamStructure, SimulationLimits, data, runs, draws) == Chosen(report)
    ensures |report.bestTeam| <= 15 && Distinct(Ids(report.bestTeam))
    ensures Stocked(TeamStructure, data) ==> |report.bestTeam| == 15
    ensures scope == WholeTeam ==>
      && report.totalSpend <= 1000
      && forall c :: CountClub(report.bestTeam, c) > 0 ==> CountClub(report.bestTeam, c) <= 4
  {
    SimulationReport(scope, TeamStructure, SimulationLimits, data, runs, draws, report);
    assert Requested(TeamStructure) == 15;
  }
}
