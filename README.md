# Random fantasy-team selection, modelled in Dafny

The modelled program picks a fantasy football squad from a table of players.
Each player row has an id, a position code, a club, a price (`value`, in tenths
of a currency unit) and a recent average score. The program repeats a random
team build many times and keeps the run whose team scores highest.

This project models that team selection core in `main.py`, in four Dafny modules:

- `roster.dfy` (`Roster`) covers the player rows and the `element_type` code-to-position map (codes
  1..4 become GK, DEF, MID, FWD). It also holds the column reductions the selection uses:
  the position filter, sums of `value` and score, and per-club counts.
- `position_sampler.dfy` (`PositionSampler`) covers `select_position`, a rejection-sampling loop.
  - A drawn player is accepted when three checks pass: the id is not chosen yet, the
    player's club is below the club cap in the call's own copy of the counter, and
    the running spend plus the price stays within the spend limit.
  - `Sample` is the specification function. `SelectPosition` is the loop itself; it
    is proved equal to `Sample`, and the properties are proved about `Sample`.
- `team_builder.dfy` (`TeamBuilder`) covers `select_random_team`. It filters the table by position
  and samples each formation entry in order. Only the chosen ids carry over from one
  position to the next.
  - The `Scope` flag selects the behaviour. `PerPosition` is the code as written: every
    position starts again from spend 0 and an empty club counter. `WholeTeam` is the
    corrected variant, where spend and club counts carry over.
  - `Build` is the specification function. `SelectRandomTeam` is the loop, proved equal to it.
- `driver.dfy` (`Driver`) covers the simulation script.
  - It runs the team build `runs` times and tags each team with its `run_ID`.
  - It then concatenates the tagged teams, sums the score per `run_ID`, and takes the
    first run with the highest sum (`idxmax`).
  - It reports that run's players, their score sum and their total `value`.
  - `TeamStructure` (2 GK, 5 DEF, 5 MID, 3 FWD) and `SimulationLimits` (club cap 4,
    spend limit 1000) are the script's constants.

Randomness is an explicit input. `players_df.sample()` becomes a sequence of
natural-number draws, and draw `d` picks row `d % |pool|` of the pool. Runs and
positions consume the draws in order. The source loop draws forever when no
player can be accepted. The model instead stops when the draws run out and
reports `DrawsExhausted`, or `DrawsRanOut` at the level of the simulation.

## Model

| member | source | states |
|---|---|---|
| Roster.DecodePosition | main.py:43 | codes 1..4 decode to a position and every other code to a missing value; a code decodes to `p` exactly when it is `p`'s code |
| Roster.PlayersAt | main.py:97 | a row is kept exactly when it is a row of the table whose decoded position is the requested one, and there are no more kept rows than rows in the table |
| Roster.PlayersAtCounts | main.py:97 | every row of the requested position is kept as many times as the table has it, and every other row is kept zero times |
| Roster.PlayersAtAppend | main.py:97 | filtering a table split in two gives the filtered first part followed by the filtered second part, so kept rows stay in table order |
| PositionSampler.Sample | main.py:73-88 | the selection has at most `count` players, all from the pool; when the loop ends normally on a non-empty pool it has exactly `count`; an empty pool returns nothing and consumes no draw; running out of draws happens only with fewer than `count` accepted and every draw used |
| PositionSampler.SelectPosition | main.py:67-88 | the loop, working on local copies of the ids, spend and club counter, returns the selection, draw count and exit of the sampling specification applied to the caller's unchanged inputs |
| PositionSampler.SampleIdsFresh | main.py:69-85 | no accepted id was among the ids passed in, and the accepted ids are pairwise distinct |
| PositionSampler.SampleClubCap | main.py:70-84 | for every club that is represented, the starting count plus the players accepted from it stays within the club cap |
| PositionSampler.SampleBudget | main.py:81-83 | after every acceptance the starting spend plus the values accepted so far is within the spend limit, and so is the final total of a non-empty selection |
| PositionSampler.SampleWithinLimits | main.py:79-85 | one call's selection respects both the club cap and the spend limit relative to its starting counter and spend |
| TeamBuilder.Build | main.py:90-101 | at most one block per formation entry and exactly one per entry when the build returns; running out of draws uses every draw and leaves at least one block |
| TeamBuilder.SelectRandomTeam | main.py:90-101 | the loop over the formation returns the concatenated blocks, the draw count and the exit of the build specification started from no players, spend 0 and an empty counter |
| TeamBuilder.BuildPositions | main.py:96-99 | the i-th block holds only rows of the table whose position is the i-th formation entry's position |
| TeamBuilder.BuildIdsDistinct | main.py:98-99 | the team's ids are pairwise distinct across all positions, and none of them was already chosen |
| TeamBuilder.BuildPerPositionLimits | main.py:92-98 | as written, each position's block on its own respects the club cap and spend limit measured from the same starting spend and counter |
| TeamBuilder.BuildSize | main.py:96-99 | the team never has more players than the formation total; a build that returns on a stocked formation (non-negative counts and players at every position) fills each position with exactly its count, so the team size is the formation total |
| TeamBuilder.BuildWholeTeamLimits | main.py:92-99 | with spend and club counts carried between positions, the whole team respects the club cap and the spend limit |
| TeamBuilder.PerPositionOverrunsTeamLimits | main.py:92-98 | as written, a goalkeeper and a defender of one club, each priced at the spend limit, both get picked under a club cap of 1: the team spends twice the limit and has two players from the club |
| Driver.IdxMax | main.py:140-141 | the answer is a run id below `n` that has rows; no run with rows has a higher score sum and every earlier run with rows has a strictly lower one; there is no answer exactly when no run below `n` has rows |
| Driver.RunAll | main.py:134-137 | when every run finishes there is one team per run; running out of draws leaves fewer teams and uses every draw |
| Driver.RunTeams | main.py:132-137 | the loop returns the tagged frames of the teams of the run specification, numbered from 0, with its draw count and exit |
| Driver.Simulate | main.py:131-143 | the run loop followed by the analysis produces the outcome of the simulation specification `Driver.Simulation` and consumes the draws of its runs |
| Driver.RunTeamFrames | main.py:136-140 | in the concatenated frames, the rows tagged with a run id are exactly that run's team, and no rows carry other ids |
| Driver.AnalyseFrames | main.py:139-143 | for the analysis `Driver.Analyse` (concatenation, per-run sums, `idxmax`, the best run's sums) of the runs' frames: there is nothing to concatenate exactly when there are no runs; the per-run score sums cannot be taken exactly when every team is empty, since then no row carries the score column; otherwise the chosen run's team is non-empty, its score is maximal, every earlier team's score is strictly lower, and the reported points and spend are that team's sums |
| Driver.RunAllTeamsValid | main.py:134-137 | every team built in the runs has distinct ids and at most the formation total, and with carried limits it respects the spend limit and club cap |
| Driver.RunAllTeamsFull | main.py:134-137 | on a stocked formation, every team the runs keep has exactly the formation total, since a run keeps its team only when the build returned |
| Driver.SimulationReport | main.py:139-143 | a report names a run below `runs`, whose team is non-empty and has the first maximal score, and reports that team's points and spend; the team has distinct ids and at most the formation total, exactly the total on a stocked formation, and with carried limits its spend and club counts are within the limits |
| Driver.SimulationFailures | main.py:134-141 | the simulation `Driver.Simulation` stops without a report exactly when the draws run out, when there are no runs, or when every run's team is empty |
| Driver.ScriptReport | main.py:107-108 | with the script's formation and limits, the reported team has at most 15 players with distinct ids, exactly 15 when every position has players in the table; with carried limits it spends at most 1000 with at most 4 players per club |

## Left out

- Downloading the data (`data_pull.py`) is not modelled. It is network I/O.
- Reading the per-player CSV files (`ingest_player_data`) is not modelled. It is filesystem I/O.
- Name normalisation (`normalize_name`) is not modelled. It is Unicode handling.
- Of the merge in `merge_player_data`, only the position-code map is modelled. The rest is table plumbing.
- The table columns the selection never reads are not modelled. A row keeps only id, position code, club, value and score.
- The recent-form mean, the previous-week filter and the `fillna` at main.py:118-128 are not modelled. The score is taken as already computed, and as an integer rather than a float.
- The printing of the best team (main.py:145-149) is not modelled. It is output only.
- The run count `RUNS` (main.py:109) is a parameter `runs` and not the constant 100000.
- The random row choice is modelled as explicit draws, `d % |pool|`. No probability distribution is modelled.
- PositionSampler.Sample: where the source loops forever because nothing can be accepted, the model ends with `DrawsExhausted` once the draws run out.
- `select_position`'s `position` argument is not modelled. It is never read.
- The copy of the club counter at main.py:70 is the local assignment `teams := currentTeams` in `SelectPosition`. Dafny's maps are values, so the caller's counter cannot change; aliasing is not modelled.
- Driver.Analyse: where pandas raises, the model returns an outcome instead. `NothingToConcatenate` stands for the concatenation of no frames at main.py:139. `NoScoredRows` stands for every team being empty: the concatenated frame then has only the `run_ID` column, and selecting the score column for the per-run sums at main.py:140 fails.

## Findings

| source | as written | input that shows it | evidently intended | confidence | as-written member | corrected member |
|---|---|---|---|---|---|---|
| main.py:92-98 | `total_spend` and `team_counts` are set once and never updated, so each position is checked against spend 0 and an empty club counter | a goalkeeper and a defender of the same club, each of value `v`, with club cap 1, spend limit `v` and draws `[0, 0]` | the spend limit (1000) and the club cap (4) bound the whole team | not executed | TeamBuilder.PerPositionOverrunsTeamLimits | TeamBuilder.BuildWholeTeamLimits |

The driver takes `Scope` as a parameter. This keeps the as-written behaviour
(`PerPosition`) and the corrected one (`WholeTeam`) side by side, and
`Driver.SimulationReport` and `Driver.ScriptReport` state the team-wide limits
for the corrected one.
