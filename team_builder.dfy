/**
 * `select_random_team`: for each entry of the formation, in order, filter the
 * table by position and sample that position, excluding the ids chosen for
 * earlier positions.
 *
 * As written, the spend and the club counter handed to every position are the
 * initial 0 and empty counter: they are never updated, so the spend limit and
 * the club cap bound each position separately (`PerPosition`). `WholeTeam` is
 * the corrected builder that carries spend and club counts from one position
 * to the next, and bounds the team as a whole.
 */
module TeamBuilder {
  import opened Roster
  import opened PositionSampler

  /** One entry of the formation: a position and how many players it needs. */
  datatype Slot = Slot(position: Position, count: int)

  /** What the spend limit and club cap bound. */
  datatype Scope = PerPosition | WholeTeam

  /** One block of selected players per position processed, and the draws consumed. */
  datatype Team = Team(blocks: seq<seq<Player>>, used: nat, exit: Exit)

  /** The spend handed to the next position. */
  function NextSpend(scope: Scope, spend: int, picked: seq<Player>): int
  {
    if scope == WholeTeam then spend + TotalValue(picked) else spend
  }

  /** The club counter handed to the next position. */
  function NextClubs(scope: Scope, clubs: map<int, int>, picked: seq<Player>): map<int, int>
  {
    if scope == WholeTeam then AddClubs(clubs, picked) else clubs
  }

  /**
   * The team built from the formation entries `formation`, given the players
   * `chosen` so far and the spend and club counter handed to the first entry.
   * A position whose draws run out ends the build.
   */
  function Build(scope: Scope, formation: seq<Slot>, lim: Limits, data: seq<Player>,
                 chosen: seq<Player>, spend: int, clubs: map<int, int>, draws: seq<nat>): (t: Team)
    ensures t.used <= |draws|
    ensures |t.blocks| <= |formation|
    ensures t.exit == Returned ==> |t.blocks| == |formation|
    ensures t.exit == DrawsExhausted ==> t.used == |draws| && |t.blocks| > 0
    decreases |formation|
  {
    if formation == [] then Team([], 0, Returned)
    else
      var slot := formation[0];
      var f := Sample(slot.count, lim, PlayersAt(data, slot.position), Ids(chosen), spend, clubs, draws);
      if f.exit == DrawsExhausted then Team([f.selected], f.used, DrawsExhausted)
      else
        var rest := Build(scope, formation[1..], lim, data, chosen + f.selected,
                          NextSpend(scope, spend, f.selected), NextClubs(scope, clubs, f.selected),
                          draws[f.used..]);
        Team([f.selected] + rest.blocks, f.used + rest.used, rest.exit)
  }

  /** `t` preceded by the blocks and draws of the positions already done. */
  function AfterBlocks(blocks: seq<seq<Player>>, used: nat, t: Team): Team
  {
    Team(blocks + t.blocks, used + t.used, t.exit)
  }

  lemma AfterBlocksAssoc(blocks: seq<seq<Player>>, used: nat, more: seq<seq<Player>>, n: nat, t: Team)
    ensures AfterBlocks(blocks, used, AfterBlocks(more, n, t)) == AfterBlocks(blocks + more, used + n, t)
    ensures AfterBlocks(blocks, used, Team(more, n, t.exit)) == Team(blocks + more, used + n, t.exit)
  {
    assert blocks + (more + t.blocks) == (blocks + more) + t.blocks;
  }

  /** One step of `Build`: the first entry's sample followed by the build of the rest. */
  lemma BuildStep(scope: Scope, formation: seq<Slot>, lim: Limits, data: seq<Player>,
                  chosen: seq<Player>, spend: int, clubs: map<int, int>, draws: seq<nat>)
    requires formation != []
    ensures var f := Sample(formation[0].count, lim, PlayersAt(data, formation[0].position), Ids(chosen), spend, clubs, draws);
      var t := Build(scope, formation, lim, data, chosen, spend, clubs, draws);
      && f.used <= |draws|
      && (f.exit == DrawsExhausted ==> t == Team([f.selected], f.used, DrawsExhausted))
      && (f.exit == Returned ==>
            t == AfterBlocks([f.selected], f.used,
                   Build(scope, formation[1..], lim, data, chosen + f.selected,
                         NextSpend(scope, spend, f.selected), NextClubs(scope, clubs, f.selected), draws[f.used..])))
  {
  }

  /**
   * One iteration of `SelectRandomTeam`'s loop: the build of the entries from
   * `i` on is the block sampled for entry `i` followed by the build of the
   * entries from `i + 1` on, or just that block when its draws ran out.
   */
  lemma BuildStepAt(scope: Scope, lim: Limits, data: seq<Player>,
                    blocks: seq<seq<Player>>, used: nat, slots: seq<Slot>, chosen: seq<Player>,
                    spend: int, clubs: map<int, int>, rest: seq<nat>, picked: seq<Player>, n: nat, e: Exit,
                    blocks': seq<seq<Player>>, used': nat, slots': seq<Slot>, chosen': seq<Player>,
                    spend': int, clubs': map<int, int>, rest': seq<nat>)
    requires slots != []
    requires Fill(picked, n, e)
          == Sample(slots[0].count, lim, PlayersAt(data, slots[0].position), Ids(chosen), spend, clubs, rest)
    requires blocks' == blocks + [picked] && used' == used + n && rest' == rest[n..] && slots' == slots[1..]
    requires chosen' == chosen + picked
    requires spend' == NextSpend(scope, spend, picked) && clubs' == NextClubs(scope, clubs, picked)
    ensures var before := AfterBlocks(blocks, used, Build(scope, slots, lim, data, chosen, spend, clubs, rest));
      && (e == DrawsExhausted ==> before == Team(blocks', used', DrawsExhausted))
      && (e == Returned ==> before == AfterBlocks(blocks', used', Build(scope, slots', lim, data, chosen', spend', clubs', rest')))
  {
    BuildStep(scope, slots, lim, data, chosen, spend, clubs, rest);
    if e == Returned {
      AfterBlocksAssoc(blocks, used, [picked], n, Build(scope, slots', lim, data, chosen', spend', clubs', rest'));
    } else {
      AfterBlocksAssoc(blocks, used, [picked], n, Team([], 0, DrawsExhausted));
    }
  }

  /**
   * `select_random_team`: the selected players of all positions, in formation
   * order. With `PerPosition` every position gets spend 0 and an empty club
   * counter, as the code does.
   */
  method SelectRandomTeam(scope: Scope, formation: seq<Slot>, lim: Limits, data: seq<Player>, draws: seq<nat>)
    returns (team: seq<Player>, used: nat, exit: Exit)
    ensures var t := Build(scope, formation, lim, data, [], 0, map[], draws);
      team == Flatten(t.blocks) && used == t.used && exit == t.exit
  {
    var totalSpend := 0;
    var teamCounts: map<int, int> := map[];
    team, used, exit := [], 0, Returned;
    var slots, rest := formation, draws;
    ghost var blocks: seq<seq<Player>> := [];
    ghost var whole := Build(scope, slots, lim, data, team, totalSpend, teamCounts, rest);
    assert [] + whole.blocks == whole.blocks;
    while slots != []
      invariant team == Flatten(blocks)
      invariant whole == AfterBlocks(blocks, used, Build(scope, slots, lim, data, team, totalSpend, teamCounts, rest))
      decreases |slots|
    {
      var slot := slots[0];
      var players := PlayersAt(data, slot.position);
      var picked, n, e := SelectPosition(slot.count, lim, players, team, totalSpend, teamCounts, rest);
      ghost var blocks0, used0, slots0, team0, spend0, counts0, rest0
        := blocks, used, slots, team, totalSpend, teamCounts, rest;
      blocks, team, used := blocks + [picked], team + picked, used + n;
      slots, rest := slots[1..], rest[n..];
      totalSpend := NextSpend(scope, totalSpend, picked);
      teamCounts := NextClubs(scope, teamCounts, picked);
      BuildStepAt(scope, lim, data, blocks0, used0, slots0, team0, spend0, counts0, rest0, picked, n, e,
                  blocks, used, slots, team, totalSpend, teamCounts, rest);
      FlattenAppend(blocks0, picked);
      if e == DrawsExhausted {
        exit := DrawsExhausted;
        return;
      }
    }
    assert blocks + [] == blocks;
  }

  /**
   * Every player of the i-th block comes from the table and has the position
   * of the i-th formation entry.
   */
  ghost predicate AtPositions(blocks: seq<seq<Player>>, formation: seq<Slot>, data: seq<Player>)
  {
    forall i, p :: 0 <= i < |blocks| && i < |formation| && p in blocks[i] ==>
      p in data && DecodePosition(p.elementType) == Some(formation[i].position)
  }

  lemma AtPositionsCons(block: seq<Player>, rest: seq<seq<Player>>, formation: seq<Slot>, data: seq<Player>)
    requires formation != []
    requires forall p :: p in block ==> p in data && DecodePosition(p.elementType) == Some(formation[0].position)
    requires AtPositions(rest, formation[1..], data)
    ensures AtPositions([block] + rest, formation, data)
  {
    var blocks := [block] + rest;
    forall i, p | 0 <= i < |blocks| && i < |formation| && p in blocks[i]
      ensures p in data && DecodePosition(p.elementType) == Some(formation[i].position)
    {
      if i > 0 {
        assert blocks[i] == rest[i - 1];
        assert formation[1..][i - 1] == formation[i];
      }
    }
  }

  /** The players sampled for one formation entry come from the table and have its position. */
  lemma SampleAtPosition(slot: Slot, lim: Limits, data: seq<Player>, ids: seq<int>,
                         spend: int, clubs: map<int, int>, draws: seq<nat>)
    ensures var f := Sample(slot.count, lim, PlayersAt(data, slot.position), ids, spend, clubs, draws);
      forall p :: p in f.selected ==> p in data && DecodePosition(p.elementType) == Some(slot.position)
  {
  }

  /**
   * Every player chosen for the i-th formation entry comes from the table and
   * has that entry's position.
   */
  lemma {:induction false} BuildPositions(scope: Scope, formation: seq<Slot>, lim: Limits, data: seq<Player>,
                                          chosen: seq<Player>, spend: int, clubs: map<int, int>, draws: seq<nat>)
    ensures AtPositions(Build(scope, formation, lim, data, chosen, spend, clubs, draws).blocks, formation, data)
    decreases |formation|
  {
    if formation != [] {
      var slot := formation[0];
      var f := Sample(slot.count, lim, PlayersAt(data, slot.position), Ids(chosen), spend, clubs, draws);
      BuildStep(scope, formation, lim, data, chosen, spend, clubs, draws);
      SampleAtPosition(slot, lim, data, Ids(chosen), spend, clubs, draws);
      if f.exit == Returned {
        var t' := Build(scope, formation[1..], lim, data, chosen + f.selected,
                        NextSpend(scope, spend, f.selected), NextClubs(scope, clubs, f.selected), draws[f.used..]);
        BuildPositions(scope, formation[1..], lim, data, chosen + f.selected,
                       NextSpend(scope, spend, f.selected), NextClubs(scope, clubs, f.selected), draws[f.used..]);
        AtPositionsCons(f.selected, t'.blocks, formation, data);
      } else {
        AtPositionsCons(f.selected, [], formation, data);
        assert [f.selected] + [] == [f.selected];
      }
    }
  }

  /**
   * No id occurs twice in the team, and none was among the players chosen
   * before: ids carry over from one position to the next.
   */
  lemma {:induction false} BuildIdsDistinct(scope: Scope, formation: seq<Slot>, lim: Limits, data: seq<Player>,
                                            chosen: seq<Player>, spend: int, clubs: map<int, int>, draws: seq<nat>)
    ensures var team := Flatten(Build(scope, formation, lim, data, chosen, spend, clubs, draws).blocks);
      Distinct(Ids(team)) && forall x :: x in Ids(team) ==> x !in Ids(chosen)
    decreases |formation|
  {
    if formation != [] {
      var slot := formation[0];
      var pool := PlayersAt(data, slot.position);
      var f := Sample(slot.count, lim, pool, Ids(chosen), spend, clubs, draws);
      SampleIdsFresh(slot.count, lim, pool, Ids(chosen), spend, clubs, draws);
      BuildStep(scope, formation, lim, data, chosen, spend, clubs, draws);
      if f.exit == DrawsExhausted {
        assert Flatten([f.selected]) == f.selected + Flatten([f.selected][1..]);
        assert f.selected + [] == f.selected;
      } else {
        var chosen' := chosen + f.selected;
        var t' := Build(scope, formation[1..], lim, data, chosen',
                        NextSpend(scope, spend, f.selected), NextClubs(scope, clubs, f.selected), draws[f.used..]);
        BuildIdsDistinct(scope, formation[1..], lim, data, chosen',
                         NextSpend(scope, spend, f.selected), NextClubs(scope, clubs, f.selected), draws[f.used..]);
        var tail := Flatten(t'.blocks);
        assert ([f.selected] + t'.blocks)[1..] == t'.blocks;
        assert Flatten([f.selected] + t'.blocks) == f.selected + tail;
        IdsAppend(chosen, f.selected);
        IdsAppend(f.selected, tail);
        DistinctAppend(Ids(f.selected), Ids(tail));
      }
    }
  }

  /**
   * As written (`PerPosition`), each position on its own respects the club cap
   * and the spend limit, counted from the spend and counter handed in (0 and
   * empty in the code).
   */
  lemma {:induction false} BuildPerPositionLimits(formation: seq<Slot>, lim: Limits, data: seq<Player>,
                                                  chosen: seq<Player>, spend: int, clubs: map<int, int>, draws: seq<nat>)
    ensures var t := Build(PerPosition, formation, lim, data, chosen, spend, clubs, draws);
      forall i :: 0 <= i < |t.blocks| ==> WithinLimits(t.blocks[i], lim, spend, clubs)
    decreases |formation|
  {
    if formation != [] {
      var slot := formation[0];
      var pool := PlayersAt(data, slot.position);
      var f := Sample(slot.count, lim, pool, Ids(chosen), spend, clubs, draws);
      SampleWithinLimits(slot.count, lim, pool, Ids(chosen), spend, clubs, draws);
      BuildStep(PerPosition, formation, lim, data, chosen, spend, clubs, draws);
      if f.exit == Returned {
        var t' := Build(PerPosition, formation[1..], lim, data, chosen + f.selected, spend, clubs, draws[f.used..]);
        BuildPerPositionLimits(formation[1..], lim, data, chosen + f.selected, spend, clubs, draws[f.used..]);
        EachWithinLimitsCons(f.selected, t'.blocks, lim, spend, clubs);
      } else {
        EachWithinLimitsCons(f.selected, [], lim, spend, clubs);
        assert [f.selected] + [] == [f.selected];
      }
    }
  }

  lemma EachWithinLimitsCons(block: seq<Player>, rest: seq<seq<Player>>, lim: Limits, spend: int, clubs: map<int, int>)
    requires WithinLimits(block, lim, spend, clubs)
    requires forall i :: 0 <= i < |rest| ==> WithinLimits(rest[i], lim, spend, clubs)
    ensures forall i :: 0 <= i < |[block] + rest| ==> WithinLimits(([block] + rest)[i], lim, spend, clubs)
  {
    forall i | 0 <= i < |[block] + rest| ensures WithinLimits(([block] + rest)[i], lim, spend, clubs) {
      if i > 0 {
        assert ([block] + rest)[i] == rest[i - 1];
      }
    }
  }

  /** The number of players the formation entries ask for (a negative count asks for none). */
  function Requested(formation: seq<Slot>): nat
  {
    if formation == [] then 0
    else (if formation[0].count > 0 then formation[0].count else 0) + Requested(formation[1..])
  }

  /** Every formation entry asks for a non-negative count of a position the table has players for. */
  ghost predicate Stocked(formation: seq<Slot>, data: seq<Player>)
  {
    forall i :: 0 <= i < |formation| ==> formation[i].count >= 0 && PlayersAt(data, formation[i].position) != []
  }

  /**
   * The team never has more players than the formation asks for. When the
   * build returns and the formation is stocked, each position gets exactly
   * its count and the team size is the formation total.
   */
  lemma {:induction false} BuildSize(scope: Scope, formation: seq<Slot>, lim: Limits, data: seq<Player>,
                                     chosen: seq<Player>, spend: int, clubs: map<int, int>, draws: seq<nat>)
    ensures var t := Build(scope, formation, lim, data, chosen, spend, clubs, draws);
      |Flatten(t.blocks)| <= Requested(formation)
    ensures var t := Build(scope, formation, lim, data, chosen, spend, clubs, draws);
      t.exit == Returned && Stocked(formation, data)
      ==> (forall i :: 0 <= i < |formation| ==> |t.blocks[i]| == formation[i].count)
          && |Flatten(t.blocks)| == Requested(formation)
    decreases |formation|
  {
    if formation != [] {
      var slot := formation[0];
      var f := Sample(slot.count, lim, PlayersAt(data, slot.position), Ids(chosen), spend, clubs, draws);
      if f.exit == DrawsExhausted {
        assert Flatten([f.selected]) == f.selected + Flatten([f.selected][1..]);
      } else {
        var t' := Build(scope, formation[1..], lim, data, chosen + f.selected,
                        NextSpend(scope, spend, f.selected), NextClubs(scope, clubs, f.selected), draws[f.used..]);
        BuildSize(scope, formation[1..], lim, data, chosen + f.selected,
                  NextSpend(scope, spend, f.selected), NextClubs(scope, clubs, f.selected), draws[f.used..]);
        assert ([f.selected] + t'.blocks)[1..] == t'.blocks;
        assert Flatten([f.selected] + t'.blocks) == f.selected + Flatten(t'.blocks);
        if t'.exit == Returned && Stocked(formation, data) {
          forall i | 0 <= i < |formation[1..]|
            ensures formation[1..][i].count >= 0 && PlayersAt(data, formation[1..][i].position) != []
          {
            assert formation[1..][i] == formation[i + 1];
          }
          assert formation[0] == slot;
          forall i | 0 <= i < |formation| ensures |([f.selected] + t'.blocks)[i]| == formation[i].count {
            if i > 0 {
              assert ([f.selected] + t'.blocks)[i] == t'.blocks[i - 1];
              assert formation[1..][i - 1] == formation[i];
            }
          }
        }
      }
    }
  }

  /**
   * The corrected builder (`WholeTeam`) bounds the whole team: every club
   * stays within the cap and the team's total value, added to the spend
   * handed in, is within the limit.
   */
  lemma {:induction false} BuildWholeTeamLimits(formation: seq<Slot>, lim: Limits, data: seq<Player>,
                                                chosen: seq<Player>, spend: int, clubs: map<int, int>, draws: seq<nat>)
    ensures WithinLimits(Flatten(Build(WholeTeam, formation, lim, data, chosen, spend, clubs, draws).blocks), lim, spend, clubs)
    decreases |formation|
  {
    var t := Build(WholeTeam, formation, lim, data, chosen, spend, clubs, draws);
    if formation == [] {
      assert Flatten(t.blocks) == [];
    } else {
      var slot := formation[0];
      var pool := PlayersAt(data, slot.position);
      var f := Sample(slot.count, lim, pool, Ids(chosen), spend, clubs, draws);
      SampleWithinLimits(slot.count, lim, pool, Ids(chosen), spend, clubs, draws);
      if f.exit == DrawsExhausted {
        assert t.blocks == [f.selected] + [];
        FlattenCons(f.selected, []);
        assert f.selected + [] == f.selected;
      } else {
        var spend' := spend + TotalValue(f.selected);
        var clubs' := AddClubs(clubs, f.selected);
        assert NextSpend(WholeTeam, spend, f.selected) == spend' && NextClubs(WholeTeam, clubs, f.selected) == clubs';
        var t' := Build(WholeTeam, formation[1..], lim, data, chosen + f.selected, spend', clubs', draws[f.used..]);
        BuildWholeTeamLimits(formation[1..], lim, data, chosen + f.selected, spend', clubs', draws[f.used..]);
        assert t.blocks == [f.selected] + t'.blocks;
        FlattenCons(f.selected, t'.blocks);
        WithinLimitsAppend(f.selected, Flatten(t'.blocks), lim, spend, clubs);
      }
    }
  }

  lemma FlattenCons<T>(s: seq<T>, ss: seq<seq<T>>)
    ensures Flatten([s] + ss) == s + Flatten(ss)
  {
    assert ([s] + ss)[1..] == ss;
  }

  /**
   * A selection within the limits, followed by one within the limits counted
   * from the spend and counter the first one leaves, is within the limits.
   */
  lemma WithinLimitsAppend(a: seq<Player>, b: seq<Player>, lim: Limits, spend: int, clubs: map<int, int>)
    requires WithinLimits(a, lim, spend, clubs)
    requires WithinLimits(b, lim, spend + TotalValue(a), AddClubs(clubs, a))
    ensures WithinLimits(a + b, lim, spend, clubs)
  {
    TotalValueAppend(a, b);
    forall c | CountClub(a + b, c) > 0
      ensures ClubCount(clubs, c) + CountClub(a + b, c) <= lim.clubCap
    {
      CountClubAppend(a, b, c);
      AddClubsCounts(clubs, a, c);
    }
  }

  /** One draw that lands on an acceptable player fills a one-player request. */
  lemma SampleOne(p: Player, lim: Limits, ids: seq<int>, spend: int, clubs: map<int, int>, draws: seq<nat>)
    requires draws != [] && Accepts(p, ids, clubs, spend, lim)
    ensures Sample(1, lim, [p], ids, spend, clubs, draws) == Fill([p], 1, Returned)
  {
    SampleStep(1, lim, [p], ids, spend, clubs, draws);
    assert [p][draws[0] % 1] == p;
  }

  /** A one-slot formation whose request is filled is built as that single block. */
  lemma BuildLast(scope: Scope, slot: Slot, lim: Limits, data: seq<Player>,
                  chosen: seq<Player>, spend: int, clubs: map<int, int>, draws: seq<nat>)
    requires Sample(slot.count, lim, PlayersAt(data, slot.position), Ids(chosen), spend, clubs, draws).exit == Returned
    ensures var f := Sample(slot.count, lim, PlayersAt(data, slot.position), Ids(chosen), spend, clubs, draws);
      Build(scope, [slot], lim, data, chosen, spend, clubs, draws) == Team([f.selected], f.used, Returned)
  {
    var f := Sample(slot.count, lim, PlayersAt(data, slot.position), Ids(chosen), spend, clubs, draws);
    assert [slot][1..] == [];
    assert Build(scope, [], lim, data, chosen + f.selected, NextSpend(scope, spend, f.selected),
                 NextClubs(scope, clubs, f.selected), draws[f.used..]) == Team([], 0, Returned);
    assert [f.selected] + [] == [f.selected];
  }

  /** The position filter on a goalkeeper row followed by a defender row. */
  lemma PlayersAtPair(gk: Player, df: Player)
    requires gk.elementType == 1 && df.elementType == 2
    ensures PlayersAt([gk, df], GK) == [gk] && PlayersAt([gk, df], DEF) == [df]
  {
    assert [gk, df][1..] == [df] && [df][1..] == [];
  }

  lemma FlattenPair<T>(x: seq<T>, y: seq<T>)
    ensures Flatten([x, y]) == x + y
  {
    assert [x, y][1..] == [y] && [y][1..] == [];
    assert Flatten([y]) == y + Flatten([]);
  }

  lemma PairSums(a: Player, b: Player, club: int)
    ensures TotalValue([a, b]) == a.value + b.value
    ensures CountClub([a, b], club) == (if a.club == club then 1 else 0) + (if b.club == club then 1 else 0)
  {
    assert [a, b][1..] == [b] && [b][1..] == [];
    assert TotalValue([b]) == b.value + TotalValue([]);
    assert CountClub([b], club) == (if b.club == club then 1 else 0) + CountClub([], club);
  }

  /** The defender block, once the goalkeeper is chosen. */
  lemma PerPositionDefender(gk: Player, df: Player, v: int)
    requires gk.elementType == 1 && df.elementType == 2
    requires gk.id != df.id && df.value == v && v > 0
    ensures Build(PerPosition, [Slot(DEF, 1)], Limits(1, v), [gk, df], [gk], 0, map[], [0])
         == Team([[df]], 1, Returned)
  {
    PlayersAtPair(gk, df);
    assert Ids([gk]) == [gk.id];
    SampleOne(df, Limits(1, v), [gk.id], 0, map[], [0]);
    BuildLast(PerPosition, Slot(DEF, 1), Limits(1, v), [gk, df], [gk], 0, map[], [0]);
  }

  /** The team the code as written builds from a goalkeeper and a defender. */
  lemma PerPositionTeam(gk: Player, df: Player, v: int)
    requires gk.elementType == 1 && df.elementType == 2
    requires gk.id != df.id && gk.club == df.club
    requires gk.value == v && df.value == v && v > 0
    ensures Build(PerPosition, [Slot(GK, 1), Slot(DEF, 1)], Limits(1, v), [gk, df], [], 0, map[], [0, 0])
         == Team([[gk], [df]], 2, Returned)
  {
    var formation := [Slot(GK, 1), Slot(DEF, 1)];
    var draws: seq<nat> := [0, 0];
    PlayersAtPair(gk, df);
    assert Ids([]) == [];
    SampleOne(gk, Limits(1, v), [], 0, map[], draws);
    BuildStep(PerPosition, formation, Limits(1, v), [gk, df], [], 0, map[], draws);
    assert formation[1..] == [Slot(DEF, 1)] && draws[1..] == [0] && [] + [gk] == [gk];
    PerPositionDefender(gk, df, v);
  }

  /**
   * The code as written lets the team exceed both limits: with a spend limit
   * of `v` and a club cap of 1, a goalkeeper and a defender of value `v` from
   * the same club are both accepted, for a team value of `2 * v` and two
   * players from that club.
   */
  lemma PerPositionOverrunsTeamLimits(gk: Player, df: Player, v: int)
    requires gk.elementType == 1 && df.elementType == 2
    requires gk.id != df.id && gk.club == df.club
    requires gk.value == v && df.value == v && v > 0
    ensures var t := Build(PerPosition, [Slot(GK, 1), Slot(DEF, 1)], Limits(1, v), [gk, df], [], 0, map[], [0, 0]);
      && t.exit == Returned
      && Flatten(t.blocks) == [gk, df]
      && TotalValue(Flatten(t.blocks)) == 2 * v > v
      && CountClub(Flatten(t.blocks), gk.club) == 2
  {
    PerPositionTeam(gk, df, v);
    FlattenPair([gk], [df]);
    assert [gk] + [df] == [gk, df];
    PairSums(gk, df, gk.club);
  }
}
