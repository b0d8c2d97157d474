/**
 * `select_position`: rejection sampling of players for one position. A draw
 * picks a row of the position's pool; it is accepted when the player's id is
 * not chosen yet, the player's club is below the club cap in the call's own
 * copy of the club counter, and the running spend plus the player's value
 * stays within the spend limit.
 *
 * The random row choice is an explicit sequence of draws: draw `d` picks row
 * `d % |pool|`. The source loop draws until the count is met, forever if no
 * row can be accepted; the model stops when the draws run out and says so.
 */
module PositionSampler {
  import opened Roster

  /** `max_players_per_team` and `max_spend`, as handed to the sampler. */
  datatype Limits = Limits(clubCap: int, maxSpend: int)

  /**
   * How sampling ended: the loop condition became false (count met, or empty
   * pool), or the draws ran out while the source would still be drawing.
   */
  datatype Exit = Returned | DrawsExhausted

  /** The players accepted, in order, and how many draws were consumed. */
  datatype Fill = Fill(selected: seq<Player>, used: nat, exit: Exit)

  /** The three checks a drawn player must pass to be accepted. */
  predicate Accepts(p: Player, ids: seq<int>, clubs: map<int, int>, spend: int, lim: Limits)
  {
    && p.id !in ids
    && ClubCount(clubs, p.club) < lim.clubCap
    && spend + p.value <= lim.maxSpend
  }

  /**
   * The sampling loop run from state (`count` still needed, chosen `ids`,
   * running `spend`, club counter `clubs`) on the draws `draws`.
   */
  function Sample(count: int, lim: Limits, pool: seq<Player>, ids: seq<int>, spend: int,
                  clubs: map<int, int>, draws: seq<nat>): (f: Fill)
    ensures f.used <= |draws|
    ensures |f.selected| <= if count > 0 then count else 0
    ensures forall p :: p in f.selected ==> p in pool
    ensures f.exit == Returned && |pool| > 0 && count >= 0 ==> |f.selected| == count
    ensures f.exit == DrawsExhausted ==> f.used == |draws| && |f.selected| < count
    ensures |pool| == 0 ==> f.selected == [] && f.used == 0 && f.exit == Returned
    decreases |draws|
  {
    if count <= 0 || |pool| == 0 then Fill([], 0, Returned)
    else if draws == [] then Fill([], 0, DrawsExhausted)
    else
      var p := pool[draws[0] % |pool|];
      if Accepts(p, ids, clubs, spend, lim) then
        var rest := Sample(count - 1, lim, pool, ids + [p.id], spend + p.value, Bump(clubs, p.club), draws[1..]);
        Fill([p] + rest.selected, rest.used + 1, rest.exit)
      else
        var rest := Sample(count, lim, pool, ids, spend, clubs, draws[1..]);
        Fill(rest.selected, rest.used + 1, rest.exit)
  }

  /** `f` preceded by the players and draws of the iterations already done. */
  function After(selected: seq<Player>, used: nat, f: Fill): Fill
  {
    Fill(selected + f.selected, used + f.used, f.exit)
  }

  /** One draw of the sampling loop, accepted or rejected. */
  lemma SampleStep(count: int, lim: Limits, pool: seq<Player>, ids: seq<int>, spend: int,
                   clubs: map<int, int>, draws: seq<nat>)
    requires count > 0 && |pool| > 0 && draws != []
    ensures var p := pool[draws[0] % |pool|];
      Sample(count, lim, pool, ids, spend, clubs, draws)
        == if Accepts(p, ids, clubs, spend, lim)
           then After([p], 1, Sample(count - 1, lim, pool, ids + [p.id], spend + p.value, Bump(clubs, p.club), draws[1..]))
           else After([], 1, Sample(count, lim, pool, ids, spend, clubs, draws[1..]))
  {
    assert [] + Sample(count, lim, pool, ids, spend, clubs, draws[1..]).selected
        == Sample(count, lim, pool, ids, spend, clubs, draws[1..]).selected;
  }

  lemma AfterAssoc(selected: seq<Player>, used: nat, more: seq<Player>, n: nat, f: Fill)
    ensures After(selected, used, After(more, n, f)) == After(selected + more, used + n, f)
  {
    assert selected + (more + f.selected) == (selected + more) + f.selected;
  }

  /**
   * One draw of the sampling loop, stated on the loop's state before the draw
   * and after it: an accepted player is appended and counted, a rejected one
   * changes nothing but the draws.
   */
  lemma SampleStepAt(lim: Limits, pool: seq<Player>, selected: seq<Player>, used: nat, count: int, ids: seq<int>,
                     spend: int, clubs: map<int, int>, rest: seq<nat>,
                     selected': seq<Player>, used': nat, count': int, ids': seq<int>,
                     spend': int, clubs': map<int, int>, rest': seq<nat>)
    requires count > 0 && |pool| > 0 && rest != []
    requires used' == used + 1 && rest' == rest[1..]
    requires var p := pool[rest[0] % |pool|];
      if Accepts(p, ids, clubs, spend, lim)
      then selected' == selected + [p] && count' == count - 1 && ids' == ids + [p.id]
           && spend' == spend + p.value && clubs' == Bump(clubs, p.club)
      else selected' == selected && count' == count && ids' == ids && spend' == spend && clubs' == clubs
    ensures After(selected, used, Sample(count, lim, pool, ids, spend, clubs, rest))
         == After(selected', used', Sample(count', lim, pool, ids', spend', clubs', rest'))
  {
    SampleStep(count, lim, pool, ids, spend, clubs, rest);
    var p := pool[rest[0] % |pool|];
    if Accepts(p, ids, clubs, spend, lim) {
      AfterAssoc(selected, used, [p], 1, Sample(count', lim, pool, ids', spend', clubs', rest'));
    } else {
      AfterAssoc(selected, used, [], 1, Sample(count', lim, pool, ids', spend', clubs', rest'));
      assert selected + [] == selected;
    }
  }

  /**
   * The sampling loop of `select_position`. The caller's players, spend and
   * club counter are only read: the ids and the counter are copied into locals.
   */
  method SelectPosition(count: int, lim: Limits, pool: seq<Player>, currentPlayers: seq<Player>,
                        currentSpend: int, currentTeams: map<int, int>, draws: seq<nat>)
    returns (selected: seq<Player>, used: nat, exit: Exit)
    ensures Fill(selected, used, exit)
         == Sample(count, lim, pool, Ids(currentPlayers), currentSpend, currentTeams, draws)
  {
    var currentPlayerIds := Ids(currentPlayers);
    var teams := currentTeams;
    var spend := currentSpend;
    var remaining := count;
    var rest := draws;
    selected, used := [], 0;
    ghost var whole := Sample(remaining, lim, pool, currentPlayerIds, spend, teams, rest);
    assert [] + whole.selected == whole.selected;
    while remaining > 0 && |pool| > 0 && rest != []
      invariant whole == After(selected, used, Sample(remaining, lim, pool, currentPlayerIds, spend, teams, rest))
      decreases |rest|
    {
      var player := pool[rest[0] % |pool|];
      ghost var selected0, used0, remaining0, ids0, spend0, teams0, rest0
        := selected, used, remaining, currentPlayerIds, spend, teams, rest;
      if player.id !in currentPlayerIds
         && ClubCount(teams, player.club) < lim.clubCap
         && spend + player.value <= lim.maxSpend
      {
        selected := selected + [player];
        spend := spend + player.value;
        teams := Bump(teams, player.club);
        currentPlayerIds := currentPlayerIds + [player.id];
        remaining := remaining - 1;
      }
      used, rest := used + 1, rest[1..];
      SampleStepAt(lim, pool, selected0, used0, remaining0, ids0, spend0, teams0, rest0,
                   selected, used, remaining, currentPlayerIds, spend, teams, rest);
    }
    exit := if remaining > 0 && |pool| > 0 then DrawsExhausted else Returned;
    assert selected + [] == selected;
  }

  /**
   * No accepted id was among the ids passed in, and no id is accepted twice,
   * so one call never selects a player already chosen.
   */
  lemma {:induction false} SampleIdsFresh(count: int, lim: Limits, pool: seq<Player>, ids: seq<int>,
                                          spend: int, clubs: map<int, int>, draws: seq<nat>)
    ensures var f := Sample(count, lim, pool, ids, spend, clubs, draws);
      && (forall x :: x in Ids(f.selected) ==> x !in ids)
      && Distinct(Ids(f.selected))
    decreases |draws|
  {
    if count <= 0 || |pool| == 0 || draws == [] {
    } else {
      var p := pool[draws[0] % |pool|];
      if Accepts(p, ids, clubs, spend, lim) {
        var ids' := ids + [p.id];
        SampleIdsFresh(count - 1, lim, pool, ids', spend + p.value, Bump(clubs, p.club), draws[1..]);
        var rest := Sample(count - 1, lim, pool, ids', spend + p.value, Bump(clubs, p.club), draws[1..]).selected;
        IdsAppend([p], rest);
        assert Ids([p]) == [p.id];
        assert p.id !in Ids(rest);
        DistinctAppend([p.id], Ids(rest));
      } else {
        SampleIdsFresh(count, lim, pool, ids, spend, clubs, draws[1..]);
      }
    }
  }

  /**
   * Every club that gains players in one call stays within the cap, counting
   * from the club counter passed in.
   */
  lemma {:induction false} SampleClubCap(count: int, lim: Limits, pool: seq<Player>, ids: seq<int>,
                                         spend: int, clubs: map<int, int>, draws: seq<nat>)
    ensures var f := Sample(count, lim, pool, ids, spend, clubs, draws);
      forall c :: CountClub(f.selected, c) > 0 ==> ClubCount(clubs, c) + CountClub(f.selected, c) <= lim.clubCap
    decreases |draws|
  {
    if count <= 0 || |pool| == 0 || draws == [] {
    } else {
      var p := pool[draws[0] % |pool|];
      SampleStep(count, lim, pool, ids, spend, clubs, draws);
      if Accepts(p, ids, clubs, spend, lim) {
        var clubs' := Bump(clubs, p.club);
        SampleClubCap(count - 1, lim, pool, ids + [p.id], spend + p.value, clubs', draws[1..]);
        var rest := Sample(count - 1, lim, pool, ids + [p.id], spend + p.value, clubs', draws[1..]).selected;
        assert Sample(count, lim, pool, ids, spend, clubs, draws).selected == [p] + rest;
        forall c | CountClub([p] + rest, c) > 0
          ensures ClubCount(clubs, c) + CountClub([p] + rest, c) <= lim.clubCap
        {
          assert ([p] + rest)[1..] == rest;
          assert ClubCount(clubs', c) == ClubCount(clubs, c) + (if c == p.club then 1 else 0);
        }
      } else {
        SampleClubCap(count, lim, pool, ids, spend, clubs, draws[1..]);
      }
    }
  }

  /**
   * The running spend stays within the limit after every acceptance: each
   * prefix of the selection, added to the spend passed in, is within
   * `maxSpend`; in particular so is the whole selection.
   */
  lemma {:induction false} SampleBudget(count: int, lim: Limits, pool: seq<Player>, ids: seq<int>,
                                        spend: int, clubs: map<int, int>, draws: seq<nat>)
    ensures var f := Sample(count, lim, pool, ids, spend, clubs, draws);
      forall k :: 0 < k <= |f.selected| ==> spend + TotalValue(f.selected[..k]) <= lim.maxSpend
    ensures var f := Sample(count, lim, pool, ids, spend, clubs, draws);
      f.selected != [] ==> spend + TotalValue(f.selected) <= lim.maxSpend
    decreases |draws|
  {
    var f := Sample(count, lim, pool, ids, spend, clubs, draws);
    if count <= 0 || |pool| == 0 || draws == [] {
    } else {
      var p := pool[draws[0] % |pool|];
      if Accepts(p, ids, clubs, spend, lim) {
        var spend' := spend + p.value;
        SampleBudget(count - 1, lim, pool, ids + [p.id], spend', Bump(clubs, p.club), draws[1..]);
        var rest := Sample(count - 1, lim, pool, ids + [p.id], spend', Bump(clubs, p.club), draws[1..]).selected;
        forall k | 0 < k <= |[p] + rest|
          ensures spend + TotalValue(([p] + rest)[..k]) <= lim.maxSpend
        {
          assert ([p] + rest)[..k] == [p] + rest[..k - 1];
          assert ([p] + rest[..k - 1])[1..] == rest[..k - 1];
          if k == 1 {
            assert rest[..0] == [];
          }
        }
      } else {
        SampleBudget(count, lim, pool, ids, spend, clubs, draws[1..]);
      }
    }
    if f.selected != [] {
      assert f.selected[..|f.selected|] == f.selected;
    }
  }

  /**
   * The limits a selection respects, counted from the spend and club counter
   * it started from: every club that gains players stays within the cap, and
   * a non-empty selection keeps the spend within the limit.
   */
  ghost predicate WithinLimits(ps: seq<Player>, lim: Limits, spend: int, clubs: map<int, int>)
  {
    && (forall c :: CountClub(ps, c) > 0 ==> ClubCount(clubs, c) + CountClub(ps, c) <= lim.clubCap)
    && (ps != [] ==> spend + TotalValue(ps) <= lim.maxSpend)
  }

  lemma SampleWithinLimits(count: int, lim: Limits, pool: seq<Player>, ids: seq<int>,
                           spend: int, clubs: map<int, int>, draws: seq<nat>)
    ensures WithinLimits(Sample(count, lim, pool, ids, spend, clubs, draws).selected, lim, spend, clubs)
  {
    SampleClubCap(count, lim, pool, ids, spend, clubs, draws);
    SampleBudget(count, lim, pool, ids, spend, clubs, draws);
  }
}
