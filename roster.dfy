/**
 * Player rows as the team selection sees them once the data has been merged,
 * the `element_type` code-to-position map, and the column reductions (sums,
 * per-club counts, position filter) the selection code applies to them.
 */
module Roster {

  datatype Option<+T> = None | Some(value: T)

  /** The four playing positions of the decoded `element_type` column. */
  datatype Position = GK | DEF | MID | FWD

  /** The numeric `element_type` code the data uses for each position. */
  function PositionCode(p: Position): (c: int)
    ensures 1 <= c <= 4
  {
    match p
    case GK => 1
    case DEF => 2
    case MID => 3
    case FWD => 4
  }

  /**
   * The code-to-position map applied to the `element_type` column: codes 1..4
   * name a position, any other code maps to a missing value.
   */
  function DecodePosition(code: int): (r: Option<Position>)
    ensures r.Some? <==> 1 <= code <= 4
    ensures forall p :: r == Some(p) <==> PositionCode(p) == code
  {
    if code == 1 then Some(GK)
    else if code == 2 then Some(DEF)
    else if code == 3 then Some(MID)
    else if code == 4 then Some(FWD)
    else None
  }

  /**
   * One row of the merged table: `id`, `element_type` (still as its code),
   * `team` (the club), `value` (price in tenths of a unit) and
   * `average_total_points` (the score, taken here as an integer).
   */
  datatype Player = Player(id: int, elementType: int, club: int, value: int, score: int)

  /** The `id` column of a list of rows, in order. */
  function Ids(ps: seq<Player>): seq<int>
  {
    seq(|ps|, k requires 0 <= k < |ps| => ps[k].id)
  }

  predicate Distinct(s: seq<int>)
  {
    forall i, j :: 0 <= i < j < |s| ==> s[i] != s[j]
  }

  /** Sum of the `value` column. */
  function TotalValue(ps: seq<Player>): int
  {
    if ps == [] then 0 else ps[0].value + TotalValue(ps[1..])
  }

  /** Sum of the score column. */
  function TotalScore(ps: seq<Player>): int
  {
    if ps == [] then 0 else ps[0].score + TotalScore(ps[1..])
  }

  /** Number of rows whose club is `club`. */
  function CountClub(ps: seq<Player>, club: int): nat
  {
    if ps == [] then 0 else (if ps[0].club == club then 1 else 0) + CountClub(ps[1..], club)
  }

  /** A club counter read with a default of zero, as `Counter.get(club, 0)`. */
  function ClubCount(counts: map<int, int>, club: int): int
  {
    if club in counts then counts[club] else 0
  }

  /** `counts[club] += 1` on a counter, where a missing club counts as zero. */
  function Bump(counts: map<int, int>, club: int): map<int, int>
  {
    counts[club := ClubCount(counts, club) + 1]
  }

  /** The counter after one `Bump` per row, in order. */
  function AddClubs(counts: map<int, int>, ps: seq<Player>): map<int, int>
    decreases |ps|
  {
    if ps == [] then counts else AddClubs(Bump(counts, ps[0].club), ps[1..])
  }

  function Flatten<T>(ss: seq<seq<T>>): seq<T>
  {
    if ss == [] then [] else ss[0] + Flatten(ss[1..])
  }

  /** The rows whose decoded `element_type` is `pos`, in table order. */
  function PlayersAt(data: seq<Player>, pos: Position): (r: seq<Player>)
    ensures |r| <= |data|
    ensures forall p :: p in r <==> p in data && DecodePosition(p.elementType) == Some(pos)
  {
    if data == [] then []
    else if DecodePosition(data[0].elementType) == Some(pos) then [data[0]] + PlayersAt(data[1..], pos)
    else PlayersAt(data[1..], pos)
  }

  /**
   * The filter keeps every row of the position as many times as the table
   * has it, and no other row.
   */
  lemma {:induction false} PlayersAtCounts(data: seq<Player>, pos: Position)
    ensures forall p :: multiset(PlayersAt(data, pos))[p]
                     == if DecodePosition(p.elementType) == Some(pos) then multiset(data)[p] else 0
  {
    if data != [] {
      var tail := PlayersAt(data[1..], pos);
      PlayersAtCounts(data[1..], pos);
      assert data == [data[0]] + data[1..];
      assert multiset(data) == multiset([data[0]]) + multiset(data[1..]);
      if DecodePosition(data[0].elementType) == Some(pos) {
        assert multiset(PlayersAt(data, pos)) == multiset([data[0]]) + multiset(tail);
      } else {
        assert multiset(PlayersAt(data, pos)) == multiset(tail);
      }
    }
  }

  lemma AppendAssoc<T>(x: seq<T>, y: seq<T>, z: seq<T>)
    ensures (x + y) + z == x + (y + z)
  {
  }

  /** Filtering a table split in two filters each part and keeps them in order. */
  lemma {:induction false} PlayersAtAppend(a: seq<Player>, b: seq<Player>, pos: Position)
    ensures PlayersAt(a + b, pos) == PlayersAt(a, pos) + PlayersAt(b, pos)
  {
    if a == [] {
      assert a + b == b;
    } else {
      var ab := a + b;
      assert ab != [] && ab[0] == a[0] && ab[1..] == a[1..] + b;
      var tail, rest := PlayersAt(a[1..], pos), PlayersAt(b, pos);
      PlayersAtAppend(a[1..], b, pos);
      if DecodePosition(a[0].elementType) == Some(pos) {
        assert PlayersAt(ab, pos) == [a[0]] + (tail + rest);
        assert PlayersAt(a, pos) == [a[0]] + tail;
        AppendAssoc([a[0]], tail, rest);
      } else {
        assert PlayersAt(ab, pos) == tail + rest;
        assert PlayersAt(a, pos) == tail;
      }
    }
  }

  lemma {:induction false} IdsAppend(a: seq<Player>, b: seq<Player>)
    ensures Ids(a + b) == Ids(a) + Ids(b)
  {
    assert |Ids(a + b)| == |Ids(a) + Ids(b)|;
    forall k | 0 <= k < |a + b| ensures Ids(a + b)[k] == (Ids(a) + Ids(b))[k] {
      if k < |a| {
        assert (a + b)[k] == a[k];
      } else {
        assert (a + b)[k] == b[k - |a|];
      }
    }
  }

  lemma {:induction false} DistinctAppend(a: seq<int>, b: seq<int>)
    requires Distinct(a) && Distinct(b)
    requires forall x :: x in b ==> x !in a
    ensures Distinct(a + b)
  {
    forall i, j | 0 <= i < j < |a + b| ensures (a + b)[i] != (a + b)[j] {
      if j >= |a| && i < |a| {
        assert (a + b)[j] == b[j - |a|] && b[j - |a|] in b;
        assert (a + b)[i] == a[i] && a[i] in a;
      } else if i >= |a| {
        assert (a + b)[i] == b[i - |a|] && (a + b)[j] == b[j - |a|];
      }
    }
  }

  lemma {:induction false} TotalValueAppend(a: seq<Player>, b: seq<Player>)
    ensures TotalValue(a + b) == TotalValue(a) + TotalValue(b)
  {
    if a == [] {
      assert a + b == b;
    } else {
      assert (a + b)[1..] == a[1..] + b;
      TotalValueAppend(a[1..], b);
    }
  }

  lemma {:induction false} CountClubAppend(a: seq<Player>, b: seq<Player>, club: int)
    ensures CountClub(a + b, club) == CountClub(a, club) + CountClub(b, club)
  {
    if a == [] {
      assert a + b == b;
    } else {
      assert (a + b)[1..] == a[1..] + b;
      CountClubAppend(a[1..], b, club);
    }
  }

  /** Counting the clubs of `ps` into a counter adds exactly each club's number of rows. */
  lemma {:induction false} AddClubsCounts(counts: map<int, int>, ps: seq<Player>, club: int)
    ensures ClubCount(AddClubs(counts, ps), club) == ClubCount(counts, club) + CountClub(ps, club)
    decreases |ps|
  {
    if ps != [] {
      AddClubsCounts(Bump(counts, ps[0].club), ps[1..], club);
    }
  }

  lemma {:induction false} FlattenAppend<T>(ss: seq<seq<T>>, s: seq<T>)
    ensures Flatten(ss + [s]) == Flatten(ss) + s
  {
    if ss == [] {
      assert ss + [s] == [s];
      assert Flatten([s]) == s + Flatten([s][1..]);
    } else {
      assert (ss + [s])[1..] == ss[1..] + [s];
      FlattenAppend(ss[1..], s);
    }
  }
}
