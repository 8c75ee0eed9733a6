/** `getPlacement`: during the two setup phases the agent picks distinct,
    empty board tiles inside a fixed band of rows by rejection sampling; in
    any other phase it answers with a fixed fallback. */
module Placement {
  import opened Outcomes
  import opened RandomDraws

  /** A board coordinate (x, y). */
  type Coord = (int, int)

  /** The board is BoardLength tiles wide and high. */
  const BoardLength := 10

  /** Game phases as the agent distinguishes them. */
  datatype Phase = SetupPhase1 | SetupPhase2 | OtherPhase

  /** The rows a phase places into and how many tiles it places: eleven
      constructions on the agent's own side (rows 0 to 3), two on the foe's
      side (rows 6 to 9). */
  datatype Band = Band(count: nat, yLo: int, yHi: int)

  function BandOf(phase: Phase): (b: Band)
    requires phase != OtherPhase
  {
    if phase == SetupPhase1 then Band(11, 0, 3) else Band(2, 6, 9)
  }

  /** A band the board can hold: rows inside the board, x over its full width. */
  predicate ValidBand(b: Band)
  {
    0 <= b.yLo <= b.yHi < BoardLength
  }

  /** A board whose per-tile flag tells whether a construction stands there. */
  predicate ValidBoard(hasConstr: array2<bool>)
  {
    hasConstr.Length0 == BoardLength && hasConstr.Length1 == BoardLength
  }

  predicate InBand(b: Band, t: Coord)
  {
    0 <= t.0 < BoardLength && b.yLo <= t.1 <= b.yHi
  }

  predicate AllInBand(b: Band, tiles: seq<Coord>)
  {
    forall i :: 0 <= i < |tiles| ==> InBand(b, tiles[i])
  }

  /** No construction on any of the tiles. */
  predicate AllEmpty(hasConstr: array2<bool>, tiles: seq<Coord>)
    reads hasConstr
    requires ValidBoard(hasConstr)
  {
    forall i :: 0 <= i < |tiles| ==>
      0 <= tiles[i].0 < BoardLength && 0 <= tiles[i].1 < BoardLength && !hasConstr[tiles[i].0, tiles[i].1]
  }

  predicate Distinct(tiles: seq<Coord>)
  {
    forall i, j :: 0 <= i < j < |tiles| ==> tiles[i] != tiles[j]
  }

  /** The tile two successive draws name: x from randint(0, 9), then y from
      randint(yLo, yHi). */
  function DrawnTile(b: Band, dx: nat, dy: nat): (t: Coord)
    requires ValidBand(b)
    ensures InBand(b, t)
  {
    (Uniform(0, BoardLength - 1, dx), Uniform(b.yLo, b.yHi, dy))
  }

  /** The reference for the rejection sampling: continue from the tiles
      `chosen` so far until `b.count` are chosen, drawing one tile per two
      draws and keeping it only when it is empty and not chosen already. */
  function Sample(hasConstr: array2<bool>, b: Band, draws: seq<nat>, chosen: seq<Coord>): Result<seq<Coord>>
    reads hasConstr
    requires ValidBoard(hasConstr) && ValidBand(b)
    decreases |draws|
  {
    if |chosen| >= b.count then Success(chosen)
    else if |draws| < 2 then Failure(DrawsExhausted)
    else
      var t := DrawnTile(b, draws[0], draws[1]);
      if !hasConstr[t.0, t.1] && t !in chosen then Sample(hasConstr, b, draws[2..], chosen + [t])
      else Sample(hasConstr, b, draws[2..], chosen)
  }

  /** Sampling keeps what it was given and extends it to exactly `b.count`
      distinct, empty tiles in the band. */
  lemma {:induction false} SampleSound(hasConstr: array2<bool>, b: Band, draws: seq<nat>, chosen: seq<Coord>)
    requires ValidBoard(hasConstr) && ValidBand(b)
    requires |chosen| <= b.count
    requires AllInBand(b, chosen) && AllEmpty(hasConstr, chosen) && Distinct(chosen)
    ensures var r := Sample(hasConstr, b, draws, chosen);
      r.Success? ==>
        && |r.value| == b.count
        && r.value[..|chosen|] == chosen
        && AllInBand(b, r.value)
        && AllEmpty(hasConstr, r.value)
        && Distinct(r.value)
    decreases |draws|
  {
    if |chosen| < b.count && |draws| >= 2 {
      var t := DrawnTile(b, draws[0], draws[1]);
      if !hasConstr[t.0, t.1] && t !in chosen {
        var next := chosen + [t];
        assert Distinct(next) by {
          forall i, j | 0 <= i < j < |next| ensures next[i] != next[j] {
            if j == |chosen| {
              assert next[i] == chosen[i];
            }
          }
        }
        SampleSound(hasConstr, b, draws[2..], next);
        var r := Sample(hasConstr, b, draws[2..], next);
        if r.Success? {
          assert r.value[..|chosen|] == r.value[..|next|][..|chosen|];
        }
      } else {
        SampleSound(hasConstr, b, draws[2..], chosen);
      }
    }
  }

  /** Sampling fails only by running out of draws while tiles are still
      missing, and it succeeds only when the stream held at least two draws
      for every tile still to be placed. */
  lemma {:induction false} SampleDrawUse(hasConstr: array2<bool>, b: Band, draws: seq<nat>, chosen: seq<Coord>)
    requires ValidBoard(hasConstr) && ValidBand(b)
    ensures var r := Sample(hasConstr, b, draws, chosen);
      && (r.Failure? ==> r.error == DrawsExhausted && |chosen| < b.count)
      && (r.Success? && |chosen| <= b.count ==> 2 * (b.count - |chosen|) <= |draws|)
    decreases |draws|
  {
    if |chosen| < b.count && |draws| >= 2 {
      var t := DrawnTile(b, draws[0], draws[1]);
      if !hasConstr[t.0, t.1] && t !in chosen {
        SampleDrawUse(hasConstr, b, draws[2..], chosen + [t]);
      } else {
        SampleDrawUse(hasConstr, b, draws[2..], chosen);
      }
    }
  }

  /** The placement loop of one setup phase: `b.count` times, redraw a tile
      until it is empty and not yet chosen, then append it. The board is only
      read: the source's line meant to mark the chosen tile is a comparison,
      not an assignment, so distinctness rests on the "not yet chosen" test. */
  method PlaceInBand(hasConstr: array2<bool>, b: Band, draws: seq<nat>) returns (r: Result<seq<Coord>>)
    requires ValidBoard(hasConstr) && ValidBand(b)
    ensures r == Sample(hasConstr, b, draws, [])
  {
    var moves: seq<Coord> := [];
    var pos := 0;
    for i := 0 to b.count
      invariant |moves| == i
      invariant pos <= |draws|
      invariant Sample(hasConstr, b, draws[pos..], moves) == Sample(hasConstr, b, draws, [])
    {
      var move: Option<Coord> := None;
      while move == None
        invariant pos <= |draws|
        invariant move.None? ==> Sample(hasConstr, b, draws[pos..], moves) == Sample(hasConstr, b, draws, [])
        invariant move.Some? ==> Sample(hasConstr, b, draws[pos..], moves + [move.value]) == Sample(hasConstr, b, draws, [])
        decreases |draws| - pos
      {
        if |draws| - pos < 2 {
          return Failure(DrawsExhausted);
        }
        var x := Uniform(0, BoardLength - 1, draws[pos]);
        var y := Uniform(b.yLo, b.yHi, draws[pos + 1]);
        assert draws[pos..][2..] == draws[pos + 2..];
        pos := pos + 2;
        if !hasConstr[x, y] && (x, y) !in moves {
          move := Some((x, y));
        }
      }
      moves := moves + [move.value];
    }
    r := Success(moves);
  }

  /** getPlacement: eleven tiles in rows 0 to 3 in the first setup phase, two
      tiles in rows 6 to 9 in the second, and [(0, 0)] in any other phase.
      Without a modifies clause, the board is left as it was. */
  method GetPlacement(phase: Phase, hasConstr: array2<bool>, draws: seq<nat>) returns (r: Result<seq<Coord>>)
    requires ValidBoard(hasConstr)
    ensures phase == OtherPhase ==> r == Success([(0, 0)])
    ensures phase != OtherPhase ==> r == Sample(hasConstr, BandOf(phase), draws, [])
    ensures phase == SetupPhase1 && r.Success? ==>
      |r.value| == 11 && forall i :: 0 <= i < |r.value| ==> 0 <= r.value[i].0 <= 9 && 0 <= r.value[i].1 <= 3
    ensures phase == SetupPhase2 && r.Success? ==>
      |r.value| == 2 && forall i :: 0 <= i < |r.value| ==> 0 <= r.value[i].0 <= 9 && 6 <= r.value[i].1 <= 9
    ensures phase != OtherPhase && r.Success? ==> AllEmpty(hasConstr, r.value) && Distinct(r.value)
    ensures r.Failure? ==> phase != OtherPhase && r.error == DrawsExhausted
    ensures phase != OtherPhase && r.Success? ==> 2 * BandOf(phase).count <= |draws|
  {
    if phase == OtherPhase {
      return Success([(0, 0)]);
    }
    var b := BandOf(phase);
    r := PlaceInBand(hasConstr, b, draws);
    SampleSound(hasConstr, b, draws, []);
    SampleDrawUse(hasConstr, b, draws, []);
  }
}
