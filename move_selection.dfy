/** `getMove` and `getAttack`: the agent's play-phase choices. Both pick
    uniformly from a list handed to them; `getMove` redraws while it has
    drawn a BUILD move and the player already owns enough ants. */
module MoveSelection {
  import opened Outcomes
  import opened RandomDraws

  /** The kinds of move the rules engine offers. */
  datatype MoveType = MoveAnt | Build | End

  /** A legal move: its kind, the coordinates it goes through and, for a
      BUILD move, what to build. The agent reads only the kind. */
  datatype Move = Move(moveType: MoveType, coordList: seq<(int, int)>, buildType: Option<int>)

  /** With this many ants or more, the agent does not build. */
  const AntCap := 3

  /** The move a draw selects: moves[randint(0, len(moves) - 1)]. */
  function Drawn(moves: seq<Move>, draw: nat): (m: Move)
    requires |moves| > 0
    ensures m in moves
  {
    moves[Uniform(0, |moves| - 1, draw)]
  }

  /** A draw the redraw loop keeps: anything but BUILD once the player owns
      AntCap ants or more. */
  predicate Accepted(m: Move, numAnts: nat)
  {
    !(m.moveType == Build && numAnts >= AntCap)
  }

  /** The first n draws of the stream all selected a move the loop rejects. */
  predicate AllRejected(moves: seq<Move>, numAnts: nat, draws: seq<nat>, n: int)
    requires |moves| > 0 && n <= |draws|
  {
    forall j :: 0 <= j < n ==> !Accepted(Drawn(moves, draws[j]), numAnts)
  }

  /** The redraw loop of getMove, started on the first draw: keep drawing
      while the drawn move is rejected. It stops on the first accepted draw,
      or fails when the stream runs out with every draw rejected. */
  method Redraw(moves: seq<Move>, numAnts: nat, draws: seq<nat>) returns (r: Result<Move>, used: nat)
    requires |moves| > 0 && |draws| > 0
    ensures 0 < used <= |draws|
    ensures AllRejected(moves, numAnts, draws, used - 1)
    ensures r.Success? ==> r.value == Drawn(moves, draws[used - 1]) && Accepted(r.value, numAnts)
    ensures r.Failure? ==> r.error == DrawsExhausted && used == |draws| && AllRejected(moves, numAnts, draws, used)
  {
    var selectedMove := Drawn(moves, draws[0]);
    used := 1;
    while selectedMove.moveType == Build && numAnts >= AntCap
      invariant 0 < used <= |draws|
      invariant selectedMove == Drawn(moves, draws[used - 1])
      invariant AllRejected(moves, numAnts, draws, used - 1)
      decreases |draws| - used
    {
      if used == |draws| {
        break;
      }
      selectedMove := Drawn(moves, draws[used]);
      used := used + 1;
    }
    if Accepted(selectedMove, numAnts) {
      r := Success(selectedMove);
    } else {
      r := Failure(DrawsExhausted);
    }
  }

  /** getMove: draw a legal move, and redraw as long as it is a BUILD move and
      the player (whose ant count is read once, before the loop) owns AntCap
      ants or more. `used` is how many draws were taken from the stream. */
  method GetMove(moves: seq<Move>, numAnts: nat, draws: seq<nat>) returns (r: Result<Move>, used: nat)
    ensures used <= |draws|
    ensures |moves| == 0 ==> r.Failure? && r.error == EmptyRange && used == 0
    ensures r.Success? ==> 0 < used && r.value == Drawn(moves, draws[used - 1])
    ensures r.Success? ==> r.value in moves
    ensures r.Success? && numAnts >= AntCap ==> r.value.moveType != Build
    ensures |moves| > 0 && numAnts < AntCap && |draws| > 0 ==> r.Success? && r.value == Drawn(moves, draws[0]) && used == 1
    ensures |moves| > 0 ==> AllRejected(moves, numAnts, draws, used - 1)
    ensures |moves| > 0 && r.Failure? ==> r.error == DrawsExhausted && used == |draws|
    ensures |moves| > 0 && r.Failure? ==> AllRejected(moves, numAnts, draws, |draws|)
  {
    if |moves| == 0 {
      r, used := Failure(EmptyRange), 0;
    } else if |draws| == 0 {
      r, used := Failure(DrawsExhausted), 0;
    } else {
      r, used := Redraw(moves, numAnts, draws);
    }
  }

  /** getAttack: attack one of the offered enemy locations, chosen by one draw.
      An empty list makes randint(0, -1) raise. */
  function GetAttack<L>(enemyLocations: seq<L>, draw: nat): (r: Result<L>)
    ensures r.Failure? <==> |enemyLocations| == 0
    ensures r.Failure? ==> r.error == EmptyRange
    ensures r.Success? ==> exists k :: 0 <= k < |enemyLocations| && enemyLocations[k] == r.value
  {
    match RandInt(0, |enemyLocations| - 1, draw)
    case Success(k) => Success(enemyLocations[k])
    case Failure(e) => Failure(e)
  }

  /** Every offered location is the attack for some draw. */
  lemma GetAttackReachesEveryTarget<L>(enemyLocations: seq<L>, k: nat)
    requires k < |enemyLocations|
    ensures GetAttack(enemyLocations, k).Success? && GetAttack(enemyLocations, k).value == enemyLocations[k]
  {
  }
}
