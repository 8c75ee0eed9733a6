# Ohta–Teramoto Antics agent, modelled in Dafny

This project models the decision logic of the `AIPlayer` agent in
`Antics/AI/ohta17_teramoto17.py`. The agent plays Antics, a two-player
ant-colony board game on a 10×10 board. The model covers:

- the search-tree `Node` record (move, resulting state, parent, value) and
  `findOverallScore`, which averages the values of a list of nodes;
- `getPlacement`: during setup, pick distinct empty tiles in a band of rows
  by rejection sampling. Phase 1 picks eleven tiles in rows 0–3 and phase 2
  picks two tiles in rows 6–9. Any other phase gives the fallback `[(0, 0)]`;
- `getMove`: draw a random legal move, and redraw while it is a BUILD move
  and the player already owns three or more ants;
- `getAttack`: attack a randomly chosen one of the offered enemy locations.

Modules, one per concern:

- `Outcomes` (`outcomes.dfy`): `Option`, plus a `Result` whose `Error`
  stands for the exceptions the code can raise. `DivisionByZero` is
  Python's `ZeroDivisionError`. `EmptyRange` is the `ValueError` from
  `randint(0, -1)`.
- `RandomDraws` (`random_draws.dfy`): the injected stand-in for
  `random.randint`. A draw is any natural number `d`, and
  `randint(lo, hi)` yields `lo + d % (hi - lo + 1)`. Every value of the
  range is produced by some draw, so a stream of draws can stand for any run
  of the real random source.
- `SearchNode` (`search_node.dfy`): `Node` and `findOverallScore`, proved
  against the reference mean `Mean`.
- `Placement` (`placement.dfy`): `getPlacement`. The board's "a construction
  stands here" flags are a 10×10 `array2<bool>`. The two phase loops of the
  source are one method, `PlaceInBand`, parameterised by a `Band` (tile count
  and row range). It is proved equal to the recursive reference `Sample`.
  `GetPlacement` has no `modifies` clause, so the verifier checks that it
  leaves the board unchanged. In the source, the line meant to mark a chosen
  tile (lines 100 and 117) is a comparison, not an assignment, so the board
  really does stay the same. The chosen tiles are still distinct because of
  the `(x, y) not in moves` test.
- `MoveSelection` (`move_selection.dfy`): `getMove` and `getAttack`. A
  `Move` carries its `moveType`, a coordinate list and an optional build
  type; the agent reads only the `moveType`. The legal-move list
  and the ant count are inputs.

The rejection loops in the source (lines 91–100, 108–117 and 138–139) end
only when the random source eventually gives an acceptable draw. Here they
read a finite stream instead. If a loop runs out of draws first, the call
returns `Failure(DrawsExhausted)`, and the contracts say exactly when that
can happen.

The model follows the code where it departs from the general description of this family of agents:

- That description defines the aggregate of an empty list as `0` and offers
  a max mode. `findOverallScore` has neither: it always takes the mean, and
  on an empty list Python's division raises. The model returns
  `Failure(DivisionByZero)` there.
- `findOverallScore` is declared in the class without a `self` parameter.
  Nothing in the file calls it. It is modelled as the plain function it
  computes.

## Model

| member | source | states |
|---|---|---|
| `SearchNode.FindOverallScore` | Antics/AI/ohta17_teramoto17.py:57-67 | fails with DivisionByZero exactly when the list is empty; otherwise the result times the list length is the sum of all node values, i.e. the result is the mean |
| `SearchNode.SumValsBounded` | Antics/AI/ohta17_teramoto17.py:61-65 | if every value lies in [lo, hi], the accumulated total lies in [lo·n, hi·n] |
| `SearchNode.MeanBounded` | Antics/AI/ohta17_teramoto17.py:60-67 | if every node value lies in [lo, hi], so does the average |
| `SearchNode.MeanBetweenMinAndMax` | Antics/AI/ohta17_teramoto17.py:60-67 | the average lies between the smallest and the largest node value |
| `SearchNode.MeanOfEqualVals` | Antics/AI/ohta17_teramoto17.py:60-67 | averaging nodes that all have the same value gives that value |
| `RandomDraws.RandInt` | Antics/AI/ohta17_teramoto17.py:93 | randint(lo, hi) gives a value within [lo, hi] inclusive, and fails with EmptyRange exactly when hi < lo |
| `RandomDraws.RandIntCoversRange` | Antics/AI/ohta17_teramoto17.py:93 | every value of [lo, hi] is the result of some draw |
| `Placement.DrawnTile` | Antics/AI/ohta17_teramoto17.py:92-95 | two draws name a tile with x in 0..9 and y in the band's rows |
| `Placement.SampleSound` | Antics/AI/ohta17_teramoto17.py:89-101 | a successful placement keeps the tiles chosen so far and extends them to exactly the band's count of tiles, all in the band, all empty, all pairwise distinct |
| `Placement.SampleDrawUse` | Antics/AI/ohta17_teramoto17.py:91-100 | placement fails only with DrawsExhausted while tiles are still missing, and a success used at least two draws per tile placed |
| `Placement.PlaceInBand` | Antics/AI/ohta17_teramoto17.py:88-102 | the nested for/while rejection loop returns exactly what the reference sampling `Sample` returns from no chosen tiles |
| `Placement.GetPlacement` | Antics/AI/ohta17_teramoto17.py:83-121 | phase 1: exactly 11 tiles, 0≤x≤9, 0≤y≤3; phase 2: exactly 2 tiles, 0≤x≤9, 6≤y≤9; both phases: tiles empty and pairwise distinct; any other phase: exactly [(0, 0)]; it can fail only in a setup phase, by running out of draws; the board is not modified |
| `MoveSelection.Drawn` | Antics/AI/ohta17_teramoto17.py:134 | the move a draw selects is an element of the legal-move list |
| `MoveSelection.Redraw` | Antics/AI/ohta17_teramoto17.py:136-139 | the redraw loop stops on the first draw whose move is kept (not a BUILD move while the player owns 3+ ants); every draw before it was rejected; it fails with DrawsExhausted only after every draw in the stream was rejected |
| `MoveSelection.GetMove` | Antics/AI/ohta17_teramoto17.py:132-141 | the result is the move selected by the last draw used, so it is a member of the legal-move list. With 3+ ants it is not a BUILD move, and every earlier draw selected a BUILD move. With fewer ants the first draw is returned unchanged. An empty move list fails with EmptyRange. Running out of draws happens only when every draw selected a BUILD move with 3+ ants |
| `MoveSelection.GetAttack` | Antics/AI/ohta17_teramoto17.py:152-154 | the attack is an element of the enemy locations; it fails with EmptyRange exactly when that list is empty |
| `MoveSelection.GetAttackReachesEveryTarget` | Antics/AI/ohta17_teramoto17.py:154 | every offered enemy location is the attack for some draw |

## Left out

- `random.randint` is an injected draw stream, not real randomness. The model says which draws give which result. It says nothing about probabilities.
- A rejection loop that never ends in Python (the random source never gives an acceptable draw) is modelled as running out of a finite stream, with result `DrawsExhausted`.
- `listAllLegalMoves`, `GameState`, `Player`, `Move`, `Constants`, `Construction`, `Ant` and `AIPlayerUtils` are not part of this model. The legal-move list, the board's construction flags and the ant count are inputs. `Move` is reduced to a record of a move type, a coordinate list and an optional build type, of which the agent reads only the move type.
- `AIPlayer.__init__` (lines 29-30) only passes the id and name to the `Player` base class, which is not part of this model.
- `Node.__str__` (lines 47-48) formats an opaque `Move` as a string and is left out.
- Node values and the division in `findOverallScore` are exact reals. Python floating-point rounding is not modelled.
- The `currentState` and `attackingAnt` parameters of `getAttack` are unused by the source and are not parameters here.
- The depth-limited search, pruning modes, evaluation heuristics and the mean/max aggregation switch described for this family of agents do not appear in this file. They are not modelled.
