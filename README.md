# Box shogi player engine, in Dafny

This project models the player-side rules engine of a box shogi game
(`player.py`). Each side has a player that:

- keeps an ordered pool of captured pieces;
- validates and executes moves;
- validates and executes drops from the pool;
- detects whether its drive (the king piece) is attacked;
- enumerates responses to an attack on the drive: drive moves, teammate moves and drops.

The player is a class whose fields the methods update in place: the pool,
the move counter and the drive location. Its check flag is set only at
construction and never updated. The board is a
class holding an N x N grid of optional pieces. A copy of the board or of a
player is a fresh object built from the same values. Frame clauses therefore
show that the simulations on copies never touch the real board.

Piece movement geometry belongs to the piece classes, which are not part of
this model. Every operation that needs it takes it as a parameter
`geom: Geometry`, a function from a piece kind, a grid and a square to the
set of squares that piece can move to. The only property assumed of it is
that those squares lie on the board.

The modules follow the structure of the engine:

- `Wrappers`: `Option`, `Outcome` and `Result`.
- `Pieces`: sides, kinds and pieces; the drop character, `repr`, demotion and switching sides.
- `Boards`: squares, grids, the board class, relocation, row-major order and the geometry parameter.
- `Pool`: matching drop characters, the first-match search and removal by index.
- `Errors`: the two exception families, one constructor per rule.
- `Moves`: move legality, threats, `check` as a predicate, and the drive's escapes.
- `Drops`: the drop checks in their order, and the board a drop leaves.
- `Responses`: teammate moves, drop responses, and the invariants of the `findEscapeMoves` board scan.
- `Players`: the `Player` class, whose methods are proved against the functions above.

Python iterates over `set`s in an order the program does not fix. `checkmate`
therefore picks its next square with `:|`, and a ghost out-parameter `visit`
records the order it took. The contract covers every order: the errors it
can raise form a set (`KingEscapes`), and the pool afterwards is the old pool
followed by what the trials captured, in `visit` order.

The model keeps these behaviours of the source as they are:

- The drop-mate test looks at the pool's first piece, not the piece the key
  names (`Drops.MateTestUsesPoolHead`, `Drops.MateTestSkippedUnlessPoolHead`).
- The promotion-row refusal applies to every kind of piece
  (`Drops.PromotionRowRefusesEveryKind`).
- `checkmate` and `findEscapeMoves` play real `move`s for this player. These
  count as moves and pool what they capture (`Players.Player.Checkmate`).
- Out of check, `checkmate` raises "cannot move into check" instead of
  filtering (`Moves.NotInCheckEscapesAll`, `Moves.InCheckNeverIntoCheck`).
- A drop that raised during `findEscapeMoves` is still recorded when the
  drive stays unattacked (`Responses.RefusedDropStillRecorded`).

## Model

| member | source | states |
|---|---|---|
| `Players.Player.constructor` | player.py:18-24 | a new player has an empty pool, no moves, is not in check and has no drive location |
| `Players.Player.Capture` | player.py:26-31 | capturing an empty square raises and leaves the pool as it was; otherwise the pool grows by exactly the demoted piece at its end, earlier pieces unchanged |
| `Players.Player.Free` | player.py:34-40 | with a case-insensitive match the first matching piece is returned and exactly that index is removed, the rest keeping their order; with none it raises and the pool is unchanged |
| `Pool.FirstMatch` | player.py:35-37 | the index found matches the key and no earlier piece does; no index is found exactly when no piece matches |
| `Pool.RemoveAt` | player.py:38 | removing index i keeps the pieces before i in place and shifts the later ones down by one |
| `Pool.RemoveAtConserves` | player.py:38 | the popped piece plus the rest is the old pool as a multiset |
| `Pool.AppendThenFree` | player.py:26-40 | a piece captured into a pool with no other match for its character is the one `free` pops, and popping it gives back the old pool |
| `Pool.AppendKeepsFirstMatch` | player.py:31-37 | capturing never changes which earlier piece `free` finds |
| `Pieces.Char` | player.py:36 | the drop character, lower-cased, is the kind's letter, and it is upper case exactly for the UPPER side |
| `Pieces.SameLetterSameKind` | player.py:36 | two pieces' characters match without case exactly when the kinds are equal |
| `Pieces.PreviewMarkIff` | player.py:63 | a square whose `repr` is "P" or "p" holds exactly an unpromoted preview |
| `Players.Player.ValidatePreviewDropColumn` | player.py:57-64 | for the keys 'p' and 'P' the drop is refused exactly when the column holds an unpromoted preview of this side; other keys always pass |
| `Drops.ValidatePreviewPromotion` | player.py:66-70 | refused exactly on row 0 for UPPER and row N-1 for LOWER |
| `Players.Player.ValidatePreviewDropCheckMate` | player.py:48-55 | only a preview is tested; an error of the opponent's `checkmate` trial escapes, and otherwise the drop is refused exactly when no drive move is left |
| `Drops.DropVerdict` | player.py:73-87 | a drop goes through only when the column, promotion-row and occupancy tests pass, the pool is not empty, a preview at its head leaves the opponent's drive some move, and some pool piece matches the key; a refusal has a reason |
| `Players.Player.Drop` | player.py:73-89 | passes exactly when the checks allow; on success the freed first match lands on the destination and leaves the pool; on refusal board and pool are unchanged; counters and drive location are untouched |
| `Drops.DropPlacesOwnPiece` | player.py:86-89 | for a pool of the dropper's own unpromoted pieces (`PoolOwned`, which `Move`, `Drop`, `Checkmate` and `FindEscapeMoves` preserve), a successful drop puts an unpromoted piece of the dropper's side and of the key's kind on a square that was empty, and the pool loses exactly that piece |
| `Drops.MateTestUsesPoolHead` | player.py:81-85 | when the pool's first piece is a preview that would leave the opponent's drive no move, a drop of any key there is refused as a preview mate |
| `Drops.MateTestSkippedUnlessPoolHead` | player.py:81-85 | when the pool's first piece is not a preview, the mate refusal never happens and no other reason than column, row, occupancy or missing piece can refuse |
| `Drops.PromotionRowRefusesEveryKind` | player.py:75-76 | a non-preview key dropped on the promotion row is refused for the promotion zone |
| `Moves.ValidateMove` | player.py:91-100 | each of the four refusals happens exactly when its own condition holds and the earlier ones do not; it passes exactly when none holds |
| `Players.Player.ValidateDriveCheck` | player.py:102-109 | refuses exactly when a drive that is not attacked where it stands would be attacked on the destination after relocation |
| `Players.Player.Move` | player.py:111-128 | the outcome is the combined validation; a refused move changes nothing; a legal one relocates the piece, follows the drive only when asked, appends the captured piece switched and demoted, and adds one move |
| `Moves.MoveKeepsDriveLocation` | player.py:119-121 | after a legal move that follows the drive, the drive location still names this side's drive |
| `Moves.SpoilBelongsToMover` | player.py:123-126 | a piece captured by a legal move enters the pool as the mover's and unpromoted |
| `Players.Player.Check` | player.py:131-141 | true exactly when some enemy piece can move to the target, the drive location when no target is given; never true without a target; the board is not modified |
| `Players.Player.TryDriveMove` | player.py:150-153 | one trial is the move check from the drive location; when it passes, the drive is safe exactly when not attacked after relocation, and the move and capture are counted |
| `Players.Player.Checkmate` | player.py:144-154 | returns exactly the drive moves on which the drive is not attacked when no trial raises; otherwise the error of a trial that raised, and that trial is neither counted nor pooled; each trial that passed counts a move and pools its capture, in trial order |
| `Moves.KingEscapes` | player.py:147-154 | the escapes are drive moves; they exist exactly when every trial passes; a raise carries move errors only |
| `Moves.EscapesAreSafe` | player.py:152-153 | every escape square leaves the drive unattacked once it stands there |
| `Moves.NotInCheckEscapesAll` | player.py:102-109 | out of check, a `checkmate` that returns returns every geometric drive move |
| `Moves.InCheckNeverIntoCheck` | player.py:102-109 | in check, "cannot move into check" is never among the errors `checkmate` can raise |
| `Players.Player.TeamMovesFrom` | player.py:178-184 | a teammate's move is kept, mapped to its origin, exactly when the drive location is unattacked after relocation |
| `Players.Player.TryDrop` | player.py:190-197 | the drive location is safe exactly when it is unattacked on the board the drop leaves, a refused drop leaving it unchanged |
| `Players.Player.DropsAt` | player.py:186-197 | the triples for an empty square are exactly the pool pieces whose drop leaves the drive location unattacked |
| `Responses.RefusedDropStillRecorded` | player.py:192-197 | a refused drop is recorded whenever the drive is unattacked on the unchanged board |
| `Players.Player.ScanSquare` | player.py:174-197 | an enemy square contributes its piece's moves; a teammate not on the drive location contributes its safe moves; an empty square contributes its drop triples |
| `Responses.ScanComplete` | player.py:172-197 | after the last row the banned squares are exactly the attacked ones, the teammate map holds every teammate move at its last origin in row-major order, and the drop set holds every drop response |
| `Players.Player.ScanBoard` | player.py:167-197 | the scan's banned squares, teammate map and drop triples, as `Responses.ScanComplete` describes them |
| `Players.Player.FindEscapeMoves` | player.py:156-204 | an error of a drive trial escapes, with only the trials that passed counted and pooled, and a pool of own unpromoted pieces stays so; otherwise the moves are the unattacked escape squares, mapped to the drive location, and every teammate move, which overrides a drive move to the same square and maps to its last origin; the drops are exactly the drop responses on the pool after the trials |

## Left out

- Piece movement geometry (`possibleMoves` of every piece class) is a parameter. The model assumes only that its squares lie on the board. `piece.py` and `boxdrive.py` are not part of this model.
- `piece.move` is modelled as relocation: the destination receives the source's piece and the source is emptied. The `promote` argument of `move` and the piece's own position (`update_position`) are not modelled.
- The drop character, `repr`, `demote` and `switchPlayers` are modelled by their stated effects. They are: the kind's letter, upper case for UPPER; '+' before it when promoted; promoted := false; owner flip.
- The class-level player id counter is replaced by a side given to the constructor.
- The `captured` property is the `captured` field itself.
- `Players.Player.FindEscapeMoves`: the first loop of `findEscapeMoves` is the same trial loop as `checkmate`, so it is modelled by calling `Checkmate`. It iterates over the geometry's set rather than over a list that could repeat a square. A repeated square would be tried, counted and pooled twice in the source.
- `Players.Player.FindEscapeMoves`: the unused `in_check` result is not computed. `check` changes nothing, so leaving it out does not change the result.
- `Players.Player.FindEscapeMoves` requires the opponent's drive location, although the source needs it only when the pool's first piece is a preview.
- Drop triples are a set of piece values. The source's set of tuples distinguishes piece objects by identity, so two equal pieces in the pool give one triple here.
- `Players.Player.Checkmate` and `Players.Player.FindEscapeMoves` require this player's drive location to be set and on the board. The source passes it to the drive's geometry and to `move` without a test. What happens there without one depends on `boxdrive.py`, which is not part of this model.
- `Players.Player.Drop` requires the opponent's drive location whenever the pool's first piece is a preview, even when the column, row or occupancy check would refuse the drop before the mate test. The same requirement, through the drop it tries, is on `Players.Player.ValidatePreviewDropCheckMate`, `Players.Player.TryDrop`, `Players.Player.DropsAt`, `Players.Player.ScanSquare` and `Players.Player.ScanBoard`. Without it the source runs the opponent's `checkmate` with no drive location, whose outcome depends on `boxdrive.py`.
- `deepcopy` and object identity of pieces are replaced by value copies. No aliasing between pieces is modelled.
- Rendering, input handling and the game loop are outside `player.py` and are not modelled.
