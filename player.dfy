/** The player: one side's captured pool and bookkeeping, and the engine
    that validates and executes its moves and drops, detects check and
    enumerates responses to it. */
module Players {
  import opened Wrappers
  import opened Pieces
  import opened Boards
  import opened Errors
  import opened Pool
  import opened Moves
  import opened Drops
  import opened Responses

  class Player {
    const side: Side
    var captured: seq<Piece>
    var moves: nat
    var inCheck: bool
    var kingLoc: Option<Pos>

    /** A new player for `side`, with no captures, no moves and no drive
        location yet. */
    constructor (side: Side)
      ensures this.side == side && captured == [] && moves == 0
      ensures !inCheck && kingLoc == None
    {
      this.side := side;
      captured := [];
      moves := 0;
      inCheck := false;
      kingLoc := None;
    }

    /** `deepcopy(player)`: a fresh player with the same state. */
    constructor Copy(other: Player)
      ensures side == other.side && captured == other.captured && moves == other.moves
      ensures inCheck == other.inCheck && kingLoc == other.kingLoc
    {
      side := other.side;
      captured := other.captured;
      moves := other.moves;
      inCheck := other.inCheck;
      kingLoc := other.kingLoc;
    }

    /** Every pool piece is this side's and unpromoted, as capturing makes it. */
    ghost predicate PoolOwned()
      reads this
    {
      forall p :: p in captured ==> p.owner == side && !p.promoted
    }

    /** `capture`: refuses an empty square; otherwise appends the piece,
        demoted, and keeps the rest of the pool as it was. */
    method Capture(piece: Option<Piece>) returns (r: Outcome<Error>)
      modifies this
      ensures piece.None? ==> r == Fail(IllegalMove(CaptureEmpty)) && captured == old(captured)
      ensures piece.Some? ==> r == Pass && captured == old(captured) + [Demote(piece.value)]
      ensures moves == old(moves) && inCheck == old(inCheck) && kingLoc == old(kingLoc)
    {
      if piece.None? {
        return Fail(IllegalMove(CaptureEmpty));
      }
      captured := captured + [Demote(piece.value)];
      return Pass;
    }

    /** `free`: pops the first pool piece whose character matches `key`
        without regard to case; refuses when none does. */
    method Free(key: char) returns (r: Result<Piece, Error>)
      modifies this
      ensures var i := FirstMatch(old(captured), key);
        && (i.None? ==> r == Err(IllegalDrop(NoSuchPiece)) && captured == old(captured))
        && (i.Some? ==> r == Ok(old(captured)[i.value]) && captured == RemoveAt(old(captured), i.value))
      ensures moves == old(moves) && inCheck == old(inCheck) && kingLoc == old(kingLoc)
    {
      var p := 0;
      while p < |captured|
        invariant 0 <= p <= |captured| && captured == old(captured)
        invariant forall j :: 0 <= j < p ==> !Matches(captured[j], key)
      {
        if ToLower(Char(captured[p])) == ToLower(key) {
          var piece := captured[p];
          captured := RemoveAt(captured, p);
          return Ok(piece);
        }
        p := p + 1;
      }
      return Err(IllegalDrop(NoSuchPiece));
    }

    /** `check`: scans the board for an enemy piece that can move to the
        target, which defaults to the drive location. */
    method Check(board: Board, target: Option<Pos>, geom: Geometry) returns (r: bool)
      ensures r == Attacked(board.grid, side, if target.None? then kingLoc else target, geom)
    {
      var aim := if target.None? then kingLoc else target;
      var g := board.grid;
      var i := 0;
      while i < |g|
        invariant 0 <= i <= |g|
        invariant forall s :: Before(s, Pos(i, 0)) ==> !(aim.Some? && Threatens(g, side, s, aim.value, geom))
      {
        var j := 0;
        while j < |g|
          invariant 0 <= j <= |g|
          invariant forall s :: Before(s, Pos(i, j)) ==> !(aim.Some? && Threatens(g, side, s, aim.value, geom))
        {
          var square := g[i][j];
          if square.Some? && square.value.owner != side && aim.Some?
            && aim.value in geom(square.value.kind, g, Pos(i, j))
          {
            assert Threatens(g, side, Pos(i, j), aim.value, geom);
            return true;
          }
          j := j + 1;
        }
        i := i + 1;
      }
      return false;
    }

    /** `_validatePreviewDropColumn`: for the keys 'p' and 'P', refuses a
        column that already holds one of this side's unpromoted previews. */
    method ValidatePreviewDropColumn(board: Board, key: char, dst: Pos) returns (r: Outcome<Error>)
      requires Inside(board.grid, dst)
      ensures r.Fail? <==> (key == 'p' || key == 'P') && OwnPreviewInColumn(board.grid, side, dst.col)
      ensures r.Fail? ==> r.error == IllegalDrop(PreviewInColumn)
    {
      if key == 'p' || key == 'P' {
        var y := dst.col;
        var row := 0;
        while row < |board.grid|
          invariant 0 <= row <= |board.grid|
          invariant forall i :: 0 <= i < row ==>
            !(IsPreviewMark(board.grid[i][y]) && board.grid[i][y].value.owner == side)
        {
          var square := board.grid[row][y];
          if IsPreviewMark(square) && square.value.owner == side {
            return Fail(IllegalDrop(PreviewInColumn));
          }
          row := row + 1;
        }
      }
      return Pass;
    }

    /** `_validatePreviewDropCheckMate`: when `piece` is a preview, plays
        `checkmate` for a copy of the opponent on a copy of the board with
        the piece dropped, and refuses when no drive move is left; an error
        of that trial escapes. */
    method ValidatePreviewDropCheckMate(board: Board, opponent: Player, piece: Piece, dst: Pos, geom: Geometry)
      returns (r: Outcome<Error>)
      requires Inside(board.grid, dst)
      requires piece.kind == Preview ==> opponent.kingLoc.Some? && Inside(board.grid, opponent.kingLoc.value)
      ensures piece.kind != Preview ==> r == Pass
      ensures piece.kind == Preview ==>
        var esc := KingEscapes(Place(board.grid, dst, Some(piece)), opponent.side, opponent.kingLoc.value, geom);
        && (esc.Raises? ==> r.Fail? && r.error in esc.faults)
        && (esc.Escapes? ==> (r.Fail? <==> esc.squares == {}))
        && (esc.Escapes? && r.Fail? ==> r.error == IllegalDrop(PreviewMate))
    {
      if piece.kind == Preview {
        var boardCopy := new Board(Place(board.grid, dst, Some(piece)));
        var opponentCopy := new Player.Copy(opponent);
        var escapes, _ := opponentCopy.Checkmate(boardCopy, geom);
        if escapes.Err? {
          return Fail(escapes.error);
        }
        if |escapes.value| == 0 {
          return Fail(IllegalDrop(PreviewMate));
        }
      }
      return Pass;
    }

    /** `drop`: runs the drop checks in order and, only when all pass, frees
        the matching piece and places it on the destination. */
    method Drop(key: char, board: Board, dst: Pos, opponent: Player, geom: Geometry) returns (r: Outcome<Error>)
      requires Inside(board.grid, dst) && MateTestReady(board.grid, captured, opponent.kingLoc)
      modifies this, board
      ensures var g, pool, oppKing := old(board.grid), old(captured), old(opponent.kingLoc);
        var v := DropVerdict(g, side, pool, key, dst, opponent.side, oppKing, geom);
        && (r.Pass? <==> v.Allowed?)
        && (r.Fail? ==> r.error in v.faults)
        && board.grid == AfterDrop(g, side, pool, key, dst, opponent.side, oppKing, geom)
        && captured == (if r.Pass? then RemoveAt(pool, FirstMatch(pool, key).value) else pool)
      ensures moves == old(moves) && inCheck == old(inCheck) && kingLoc == old(kingLoc)
      ensures old(PoolOwned()) ==> PoolOwned()
    {
      var column := ValidatePreviewDropColumn(board, key, dst);
      if column.Fail? {
        return column;
      }
      var promotion := ValidatePreviewPromotion(|board.grid|, side, dst);
      if promotion.Fail? {
        return promotion;
      }
      if board.grid[dst.row][dst.col].Some? {
        return Fail(IllegalDrop(Occupied));
      }
      if |captured| == 0 {
        return Fail(IllegalDrop(EmptyPool));
      }
      var piece := captured[0];
      var mate := ValidatePreviewDropCheckMate(board, opponent, piece, dst, geom);
      if mate.Fail? {
        return mate;
      }
      var freed := Free(key);
      if freed.Err? {
        return Fail(freed.error);
      }
      board.Set(dst, Some(freed.value));
      return Pass;
    }

    /** `_validateDriveCheck`: a drive that is not attacked where it stands
        may not move to a square where it would be attacked. */
    method ValidateDriveCheck(board: Board, src: Pos, dst: Pos, geom: Geometry) returns (r: Outcome<Error>)
      requires Inside(board.grid, src) && Inside(board.grid, dst) && At(board.grid, src).Some?
      ensures r.Fail? <==> MovesIntoCheck(board.grid, side, src, dst, geom)
      ensures r.Fail? ==> r.error == IllegalMove(IntoCheck)
    {
      var sourcePiece := board.grid[src.row][src.col].value;
      if sourcePiece.kind == Drive {
        var attacked := Check(board, Some(src), geom);
        if !attacked {
          var boardCopy := new Board(board.grid);
          boardCopy.MovePiece(src, dst);
          var caught := Check(boardCopy, Some(dst), geom);
          if caught {
            return Fail(IllegalMove(IntoCheck));
          }
        }
      }
      return Pass;
    }

    /** `move`: validates first; then relocates the piece, follows the drive
        with `king_loc` when asked to, pools a captured piece as this side's,
        and counts the move. A refused move changes nothing. */
    method Move(src: Pos, dst: Pos, board: Board, updateKingLoc: bool, geom: Geometry) returns (r: Outcome<Error>)
      requires Inside(board.grid, src) && Inside(board.grid, dst)
      modifies this, board
      ensures r == MoveCheck(old(board.grid), side, src, dst, geom)
      ensures r.Fail? ==> && board.grid == old(board.grid) && captured == old(captured)
                          && moves == old(moves) && kingLoc == old(kingLoc)
      ensures r.Pass? ==>
        && board.grid == Relocate(old(board.grid), src, dst)
        && kingLoc == (if updateKingLoc && At(old(board.grid), src).value.kind == Drive then Some(dst) else old(kingLoc))
        && captured == old(captured) + Spoil(old(board.grid), dst)
        && moves == old(moves) + 1
      ensures inCheck == old(inCheck)
      ensures old(PoolOwned()) ==> PoolOwned()
    {
      var sourcePiece := board.grid[src.row][src.col];
      var destPiece := board.grid[dst.row][dst.col];
      var valid := ValidateMove(board.grid, side, src, dst, geom);
      if valid.Fail? {
        return valid;
      }
      var safe := ValidateDriveCheck(board, src, dst, geom);
      if safe.Fail? {
        return safe;
      }
      board.MovePiece(src, dst);
      if sourcePiece.value.kind == Drive && updateKingLoc {
        kingLoc := Some(dst);
      }
      if destPiece.Some? {
        var _ := Capture(Some(Switch(destPiece.value)));
      }
      moves := moves + 1;
      return Pass;
    }

    /** One trial of `checkmate`: this player's `move` from k to m on a
        fresh copy of g, without following the drive, then `check` at m. */
    method TryDriveMove(g: Grid, k: Pos, m: Pos, geom: Geometry) returns (moved: Outcome<Error>, safe: bool)
      requires Inside(g, k) && Inside(g, m)
      modifies this
      ensures moved == MoveCheck(g, side, k, m, geom)
      ensures moved.Pass? ==> && safe == !Attacked(Relocate(g, k, m), side, Some(m), geom)
                              && moves == old(moves) + 1 && captured == old(captured) + Spoil(g, m)
      ensures moved.Fail? ==> moves == old(moves) && captured == old(captured)
      ensures kingLoc == old(kingLoc) && inCheck == old(inCheck)
      ensures old(PoolOwned()) ==> PoolOwned()
    {
      var boardCopy := new Board(g);
      moved := Move(k, m, boardCopy, false, geom);
      safe := false;
      if moved.Pass? {
        var attacked := Check(boardCopy, Some(m), geom);
        safe := !attacked;
      }
    }

    /** `checkmate`: tries every drive move on a fresh copy of the board
        with this player's own `move` (not following the drive), and keeps
        the squares where the drive is not attacked. The trials count as
        moves and pool what they capture; a trial that raises ends the call
        with its error. `visit` is the order in which squares were tried. */
    method Checkmate(board: Board, geom: Geometry) returns (r: Result<set<Pos>, Error>, ghost visit: seq<Pos>)
      requires kingLoc.Some? && Inside(board.grid, kingLoc.value)
      modifies this
      ensures kingLoc == old(kingLoc) && inCheck == old(inCheck)
      ensures var esc := KingEscapes(board.grid, side, kingLoc.value, geom);
        && (r.Ok? <==> esc.Escapes?)
        && (r.Ok? ==> r.value == esc.squares)
        && (r.Err? ==> r.error in esc.faults)
      ensures forall a, b :: 0 <= a < b < |visit| ==> visit[a] != visit[b]
      ensures forall m :: m in visit ==> m in geom(Drive, board.grid, kingLoc.value)
      ensures forall m :: m in visit ==> MoveCheck(board.grid, side, kingLoc.value, m, geom).Pass?
      ensures r.Ok? ==> forall m :: m in geom(Drive, board.grid, kingLoc.value) ==> m in visit
      ensures r.Err? ==> exists m ::
        && m in geom(Drive, board.grid, kingLoc.value) && m !in visit
        && MoveCheck(board.grid, side, kingLoc.value, m, geom) == Fail(r.error)
      ensures moves == old(moves) + |visit|
      ensures captured == old(captured) + Spoils(board.grid, visit)
      ensures old(PoolOwned()) ==> PoolOwned()
    {
      var g := board.grid;
      var k := kingLoc.value;
      var kingMoves := geom(Drive, g, k);
      var newMoves: set<Pos> := {};
      var todo := kingMoves;
      visit := [];
      ghost var pool0, moves0, owned0 := captured, moves, PoolOwned();
      while todo != {}
        invariant TrialsSoFar(g, side, k, geom, todo, visit, newMoves)
        invariant kingLoc == Some(k) && inCheck == old(inCheck)
        invariant moves == moves0 + |visit|
        invariant captured == pool0 + Spoils(g, visit)
        invariant owned0 ==> PoolOwned()
        decreases todo
      {
        var m :| m in todo;
        var moved, safe := TryDriveMove(g, k, m, geom);
        if moved.Fail? {
          FailedTrialRaises(g, side, k, m, geom);
          assert m !in visit;
          return Err(moved.error), visit;
        }
        TrialStep(g, side, k, geom, todo, visit, newMoves, m, safe);
        SpoilsAppend(g, pool0, visit, m);
        newMoves := if safe then newMoves + {m} else newMoves;
        visit := visit + [m];
        todo := todo - {m};
      }
      PassedTrialsEscape(g, side, k, geom, visit, newMoves);
      return Ok(newMoves), visit;
    }

    /** The teammate part of `findEscapeMoves` for the piece on s: its
        moves, each relocated on a fresh copy of the board, that leave the
        drive location unattacked, mapped back to s. */
    method TeamMovesFrom(board: Board, s: Pos, geom: Geometry) returns (found: map<Pos, Pos>)
      requires Inside(board.grid, s) && At(board.grid, s).Some?
      ensures forall m :: m in found <==>
        m in geom(At(board.grid, s).value.kind, board.grid, s)
        && !Attacked(Relocate(board.grid, s, m), side, kingLoc, geom)
      ensures forall m :: m in found ==> found[m] == s
    {
      var g := board.grid;
      var teammateMoves := geom(At(g, s).value.kind, g, s);
      var todo := teammateMoves;
      found := map[];
      while todo != {}
        invariant todo <= teammateMoves
        invariant forall m :: m in found <==>
          m in teammateMoves && m !in todo && !Attacked(Relocate(g, s, m), side, kingLoc, geom)
        invariant forall m :: m in found ==> found[m] == s
        decreases todo
      {
        var m :| m in todo;
        var boardCopy := new Board(g);
        boardCopy.MovePiece(s, m);
        var attacked := Check(boardCopy, kingLoc, geom);
        if !attacked {
          found := found[m := s];
        }
        todo := todo - {m};
      }
    }

    /** One drop try of the `findEscapeMoves` scan: a copy of this player
        drops a piece with the character of `piece` onto sq of a copy of g,
        any error swallowed, then `check` runs at the drive location. */
    method TryDrop(g: Grid, sq: Pos, piece: Piece, opponent: Player, geom: Geometry) returns (safe: bool)
      requires Inside(g, sq) && MateTestReady(g, captured, opponent.kingLoc)
      ensures safe == !Attacked(AfterDrop(g, side, captured, Char(piece), sq, opponent.side, opponent.kingLoc, geom),
                                side, kingLoc, geom)
    {
      var playerCopy := new Player.Copy(this);
      var boardCopy := new Board(g);
      var _ := playerCopy.Drop(Char(piece), boardCopy, sq, opponent, geom);
      var attacked := Check(boardCopy, kingLoc, geom);
      safe := !attacked;
    }

    /** The drop part of `findEscapeMoves` for the empty square sq: for each
        pool piece, a copy of this player tries to drop a piece with its
        character on a copy of the board (an error is swallowed), and the
        triple is kept when the drive location is then unattacked. */
    method DropsAt(board: Board, sq: Pos, opponent: Player, geom: Geometry) returns (found: set<DropMove>)
      requires Inside(board.grid, sq) && MateTestReady(board.grid, captured, opponent.kingLoc)
      ensures forall x :: x in found <==>
        && x.row == sq.row && x.col == sq.col && x.piece in captured
        && !Attacked(AfterDrop(board.grid, side, captured, Char(x.piece), sq, opponent.side, opponent.kingLoc, geom),
                     side, kingLoc, geom)
    {
      var g := board.grid;
      var opponentCopy := new Player.Copy(opponent);
      found := {};
      var c := 0;
      while c < |captured|
        invariant 0 <= c <= |captured|
        invariant opponentCopy.side == opponent.side && opponentCopy.kingLoc == opponent.kingLoc
        invariant forall x :: x in found <==>
          && x.row == sq.row && x.col == sq.col && x.piece in captured[..c]
          && !Attacked(AfterDrop(g, side, captured, Char(x.piece), sq, opponent.side, opponent.kingLoc, geom),
                       side, kingLoc, geom)
      {
        var safe := TryDrop(g, sq, captured[c], opponentCopy, geom);
        if safe {
          found := found + {DropMove(captured[c], sq.row, sq.col)};
        }
        assert captured[..c + 1] == captured[..c] + [captured[c]];
        c := c + 1;
      }
      assert captured[..c] == captured;
    }

    /** One square of the scan: an enemy piece's reach, the safe moves of
        a teammate other than the drive, or the drop triples on an empty square. */
    method ScanSquare(board: Board, sq: Pos, opponent: Player, geom: Geometry)
      returns (enemyMoves: set<Pos>, found: map<Pos, Pos>, dropped: set<DropMove>)
      requires Inside(board.grid, sq) && MateTestReady(board.grid, captured, opponent.kingLoc)
      ensures var square := At(board.grid, sq);
        enemyMoves == if square.Some? && square.value.owner != side then geom(square.value.kind, board.grid, sq) else {}
      ensures forall m :: m in found <==> TeamMove(board.grid, side, kingLoc, sq, m, geom)
      ensures forall m :: m in found ==> found[m] == sq
      ensures forall x :: x in dropped <==>
        Pos(x.row, x.col) == sq && DropResponse(board.grid, side, captured, kingLoc, x, opponent.side, opponent.kingLoc, geom)
    {
      var g := board.grid;
      var square := g[sq.row][sq.col];
      enemyMoves, found, dropped := {}, map[], {};
      if square.Some? {
        if square.value.owner != side {
          enemyMoves := geom(square.value.kind, g, sq);
        } else if Some(sq) != kingLoc {
          found := TeamMovesFrom(board, sq, geom);
        }
      } else {
        dropped := DropsAt(board, sq, opponent, geom);
      }
    }

    /** The row-major board scan of `findEscapeMoves`: the squares enemy
        pieces reach, the teammate moves that keep the drive safe (the last
        origin in scan order winning), and the drop triples on empty squares. */
    method ScanBoard(board: Board, opponent: Player, geom: Geometry)
      returns (bannedMoves: set<Pos>, teamMoves: map<Pos, Pos>, dropMoves: set<DropMove>)
      requires kingLoc.Some? && Inside(board.grid, kingLoc.value)
      requires MateTestReady(board.grid, captured, opponent.kingLoc)
      ensures forall m :: m in bannedMoves <==> Attacked(board.grid, side, Some(m), geom)
      ensures forall m :: m in teamMoves <==> TeamReach(board.grid, side, kingLoc, m, geom)
      ensures forall m :: m in teamMoves ==>
        && TeamMove(board.grid, side, kingLoc, teamMoves[m], m, geom)
        && (forall s :: TeamMove(board.grid, side, kingLoc, s, m, geom) ==> !Before(teamMoves[m], s))
      ensures forall x :: x in dropMoves <==>
        DropResponse(board.grid, side, captured, kingLoc, x, opponent.side, opponent.kingLoc, geom)
    {
      var g := board.grid;
      bannedMoves, teamMoves, dropMoves := {}, map[], {};
      ScanStart(g, side, captured, kingLoc, opponent.side, opponent.kingLoc, geom);
      var i := 0;
      while i < |g|
        invariant 0 <= i <= |g|
        invariant ScanSoFar(g, side, captured, kingLoc, opponent.side, opponent.kingLoc, geom,
                            bannedMoves, teamMoves, dropMoves, Pos(i, 0))
      {
        var j := 0;
        while j < |g|
          invariant 0 <= j <= |g|
          invariant ScanSoFar(g, side, captured, kingLoc, opponent.side, opponent.kingLoc, geom,
                              bannedMoves, teamMoves, dropMoves, Pos(i, j))
        {
          var sq := Pos(i, j);
          var enemyMoves, found, dropped := ScanSquare(board, sq, opponent, geom);
          ScanStep(g, side, captured, kingLoc, opponent.side, opponent.kingLoc, geom,
                   bannedMoves, teamMoves, dropMoves, sq, enemyMoves, found, dropped);
          bannedMoves := bannedMoves + enemyMoves;
          teamMoves := teamMoves + found;
          dropMoves := dropMoves + dropped;
          j := j + 1;
        }
        RowWrap(g, side, captured, kingLoc, opponent.side, opponent.kingLoc, geom, bannedMoves, teamMoves, dropMoves, i);
        i := i + 1;
      }
      ScanComplete(g, side, captured, kingLoc, opponent.side, opponent.kingLoc, geom, bannedMoves, teamMoves, dropMoves);
    }

    /** `findEscapeMoves`: the drive's escapes (the `checkmate` trials, with
        the same effects on this player), minus every square an enemy piece
        can reach now; teammate moves that leave the drive location
        unattacked, a later square in row-major order overriding an earlier
        one for the same destination, and overriding a drive move; and the
        drop triples on empty squares. */
    method FindEscapeMoves(board: Board, opponent: Player, geom: Geometry)
      returns (r: Result<Responses, Error>, ghost visit: seq<Pos>)
      requires kingLoc.Some? && Inside(board.grid, kingLoc.value)
      requires opponent.kingLoc.Some? && Inside(board.grid, opponent.kingLoc.value)
      modifies this
      ensures kingLoc == old(kingLoc) && inCheck == old(inCheck)
      ensures forall a, b :: 0 <= a < b < |visit| ==> visit[a] != visit[b]
      ensures forall m :: m in visit ==> m in geom(Drive, board.grid, kingLoc.value)
      ensures forall m :: m in visit ==> MoveCheck(board.grid, side, kingLoc.value, m, geom).Pass?
      ensures r.Err? ==> exists m ::
        && m in geom(Drive, board.grid, kingLoc.value) && m !in visit
        && MoveCheck(board.grid, side, kingLoc.value, m, geom) == Fail(r.error)
      ensures moves == old(moves) + |visit|
      ensures captured == old(captured) + Spoils(board.grid, visit)
      ensures old(PoolOwned()) ==> PoolOwned()
      ensures r.Err? ==> var esc := KingEscapes(board.grid, side, kingLoc.value, geom);
        esc.Raises? && r.error in esc.faults
      ensures r.Ok? ==> var esc := KingEscapes(board.grid, side, kingLoc.value, geom);
        && esc.Escapes?
        && (forall m :: m in geom(Drive, board.grid, kingLoc.value) ==> m in visit)
        && (forall m :: m in r.value.moves <==>
              (m in esc.squares && !Attacked(board.grid, side, Some(m), geom))
              || TeamReach(board.grid, side, kingLoc, m, geom))
      ensures r.Ok? ==> forall m :: m in r.value.moves ==>
        if TeamReach(board.grid, side, kingLoc, m, geom) then
          && TeamMove(board.grid, side, kingLoc, r.value.moves[m], m, geom)
          && forall s :: TeamMove(board.grid, side, kingLoc, s, m, geom) ==> !Before(r.value.moves[m], s)
        else r.value.moves[m] == kingLoc.value
      ensures r.Ok? ==> forall x :: x in r.value.drops <==>
        DropResponse(board.grid, side, captured, kingLoc, x, opponent.side, opponent.kingLoc, geom)
    {
      var escapes;
      escapes, visit := Checkmate(board, geom);
      if escapes.Err? {
        return Err(escapes.error), visit;
      }
      var g := board.grid;
      var k := kingLoc.value;
      var kingMoves := map m | m in escapes.value :: k;
      var bannedMoves, teamMoves, dropMoves := ScanBoard(board, opponent, geom);
      kingMoves := kingMoves - bannedMoves;
      return Ok(Responses(dropMoves, kingMoves + teamMoves)), visit;
    }
  }
}
