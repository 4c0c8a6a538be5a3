/** What `findEscapeMoves` reports: teammate moves and drops that leave the
    drive unattacked, beside the drive's own escapes. */
module Responses {
  import opened Wrappers
  import opened Pieces
  import opened Boards
  import opened Errors
  import opened Pool
  import opened Moves
  import opened Drops

  /** A teammate move the scan keeps: a piece of `side` on s, not on the
      square `king_loc` names, can move to m, and relocating it there
      leaves the square `king_loc` names unattacked. */
  ghost predicate TeamMove(g: Grid, side: Side, k: Option<Pos>, s: Pos, m: Pos, geom: Geometry)
  {
    && Inside(g, s) && At(g, s).Some? && At(g, s).value.owner == side && Some(s) != k
    && m in geom(At(g, s).value.kind, g, s)
    && !Attacked(Relocate(g, s, m), side, k, geom)
  }

  ghost predicate TeamReach(g: Grid, side: Side, k: Option<Pos>, m: Pos, geom: Geometry)
  {
    exists s :: TeamMove(g, side, k, s, m, geom)
  }

  /** A drop response: the pool piece and the square, `(piece, i, j)`. */
  datatype DropMove = DropMove(piece: Piece, row: int, col: int)

  /** A drop triple the scan records: an empty square, a pool piece, and no
      attack on the square `king_loc` names once a copy of the player has
      tried to drop a piece with that character there (a refused try leaves
      the copied board as it was, and is recorded all the same). */
  ghost predicate DropResponse(g: Grid, side: Side, pool: seq<Piece>, k: Option<Pos>, x: DropMove,
                               oppSide: Side, oppKing: Option<Pos>, geom: Geometry)
    requires MateTestReady(g, pool, oppKing)
  {
    && Inside(g, Pos(x.row, x.col)) && At(g, Pos(x.row, x.col)).None? && x.piece in pool
    && !Attacked(AfterDrop(g, side, pool, Char(x.piece), Pos(x.row, x.col), oppSide, oppKing, geom), side, k, geom)
  }

  /** The pair `findEscapeMoves` returns: drop triples, and destination to
      origin for drive and teammate moves. */
  datatype Responses = Responses(drops: set<DropMove>, moves: map<Pos, Pos>)

  /** A refused drop is still recorded as a response whenever the drive is
      not attacked on the unchanged board: the try's error is swallowed but
      the safety test runs anyway. */
  lemma RefusedDropStillRecorded(g: Grid, side: Side, pool: seq<Piece>, k: Option<Pos>, x: DropMove,
                                 oppSide: Side, oppKing: Option<Pos>, geom: Geometry)
    requires MateTestReady(g, pool, oppKing)
    requires Inside(g, Pos(x.row, x.col)) && At(g, Pos(x.row, x.col)).None? && x.piece in pool
    requires DropVerdict(g, side, pool, Char(x.piece), Pos(x.row, x.col), oppSide, oppKing, geom).Refused?
    requires !Attacked(g, side, k, geom)
    ensures DropResponse(g, side, pool, k, x, oppSide, oppKing, geom)
  {
  }

  // The row-major scan of `findEscapeMoves`: what its three accumulators
  // hold once it has passed every square before `cur`.

  ghost predicate Scanned(g: Grid, s: Pos, cur: Pos)
  {
    Inside(g, s) && Before(s, cur)
  }

  /** The squares some enemy piece already passed can move to. */
  ghost predicate BannedSoFar(g: Grid, side: Side, geom: Geometry, banned: set<Pos>, cur: Pos)
  {
    forall m :: m in banned <==> exists s :: Scanned(g, s, cur) && Threatens(g, side, s, m, geom)
  }

  /** Teammate moves from the squares passed, each destination mapped to the
      last such origin in scan order. */
  ghost predicate TeamSoFar(g: Grid, side: Side, k: Option<Pos>, geom: Geometry, team: map<Pos, Pos>, cur: Pos)
  {
    && (forall m :: m in team ==> TeamMove(g, side, k, team[m], m, geom) && Scanned(g, team[m], cur))
    && (forall s, m :: Scanned(g, s, cur) && TeamMove(g, side, k, s, m, geom) ==> m in team && !Before(team[m], s))
  }

  /** The drop triples on the squares passed. */
  ghost predicate DropsSoFar(g: Grid, side: Side, pool: seq<Piece>, k: Option<Pos>,
                             oppSide: Side, oppKing: Option<Pos>, geom: Geometry, drops: set<DropMove>, cur: Pos)
    requires MateTestReady(g, pool, oppKing)
  {
    forall x :: x in drops <==>
      Scanned(g, Pos(x.row, x.col), cur) && DropResponse(g, side, pool, k, x, oppSide, oppKing, geom)
  }

  lemma BannedStep(g: Grid, side: Side, geom: Geometry, banned: set<Pos>, cur: Pos, add: set<Pos>)
    requires Inside(g, cur) && BannedSoFar(g, side, geom, banned, cur)
    requires add == if At(g, cur).Some? && At(g, cur).value.owner != side then geom(At(g, cur).value.kind, g, cur) else {}
    ensures BannedSoFar(g, side, geom, banned + add, Pos(cur.row, cur.col + 1))
  {
    var next := Pos(cur.row, cur.col + 1);
    forall m
      ensures m in banned + add <==> exists s :: Scanned(g, s, next) && Threatens(g, side, s, m, geom)
    {
      if m in add {
        assert Scanned(g, cur, next) && Threatens(g, side, cur, m, geom);
      }
      if s :| Scanned(g, s, next) && Threatens(g, side, s, m, geom) {
        if s != cur {
          assert Scanned(g, s, cur);
        }
      }
    }
  }

  lemma TeamStep(g: Grid, side: Side, k: Option<Pos>, geom: Geometry, team: map<Pos, Pos>, cur: Pos, found: map<Pos, Pos>)
    requires Inside(g, cur) && TeamSoFar(g, side, k, geom, team, cur)
    requires forall m :: m in found <==> TeamMove(g, side, k, cur, m, geom)
    requires forall m :: m in found ==> found[m] == cur
    ensures TeamSoFar(g, side, k, geom, team + found, Pos(cur.row, cur.col + 1))
  {
    var next := Pos(cur.row, cur.col + 1);
    var merged := team + found;
    forall m | m in merged
      ensures TeamMove(g, side, k, merged[m], m, geom) && Scanned(g, merged[m], next)
    {
      if m in found {
        assert merged[m] == cur;
      } else {
        assert merged[m] == team[m];
      }
    }
    forall s, m | Scanned(g, s, next) && TeamMove(g, side, k, s, m, geom)
      ensures m in merged && !Before(merged[m], s)
    {
      if s == cur {
        assert m in found && merged[m] == cur;
      } else {
        assert Scanned(g, s, cur);
        if m in found {
          assert merged[m] == cur;
        } else {
          assert m in team && merged[m] == team[m];
        }
      }
    }
  }

  lemma DropsStep(g: Grid, side: Side, pool: seq<Piece>, k: Option<Pos>, oppSide: Side, oppKing: Option<Pos>,
                  geom: Geometry, drops: set<DropMove>, cur: Pos, found: set<DropMove>)
    requires MateTestReady(g, pool, oppKing)
    requires Inside(g, cur) && DropsSoFar(g, side, pool, k, oppSide, oppKing, geom, drops, cur)
    requires forall x :: x in found <==>
      Pos(x.row, x.col) == cur && DropResponse(g, side, pool, k, x, oppSide, oppKing, geom)
    ensures DropsSoFar(g, side, pool, k, oppSide, oppKing, geom, drops + found, Pos(cur.row, cur.col + 1))
  {
  }

  /** All three accumulators of the scan, standing at `cur`. */
  ghost predicate ScanSoFar(g: Grid, side: Side, pool: seq<Piece>, k: Option<Pos>, oppSide: Side, oppKing: Option<Pos>,
                            geom: Geometry, banned: set<Pos>, team: map<Pos, Pos>, drops: set<DropMove>, cur: Pos)
    requires MateTestReady(g, pool, oppKing)
  {
    && BannedSoFar(g, side, geom, banned, cur)
    && TeamSoFar(g, side, k, geom, team, cur)
    && DropsSoFar(g, side, pool, k, oppSide, oppKing, geom, drops, cur)
  }

  /** Before the first square nothing is collected. */
  lemma ScanStart(g: Grid, side: Side, pool: seq<Piece>, k: Option<Pos>, oppSide: Side, oppKing: Option<Pos>, geom: Geometry)
    requires MateTestReady(g, pool, oppKing)
    ensures ScanSoFar(g, side, pool, k, oppSide, oppKing, geom, {}, map[], {}, Pos(0, 0))
  {
  }

  /** One square of the scan adds what `findEscapeMoves` finds there. */
  lemma ScanStep(g: Grid, side: Side, pool: seq<Piece>, k: Option<Pos>, oppSide: Side, oppKing: Option<Pos>,
                 geom: Geometry, banned: set<Pos>, team: map<Pos, Pos>, drops: set<DropMove>, cur: Pos,
                 enemyMoves: set<Pos>, found: map<Pos, Pos>, dropped: set<DropMove>)
    requires MateTestReady(g, pool, oppKing) && Inside(g, cur)
    requires ScanSoFar(g, side, pool, k, oppSide, oppKing, geom, banned, team, drops, cur)
    requires enemyMoves == if At(g, cur).Some? && At(g, cur).value.owner != side then geom(At(g, cur).value.kind, g, cur) else {}
    requires forall m :: m in found <==> TeamMove(g, side, k, cur, m, geom)
    requires forall m :: m in found ==> found[m] == cur
    requires forall x :: x in dropped <==>
      Pos(x.row, x.col) == cur && DropResponse(g, side, pool, k, x, oppSide, oppKing, geom)
    ensures ScanSoFar(g, side, pool, k, oppSide, oppKing, geom,
                      banned + enemyMoves, team + found, drops + dropped, Pos(cur.row, cur.col + 1))
  {
    BannedStep(g, side, geom, banned, cur, enemyMoves);
    TeamStep(g, side, k, geom, team, cur, found);
    DropsStep(g, side, pool, k, oppSide, oppKing, geom, drops, cur, dropped);
  }

  /** Passing the end of a row is starting the next one. */
  lemma RowWrap(g: Grid, side: Side, pool: seq<Piece>, k: Option<Pos>, oppSide: Side, oppKing: Option<Pos>,
                geom: Geometry, banned: set<Pos>, team: map<Pos, Pos>, drops: set<DropMove>, i: int)
    requires MateTestReady(g, pool, oppKing)
    requires ScanSoFar(g, side, pool, k, oppSide, oppKing, geom, banned, team, drops, Pos(i, |g|))
    ensures ScanSoFar(g, side, pool, k, oppSide, oppKing, geom, banned, team, drops, Pos(i + 1, 0))
  {
    assert forall s :: Scanned(g, s, Pos(i, |g|)) <==> Scanned(g, s, Pos(i + 1, 0));
  }

  /** After the last row the scan has seen every square: the banned squares
      are the attacked ones, the teammate map holds every teammate move at
      its last origin, and the drop set every drop response. */
  lemma ScanComplete(g: Grid, side: Side, pool: seq<Piece>, k: Option<Pos>, oppSide: Side, oppKing: Option<Pos>,
                     geom: Geometry, banned: set<Pos>, team: map<Pos, Pos>, drops: set<DropMove>)
    requires MateTestReady(g, pool, oppKing)
    requires ScanSoFar(g, side, pool, k, oppSide, oppKing, geom, banned, team, drops, Pos(|g|, 0))
    ensures forall m :: m in banned <==> Attacked(g, side, Some(m), geom)
    ensures forall m :: m in team <==> TeamReach(g, side, k, m, geom)
    ensures forall m :: m in team ==>
      && TeamMove(g, side, k, team[m], m, geom)
      && (forall s :: TeamMove(g, side, k, s, m, geom) ==> !Before(team[m], s))
    ensures forall x :: x in drops <==> DropResponse(g, side, pool, k, x, oppSide, oppKing, geom)
  {
    assert forall s :: Scanned(g, s, Pos(|g|, 0)) <==> Inside(g, s);
  }
}
