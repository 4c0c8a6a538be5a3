/** Drop legality: the checks `drop` runs, in order, before it frees a
    piece from the pool and places it. */
module Drops {
  import opened Wrappers
  import opened Pieces
  import opened Boards
  import opened Errors
  import opened Pool
  import opened Moves

  /** Column `col` already holds an unpromoted preview of `side`. */
  predicate OwnPreviewInColumn(g: Grid, side: Side, col: int)
    requires 0 <= col < |g|
  {
    exists row :: 0 <= row < |g| && IsPreviewMark(g[row][col]) && g[row][col].value.owner == side
  }

  /** The row of a side's promotion zone on an n x n board. */
  function PromotionRow(n: int, side: Side): (row: int)
  {
    if side == Upper then 0 else n - 1
  }

  /** `_validatePreviewPromotion`: a drop onto the dropper's promotion row
      is refused, whatever piece is dropped. */
  function ValidatePreviewPromotion(n: int, side: Side, dst: Pos): (r: Outcome<Error>)
    ensures r.Fail? <==> dst.row == PromotionRow(n, side)
    ensures r.Fail? ==> r.error == IllegalDrop(PromotionZone)
  {
    var inPromoZone := (dst.row == 0 && side == Upper) || (dst.row == n - 1 && side == Lower);
    if inPromoZone then Fail(IllegalDrop(PromotionZone)) else Pass
  }

  /** The drop-mate test needs the opponent's drive location only when the
      head of the pool is a preview. */
  predicate MateTestReady(g: Grid, pool: seq<Piece>, oppKing: Option<Pos>)
  {
    pool != [] && pool[0].kind == Preview ==> oppKing.Some? && Inside(g, oppKing.value)
  }

  /** Whether a drop goes through, or the errors it can raise. */
  datatype Verdict = Allowed | Refused(faults: set<Error>)

  /** The checks of `drop`, in order: the preview column (only for the keys
      'p' and 'P'), the promotion row, an empty destination, a non-empty
      pool, the drop-mate test on the pool's FIRST piece, and finally a
      pool piece matching the key. */
  ghost function DropVerdict(g: Grid, side: Side, pool: seq<Piece>, key: char, dst: Pos,
                             oppSide: Side, oppKing: Option<Pos>, geom: Geometry): (r: Verdict)
    requires Inside(g, dst) && MateTestReady(g, pool, oppKing)
    ensures r.Allowed? ==>
      && !((key == 'p' || key == 'P') && OwnPreviewInColumn(g, side, dst.col))
      && dst.row != PromotionRow(|g|, side)
      && At(g, dst).None?
      && pool != []
      && (pool[0].kind == Preview ==>
            var esc := KingEscapes(Place(g, dst, Some(pool[0])), oppSide, oppKing.value, geom);
            esc.Escapes? && esc.squares != {})
      && FirstMatch(pool, key).Some?
    ensures r.Refused? ==> r.faults != {}
  {
    if (key == 'p' || key == 'P') && OwnPreviewInColumn(g, side, dst.col) then
      Refused({IllegalDrop(PreviewInColumn)})
    else if ValidatePreviewPromotion(|g|, side, dst).Fail? then
      Refused({IllegalDrop(PromotionZone)})
    else if At(g, dst).Some? then
      Refused({IllegalDrop(Occupied)})
    else if pool == [] then
      Refused({IllegalDrop(EmptyPool)})
    else if pool[0].kind == Preview && KingEscapes(Place(g, dst, Some(pool[0])), oppSide, oppKing.value, geom).Raises? then
      Refused(KingEscapes(Place(g, dst, Some(pool[0])), oppSide, oppKing.value, geom).faults)
    else if pool[0].kind == Preview && KingEscapes(Place(g, dst, Some(pool[0])), oppSide, oppKing.value, geom).squares == {} then
      Refused({IllegalDrop(PreviewMate)})
    else if FirstMatch(pool, key).None? then
      Refused({IllegalDrop(NoSuchPiece)})
    else
      Allowed
  }

  /** The board after `drop`: the freed piece on the destination when the
      drop goes through, the board unchanged otherwise. */
  ghost function AfterDrop(g: Grid, side: Side, pool: seq<Piece>, key: char, dst: Pos,
                           oppSide: Side, oppKing: Option<Pos>, geom: Geometry): (r: Grid)
    requires Inside(g, dst) && MateTestReady(g, pool, oppKing)
  {
    if DropVerdict(g, side, pool, key, dst, oppSide, oppKing, geom).Allowed? then
      Place(g, dst, Some(pool[FirstMatch(pool, key).value]))
    else g
  }

  /** The drop-mate test looks at the pool's first piece, not at the piece
      the key asks for: when that first piece is a preview whose drop would
      leave the opponent's drive no move, every drop there is refused, even
      one of another kind. */
  lemma MateTestUsesPoolHead(g: Grid, side: Side, pool: seq<Piece>, key: char, dst: Pos,
                             oppSide: Side, oppKing: Option<Pos>, geom: Geometry)
    requires Inside(g, dst) && MateTestReady(g, pool, oppKing)
    requires !((key == 'p' || key == 'P') && OwnPreviewInColumn(g, side, dst.col))
    requires dst.row != PromotionRow(|g|, side) && At(g, dst).None?
    requires pool != [] && pool[0].kind == Preview
    requires KingEscapes(Place(g, dst, Some(pool[0])), oppSide, oppKing.value, geom) == Escapes({})
    ensures DropVerdict(g, side, pool, key, dst, oppSide, oppKing, geom) == Refused({IllegalDrop(PreviewMate)})
  {
  }

  /** ... and when the first piece is not a preview the test never runs, so
      a preview further down the pool may be dropped to mate. */
  lemma MateTestSkippedUnlessPoolHead(g: Grid, side: Side, pool: seq<Piece>, key: char, dst: Pos,
                                      oppSide: Side, oppKing: Option<Pos>, geom: Geometry)
    requires Inside(g, dst) && MateTestReady(g, pool, oppKing)
    requires pool != [] && pool[0].kind != Preview
    ensures DropVerdict(g, side, pool, key, dst, oppSide, oppKing, geom) != Refused({IllegalDrop(PreviewMate)})
    ensures DropVerdict(g, side, pool, key, dst, oppSide, oppKing, geom).Refused? ==>
      DropVerdict(g, side, pool, key, dst, oppSide, oppKing, geom).faults <= {
        IllegalDrop(PreviewInColumn), IllegalDrop(PromotionZone), IllegalDrop(Occupied), IllegalDrop(NoSuchPiece)}
  {
  }

  /** The promotion-row refusal applies to every kind of piece. */
  lemma PromotionRowRefusesEveryKind(g: Grid, side: Side, pool: seq<Piece>, key: char, dst: Pos,
                                     oppSide: Side, oppKing: Option<Pos>, geom: Geometry)
    requires Inside(g, dst) && MateTestReady(g, pool, oppKing)
    requires key != 'p' && key != 'P' && dst.row == PromotionRow(|g|, side)
    ensures DropVerdict(g, side, pool, key, dst, oppSide, oppKing, geom) == Refused({IllegalDrop(PromotionZone)})
  {
  }

  /** A drop that goes through puts on the destination a piece of the
      dropper's own side and rank, of the kind the key names, and takes
      exactly that piece out of the pool. */
  lemma DropPlacesOwnPiece(g: Grid, side: Side, pool: seq<Piece>, key: char, dst: Pos,
                           oppSide: Side, oppKing: Option<Pos>, geom: Geometry)
    requires Inside(g, dst) && MateTestReady(g, pool, oppKing)
    requires DropVerdict(g, side, pool, key, dst, oppSide, oppKing, geom).Allowed?
    requires forall p :: p in pool ==> p.owner == side && !p.promoted
    ensures var i := FirstMatch(pool, key).value;
      && At(g, dst).None?
      && At(AfterDrop(g, side, pool, key, dst, oppSide, oppKing, geom), dst) == Some(pool[i])
      && pool[i].owner == side && !pool[i].promoted && Matches(pool[i], key)
      && multiset(RemoveAt(pool, i)) + multiset{pool[i]} == multiset(pool)
  {
    RemoveAtConserves(pool, FirstMatch(pool, key).value);
  }
}
