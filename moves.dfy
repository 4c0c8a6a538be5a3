/** Move legality, threats and the drive's escapes, as functions of a grid
    value. The player methods that compute them are proved against these. */
module Moves {
  import opened Wrappers
  import opened Pieces
  import opened Boards
  import opened Errors

  /** The piece on square s is an enemy of `side` that can move to m. */
  ghost predicate Threatens(g: Grid, side: Side, s: Pos, m: Pos, geom: Geometry)
  {
    Inside(g, s) && At(g, s).Some? && At(g, s).value.owner != side
    && m in geom(At(g, s).value.kind, g, s)
  }

  /** `check`: some enemy piece can move to the target; no target is never
      attacked. */
  ghost predicate Attacked(g: Grid, side: Side, target: Option<Pos>, geom: Geometry)
  {
    target.Some? && exists s :: Threatens(g, side, s, target.value, geom)
  }

  /** `_validateMove`: four checks in order, the first failure wins. */
  function ValidateMove(g: Grid, side: Side, src: Pos, dst: Pos, geom: Geometry): (r: Outcome<Error>)
    requires Inside(g, src) && Inside(g, dst)
    ensures r == Fail(IllegalMove(EmptySource)) <==> At(g, src).None?
    ensures r == Fail(IllegalMove(NotYours)) <==> At(g, src).Some? && At(g, src).value.owner != side
    ensures r == Fail(IllegalMove(InvalidMove)) <==>
      At(g, src).Some? && At(g, src).value.owner == side && dst !in geom(At(g, src).value.kind, g, src)
    ensures r == Fail(IllegalMove(OntoOwnPiece)) <==>
      At(g, src).Some? && At(g, src).value.owner == side && dst in geom(At(g, src).value.kind, g, src)
      && At(g, dst).Some? && At(g, dst).value.owner == side
    ensures r.Pass? <==>
      At(g, src).Some? && At(g, src).value.owner == side && dst in geom(At(g, src).value.kind, g, src)
      && !(At(g, dst).Some? && At(g, dst).value.owner == side)
  {
    if At(g, src).None? then Fail(IllegalMove(EmptySource))
    else if At(g, src).value.owner != side then Fail(IllegalMove(NotYours))
    else if dst !in geom(At(g, src).value.kind, g, src) then Fail(IllegalMove(InvalidMove))
    else if At(g, dst).Some? && side == At(g, dst).value.owner then Fail(IllegalMove(OntoOwnPiece))
    else Pass
  }

  /** `_validateDriveCheck`'s rejection: the drive leaves an unattacked
      square for one that is attacked once it stands there. */
  ghost predicate MovesIntoCheck(g: Grid, side: Side, src: Pos, dst: Pos, geom: Geometry)
    requires Inside(g, src) && Inside(g, dst) && At(g, src).Some?
  {
    At(g, src).value.kind == Drive
    && !Attacked(g, side, Some(src), geom)
    && Attacked(Relocate(g, src, dst), side, Some(dst), geom)
  }

  /** Everything `move` checks before it changes anything. */
  ghost function MoveCheck(g: Grid, side: Side, src: Pos, dst: Pos, geom: Geometry): (r: Outcome<Error>)
    requires Inside(g, src) && Inside(g, dst)
  {
    var v := ValidateMove(g, side, src, dst, geom);
    if v.Fail? then v
    else if MovesIntoCheck(g, side, src, dst, geom) then Fail(IllegalMove(IntoCheck))
    else Pass
  }

  /** What a move to `dst` adds to the mover's pool: the piece standing
      there, switched to the mover's side and demoted. */
  function Spoil(g: Grid, dst: Pos): (spoil: seq<Piece>)
    requires Inside(g, dst)
  {
    if At(g, dst).Some? then [Demote(Switch(At(g, dst).value))] else []
  }

  /** What a sequence of moves, each played on a fresh copy of g, adds. */
  function Spoils(g: Grid, ms: seq<Pos>): (spoils: seq<Piece>)
    requires forall m :: m in ms ==> Inside(g, m)
  {
    if ms == [] then [] else Spoils(g, ms[..|ms| - 1]) + Spoil(g, ms[|ms| - 1])
  }

  /** The outcome of `checkmate`: the drive's geometric moves that leave it
      unattacked, or, when the trial move to some square raises, the set of
      errors that can escape (which one does depends on the order in which
      the squares are tried). */
  datatype Escapes = Escapes(squares: set<Pos>) | Raises(faults: set<Error>)

  ghost function KingEscapes(g: Grid, side: Side, k: Pos, geom: Geometry): (r: Escapes)
    requires Inside(g, k)
    ensures r.Escapes? ==> r.squares <= geom(Drive, g, k)
    ensures r.Escapes? <==> forall m :: m in geom(Drive, g, k) ==> MoveCheck(g, side, k, m, geom).Pass?
    ensures r.Raises? ==> r.faults != {} && forall e :: e in r.faults ==> e.IllegalMove?
  {
    var reach := geom(Drive, g, k);
    if forall m :: m in reach ==> MoveCheck(g, side, k, m, geom).Pass? then
      Escapes(set m | m in reach && !Attacked(Relocate(g, k, m), side, Some(m), geom))
    else
      var m :| m in reach && MoveCheck(g, side, k, m, geom).Fail?;
      var faults := set m' | m' in reach && MoveCheck(g, side, k, m', geom).Fail? :: MoveCheck(g, side, k, m', geom).error;
      assert MoveCheck(g, side, k, m, geom).error in faults;
      Raises(faults)
  }

  /** A trial move that raises makes `checkmate` raise, with that error
      among the ones it can raise. */
  lemma FailedTrialRaises(g: Grid, side: Side, k: Pos, m: Pos, geom: Geometry)
    requires Inside(g, k) && m in geom(Drive, g, k) && MoveCheck(g, side, k, m, geom).Fail?
    ensures KingEscapes(g, side, k, geom).Raises?
    ensures MoveCheck(g, side, k, m, geom).error in KingEscapes(g, side, k, geom).faults
  {
  }

  /** When every trial move passes, `checkmate` returns exactly the safe
      squares. */
  lemma PassedTrialsEscape(g: Grid, side: Side, k: Pos, geom: Geometry, visit: seq<Pos>, safe: set<Pos>)
    requires Inside(g, k) && TrialsSoFar(g, side, k, geom, {}, visit, safe)
    ensures KingEscapes(g, side, k, geom) == Escapes(safe)
    ensures forall m :: m in geom(Drive, g, k) ==> m in visit
  {
  }

  /** Where the trial loop of `checkmate` stands: the squares tried, in
      order and each once, all passed; the rest are still to do; the safe
      squares found are exactly the tried ones the drive is safe on. */
  ghost predicate TrialsSoFar(g: Grid, side: Side, k: Pos, geom: Geometry,
                              todo: set<Pos>, visit: seq<Pos>, safe: set<Pos>)
    requires Inside(g, k)
  {
    var reach := geom(Drive, g, k);
    && todo <= reach
    && (forall a, b :: 0 <= a < b < |visit| ==> visit[a] != visit[b])
    && (forall m :: m in visit ==> m in reach && m !in todo && MoveCheck(g, side, k, m, geom).Pass?)
    && (forall m :: m in reach ==> m in todo || m in visit)
    && (forall m :: m in safe <==> m in reach && m !in todo && !Attacked(Relocate(g, k, m), side, Some(m), geom))
  }

  /** A passing trial of m moves it from the squares to do to the tried ones. */
  lemma TrialStep(g: Grid, side: Side, k: Pos, geom: Geometry,
                  todo: set<Pos>, visit: seq<Pos>, safe: set<Pos>, m: Pos, ok: bool)
    requires Inside(g, k) && TrialsSoFar(g, side, k, geom, todo, visit, safe)
    requires m in todo && MoveCheck(g, side, k, m, geom).Pass?
    requires ok == !Attacked(Relocate(g, k, m), side, Some(m), geom)
    ensures TrialsSoFar(g, side, k, geom, todo - {m}, visit + [m], if ok then safe + {m} else safe)
  {
  }

  /** One more trial adds its spoil at the end of the pool. */
  lemma SpoilsAppend(g: Grid, pool: seq<Piece>, visit: seq<Pos>, m: Pos)
    requires forall s :: s in visit ==> Inside(g, s)
    requires Inside(g, m)
    ensures pool + Spoils(g, visit + [m]) == (pool + Spoils(g, visit)) + Spoil(g, m)
  {
    assert (visit + [m])[..|visit|] == visit;
  }

  /** The drive of `side` stands on the square k names. */
  ghost predicate DriveAt(g: Grid, side: Side, k: Option<Pos>)
  {
    k.Some? && Inside(g, k.value) && At(g, k.value).Some?
    && At(g, k.value).value.owner == side && At(g, k.value).value.kind == Drive
  }

  /** An escape square is safe: once the drive stands there, nothing attacks it. */
  lemma EscapesAreSafe(g: Grid, side: Side, k: Pos, geom: Geometry, m: Pos)
    requires Inside(g, k) && KingEscapes(g, side, k, geom).Escapes?
    requires m in KingEscapes(g, side, k, geom).squares
    ensures Inside(g, m) && !Attacked(Relocate(g, k, m), side, Some(m), geom)
  {
  }

  /** Out of check, `checkmate` cannot filter: a drive move into check
      raises instead, so a call that returns returns every geometric move. */
  lemma NotInCheckEscapesAll(g: Grid, side: Side, k: Pos, geom: Geometry)
    requires DriveAt(g, side, Some(k)) && !Attacked(g, side, Some(k), geom)
    ensures KingEscapes(g, side, k, geom).Escapes? ==> KingEscapes(g, side, k, geom).squares == geom(Drive, g, k)
  {
    var esc := KingEscapes(g, side, k, geom);
    if esc.Escapes? {
      forall m | m in geom(Drive, g, k)
        ensures m in esc.squares
      {
        assert MoveCheck(g, side, k, m, geom).Pass?;
        assert !MovesIntoCheck(g, side, k, m, geom);
      }
    }
  }

  /** In check, the trial moves never raise "Cannot move into check": the
      drive-safety test is skipped and the square is filtered instead. */
  lemma InCheckNeverIntoCheck(g: Grid, side: Side, k: Pos, geom: Geometry)
    requires Inside(g, k) && Attacked(g, side, Some(k), geom)
    ensures KingEscapes(g, side, k, geom).Raises? ==> IllegalMove(IntoCheck) !in KingEscapes(g, side, k, geom).faults
  {
    forall m | m in geom(Drive, g, k)
      ensures MoveCheck(g, side, k, m, geom) != Fail(IllegalMove(IntoCheck))
    {
      if ValidateMove(g, side, k, m, geom).Pass? { assert !MovesIntoCheck(g, side, k, m, geom); }
    }
  }


  /** `king_loc` stays accurate: after a legal move that updates it when the
      drive moves, it still names the square of the mover's drive. */
  lemma MoveKeepsDriveLocation(g: Grid, side: Side, k: Option<Pos>, src: Pos, dst: Pos, geom: Geometry)
    requires Inside(g, src) && Inside(g, dst)
    requires ValidateMove(g, side, src, dst, geom).Pass? && DriveAt(g, side, k)
    ensures DriveAt(Relocate(g, src, dst), side, if At(g, src).value.kind == Drive then Some(dst) else k)
  {
    assert src != dst;
  }

  /** A capture always lands in the mover's pool as the mover's, unpromoted. */
  lemma SpoilBelongsToMover(g: Grid, side: Side, src: Pos, dst: Pos, geom: Geometry)
    requires Inside(g, src) && Inside(g, dst) && ValidateMove(g, side, src, dst, geom).Pass?
    ensures forall p :: p in Spoil(g, dst) ==> p.owner == side && !p.promoted
  {
  }
}
