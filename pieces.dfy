/** Sides, piece kinds and pieces of box shogi, seen from the player engine.
    The pieces' own classes (movement geometry, promotion tables) are not
    part of this model; a piece is the value it carries. */
module Pieces {
  import opened Wrappers

  /** The two side ids (`LOWER` and `UPPER`). */
  datatype Side = Lower | Upper

  /** The side a piece changes to when it is captured (`switchPlayers`). */
  function Other(s: Side): (r: Side)
    ensures r != s
  {
    if s == Lower then Upper else Lower
  }

  /** The closed set of piece variants; `Drive` is the piece that must not be
      captured and `Preview` the pawn-like piece with extra drop rules. */
  datatype Kind = Drive | Governance | Notes | Preview | Relay | Shield

  datatype Piece = Piece(owner: Side, kind: Kind, promoted: bool)

  /** The lower-case drop letter of a kind. */
  function Letter(k: Kind): (c: char)
  {
    match k
    case Drive => 'd'
    case Governance => 'g'
    case Notes => 'n'
    case Preview => 'p'
    case Relay => 'r'
    case Shield => 's'
  }

  function ToLower(c: char): (r: char)
  {
    if 'A' <= c <= 'Z' then (c as int + 32) as char else c
  }

  function ToUpper(c: char): (r: char)
  {
    if 'a' <= c <= 'z' then (c as int - 32) as char else c
  }

  /** `getChar`: the drop letter, upper case for the UPPER side. The case
      tells the sides apart; ignoring it gives back the kind. */
  function Char(p: Piece): (c: char)
    ensures ToLower(c) == Letter(p.kind)
    ensures (c == ToUpper(c)) <==> p.owner == Upper
  {
    if p.owner == Upper then ToUpper(Letter(p.kind)) else Letter(p.kind)
  }

  /** `repr`: the character, after a '+' when the piece is promoted. */
  function Repr(p: Piece): (s: string)
  {
    (if p.promoted then "+" else "") + [Char(p)]
  }

  /** `repr(square) in ["P", "p"]`; an empty square prints as "None". */
  predicate IsPreviewMark(x: Option<Piece>)
  {
    x.Some? && Repr(x.value) in ["P", "p"]
  }

  /** `demote`: back to base rank, nothing else changes. */
  function Demote(p: Piece): (r: Piece)
  {
    p.(promoted := false)
  }

  /** `switchPlayers`: ownership passes to the other side. */
  function Switch(p: Piece): (r: Piece)
  {
    p.(owner := Other(p.owner))
  }

  /** The preview test on a square sees exactly the unpromoted previews. */
  lemma PreviewMarkIff(x: Option<Piece>)
    ensures IsPreviewMark(x) <==> x.Some? && x.value.kind == Preview && !x.value.promoted
  {
    if x.Some? {
      var p := x.value;
      if p.promoted {
        assert |Repr(p)| == 2;
      } else {
        assert Repr(p) == [Char(p)];
        assert ToLower(Char(p)) == Letter(p.kind);
      }
    }
  }

  /** Matching drop characters without case finds the kind, whatever the sides. */
  lemma SameLetterSameKind(p: Piece, q: Piece)
    ensures ToLower(Char(p)) == ToLower(Char(q)) <==> p.kind == q.kind
  {
  }
}
