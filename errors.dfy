/** The exceptions the player engine raises (`PlayerError` and its two
    subclasses), each with the rule it reports. */
module Errors {

  datatype MoveFault =
    | EmptySource    // "Cannot move empty square"
    | NotYours       // "Cannot move piece that isn't yours"
    | InvalidMove    // "Invalid move"
    | OntoOwnPiece   // "Cannot move onto your own piece"
    | IntoCheck      // "Cannot move into check"
    | CaptureEmpty   // "Cannot capture empty square"

  datatype DropFault =
    | PreviewInColumn  // "Cannot drop box preview in same column as another"
    | PromotionZone    // "Cannot drop BoxPreview in promotion zone"
    | Occupied         // "Cannot drop piece on another piece"
    | EmptyPool        // "Cannot drop piece from empty captured set"
    | PreviewMate      // "Cannot drop Box Preview to cause immediate checkmate"
    | NoSuchPiece      // "Invalid piece was attempted to be dropped"

  datatype Error = IllegalMove(move: MoveFault) | IllegalDrop(drop: DropFault)
}
