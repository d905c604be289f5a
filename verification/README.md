# Board bookkeeping of the bishop-and-knight prototype

This project models, in Dafny, the board of `src/chess-pieces.js` with its DOM stripped away. A `Board` has three
parallel `numRows × numColumns` grids: terrain (`Empty`, `Hole`, `Wall`), pieces (a piece or `null`) and tile-UI marks
(`NotClickable`, `ClickablePiece`, ...). It also has a game phase. The model covers:

- the board constructor;
- `findPiece`, the row-major search for a piece;
- `removePieceAt`;
- `addPiece`, which first takes the piece off its previous cell, so that a piece is never on two cells;
- the three UI-mark updates `makeAllPiecesNotClickable`, `makeAllPiecesOfACertainAlignmentSelectable` and
  `makeTileAtSelectable`;
- `createEnum`, the frozen-object enum constructor.

Modules:

- `Wrappers`: `Option`, which stands for a reference or `null`.
- `Grids`: two-dimensional `seq<seq<T>>` grids and the row-by-row fill that the constructor uses.
- `Enums`: `createEnum`. Property keys are JavaScript strings, so index `i` is stored under its decimal numeral.
- `ChessPieces`: the board, its operations and the predicates they are specified with.
- `BoardProperties`: lemmas relating cells and calls, chiefly "a piece is on at most one cell".

Modelling choices:

- A piece object is a value with a unique `id`. Value equality of pieces therefore coincides with the reference
  equality (`==` on objects) that `findPiece` uses.
- An exception in JavaScript undoes nothing. So an operation returns an `Outcome`, either `Returned(board)` or
  `Threw(board)`, and both carry the board state the call leaves behind.
- `findPiece` compares cells with `==`, so it accepts any cell value. `FindPiece` takes a `Cell` too: searching for
  `null` finds the first empty cell, as `findPiece` does.
- Out-of-range coordinates follow JavaScript array semantics. `boardPieces[row]` is `undefined` for a bad row, so the
  write throws. For a good row and a bad column, the write creates a property outside the grid that no loop over
  `numRows × numColumns` ever reads.
- The frozen enum objects `TerrainTypes`, `TileUITypes`, `Alignment` and `GamePhase` are built by
  `ChessPieces.CreateBoardEnums`, which applies `Enums.CreateEnum` to `Enums.TerrainNames` and the other name lists.
  The board uses one datatype per enum. Each constructor stands for the enum value of the same name, and its `Name()`
  gives that string. `CreateBoardEnums` proves that looking up a constructor's name yields that name, so, for
  example, `TerrainTypes.Empty` is the value the constructor `Empty` stands for.
- Terrain is `Empty`/`Hole`/`Wall` and is never read after construction; the phase is only initialised.

## Model

| member | source | states |
|---|---|---|
| `Enums.CreateEnum` | src/chess-pieces.js:3-11 | `length` is the number of names. The keys are exactly the index numerals, the names other than `"__proto__"` (whose assignment goes to the inherited setter) and `length`. Every other property holds one of the names. When no name collides with an index numeral, `length` or `"__proto__"`, index `i` and name `values[i]` both look up `values[i]` |
| `Enums.SetProperty` | src/chess-pieces.js:6-9 | assigning a key of a plain object stores the value under that key and changes no other key, except that `"__proto__"` stores nothing |
| `Enums.NumeralValueOfIndexKey` | src/chess-pieces.js:6 | reading back the decimal key under which index `n` is stored gives `n` |
| `Enums.IndexKeyInjective` | src/chess-pieces.js:5-6 | distinct indices are stored under distinct property keys |
| `Enums.SourceEnumsAvoidReservedKeys` | src/chess-pieces.js:13-16 | the terrain, tile-UI, alignment and phase enums have no key collisions, so every index and name lookup of theirs yields the name |
| `ChessPieces.CreateBoardEnums` | src/chess-pieces.js:13-16 | in each of the four enum objects, every constructor's name is a key that looks up that name, and `length` is the number of values (3, 5, 2, 5) |
| `Grids.FillGrid` | src/chess-pieces.js:65-87 | the built grid has `rows` rows of `cols` cells, each holding the fill value |
| `ChessPieces.NewBoard` | src/chess-pieces.js:54-87 | a new board has the requested dimensions; every terrain cell is `Empty`, every piece cell `null` and every UI cell `NotClickable`; the phase is `PlayerTurnStart`; no piece is duplicated |
| `ChessPieces.FindFrom` | src/chess-pieces.js:127-133 | the search resumed at `(r, c)` finds nothing iff no cell at or after `(r, c)` holds the target; otherwise it finds a cell holding it with no earlier such cell from `(r, c)` on |
| `ChessPieces.FindPiece` | src/chess-pieces.js:126-134 | `null` iff no cell holds the target; otherwise an in-bounds cell holding it, first in row-major order |
| `ChessPieces.RemovePieceAt` | src/chess-pieces.js:136-138 | throws iff the row is off the board; otherwise cell `(row, column)` becomes empty if it is on the board; every other cell, the terrain, the UI marks and the phase are unchanged |
| `ChessPieces.ClearOldLocation` | src/chess-pieces.js:144-148 | the cell `findPiece` reports for the piece becomes empty; no other cell changes |
| `ChessPieces.AddPieceAsWritten` | src/chess-pieces.js:140-150 | throws iff the target is off the board; the cell `findPiece` reported for the piece is emptied even when the call throws; on return the target holds the piece; every other cell, the terrain, the UI marks and the phase are unchanged |
| `ChessPieces.AddPiece` | src/chess-pieces.js:140-150 | an off-board target throws and leaves the board as it was; otherwise the target holds the piece, its previous cell is emptied, and every other cell, the terrain, the UI marks and the phase are unchanged |
| `ChessPieces.MakeTileAtSelectable` | src/chess-pieces.js:195-199 | throws iff the tile is off the board; otherwise only that tile's UI mark changes, to `ClickablePiece`; pieces and terrain are unchanged |
| `ChessPieces.MakeAllPiecesNotClickable` | src/chess-pieces.js:172-180 | every UI mark is `NotClickable`; pieces, terrain and phase are unchanged |
| `ChessPieces.MakeAllPiecesOfACertainAlignmentSelectable` | src/chess-pieces.js:182-193 | a UI mark is `ClickablePiece` iff its cell holds a piece of the given alignment, and `NotClickable` iff not; pieces, terrain and phase are unchanged |
| `BoardProperties.AddPieceOccupiesOnlyTarget` | src/chess-pieces.js:144-150 | if the piece was on at most one cell, afterwards it is on exactly one cell, the target |
| `BoardProperties.AddPieceKeepsOtherPieces` | src/chess-pieces.js:144-150 | any other piece keeps exactly its previous cells except the target |
| `BoardProperties.AddPieceRemovesOverwrittenPiece` | src/chess-pieces.js:150 | a different piece that stood alone on the target is no longer on the board |
| `BoardProperties.AddPiecePreservesNoDuplicates` | src/chess-pieces.js:140-150 | for the corrected `addPiece`: if no piece was on two cells before the call, none is after it |
| `BoardProperties.AddPieceAsWrittenPreservesNoDuplicates` | src/chess-pieces.js:140-150 | for `addPiece` as written, on every target including an off-board one that throws: if no piece was on two cells before the call, none is after it |
| `BoardProperties.RemovePieceAtPreservesNoDuplicates` | src/chess-pieces.js:136-138 | emptying a cell keeps the board free of duplicated pieces |
| `BoardProperties.FindPieceAfterAddPiece` | src/chess-pieces.js:126-150 | when `p` was on at most one cell and `(row, column)` is on the board, `findPiece(p)` answers `(row, column)` after `addPiece(p, row, column)` |
| `BoardProperties.AddPieceIdempotent` | src/chess-pieces.js:140-150 | when `p` was on at most one cell, placing it a second time on the same cell gives the same result as placing it once (an off-board target included) |
| `BoardProperties.RemovePieceAtAfterAddPieceRemovesIt` | src/chess-pieces.js:136-150 | when `p` was on at most one cell and `(row, column)` is on the board, `removePieceAt(row, column)` right after `addPiece(p, row, column)` leaves `p` on no cell (the overwritten piece and the old cell are not restored) |
| `BoardProperties.AlignmentNameInjective` | src/chess-pieces.js:187 | two alignments have the same enum string iff they are the same value, so the string comparison of line 187 is the datatype comparison |
| `BoardProperties.AddPieceAsWrittenLosesPiece` | src/chess-pieces.js:141-150 | as written, an off-board `addPiece` of a piece that was on exactly one cell throws with the piece on no cell |
| `BoardProperties.AddPieceAsWrittenLosesPieceExample` | src/chess-pieces.js:141-150 | on a one-cell board holding `p`, `addPiece(p, 1, 0)` as written empties the cell and throws; the corrected version throws with the board unchanged |

## Left out

- DOM work is presentation with no stateable behaviour, so it is left out. This covers:
  - creating the table, rows and cells, and their CSS classes (src/chess-pieces.js:97-118);
  - appending the piece's image in `addPiece` (src/chess-pieces.js:152-153);
  - the `selectable` class updates (src/chess-pieces.js:176-177, 197-198);
  - `GameObject.addDomToParent` (src/chess-pieces.js:30-40);
  - the `Piece` image element (src/chess-pieces.js:48-49).
- `setTilesOnClick` and the click-callback grid (src/chess-pieces.js:89-95, 156-167) are event wiring.
- `setupGame` and `tileHandler` (src/bishop-and-knight.js) are left out. The first is one-off bootstrap. The second
  only logs.
- Default arguments are not modelled: the constructor's size of 8 × 8 and its `domId`/callback parameters, and
  `addPiece`'s `row = 0, column = 0` (src/chess-pieces.js:54, 140). `NewBoard`, `AddPiece` and `AddPieceAsWritten`
  always take explicit sizes and coordinates.
- Non-integer or negative sizes are not modelled, because `new Array` throws for them. The model's sizes are `nat`.
- `Object.freeze` needs no model, because an `EnumObject` is an immutable map value.
- The image path of a piece is carried but never read.
- `Enums.CreateEnum`: its lookup results are stated only for names that avoid the index numerals, `length` and
  `"__proto__"`. For colliding names it states only which keys exist and that every property holds some name. It
  does not state which write wins, because the board's enums have no such collisions. Reading `"__proto__"` from
  the object yields `Object.prototype`; the model has no value for it and leaves the key out.

## Findings

| source | as written | input that shows it | evidently intended | confidence | as-written member | corrected member |
|---|---|---|---|---|---|---|
| src/chess-pieces.js:141-150 | The range check is a `console.assert`, which only logs. The piece's previous cell is emptied before the out-of-range write or DOM lookup throws. | A 1 × 1 board with piece `p` at (0, 0), then `addPiece(p, 1, 0)` | An out-of-range call is rejected before anything changes | medium, not executed (relies on `console.assert` not throwing, as in browsers) | `BoardProperties.AddPieceAsWrittenLosesPiece` | `ChessPieces.AddPiece` |
