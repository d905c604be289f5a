/** The board of `chess-pieces.js` without its DOM: three parallel
    `numRows × numColumns` grids (terrain, pieces, tile-UI marks), the game
    phase, and the operations that keep occupancy and UI marks up to date. */
module ChessPieces {
  import opened Wrappers
  import opened Grids
  import Enums

  /** The four enums of the board. Each constructor stands for the enum value
      of the same name; `Name` gives that string, which the enum object maps
      both its index and the name itself to. */
  datatype Terrain = Empty | Hole | Wall
  {
    function Name(): (s: string)
      ensures s in Enums.TerrainNames
    {
      match this
      case Empty => "Empty"
      case Hole => "Hole"
      case Wall => "Wall"
    }
  }

  datatype TileUI = NotClickable | ClickablePiece | SelectedPiece | MoveableTile | AttackableTile
  {
    function Name(): (s: string)
      ensures s in Enums.TileUINames
    {
      match this
      case NotClickable => "NotClickable"
      case ClickablePiece => "ClickablePiece"
      case SelectedPiece => "SelectedPiece"
      case MoveableTile => "MoveableTile"
      case AttackableTile => "AttackableTile"
    }
  }

  datatype Alignment = Player | Enemy
  {
    function Name(): (s: string)
      ensures s in Enums.AlignmentNames
    {
      match this
      case Player => "Player"
      case Enemy => "Enemy"
    }
  }

  datatype GamePhase = PlayerTurnStart | UnitSelected | UnitAnimation | EndUnitTurn | EnemyTurn
  {
    function Name(): (s: string)
      ensures s in Enums.GamePhaseNames
    {
      match this
      case PlayerTurnStart => "PlayerTurnStart"
      case UnitSelected => "UnitSelected"
      case UnitAnimation => "UnitAnimation"
      case EndUnitTurn => "EndUnitTurn"
      case EnemyTurn => "EnemyTurn"
    }
  }

  /** The four frozen enum objects of the board (`TerrainTypes`, `TileUITypes`,
      `Alignment`, `GamePhase`), built by `createEnum`. Looking up the name of
      any constructor yields that name, so `TerrainTypes.Empty` is the value
      the constructor `Empty` stands for, and so on. */
  method CreateBoardEnums() returns (terrainTypes: Enums.EnumObject, tileUITypes: Enums.EnumObject,
                                     alignments: Enums.EnumObject, gamePhases: Enums.EnumObject)
    ensures forall t: Terrain :: t.Name() in terrainTypes && terrainTypes[t.Name()] == Enums.Str(t.Name())
    ensures forall u: TileUI :: u.Name() in tileUITypes && tileUITypes[u.Name()] == Enums.Str(u.Name())
    ensures forall a: Alignment :: a.Name() in alignments && alignments[a.Name()] == Enums.Str(a.Name())
    ensures forall g: GamePhase :: g.Name() in gamePhases && gamePhases[g.Name()] == Enums.Str(g.Name())
    ensures Enums.LengthKey in terrainTypes && terrainTypes[Enums.LengthKey] == Enums.Num(3)
    ensures Enums.LengthKey in tileUITypes && tileUITypes[Enums.LengthKey] == Enums.Num(5)
    ensures Enums.LengthKey in alignments && alignments[Enums.LengthKey] == Enums.Num(2)
    ensures Enums.LengthKey in gamePhases && gamePhases[Enums.LengthKey] == Enums.Num(5)
  {
    Enums.SourceEnumsAvoidReservedKeys();
    terrainTypes := Enums.CreateEnum(Enums.TerrainNames);
    tileUITypes := Enums.CreateEnum(Enums.TileUINames);
    alignments := Enums.CreateEnum(Enums.AlignmentNames);
    gamePhases := Enums.CreateEnum(Enums.GamePhaseNames);
  }

  /** A piece object. `id` stands for the object's identity: distinct objects
      carry distinct ids, so value equality of pieces is reference equality. */
  datatype Piece = Piece(id: nat, imgPath: string, alignment: Alignment)

  /** A cell of the piece grid: a piece or `null`. */
  type Cell = Option<Piece>

  /** A `(row, column)` coordinate, as `findPiece` returns it. */
  type Pos = (int, int)

  datatype Board = Board(
    numRows: nat,
    numColumns: nat,
    terrain: seq<seq<Terrain>>,
    pieces: seq<seq<Cell>>,
    tileUI: seq<seq<TileUI>>,
    gamePhase: GamePhase)
  {
    /** The three grids have the board's dimensions. */
    predicate Valid() {
      IsGrid(terrain, numRows, numColumns) && IsGrid(pieces, numRows, numColumns) && IsGrid(tileUI, numRows, numColumns)
    }

    predicate InBounds(row: int, column: int) {
      0 <= row < numRows && 0 <= column < numColumns
    }
  }

  /** The board after a call: a call that throws leaves behind whatever it had
      already written, as JavaScript exceptions undo nothing. */
  datatype Outcome = Returned(board: Board) | Threw(board: Board)

  /** `b2` differs from `b` at most in its piece grid. */
  predicate OnlyPiecesChanged(b: Board, b2: Board) {
    b2.numRows == b.numRows && b2.numColumns == b.numColumns &&
    b2.terrain == b.terrain && b2.tileUI == b.tileUI && b2.gamePhase == b.gamePhase
  }

  /** `b2` differs from `b` at most in its tile-UI grid. */
  predicate OnlyTileUIChanged(b: Board, b2: Board) {
    b2.numRows == b.numRows && b2.numColumns == b.numColumns &&
    b2.terrain == b.terrain && b2.pieces == b.pieces && b2.gamePhase == b.gamePhase
  }

  /** Row-major order: `a` is visited before `b`. */
  predicate Before(a: Pos, b: Pos) {
    a.0 < b.0 || (a.0 == b.0 && a.1 < b.1)
  }

  /** `v` is in no cell of `g`. */
  predicate Absent(g: seq<seq<Cell>>, v: Cell) {
    forall i, j :: 0 <= i < |g| && 0 <= j < |g[i]| ==> g[i][j] != v
  }

  /** `v` is in at most one cell of `g`. */
  predicate AtMostOnce(g: seq<seq<Cell>>, v: Cell) {
    forall i, j, i', j' ::
      0 <= i < |g| && 0 <= j < |g[i]| && 0 <= i' < |g| && 0 <= j' < |g[i']| && g[i][j] == v && g[i'][j'] == v
      ==> i == i' && j == j'
  }

  /** `v` is in cell `pos` of `g` and in no other cell. */
  predicate OnlyAt(g: seq<seq<Cell>>, v: Cell, pos: Pos) {
    forall i, j :: 0 <= i < |g| && 0 <= j < |g[i]| ==> (g[i][j] == v <==> (i, j) == pos)
  }

  /** No piece is in two cells. */
  predicate NoDuplicates(g: seq<seq<Cell>>) {
    forall i, j, i', j' ::
      0 <= i < |g| && 0 <= j < |g[i]| && 0 <= i' < |g| && 0 <= j' < |g[i']| && g[i][j].Some? && g[i][j] == g[i'][j']
      ==> i == i' && j == j'
  }

  /** The board constructor: every terrain cell `Empty`, every piece cell
      `null`, every UI mark `NotClickable`, phase `PlayerTurnStart`. */
  method NewBoard(numRows: nat, numColumns: nat) returns (b: Board)
    ensures b.Valid() && b.numRows == numRows && b.numColumns == numColumns
    ensures forall i, j :: b.InBounds(i, j) ==>
              b.terrain[i][j] == Empty && b.pieces[i][j] == None && b.tileUI[i][j] == NotClickable
    ensures b.gamePhase == PlayerTurnStart
    ensures NoDuplicates(b.pieces)
  {
    var terrain := FillGrid(numRows, numColumns, Empty);
    var pieces := FillGrid(numRows, numColumns, None);
    var tileUI := FillGrid(numRows, numColumns, NotClickable);
    b := Board(numRows, numColumns, terrain, pieces, tileUI, PlayerTurnStart);
  }

  /** The row-major search of `findPiece`, resumed at cell `(r, c)`: the first
      cell at or after `(r, c)` that holds `target`. */
  function FindFrom(g: seq<seq<Cell>>, cols: nat, target: Cell, r: nat, c: nat): (res: Option<Pos>)
    requires IsGrid(g, |g|, cols) && r <= |g| && c <= cols
    ensures res.None? <==>
              forall i, j :: 0 <= i < |g| && 0 <= j < cols && !Before((i, j), (r, c)) ==> g[i][j] != target
    ensures res.Some? ==>
              && 0 <= res.value.0 < |g| && 0 <= res.value.1 < cols
              && !Before(res.value, (r, c))
              && g[res.value.0][res.value.1] == target
              && (forall i, j :: 0 <= i < |g| && 0 <= j < cols && !Before((i, j), (r, c)) && Before((i, j), res.value)
                    ==> g[i][j] != target)
    decreases |g| - r, cols - c
  {
    if r == |g| then None
    else if c == cols then FindFrom(g, cols, target, r + 1, 0)
    else if g[r][c] == target then Some((r, c))
    else FindFrom(g, cols, target, r, c + 1)
  }

  /** `findPiece`: the first cell in row-major order that holds `target`, or
      `null` when no cell does. */
  function FindPiece(b: Board, target: Cell): (res: Option<Pos>)
    requires b.Valid()
    ensures res.None? <==> forall i, j :: b.InBounds(i, j) ==> b.pieces[i][j] != target
    ensures res.Some? ==>
              && b.InBounds(res.value.0, res.value.1)
              && b.pieces[res.value.0][res.value.1] == target
              && forall i, j :: b.InBounds(i, j) && Before((i, j), res.value) ==> b.pieces[i][j] != target
  {
    FindFrom(b.pieces, b.numColumns, target, 0, 0)
  }

  /** `removePieceAt`: empties cell `(row, column)`. A row outside the board
      has no array, so the write throws; a column outside the board writes a
      property no grid cell sees. */
  function RemovePieceAt(b: Board, row: int, column: int): (res: Outcome)
    requires b.Valid()
    ensures res.Threw? <==> !(0 <= row < b.numRows)
    ensures res.board.Valid() && OnlyPiecesChanged(b, res.board)
    ensures forall i, j :: b.InBounds(i, j) ==>
              res.board.pieces[i][j] == (if res.Returned? && i == row && j == column then None else b.pieces[i][j])
  {
    if !(0 <= row < b.numRows) then Threw(b)
    else if !(0 <= column < b.numColumns) then Returned(b)
    else Returned(b.(pieces := Update(b.pieces, row, column, None)))
  }

  /** The first step of `addPiece`: if `p` is found on the board, its cell is emptied. */
  function ClearOldLocation(b: Board, p: Piece): (b2: Board)
    requires b.Valid()
    ensures b2.Valid() && OnlyPiecesChanged(b, b2)
    ensures forall i, j :: b.InBounds(i, j) ==>
              b2.pieces[i][j] == (if FindPiece(b, Some(p)) == Some((i, j)) then None else b.pieces[i][j])
  {
    match FindPiece(b, Some(p))
    case None => b
    case Some(loc) => RemovePieceAt(b, loc.0, loc.1).board
  }

  /** `addPiece` as written: the range check is a `console.assert`, which only
      logs, so the previous cell of `p` is emptied before an out-of-range row
      or column makes the call throw. */
  function AddPieceAsWritten(b: Board, p: Piece, row: int, column: int): (res: Outcome)
    requires b.Valid()
    ensures res.Threw? <==> !b.InBounds(row, column)
    ensures res.board.Valid() && OnlyPiecesChanged(b, res.board)
    ensures res.Returned? ==> res.board.pieces[row][column] == Some(p)
    ensures forall i, j :: b.InBounds(i, j) && (res.Threw? || (i, j) != (row, column)) ==>
              res.board.pieces[i][j] == (if FindPiece(b, Some(p)) == Some((i, j)) then None else b.pieces[i][j])
  {
    var cleared := ClearOldLocation(b, p);
    if !(0 <= row < b.numRows) then Threw(cleared)
    else if !(0 <= column < b.numColumns) then Threw(cleared)
    else Returned(cleared.(pieces := Update(cleared.pieces, row, column, Some(p))))
  }

  /** `addPiece` with its range check taken as a real precondition check: an
      out-of-range target throws before anything changes. Otherwise `p` is
      taken off its previous cell and put on `(row, column)`, overwriting
      whatever was there; every other cell keeps its content. */
  function AddPiece(b: Board, p: Piece, row: int, column: int): (res: Outcome)
    requires b.Valid()
    ensures res.Threw? <==> !b.InBounds(row, column)
    ensures res.Threw? ==> res.board == b
    ensures res.board.Valid() && OnlyPiecesChanged(b, res.board)
    ensures res.Returned? ==> res.board.pieces[row][column] == Some(p)
    ensures res.Returned? ==>
              forall i, j :: b.InBounds(i, j) && (i, j) != (row, column) ==>
                res.board.pieces[i][j] == (if FindPiece(b, Some(p)) == Some((i, j)) then None else b.pieces[i][j])
  {
    if !b.InBounds(row, column) then Threw(b)
    else AddPieceAsWritten(b, p, row, column)
  }

  /** `makeTileAtSelectable`: marks one tile `ClickablePiece`. Outside the
      board the UI write or the DOM lookup throws, and no grid cell changes. */
  function MakeTileAtSelectable(b: Board, row: int, column: int): (res: Outcome)
    requires b.Valid()
    ensures res.Threw? <==> !b.InBounds(row, column)
    ensures res.board.Valid() && OnlyTileUIChanged(b, res.board)
    ensures forall i, j :: b.InBounds(i, j) ==>
              res.board.tileUI[i][j] == (if res.Returned? && i == row && j == column then ClickablePiece else b.tileUI[i][j])
  {
    if !b.InBounds(row, column) then Threw(b)
    else Returned(b.(tileUI := Update(b.tileUI, row, column, ClickablePiece)))
  }

  /** `makeAllPiecesNotClickable`: resets every UI mark to `NotClickable`. */
  method MakeAllPiecesNotClickable(b: Board) returns (b2: Board)
    requires b.Valid()
    ensures b2.Valid() && OnlyTileUIChanged(b, b2)
    ensures forall i, j :: b.InBounds(i, j) ==> b2.tileUI[i][j] == NotClickable
  {
    var ui := b.tileUI;
    var r := 0;
    while r < b.numRows
      invariant r <= b.numRows
      invariant IsGrid(ui, b.numRows, b.numColumns)
      invariant forall i, j :: 0 <= i < r && 0 <= j < b.numColumns ==> ui[i][j] == NotClickable
    {
      var c := 0;
      while c < b.numColumns
        invariant c <= b.numColumns
        invariant IsGrid(ui, b.numRows, b.numColumns)
        invariant forall i, j :: 0 <= i < r && 0 <= j < b.numColumns ==> ui[i][j] == NotClickable
        invariant forall j :: 0 <= j < c ==> ui[r][j] == NotClickable
      {
        ui := Update(ui, r, c, NotClickable);
        c := c + 1;
      }
      r := r + 1;
    }
    b2 := b.(tileUI := ui);
  }

  /** A cell whose piece belongs to `alignment`. */
  predicate Selectable(cell: Cell, alignment: Alignment) {
    cell.Some? && cell.value.alignment == alignment
  }

  /** `makeAllPiecesOfACertainAlignmentSelectable`: afterwards exactly the
      tiles holding a piece of `alignment` are `ClickablePiece`, all others
      `NotClickable`; pieces and terrain are untouched. */
  method MakeAllPiecesOfACertainAlignmentSelectable(b: Board, alignment: Alignment) returns (b2: Board)
    requires b.Valid()
    ensures b2.Valid() && OnlyTileUIChanged(b, b2)
    ensures forall i, j :: b.InBounds(i, j) ==>
              (b2.tileUI[i][j] == ClickablePiece <==> Selectable(b.pieces[i][j], alignment))
    ensures forall i, j :: b.InBounds(i, j) ==>
              (b2.tileUI[i][j] == NotClickable <==> !Selectable(b.pieces[i][j], alignment))
  {
    b2 := MakeAllPiecesNotClickable(b);
    var r := 0;
    while r < b.numRows
      invariant r <= b.numRows
      invariant b2.Valid() && OnlyTileUIChanged(b, b2)
      invariant forall i, j :: b.InBounds(i, j) && i < r ==>
                  b2.tileUI[i][j] == (if Selectable(b.pieces[i][j], alignment) then ClickablePiece else NotClickable)
      invariant forall i, j :: b.InBounds(i, j) && i >= r ==> b2.tileUI[i][j] == NotClickable
    {
      var c := 0;
      while c < b.numColumns
        invariant c <= b.numColumns
        invariant b2.Valid() && OnlyTileUIChanged(b, b2)
        invariant forall i, j :: b.InBounds(i, j) && Before((i, j), (r, c)) ==>
                    b2.tileUI[i][j] == (if Selectable(b.pieces[i][j], alignment) then ClickablePiece else NotClickable)
        invariant forall i, j :: b.InBounds(i, j) && !Before((i, j), (r, c)) ==> b2.tileUI[i][j] == NotClickable
      {
        if Selectable(b2.pieces[r][c], alignment) {
          var res := MakeTileAtSelectable(b2, r, c);
          b2 := res.board;
        }
        c := c + 1;
      }
      r := r + 1;
    }
  }
}
