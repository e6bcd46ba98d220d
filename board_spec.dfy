/** What each move of engine/src/ConquidBoard.ts checks and what it does to
    the grid, as functions of the grid, with the properties proved of them.
    The methods of `ConquidBoard.Board` are proved against these. */
module BoardSpec {
  import opened Utils
  import opened BoardTypes

  // ---------------------------------------------------------------- config

  predicate InRegion(b: BaseLocation, p: Position)
  {
    b.startRow <= p.r <= b.endRow && b.startCol <= p.c <= b.endCol
  }

  /** Every base rectangle is non-empty and lies on the grid. */
  predicate BasesInside(rows: int, cols: int, bases: seq<BaseLocation>)
  {
    forall i :: 0 <= i < |bases| ==>
      0 <= bases[i].startRow <= bases[i].endRow < rows &&
      0 <= bases[i].startCol <= bases[i].endCol < cols
  }

  /** Player p's base is `bases[p - 1]`. */
  predicate BasesNumbered(bases: seq<BaseLocation>)
  {
    forall i :: 0 <= i < |bases| ==> bases[i].owner == i + 1
  }

  /** The cell `fromConfig` leaves at `p`: a base cell of the last region that
      covers `p` (later regions overwrite earlier ones), else a neutral cell. */
  function ConfigCell(bases: seq<BaseLocation>, p: Position): (cell: Cell)
    ensures !cell.isBase ==> cell == Cell(0, false)
    ensures cell.isBase <==> exists i :: 0 <= i < |bases| && InRegion(bases[i], p)
    ensures cell.isBase ==> exists i :: (0 <= i < |bases| && InRegion(bases[i], p) &&
      cell.owner == bases[i].owner && forall j :: i < j < |bases| ==> !InRegion(bases[j], p))
  {
    if |bases| == 0 then Cell(0, false)
    else
      var last := |bases| - 1;
      if InRegion(bases[last], p) then Cell(bases[last].owner, true)
      else
        var cell := ConfigCell(bases[..last], p);
        assert forall i :: 0 <= i < last ==> bases[..last][i] == bases[i];
        cell
  }

  /** The base cells of the configuration are still in place, and no other
      cell is a base cell. */
  ghost predicate BasesIntact(rows: int, cols: int, bases: seq<BaseLocation>, g: seq<seq<Cell>>)
    requires Shaped(rows, cols, g)
  {
    forall p :: PosValid(rows, cols, p) ==>
      At(g, p).isBase == ConfigCell(bases, p).isBase &&
      (At(g, p).isBase ==> At(g, p) == ConfigCell(bases, p))
  }

  /** With numbered bases, every configured base cell has a positive owner. */
  lemma NumberedBasesOwned(bases: seq<BaseLocation>, p: Position)
    requires BasesNumbered(bases)
    ensures ConfigCell(bases, p).isBase ==> ConfigCell(bases, p).owner >= 1
  {
  }

  // ---------------------------------------------------------------- acquire

  /** A position `check_acquire` lets through: on the grid and neutral. */
  predicate Acquirable(rows: int, cols: int, g: seq<seq<Cell>>, p: Position)
    requires Shaped(rows, cols, g)
  {
    PosValid(rows, cols, p) && At(g, p).owner == 0
  }

  /** The index of the first position `check_acquire` rejects, or |locs|. */
  function FirstUnacquirable(rows: int, cols: int, g: seq<seq<Cell>>, locs: seq<Position>): (i: nat)
    requires Shaped(rows, cols, g)
    ensures i <= |locs|
    ensures forall j :: 0 <= j < i ==> Acquirable(rows, cols, g, locs[j])
    ensures i < |locs| ==> !Acquirable(rows, cols, g, locs[i])
  {
    if locs == [] || !Acquirable(rows, cols, g, locs[0]) then 0
    else 1 + FirstUnacquirable(rows, cols, g, locs[1..])
  }

  /** `check_acquire(locs, desiredLength)`: the count first, then each
      position in order, bounds before ownership. */
  function AcquireCheck(rows: int, cols: int, g: seq<seq<Cell>>, locs: seq<Position>, desiredLength: int): (r: Outcome)
    requires Shaped(rows, cols, g)
    ensures r.Fail? ==> r.error.BadMoveError?
    ensures r == Fail(BadMoveError(AcquireCount(|locs|))) <==> |locs| != desiredLength
    ensures r.Fail? && r.error.BadMoveError? && r.error.err.OutOfBounds? ==>
      r.error.err.pos in locs && !PosValid(rows, cols, r.error.err.pos)
    ensures r.Fail? && r.error.BadMoveError? && r.error.err.NonEmptyCell? ==>
      r.error.err.pos in locs && PosValid(rows, cols, r.error.err.pos) && At(g, r.error.err.pos).owner != 0
  {
    if |locs| != desiredLength then Fail(BadMoveError(AcquireCount(|locs|)))
    else
      var i := FirstUnacquirable(rows, cols, g, locs);
      if i == |locs| then Pass
      else if !PosValid(rows, cols, locs[i]) then Fail(BadMoveError(OutOfBounds(locs[i])))
      else Fail(BadMoveError(NonEmptyCell(locs[i])))
  }

  /** An acquire passes exactly when the count is right and every listed
      position is on the grid and neutral. */
  lemma AcquireCheckPasses(rows: int, cols: int, g: seq<seq<Cell>>, locs: seq<Position>, desiredLength: int)
    requires Shaped(rows, cols, g)
    ensures AcquireCheck(rows, cols, g, locs, desiredLength) == Pass <==>
      |locs| == desiredLength && forall l :: l in locs ==> Acquirable(rows, cols, g, l)
  {
    var i := FirstUnacquirable(rows, cols, g, locs);
    if |locs| == desiredLength && i < |locs| {
      assert locs[i] in locs;
    }
  }

  /** A rejected position is reported as out of bounds before anything else,
      and every position before it passed both tests. */
  lemma AcquireCheckReportsFirst(rows: int, cols: int, g: seq<seq<Cell>>, locs: seq<Position>, desiredLength: int)
    requires Shaped(rows, cols, g)
    requires |locs| == desiredLength
    ensures match AcquireCheck(rows, cols, g, locs, desiredLength)
      case Pass => true
      case Fail(e) => exists i :: (0 <= i < |locs| &&
        (forall j :: 0 <= j < i ==> Acquirable(rows, cols, g, locs[j])) &&
        e == BadMoveError(if PosValid(rows, cols, locs[i]) then NonEmptyCell(locs[i]) else OutOfBounds(locs[i])))
  {
  }

  /** Base cells, which have an owner, can never be acquired. */
  lemma BaseCellNeverAcquired(rows: int, cols: int, g: seq<seq<Cell>>, locs: seq<Position>, desiredLength: int, p: Position)
    requires Shaped(rows, cols, g)
    requires p in locs && PosValid(rows, cols, p) && At(g, p).isBase && At(g, p).owner != 0
    ensures AcquireCheck(rows, cols, g, locs, desiredLength) != Pass
  {
    AcquireCheckPasses(rows, cols, g, locs, desiredLength);
  }

  /** The grid with the listed cells given to `player` (owner 0 makes them
      neutral again), keeping their base flag; every other cell is unchanged.
      A successful acquire leaves this grid. */
  function WithOwner(g: seq<seq<Cell>>, locs: seq<Position>, player: Player): (h: seq<seq<Cell>>)
    ensures |h| == |g| && forall i :: 0 <= i < |g| ==> |h[i]| == |g[i]|
    ensures forall p :: Has(g, p) ==> At(h, p) == if p in locs then At(g, p).(owner := player) else At(g, p)
  {
    seq(|g|, i requires 0 <= i < |g| =>
      seq(|g[i]|, j requires 0 <= j < |g[i]| =>
        if Position(i, j) in locs then g[i][j].(owner := player) else g[i][j]))
  }

  /** A successful acquire leaves the configured bases in place: the cells it
      claims are neutral, and base cells of numbered bases never are. */
  lemma AcquireKeepsBases(rows: int, cols: int, bases: seq<BaseLocation>, g: seq<seq<Cell>>,
                          locs: seq<Position>, desiredLength: int, player: Player)
    requires Shaped(rows, cols, g) && BasesNumbered(bases) && BasesIntact(rows, cols, bases, g)
    requires AcquireCheck(rows, cols, g, locs, desiredLength) == Pass
    ensures Shaped(rows, cols, WithOwner(g, locs, player))
    ensures BasesIntact(rows, cols, bases, WithOwner(g, locs, player))
  {
    AcquireCheckPasses(rows, cols, g, locs, desiredLength);
    var h := WithOwner(g, locs, player);
    forall p | PosValid(rows, cols, p)
      ensures At(h, p).isBase == ConfigCell(bases, p).isBase
      ensures At(h, p).isBase ==> At(h, p) == ConfigCell(bases, p)
    {
      NumberedBasesOwned(bases, p);
    }
  }

  /** Changing the owner of cells none of which is a base cell leaves the
      configured bases in place; `unacquireOne` clears such a cell. */
  lemma RecolourKeepsBases(rows: int, cols: int, bases: seq<BaseLocation>, g: seq<seq<Cell>>,
                           locs: seq<Position>, player: Player)
    requires Shaped(rows, cols, g) && BasesIntact(rows, cols, bases, g)
    requires forall l :: l in locs && Has(g, l) ==> !At(g, l).isBase
    ensures Shaped(rows, cols, WithOwner(g, locs, player))
    ensures BasesIntact(rows, cols, bases, WithOwner(g, locs, player))
  {
    var h := WithOwner(g, locs, player);
    forall p | PosValid(rows, cols, p)
      ensures At(h, p).isBase == ConfigCell(bases, p).isBase
      ensures At(h, p).isBase ==> At(h, p) == ConfigCell(bases, p)
    {
    }
  }

  // ---------------------------------------------------------------- vanquish

  /** How many of `ps` belong to `player`, counted front to back. */
  function CountOwnedBy(g: seq<seq<Cell>>, ps: seq<Position>, player: Player): (n: nat)
    requires forall p :: p in ps ==> Has(g, p)
    ensures n <= |ps|
    ensures n == |set i | 0 <= i < |ps| && At(g, ps[i]).owner == player|
  {
    if ps == [] then 0
    else
      var k := |ps| - 1;
      var n0 := CountOwnedBy(g, ps[..k], player);
      assert (set i | 0 <= i < |ps| && At(g, ps[i]).owner == player) ==
        (set i | 0 <= i < k && At(g, ps[..k][i]).owner == player) +
        (if At(g, ps[k]).owner == player then {k} else {});
      n0 + (if At(g, ps[k]).owner == player then 1 else 0)
  }

  /** The block scan of `check_vanquish` from some point on: the first
      non-base cell fixes the block's owner; any other cell, base or not, must
      have that owner, and a cell met before the owner is fixed is compared
      against 0. */
  function BlockScan(rows: int, cols: int, g: seq<seq<Cell>>, tl: Position, cells: seq<Position>,
                     foundOwner: bool, squareOwner: Player): (r: Outcome)
    requires Shaped(rows, cols, g)
    ensures r.Fail? ==>
      (r.error == BadMoveError(ColorMismatch(tl)) ||
       (r.error.BadMoveError? && r.error.err.OutOfBounds? &&
        r.error.err.pos in cells && !PosValid(rows, cols, r.error.err.pos)))
  {
    if cells == [] then Pass
    else
      var p := cells[0];
      if !PosValid(rows, cols, p) then Fail(BadMoveError(OutOfBounds(p)))
      else if !foundOwner && !At(g, p).isBase then BlockScan(rows, cols, g, tl, cells[1..], true, At(g, p).owner)
      else if At(g, p).owner != squareOwner then Fail(BadMoveError(ColorMismatch(tl)))
      else BlockScan(rows, cols, g, tl, cells[1..], foundOwner, squareOwner)
  }

  /** The ring cells around the block at `tl` that `player` owns. */
  function RingCount(rows: int, cols: int, g: seq<seq<Cell>>, tl: Position, player: Player): nat
    requires Shaped(rows, cols, g)
  {
    CountOwnedBy(g, Surround4x4(rows, cols, tl), player)
  }

  /** `check_vanquish(player, topLeft)` */
  function VanquishCheck(rows: int, cols: int, g: seq<seq<Cell>>, player: Player, tl: Position): (r: Outcome)
    requires Shaped(rows, cols, g)
    ensures r.Pass? ==> RingCount(rows, cols, g, tl, player) >= 4
    ensures r.Fail? ==>
      (r.error == BadMoveError(NotSurroundedCell(tl)) || r.error == BadMoveError(ColorMismatch(tl)) ||
       (r.error.BadMoveError? && r.error.err.OutOfBounds? &&
        InBlock(tl, r.error.err.pos) && !PosValid(rows, cols, r.error.err.pos)))
  {
    if RingCount(rows, cols, g, tl, player) < 4 then Fail(BadMoveError(NotSurroundedCell(tl)))
    else BlockScan(rows, cols, g, tl, BlockPositions(tl), false, 0)
  }

  /** Once the owner is fixed, the scan passes exactly when every remaining
      cell is on the grid and has that owner. */
  lemma {:induction false} BlockScanFound(rows: int, cols: int, g: seq<seq<Cell>>, tl: Position,
                                          cells: seq<Position>, o: Player)
    requires Shaped(rows, cols, g)
    ensures BlockScan(rows, cols, g, tl, cells, true, o) == Pass <==>
      forall k :: 0 <= k < |cells| ==> PosValid(rows, cols, cells[k]) && At(g, cells[k]).owner == o
  {
    if cells != [] {
      BlockScanFound(rows, cols, g, tl, cells[1..], o);
      assert forall k :: 1 <= k < |cells| ==> cells[k] == cells[1..][k - 1];
    }
  }

  /** Every colour mismatch names the block's top-left cell, whichever cell
      differed. */
  lemma {:induction false} BlockScanMismatchAtTopLeft(rows: int, cols: int, g: seq<seq<Cell>>, tl: Position,
                                                      cells: seq<Position>, found: bool, o: Player, p: Position)
    requires Shaped(rows, cols, g)
    requires BlockScan(rows, cols, g, tl, cells, found, o) == Fail(BadMoveError(ColorMismatch(p)))
    ensures p == tl
  {
    var q := cells[0];
    if PosValid(rows, cols, q) {
      if !found && !At(g, q).isBase {
        BlockScanMismatchAtTopLeft(rows, cols, g, tl, cells[1..], true, At(g, q).owner, p);
      } else if At(g, q).owner == o {
        BlockScanMismatchAtTopLeft(rows, cols, g, tl, cells[1..], found, o, p);
      }
    }
  }

  /** When every base cell has an owner, vanquish's checks pass exactly when
      the player owns at least 4 ring cells, the whole block is on the grid,
      its top-left cell is not a base cell, and all sixteen cells (base cells
      included) have the top-left cell's owner. */
  lemma VanquishCheckPasses(rows: int, cols: int, g: seq<seq<Cell>>, player: Player, tl: Position)
    requires Shaped(rows, cols, g)
    requires forall p :: Has(g, p) && At(g, p).isBase ==> At(g, p).owner != 0
    ensures VanquishCheck(rows, cols, g, player, tl) == Pass <==>
      RingCount(rows, cols, g, tl, player) >= 4 &&
      PosValid(rows, cols, tl) && !At(g, tl).isBase &&
      forall p :: InBlock(tl, p) ==> PosValid(rows, cols, p) && At(g, p).owner == At(g, tl).owner
  {
    var blk := BlockPositions(tl);
    assert blk[0] == tl;
    if PosValid(rows, cols, tl) && !At(g, tl).isBase {
      BlockScanFound(rows, cols, g, tl, blk[1..], At(g, tl).owner);
      assert forall k :: 1 <= k < 16 ==> blk[k] == blk[1..][k - 1];
      assert forall p :: InBlock(tl, p) ==> p == tl || p in blk[1..];
    }
  }

  /** The grid after a successful vanquish: the non-base cells of the block
      are neutral; base cells and all other cells are unchanged. */
  function Cleared(g: seq<seq<Cell>>, tl: Position): (h: seq<seq<Cell>>)
    ensures |h| == |g| && forall i :: 0 <= i < |g| ==> |h[i]| == |g[i]|
    ensures forall p :: Has(g, p) ==>
      At(h, p) == if InBlock(tl, p) && !At(g, p).isBase then At(g, p).(owner := 0) else At(g, p)
  {
    seq(|g|, i requires 0 <= i < |g| =>
      seq(|g[i]|, j requires 0 <= j < |g[i]| =>
        if InBlock(tl, Position(i, j)) && !g[i][j].isBase then g[i][j].(owner := 0) else g[i][j]))
  }

  /** A passing vanquish check puts the whole block on the grid. */
  lemma VanquishBlockInBounds(rows: int, cols: int, g: seq<seq<Cell>>, player: Player, tl: Position)
    requires Shaped(rows, cols, g)
    requires VanquishCheck(rows, cols, g, player, tl) == Pass
    ensures forall p :: InBlock(tl, p) ==> PosValid(rows, cols, p)
  {
    BlockScanInBounds(rows, cols, g, tl, BlockPositions(tl), false, 0);
  }

  lemma {:induction false} BlockScanInBounds(rows: int, cols: int, g: seq<seq<Cell>>, tl: Position,
                                             cells: seq<Position>, found: bool, o: Player)
    requires Shaped(rows, cols, g)
    requires BlockScan(rows, cols, g, tl, cells, found, o) == Pass
    ensures forall p :: p in cells ==> PosValid(rows, cols, p)
  {
    if cells != [] {
      var q := cells[0];
      if !found && !At(g, q).isBase {
        BlockScanInBounds(rows, cols, g, tl, cells[1..], true, At(g, q).owner);
      } else {
        BlockScanInBounds(rows, cols, g, tl, cells[1..], found, o);
      }
      assert forall p :: p in cells ==> p == q || p in cells[1..];
    }
  }

  /** Vanquish leaves the configured bases in place. */
  lemma VanquishKeepsBases(rows: int, cols: int, bases: seq<BaseLocation>, g: seq<seq<Cell>>, tl: Position)
    requires Shaped(rows, cols, g) && BasesIntact(rows, cols, bases, g)
    ensures Shaped(rows, cols, Cleared(g, tl)) && BasesIntact(rows, cols, bases, Cleared(g, tl))
  {
  }

  // ---------------------------------------------------------------- conquest

  /** A base cell of another, non-neutral player: reaching one ends the game. */
  predicate Breach(cell: Cell, player: Player)
  {
    cell.isBase && cell.owner != 0 && cell.owner != player
  }

  /** Some neighbour of `p` is a base cell of another, non-neutral player. */
  predicate BreachNear(rows: int, cols: int, g: seq<seq<Cell>>, p: Position, player: Player)
    requires Shaped(rows, cols, g)
  {
    exists a :: a in Adjacent(rows, cols, p) && Breach(At(g, a), player)
  }

  /** The cell `(startRow, endCol)` where the search for a breach starts. */
  function BaseEntry(b: BaseLocation): Position
  {
    Position(b.startRow, b.endCol)
  }

  /** What `check_conquest` returns or throws, in closed form. The search as
      written never leaves its start cell (the guard meant to skip visited
      cells tests the cell just marked visited, so no neighbour is queued),
      so it succeeds exactly when a neighbour of the start cell is a breach,
      and then the path is the start cell alone. If the start cell is then not
      the player's own base cell (another region overwrote it), the path
      walk-back dereferences a missing predecessor and throws a TypeError. */
  function ConquestCheck(rows: int, cols: int, g: seq<seq<Cell>>, bases: seq<BaseLocation>, player: Player): (r: Result<seq<Position>>)
    requires Shaped(rows, cols, g) && BasesInside(rows, cols, bases)
    ensures r.Ok? ==>
      (1 <= player <= |bases| && r.value == [BaseEntry(bases[player - 1])] &&
       BreachNear(rows, cols, g, BaseEntry(bases[player - 1]), player))
    ensures r == Err(BadMoveError(PathNotFound)) <==>
      1 <= player <= |bases| && !BreachNear(rows, cols, g, BaseEntry(bases[player - 1]), player)
    ensures (1 <= player <= |bases| && BreachNear(rows, cols, g, BaseEntry(bases[player - 1]), player) &&
             At(g, BaseEntry(bases[player - 1])) == Cell(player, true)) ==>
      r == Ok([BaseEntry(bases[player - 1])])
    ensures !(1 <= player <= |bases|) ==> r.Err? && r.error.Error?
  {
    if !(1 <= player <= |bases|) then Err(Error("Cannot find base for player"))
    else
      var base := BaseEntry(bases[player - 1]);
      if !BreachNear(rows, cols, g, base, player) then Err(BadMoveError(PathNotFound))
      else if At(g, base).isBase && At(g, base).owner == player then Ok([base])
      else Err(Error("Cannot read properties of null"))
  }

  /** The bases of the client's default configuration: a 14x28 grid with
      player 1 at rows 6-7, columns 4-5 and player 2 at rows 6-7, columns 22-23. */
  function DefaultBases(): seq<BaseLocation>
  {
    [BaseLocation(1, 6, 4, 7, 5), BaseLocation(2, 6, 22, 7, 23)]
  }

  /** In the default configuration conquest can never succeed: whatever moves
      were played, no neighbour of either start cell is a base cell of the
      other player, so the only outcomes are `pathNotFound` and, for a player
      with no base, a plain error. */
  lemma DefaultConquestAlwaysFails(g: seq<seq<Cell>>, player: Player)
    requires Shaped(14, 28, g) && BasesIntact(14, 28, DefaultBases(), g)
    ensures BasesInside(14, 28, DefaultBases())
    ensures ConquestCheck(14, 28, g, DefaultBases(), player) ==
      if 1 <= player <= 2 then Err(BadMoveError(PathNotFound)) else Err(Error("Cannot find base for player"))
  {
    var bases := DefaultBases();
    if 1 <= player <= 2 {
      var base := BaseEntry(bases[player - 1]);
      forall q | q in Adjacent(14, 28, base)
        ensures !Breach(At(g, q), player)
      {
        var cell := ConfigCell(bases, q);
        assert cell == ConfigCell(bases[..1], q) || cell == Cell(bases[1].owner, true);
      }
    }
  }
}
