/** The game board of engine/src/ConquidBoard.ts: a rows-by-cols grid of
    cells changed in place by the four moves. Each move runs its `check_*`
    pass, which only reads the grid, and changes the grid only if that pass
    returns normally; a thrown error leaves the board as it was. */
module ConquidBoard {
  import opened Utils
  import opened BoardTypes
  import opened BoardSpec
  import opened ConquerSpec
  import opened ConquerInv
  import opened ConquerFlood

  /** A board's plain-data form is usable by `fromObject`. */
  ghost predicate WellFormed(b: BoardLike)
  {
    Shaped(b.rows, b.cols, b.grid) && BasesInside(b.rows, b.cols, b.bases)
  }

  /** Row-major order: `p` comes before `q` in a scan of rows, then columns. */
  predicate RowMajorBefore(p: Position, q: Position)
  {
    p.r < q.r || (p.r == q.r && p.c < q.c)
  }

  /** The first loops of `conquer`: the player's non-base cells, scanned row
      by row, each queued once. */
  method QueueSeeds(rows: int, cols: int, g: seq<seq<Cell>>, player: Player) returns (q: seq<Position>)
    requires Shaped(rows, cols, g)
    ensures forall p :: p in q <==> p in Seeds(g, player)
    ensures forall i, j :: 0 <= i < j < |q| ==> RowMajorBefore(q[i], q[j])
    ensures NoDup(q)
  {
    q := [];
    for r := 0 to Extent(rows)
      invariant forall i, j :: 0 <= i < j < |q| ==> RowMajorBefore(q[i], q[j])
      invariant forall p :: p in q <==> PosValid(rows, cols, p) && p.r < r && Feeds(At(g, p), player)
    {
      for c := 0 to Extent(cols)
        invariant forall i, j :: 0 <= i < j < |q| ==> RowMajorBefore(q[i], q[j])
        invariant forall p :: p in q <==>
          PosValid(rows, cols, p) && RowMajorBefore(p, Position(r, c)) && Feeds(At(g, p), player)
      {
        if g[r][c].owner == player && !g[r][c].isBase {
          assert forall i :: 0 <= i < |q| ==> q[i] in q;
          q := q + [Position(r, c)];
        }
      }
    }
    forall p
      ensures p in q <==> p in Seeds(g, player)
    {
      SeedsIff(g, player, p);
    }
  }

  /** One turn of `conquer`'s queue loop: the dequeued cell `curr` touches
      each of its neighbours in turn. Either nothing was captured, or the
      cells still capturable strictly shrank. */
  method VisitNeighbours(rows: int, cols: int, player: Player, g: seq<seq<Cell>>, touched: seq<seq<int>>,
                         q: seq<Position>, curr: Position, ghost g0: seq<seq<Cell>>, ghost before: set<Position>,
                         ghost order: seq<Position>)
    returns (g': seq<seq<Cell>>, touched': seq<seq<int>>, q': seq<Position>, ghost order': seq<Position>)
    requires VisitInv(rows, cols, g0, player, g, touched, q, before, curr, [], order)
    ensures VisitInv(rows, cols, g0, player, g', touched', q', before, curr, Adjacent(rows, cols, curr), order')
    ensures (g' == g && q' == q) || CapturableCells(g', player) < CapturableCells(g, player)
  {
    g', touched', q', order' := g, touched, q, order;
    var adjs := Adjacent(rows, cols, curr);
    for k := 0 to |adjs|
      invariant VisitInv(rows, cols, g0, player, g', touched', q', before, curr, adjs[..k], order')
      invariant (g' == g && q' == q) || CapturableCells(g', player) < CapturableCells(g, player)
    {
      assert adjs[..k + 1] == adjs[..k] + [adjs[k]] && adjs[k] !in adjs[..k];
      g', touched', q', order' := TouchNeighbour(rows, cols, player, g', touched', q', curr, adjs[k],
                                                 g0, before, adjs[..k], order');
    }
    assert adjs[..|adjs|] == adjs;
  }

  /** The body of `conquer`'s inner loop for one neighbour `adj` of `curr`:
      a capturable neighbour is touched, and captured and queued once it has
      been touched twice. Either nothing was captured, or the cells still
      capturable strictly shrank. */
  method TouchNeighbour(rows: int, cols: int, player: Player, g: seq<seq<Cell>>, touched: seq<seq<int>>,
                        q: seq<Position>, curr: Position, adj: Position, ghost g0: seq<seq<Cell>>,
                        ghost before: set<Position>, ghost done: seq<Position>, ghost order: seq<Position>)
    returns (g': seq<seq<Cell>>, touched': seq<seq<int>>, q': seq<Position>, ghost order': seq<Position>)
    requires VisitInv(rows, cols, g0, player, g, touched, q, before, curr, done, order)
    requires adj in Adjacent(rows, cols, curr) && adj !in done
    ensures VisitInv(rows, cols, g0, player, g', touched', q', before, curr, done + [adj], order')
    ensures (g' == g && q' == q) || CapturableCells(g', player) < CapturableCells(g, player)
  {
    assert PosValid(rows, cols, adj) && Has(g, adj) && Has(touched, adj);
    g', touched', q', order' := g, touched, q, order;
    var cell := At(g, adj);
    if cell.owner != 0 && cell.owner != player && !cell.isBase {
      if At(touched, adj) + 1 >= 2 {
        CaptureCount(rows, cols, g0, player, g, touched, q, before, curr, done, order, adj);
        TouchCapture(rows, cols, g0, player, g, touched, q, before, curr, done, order, adj);
        CaptureShrinks(rows, cols, g, player, adj);
      } else {
        TouchCount(rows, cols, g0, player, g, touched, q, before, curr, done, order, adj);
      }
      touched' := Put(touched, adj, At(touched, adj) + 1);
      if At(touched', adj) >= 2 {
        g' := Put(g, adj, cell.(owner := player));
        order' := order + [adj];
        q' := q + [adj];
      }
    } else {
      TouchSkip(rows, cols, g0, player, g, touched, q, before, curr, done, order, adj);
    }
  }

  /** The first loop of `check_vanquish`: the ring cells around the block at
      `tl` that `player` owns, counted one by one. */
  method CountSurrounding(rows: int, cols: int, g: seq<seq<Cell>>, tl: Position, player: Player)
    returns (surrounding: nat)
    requires Shaped(rows, cols, g)
    ensures surrounding == RingCount(rows, cols, g, tl, player)
  {
    var ring := Surround4x4(rows, cols, tl);
    surrounding := 0;
    assert forall p :: p in ring ==> Has(g, p);
    for k := 0 to |ring|
      invariant surrounding == CountOwnedBy(g, ring[..k], player)
    {
      assert ring[..k + 1][..k] == ring[..k];
      if PosValid(rows, cols, ring[k]) && At(g, ring[k]).owner == player {
        surrounding := surrounding + 1;
      }
    }
    assert ring[..|ring|] == ring;
  }

  /** The loops of `vanquish`: every non-base cell of the 4x4 block at `tl`,
      visited row by row, loses its owner. */
  method ClearBlock(rows: int, cols: int, g: seq<seq<Cell>>, tl: Position) returns (h: seq<seq<Cell>>)
    requires Shaped(rows, cols, g)
    requires forall p :: InBlock(tl, p) ==> PosValid(rows, cols, p)
    ensures h == Cleared(g, tl)
  {
    h := g;
    for r := tl.r to tl.r + 4
      invariant Shaped(rows, cols, h)
      invariant forall p :: PosValid(rows, cols, p) ==>
        At(h, p) == if InBlock(tl, p) && p.r < r && !At(g, p).isBase then At(g, p).(owner := 0) else At(g, p)
    {
      for c := tl.c to tl.c + 4
        invariant Shaped(rows, cols, h)
        invariant forall p :: PosValid(rows, cols, p) ==>
          At(h, p) == if InBlock(tl, p) && (p.r < r || (p.r == r && p.c < c)) && !At(g, p).isBase
                      then At(g, p).(owner := 0) else At(g, p)
      {
        assert InBlock(tl, Position(r, c));
        var curr := At(h, Position(r, c));
        if !curr.isBase {
          h := Put(h, Position(r, c), curr.(owner := 0));
        }
      }
    }
    GridExt(h, Cleared(g, tl));
  }

  class Board {
    const rows: int
    const cols: int
    const bases: seq<BaseLocation>
    const acquireCount: int
    var grid: seq<seq<Cell>>
    var path: seq<Position>

    ghost predicate Valid()
      reads this
    {
      Shaped(rows, cols, grid) && BasesInside(rows, cols, bases)
    }

    /** `Board.fromConfig`: a neutral grid with every base rectangle written
        over it in order, and no path. */
    constructor FromConfig(rows: int, cols: int, bases: seq<BaseLocation>, acquireCount: int)
      requires BasesInside(rows, cols, bases)
      ensures Valid()
      ensures this.rows == rows && this.cols == cols && this.bases == bases && this.acquireCount == acquireCount
      ensures forall p :: PosValid(rows, cols, p) ==> At(grid, p) == ConfigCell(bases, p)
      ensures BasesIntact(rows, cols, bases, grid)
      ensures path == []
    {
      this.rows := rows;
      this.cols := cols;
      this.bases := bases;
      this.acquireCount := acquireCount;
      var g := Make2dArray(rows, cols, Cell(0, false));
      for b := 0 to |bases|
        invariant Shaped(rows, cols, g)
        invariant forall p :: PosValid(rows, cols, p) ==> At(g, p) == ConfigCell(bases[..b], p)
      {
        var loc := bases[b];
        assert bases[..b + 1][..b] == bases[..b];
        for i := loc.startRow to loc.endRow + 1
          invariant Shaped(rows, cols, g)
          invariant forall p :: PosValid(rows, cols, p) ==>
            At(g, p) == if InRegion(loc, p) && p.r < i then Cell(loc.owner, true) else ConfigCell(bases[..b], p)
        {
          for j := loc.startCol to loc.endCol + 1
            invariant Shaped(rows, cols, g)
            invariant forall p :: PosValid(rows, cols, p) ==>
              At(g, p) == if InRegion(loc, p) && (p.r < i || (p.r == i && p.c < j)) then Cell(loc.owner, true)
                          else ConfigCell(bases[..b], p)
          {
            g := Put(g, Position(i, j), Cell(loc.owner, true));
          }
        }
      }
      assert bases[..|bases|] == bases;
      grid := g;
      path := [];
    }

    /** `Board.fromObject`: a board over the given plain data. */
    constructor FromObject(obj: BoardLike)
      requires WellFormed(obj)
      ensures Valid() && ToObject() == obj
    {
      rows := obj.rows;
      cols := obj.cols;
      bases := obj.bases;
      acquireCount := obj.acquireCount;
      grid := obj.grid;
      path := obj.path;
    }

    /** `toObject`: the board as plain data. */
    function ToObject(): (obj: BoardLike)
      reads this
      ensures Valid() ==> WellFormed(obj)
    {
      BoardLike(rows, cols, grid, path, bases, acquireCount)
    }

    /** `clone`: a new board with the same contents; being a fresh object,
        nothing later done to it reaches this one. */
    method Clone() returns (b: Board)
      requires Valid()
      ensures fresh(b) && b.Valid() && b.ToObject() == ToObject()
    {
      b := new Board.FromObject(ToObject());
    }

    /** `check_acquire(locs, desiredLength)` */
    method CheckAcquire(locs: seq<Position>, desiredLength: int) returns (r: Outcome)
      requires Valid()
      ensures r == AcquireCheck(rows, cols, grid, locs, desiredLength)
    {
      if |locs| != desiredLength {
        return Fail(BadMoveError(AcquireCount(|locs|)));
      }
      for i := 0 to |locs|
        invariant forall j :: 0 <= j < i ==> Acquirable(rows, cols, grid, locs[j])
      {
        var loc := locs[i];
        if !PosValid(rows, cols, loc) {
          return Fail(BadMoveError(OutOfBounds(loc)));
        }
        if At(grid, loc).owner != 0 {
          return Fail(BadMoveError(NonEmptyCell(loc)));
        }
      }
      return Pass;
    }

    /** `acquireOne(player, loc)`: acquire of exactly one cell. */
    method AcquireOne(player: Player, loc: Position) returns (r: Outcome)
      requires Valid()
      modifies this
      ensures Valid() && path == old(path)
      ensures r == AcquireCheck(rows, cols, old(grid), [loc], 1)
      ensures grid == if r.Pass? then WithOwner(old(grid), [loc], player) else old(grid)
    {
      r := CheckAcquire([loc], 1);
      if r.Fail? {
        return;
      }
      assert Acquirable(rows, cols, grid, [loc][0]);
      ghost var g0 := grid;
      grid := Put(grid, loc, At(grid, loc).(owner := player));
      GridExt(grid, WithOwner(g0, [loc], player));
    }

    /** `acquire(player, locs)`: exactly `acquireCount` neutral cells on the
        grid become the player's. */
    method Acquire(player: Player, locs: seq<Position>) returns (r: Outcome)
      requires Valid()
      modifies this
      ensures Valid() && path == old(path)
      ensures r == AcquireCheck(rows, cols, old(grid), locs, acquireCount)
      ensures grid == if r.Pass? then WithOwner(old(grid), locs, player) else old(grid)
    {
      r := CheckAcquire(locs, acquireCount);
      if r.Fail? {
        return;
      }
      AcquireCheckPasses(rows, cols, grid, locs, acquireCount);
      var g := grid;
      for i := 0 to |locs|
        invariant Shaped(rows, cols, g)
        invariant forall p :: PosValid(rows, cols, p) ==>
          At(g, p) == if p in locs[..i] then At(grid, p).(owner := player) else At(grid, p)
      {
        assert locs[..i + 1] == locs[..i] + [locs[i]];
        g := Put(g, locs[i], At(g, locs[i]).(owner := player));
      }
      assert locs[..|locs|] == locs;
      GridExt(g, WithOwner(grid, locs, player));
      grid := g;
    }

    /** `conquer(player)`: the FIFO flood. Every non-base cell of the player
        is queued in row-major order; each dequeued cell touches each
        in-bounds neighbour that is another player's non-base cell, and a
        neighbour touched twice becomes the player's and is queued in turn.
        The ghost `order` is the order of capture. */
    method Conquer(player: Player) returns (ghost order: seq<Position>)
      requires Valid()
      modifies this
      ensures Valid() && path == old(path)
      ensures Conquered(rows, cols, old(grid), grid, player, order)
    {
      ghost var g0 := grid;
      var g := grid;
      var touched := Make2dArray(rows, cols, 0);
      var q := QueueSeeds(rows, cols, g, player);
      FloodStart(rows, cols, g0, player, touched, q);
      ghost var processed: set<Position> := {};
      order := [];
      while q != []
        invariant unchanged(this)
        invariant FloodInv(rows, cols, g0, player, g, touched, q, processed, order)
        decreases CapturableCells(g, player), |q|
      {
        VisitStart(rows, cols, g0, player, g, touched, q, processed, order);
        var curr := q[0];
        q := q[1..];
        g, touched, q, order := VisitNeighbours(rows, cols, player, g, touched, q, curr, g0, processed, order);
        VisitEnd(rows, cols, g0, player, g, touched, q, processed, curr, Adjacent(rows, cols, curr), order);
        processed := processed + {curr};
      }
      FloodEnd(rows, cols, g0, player, g, touched, processed, order);
      grid := g;
    }

    /** `check_vanquish(player, topLeft)` */
    method CheckVanquish(player: Player, topLeft: Position) returns (r: Outcome)
      requires Valid()
      ensures r == VanquishCheck(rows, cols, grid, player, topLeft)
    {
      var g := grid;
      var surrounding := CountSurrounding(rows, cols, g, topLeft, player);
      if surrounding < 4 {
        return Fail(BadMoveError(NotSurroundedCell(topLeft)));
      }

      var blk := BlockPositions(topLeft);
      ghost var scan := BlockScan(rows, cols, g, topLeft, blk, false, 0);
      assert scan == VanquishCheck(rows, cols, g, player, topLeft);
      ghost var k := 0;
      var squareOwner := 0;
      var foundOwner := false;
      for i := topLeft.r to topLeft.r + 4
        invariant k == 4 * (i - topLeft.r)
        invariant scan == BlockScan(rows, cols, g, topLeft, blk[k..], foundOwner, squareOwner)
      {
        for j := topLeft.c to topLeft.c + 4
          invariant k == 4 * (i - topLeft.r) + (j - topLeft.c)
          invariant scan == BlockScan(rows, cols, g, topLeft, blk[k..], foundOwner, squareOwner)
        {
          BlockAt(topLeft, i - topLeft.r, j - topLeft.c);
          assert blk[k..][0] == Position(i, j) && blk[k..][1..] == blk[k + 1..];
          if !PosValid(rows, cols, Position(i, j)) {
            return Fail(BadMoveError(OutOfBounds(Position(i, j))));
          }
          var curr := At(g, Position(i, j));
          if !foundOwner && !curr.isBase {
            squareOwner := curr.owner;
            foundOwner := true;
          } else if curr.owner != squareOwner {
            return Fail(BadMoveError(ColorMismatch(topLeft)));
          }
          k := k + 1;
        }
      }
      assert blk[k..] == [];
      return Pass;
    }

    /** `vanquish(player, topLeft)`: the non-base cells of the 4x4 block
        become neutral. */
    method Vanquish(player: Player, topLeft: Position) returns (r: Outcome)
      requires Valid()
      modifies this
      ensures Valid() && path == old(path)
      ensures r == VanquishCheck(rows, cols, old(grid), player, topLeft)
      ensures grid == if r.Pass? then Cleared(old(grid), topLeft) else old(grid)
    {
      r := CheckVanquish(player, topLeft);
      if r.Fail? {
        return;
      }
      VanquishBlockInBounds(rows, cols, grid, player, topLeft);
      grid := ClearBlock(rows, cols, grid, topLeft);
    }

    /** `check_conquest(player)`, as written: a breadth-first search from the
        cell (startRow, endCol) of the player's base. The guard that should
        skip visited cells tests `curr`, which was marked visited just before,
        so no neighbour is ever queued and the search never leaves its start
        cell; and the walk back along `prev` re-reads the cell at `curr`
        rather than at the walked position. */
    method CheckConquest(player: Player) returns (r: Result<seq<Position>>)
      requires Valid()
      ensures r == ConquestCheck(rows, cols, grid, bases, player)
    {
      var g := grid;
      var visited := Make2dArray(rows, cols, false);
      // `prev` starts all null; a map holds its non-null entries.
      var prev: map<Position, Position> := map[];
      if !(1 <= player <= |bases|) {
        return Err(Error("Cannot find base for player"));
      }
      var baseRegion := bases[player - 1];
      var base := Position(baseRegion.startRow, baseRegion.endCol);
      assert PosValid(rows, cols, base);
      var q := [base];
      var path := [base];
      var found := false;
      while |q| > 0 && !found
        invariant q == [] || (q == [base] && !found)
        invariant Shaped(rows, cols, visited)
        invariant found ==> BreachNear(rows, cols, g, base, player) &&
                            At(g, base).isBase && At(g, base).owner == player
        invariant !found && q == [] ==> !BreachNear(rows, cols, g, base, player)
        decreases |q|
      {
        var curr := q[0];
        q := q[1..];
        visited := Put(visited, curr, true);
        var adjs := Adjacent(rows, cols, curr);
        assert forall a :: a in adjs ==> Has(g, a);
        for k := 0 to |adjs|
          invariant q == []
          invariant found <==> exists j :: 0 <= j < k && Breach(At(g, adjs[j]), player)
          invariant found ==> At(g, base).isBase && At(g, base).owner == player
        {
          var adj := adjs[k];
          var adjCell := At(g, adj);
          if !At(visited, curr) && adjCell.owner == player {
            prev := prev[adj := curr];
            q := q + [adj];
          }
          if adjCell.isBase && adjCell.owner != 0 && adjCell.owner != player {
            var currCell := At(g, curr);
            if !(currCell.isBase && currCell.owner == player) {
              // The walk back pushes `curr`, steps to prev[curr], which is
              // null, and dereferences it on the next round.
              return Err(Error("Cannot read properties of null"));
            }
            found := true;
          }
        }
        assert found <==> BreachNear(rows, cols, g, curr, player) by {
          assert forall a :: a in adjs ==> exists j :: 0 <= j < |adjs| && adjs[j] == a;
        }
      }
      if !found {
        return Err(BadMoveError(PathNotFound));
      }
      return Ok(path);
    }

    /** `conquest(player)`: on success the path found becomes the board's
        path; the grid is never written. */
    method Conquest(player: Player) returns (r: Outcome)
      requires Valid()
      modifies this
      ensures Valid() && grid == old(grid)
      ensures match ConquestCheck(rows, cols, old(grid), bases, player)
        case Ok(found) => r == Pass && path == found
        case Err(e) => r == Fail(e) && path == old(path)
    {
      var res := CheckConquest(player);
      match res
      case Ok(found) =>
        path := found;
        r := Pass;
      case Err(e) =>
        r := Fail(e);
    }
  }
}
