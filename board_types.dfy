/** The engine's data model and grid geometry (engine/src/ConquidBoard.ts):
    cells, positions, base regions, the closed set of move rejections, the
    plain-data form of a board, the four moves, and the private helpers
    `posValid`, `adjacent` and `surround4x4`. */
module BoardTypes {
  import opened Utils

  /** Player numbers are 1-based; owner 0 means a neutral cell. */
  type Player = int

  datatype Option<T> = None | Some(value: T)

  datatype Cell = Cell(owner: Player, isBase: bool)

  datatype Position = Position(r: int, c: int)

  datatype BaseLocation = BaseLocation(owner: Player, startRow: int, startCol: int, endRow: int, endCol: int)

  /** `BadMoveErrorLike`: the structured rejections of a move. */
  datatype BadMoveErrorLike =
    | AcquireCount(count: int)
    | NonEmptyCell(pos: Position)
    | NotSurroundedCell(pos: Position)
    | ColorMismatch(pos: Position)
    | PathNotFound
    | OutOfBounds(pos: Position)

  /** What a call can throw: a `BadMoveError` wrapping a rejection, or a
      plain `Error` (a missing base, or the TypeError of dereferencing null). */
  datatype Thrown = BadMoveError(err: BadMoveErrorLike) | Error(message: string)

  /** A call that returns nothing either returns normally or throws. */
  datatype Outcome = Pass | Fail(error: Thrown)

  datatype Result<T> = Ok(value: T) | Err(error: Thrown)

  /** `BoardLike`: a board as plain data, as it is stored and sent. */
  datatype BoardLike = BoardLike(
    rows: int, cols: int, grid: seq<seq<Cell>>, path: seq<Position>,
    bases: seq<BaseLocation>, acquireCount: int)

  datatype Move =
    | AcquireMove(player: Player, locs: seq<Position>)
    | ConquerMove(player: Player)
    | VanquishMove(player: Player, topLeft: Position)
    | ConquestMove(player: Player)

  /** `posValid`: the position lies on a rows-by-cols grid. */
  predicate PosValid(rows: int, cols: int, p: Position)
  {
    0 <= p.r < rows && 0 <= p.c < cols
  }

  predicate Has<T>(g: seq<seq<T>>, p: Position)
  {
    0 <= p.r < |g| && 0 <= p.c < |g[p.r]|
  }

  /** `grid[p.r][p.c]` */
  function At<T>(g: seq<seq<T>>, p: Position): T
    requires Has(g, p)
  {
    g[p.r][p.c]
  }

  /** `grid[p.r][p.c] = v`, on a grid held as a value. */
  function Put<T>(g: seq<seq<T>>, p: Position, v: T): (h: seq<seq<T>>)
    requires Has(g, p)
    ensures |h| == |g| && forall i :: 0 <= i < |g| ==> |h[i]| == |g[i]|
    ensures forall q :: Has(g, q) ==> At(h, q) == if q == p then v else At(g, q)
  {
    g[p.r := g[p.r][p.c := v]]
  }

  /** Two grids with the same shape and the same entry everywhere are equal. */
  lemma GridExt<T>(g: seq<seq<T>>, h: seq<seq<T>>)
    requires |g| == |h| && forall i :: 0 <= i < |g| ==> |g[i]| == |h[i]|
    requires forall p :: Has(g, p) ==> At(g, p) == At(h, p)
    ensures g == h
  {
    forall i | 0 <= i < |g|
      ensures g[i] == h[i]
    {
      forall j | 0 <= j < |g[i]|
        ensures g[i][j] == h[i][j]
      {
        assert Has(g, Position(i, j));
      }
    }
  }

  /** The four cells that share a side with `p`, by coordinates alone. */
  predicate Neighbours(p: Position, q: Position)
  {
    (p.r == q.r && (q.c == p.c + 1 || q.c == p.c - 1)) ||
    (p.c == q.c && (q.r == p.r + 1 || q.r == p.r - 1))
  }

  /** `.filter(pos => this.posValid(pos))` */
  function KeepValid(rows: int, cols: int, ps: seq<Position>): (kept: seq<Position>)
    ensures |kept| <= |ps|
    ensures forall q :: q in kept <==> q in ps && PosValid(rows, cols, q)
    ensures NoDup(ps) ==> NoDup(kept)
  {
    if ps == [] then []
    else
      var rest := KeepValid(rows, cols, ps[1..]);
      assert NoDup(ps) ==> ps[0] !in ps[1..];
      if PosValid(rows, cols, ps[0]) then [ps[0]] + rest else rest
  }

  /** `adjacent`: the in-bounds cells that share a side with `p`, each once. */
  function Adjacent(rows: int, cols: int, p: Position): (adj: seq<Position>)
    ensures forall q :: q in adj <==> PosValid(rows, cols, q) && Neighbours(p, q)
    ensures NoDup(adj) && |adj| <= 4
  {
    KeepValid(rows, cols, [Position(p.r, p.c + 1), Position(p.r, p.c - 1),
                           Position(p.r + 1, p.c), Position(p.r - 1, p.c)])
  }

  /** The sixteen cells that touch a side of the 4x4 block at `tl` from outside. */
  predicate InRing(tl: Position, q: Position)
  {
    ((q.r == tl.r - 1 || q.r == tl.r + 4) && tl.c <= q.c <= tl.c + 3) ||
    ((q.c == tl.c - 1 || q.c == tl.c + 4) && tl.r <= q.r <= tl.r + 3)
  }

  /** `surround4x4`: the in-bounds cells of the ring around the block at `tl`,
      in the order of the source's offset table. */
  function Surround4x4(rows: int, cols: int, tl: Position): (ring: seq<Position>)
    ensures forall q :: q in ring <==> PosValid(rows, cols, q) && InRing(tl, q)
    ensures NoDup(ring) && |ring| <= 16
  {
    var shifted := seq(16, k requires 0 <= k < 16 => RingCell(tl, k));
    assert forall q :: InRing(tl, q) ==> shifted[RingIndex(tl, q)] == q;
    forall i, j | 0 <= i < j < 16
      ensures shifted[i] != shifted[j]
    {
    }
    KeepValid(rows, cols, shifted)
  }

  /** Entry `k` of the source's ring offset table, added to `tl`: first the
      row above, then the row below, then the column left, then the column right. */
  function RingCell(tl: Position, k: int): (q: Position)
    requires 0 <= k < 16
    ensures InRing(tl, q)
  {
    if k < 4 then Position(tl.r - 1, tl.c + k)
    else if k < 8 then Position(tl.r + 4, tl.c + k - 4)
    else if k < 12 then Position(tl.r + k - 8, tl.c - 1)
    else Position(tl.r + k - 12, tl.c + 4)
  }

  /** Where a ring cell stands in the source's offset table. */
  function RingIndex(tl: Position, q: Position): (k: int)
    requires InRing(tl, q)
    ensures 0 <= k < 16 && RingCell(tl, k) == q
  {
    if q.r == tl.r - 1 && tl.c <= q.c <= tl.c + 3 then q.c - tl.c
    else if q.r == tl.r + 4 && tl.c <= q.c <= tl.c + 3 then 4 + q.c - tl.c
    else if q.c == tl.c - 1 then 8 + q.r - tl.r
    else 12 + q.r - tl.r
  }

  /** The block at `tl`: rows tl.r .. tl.r+3 by columns tl.c .. tl.c+3. */
  predicate InBlock(tl: Position, q: Position)
  {
    tl.r <= q.r < tl.r + 4 && tl.c <= q.c < tl.c + 4
  }

  /** The block's sixteen cells in the row-major order of the source's scan. */
  function BlockPositions(tl: Position): (blk: seq<Position>)
    ensures |blk| == 16
    ensures forall k :: 0 <= k < 16 ==> blk[k] == Position(tl.r + k / 4, tl.c + k % 4)
    ensures forall q :: q in blk <==> InBlock(tl, q)
  {
    var blk := seq(16, k requires 0 <= k < 16 => Position(tl.r + k / 4, tl.c + k % 4));
    assert forall q :: InBlock(tl, q) ==> blk[BlockIndex(tl, q)] == q;
    blk
  }

  /** Cell (i, j) of the block is entry 4 * i + j of the scan. */
  lemma BlockAt(tl: Position, i: int, j: int)
    requires 0 <= i < 4 && 0 <= j < 4
    ensures BlockPositions(tl)[4 * i + j] == Position(tl.r + i, tl.c + j)
  {
    var k := 4 * i + j;
    assert k / 4 == i && k % 4 == j;
  }

  /** Where a block cell stands in the row-major scan. */
  function BlockIndex(tl: Position, q: Position): (k: int)
    requires InBlock(tl, q)
    ensures 0 <= k < 16 && k / 4 == q.r - tl.r && k % 4 == q.c - tl.c
  {
    4 * (q.r - tl.r) + (q.c - tl.c)
  }
}
