/** The loop invariant of `conquer` (engine/src/ConquidBoard.ts:181-209).
    `processed` is the ghost set of cells already dequeued; `touched` counts,
    for each cell still capturable, how many of its neighbours have been
    dequeued. */
module ConquerInv {
  import opened Utils
  import opened BoardTypes
  import opened ConquerSpec

  /** `g` is `g0` with the cells of `order` captured, in a valid capture order. */
  ghost predicate Captured(rows: int, cols: int, g0: seq<seq<Cell>>, player: Player, g: seq<seq<Cell>>, order: seq<Position>)
  {
    Shaped(rows, cols, g0) && Shaped(rows, cols, g) &&
    (forall p {:trigger CellAfter(rows, cols, g0, player, g, order, p)} :: CellAfter(rows, cols, g0, player, g, order, p)) &&
    NoDup(order) && Derivation(rows, cols, g0, player, order)
  }

  /** Cell `p` of `g` is the player's if `p` was captured, and as in `g0`
      otherwise. */
  ghost predicate CellAfter(rows: int, cols: int, g0: seq<seq<Cell>>, player: Player, g: seq<seq<Cell>>,
                            order: seq<Position>, p: Position)
  {
    PosValid(rows, cols, p) && Has(g, p) && Has(g0, p) ==>
      At(g, p) == if p in order then Cell(player, false) else At(g0, p)
  }

  /** If `p` is still capturable, it has been touched once per neighbour in
      `before`, plus once if it is in `done`, and fewer than twice. */
  ghost predicate TouchRight(rows: int, cols: int, player: Player, g: seq<seq<Cell>>, touched: seq<seq<int>>,
                             before: set<Position>, done: seq<Position>, p: Position)
  {
    PosValid(rows, cols, p) && Has(g, p) && Has(touched, p) && Capturable(At(g, p), player) ==>
      At(touched, p) == CountIn(Adjacent(rows, cols, p), before) + (if p in done then 1 else 0) < 2
  }

  /** Every cell's touch count is right while the cell being visited has
      touched the cells of `done`. The quantifier fires only on `TouchRight`
      terms, so each proof names the cells it needs. */
  ghost predicate CountedVisiting(rows: int, cols: int, player: Player, g: seq<seq<Cell>>, touched: seq<seq<int>>,
                                  before: set<Position>, done: seq<Position>)
  {
    Shaped(rows, cols, g) && Shaped(rows, cols, touched) &&
    forall p {:trigger TouchRight(rows, cols, player, g, touched, before, done, p)} ::
      TouchRight(rows, cols, player, g, touched, before, done, p)
  }

  /** Each cell still capturable has been touched once per processed
      neighbour, fewer than twice. */
  ghost predicate Counted(rows: int, cols: int, player: Player, g: seq<seq<Cell>>, touched: seq<seq<int>>,
                          processed: set<Position>)
  {
    CountedVisiting(rows, cols, player, g, touched, processed, [])
  }

  /** The state between two dequeues: every seed and every captured cell is
      either processed or queued, exactly once. */
  ghost predicate FloodInv(rows: int, cols: int, g0: seq<seq<Cell>>, player: Player, g: seq<seq<Cell>>,
                           touched: seq<seq<int>>, q: seq<Position>, processed: set<Position>, order: seq<Position>)
  {
    Captured(rows, cols, g0, player, g, order) &&
    NoDup(q) && (forall p :: p in q ==> p !in processed) &&
    processed + Elems(q) == Seeds(g0, player) + Elems(order) &&
    Counted(rows, cols, player, g, touched, processed)
  }

  /** The state while the neighbours of the dequeued cell `curr` are touched;
      `done` lists the neighbours handled so far. */
  ghost predicate VisitInv(rows: int, cols: int, g0: seq<seq<Cell>>, player: Player, g: seq<seq<Cell>>,
                           touched: seq<seq<int>>, q: seq<Position>, before: set<Position>, curr: Position,
                           done: seq<Position>, order: seq<Position>)
  {
    PosValid(rows, cols, curr) && curr !in before &&
    Captured(rows, cols, g0, player, g, order) &&
    NoDup(q) && (forall p :: p in q ==> p !in before && p != curr) &&
    before + {curr} + Elems(q) == Seeds(g0, player) + Elems(order) &&
    CountedVisiting(rows, cols, player, g, touched, before, done)
  }
}
