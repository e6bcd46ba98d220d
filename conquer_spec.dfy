/** What `conquer` (engine/src/ConquidBoard.ts:181-209) computes. The source
    runs a FIFO flood: every non-base cell of the player is queued; each
    dequeued cell adds one touch to each in-bounds neighbour that is not
    neutral, not the player's and not a base cell; a neighbour with two
    touches is captured and queued in turn. The result is stated here as a
    relation between the grid before and after, witnessed by the order of
    capture, and proved to determine the grid uniquely and to be a fixed
    point of a second call. */
module ConquerSpec {
  import opened Utils
  import opened BoardTypes
  import opened BoardSpec

  /** A cell conquer may capture: owned by another player, not a base cell.
      Neutral cells are never captured. */
  predicate Capturable(cell: Cell, player: Player)
  {
    cell.owner != 0 && cell.owner != player && !cell.isBase
  }

  /** A cell that feeds the flood: the player's own non-base cell. */
  predicate Feeds(cell: Cell, player: Player)
  {
    cell.owner == player && !cell.isBase
  }

  /** The cells that seed the queue. */
  ghost function Seeds(g: seq<seq<Cell>>, player: Player): set<Position>
  {
    set r, c | 0 <= r < |g| && 0 <= c < |g[r]| && Feeds(g[r][c], player) :: Position(r, c)
  }

  /** The cells a call could still capture. */
  ghost function CapturableCells(g: seq<seq<Cell>>, player: Player): set<Position>
  {
    set r, c | 0 <= r < |g| && 0 <= c < |g[r]| && Capturable(g[r][c], player) :: Position(r, c)
  }

  lemma SeedsIff(g: seq<seq<Cell>>, player: Player, p: Position)
    ensures p in Seeds(g, player) <==> Has(g, p) && Feeds(At(g, p), player)
  {
    if Has(g, p) && Feeds(At(g, p), player) {
      assert p == Position(p.r, p.c);
    }
  }

  lemma CapturableIff(g: seq<seq<Cell>>, player: Player, p: Position)
    ensures p in CapturableCells(g, player) <==> Has(g, p) && Capturable(At(g, p), player)
  {
    if Has(g, p) && Capturable(At(g, p), player) {
      assert p == Position(p.r, p.c);
    }
  }

  /** How many of `ps` lie in `s`. */
  function CountIn(ps: seq<Position>, s: set<Position>): (n: nat)
    ensures n <= |ps|
  {
    if ps == [] then 0 else (if ps[0] in s then 1 else 0) + CountIn(ps[1..], s)
  }

  lemma {:induction false} CountInMono(ps: seq<Position>, s: set<Position>, t: set<Position>)
    requires s <= t
    ensures CountIn(ps, s) <= CountIn(ps, t)
  {
    if ps != [] {
      CountInMono(ps[1..], s, t);
    }
  }

  lemma {:induction false} CountInSame(ps: seq<Position>, s: set<Position>, t: set<Position>)
    requires forall p :: p in ps ==> (p in s <==> p in t)
    ensures CountIn(ps, s) == CountIn(ps, t)
  {
    if ps != [] {
      CountInSame(ps[1..], s, t);
    }
  }

  /** Adding one element to the set adds one to the count of a duplicate-free
      sequence that holds it. */
  lemma {:induction false} CountInAdd(ps: seq<Position>, s: set<Position>, x: Position)
    requires x !in s && NoDup(ps)
    ensures CountIn(ps, s + {x}) == CountIn(ps, s) + (if x in ps then 1 else 0)
  {
    if ps != [] {
      assert NoDup(ps[1..]);
      assert ps[0] !in ps[1..];
      CountInAdd(ps[1..], s, x);
    }
  }

  /** No element of `ps` lies in `s`: the count is zero. */
  lemma {:induction false} CountInNone(ps: seq<Position>, s: set<Position>)
    requires forall p :: p in ps ==> p !in s
    ensures CountIn(ps, s) == 0
  {
    if ps != [] {
      CountInNone(ps[1..], s);
    }
  }

  /** Cells adjacent to one another see each other. */
  lemma AdjacentSymmetric(rows: int, cols: int, p: Position, q: Position)
    requires PosValid(rows, cols, p) && PosValid(rows, cols, q)
    ensures q in Adjacent(rows, cols, p) <==> p in Adjacent(rows, cols, q)
  {
  }

  /** `d` is a capture order from `g0`: each captured cell was capturable and
      had at least two neighbours among the seeds and the cells captured
      before it. */
  ghost predicate Derivation(rows: int, cols: int, g0: seq<seq<Cell>>, player: Player, d: seq<Position>)
    requires Shaped(rows, cols, g0)
  {
    (forall i :: 0 <= i < |d| ==> PosValid(rows, cols, d[i]) && Capturable(At(g0, d[i]), player)) &&
    (forall i :: 0 <= i < |d| ==> Supported(rows, cols, g0, player, d, i))
  }

  /** The `i`-th capture of `d` has at least two neighbours among the seeds
      and the cells captured before it. */
  ghost predicate Supported(rows: int, cols: int, g0: seq<seq<Cell>>, player: Player, d: seq<Position>, i: int)
  {
    0 <= i < |d| && CountIn(Adjacent(rows, cols, d[i]), Seeds(g0, player) + Elems(d[..i])) >= 2
  }

  /** Visiting `curr` adds one touch to each of its neighbours. */
  lemma VisitTouches(rows: int, cols: int, before: set<Position>, curr: Position, p: Position)
    requires PosValid(rows, cols, p) && PosValid(rows, cols, curr) && curr !in before
    ensures CountIn(Adjacent(rows, cols, p), before + {curr}) ==
      CountIn(Adjacent(rows, cols, p), before) + (if p in Adjacent(rows, cols, curr) then 1 else 0)
  {
    CountInAdd(Adjacent(rows, cols, p), before, curr);
    AdjacentSymmetric(rows, cols, p, curr);
  }

  /** A capture order extends by any capturable cell with two neighbours
      among the seeds and the cells captured so far. */
  lemma DerivationExtend(rows: int, cols: int, g0: seq<seq<Cell>>, player: Player, d: seq<Position>, x: Position)
    requires Shaped(rows, cols, g0) && Derivation(rows, cols, g0, player, d)
    requires PosValid(rows, cols, x) && Capturable(At(g0, x), player)
    requires CountIn(Adjacent(rows, cols, x), Seeds(g0, player) + Elems(d)) >= 2
    ensures Derivation(rows, cols, g0, player, d + [x])
  {
    var e := d + [x];
    assert e[..|d|] == d;
    forall i | 0 <= i < |e|
      ensures Supported(rows, cols, g0, player, e, i)
    {
      if i < |d| {
        assert e[..i] == d[..i] && Supported(rows, cols, g0, player, d, i);
      }
    }
  }

  /** Capturing a cell takes it out of the cells still capturable. */
  lemma CaptureShrinks(rows: int, cols: int, g: seq<seq<Cell>>, player: Player, x: Position)
    requires Shaped(rows, cols, g) && PosValid(rows, cols, x) && Capturable(At(g, x), player)
    ensures CapturableCells(Put(g, x, Cell(player, false)), player) < CapturableCells(g, player)
  {
    var h := Put(g, x, Cell(player, false));
    forall p | p in CapturableCells(h, player)
      ensures p in CapturableCells(g, player)
    {
      CapturableIff(h, player, p);
      CapturableIff(g, player, p);
    }
    CapturableIff(h, player, x);
    CapturableIff(g, player, x);
  }

  /** No cell is left that the flood could capture. */
  ghost predicate Closed(rows: int, cols: int, g: seq<seq<Cell>>, player: Player)
    requires Shaped(rows, cols, g)
  {
    forall p :: PosValid(rows, cols, p) && Capturable(At(g, p), player) ==>
      CountIn(Adjacent(rows, cols, p), Seeds(g, player)) < 2
  }

  /** `g` is the grid `conquer(player)` leaves on `g0`, with `order` the
      cells it captured: exactly those cells changed, each to the player's,
      each justified by two neighbours, and nothing more can be captured. */
  ghost predicate Conquered(rows: int, cols: int, g0: seq<seq<Cell>>, g: seq<seq<Cell>>, player: Player, order: seq<Position>)
  {
    Shaped(rows, cols, g0) && Shaped(rows, cols, g) &&
    NoDup(order) && Derivation(rows, cols, g0, player, order) &&
    (forall p :: PosValid(rows, cols, p) ==> At(g, p) == if p in order then Cell(player, false) else At(g0, p)) &&
    Closed(rows, cols, g, player)
  }

  /** After captures, the seeds are the old seeds and the captured cells. */
  lemma SeedsAfterCapture(rows: int, cols: int, g0: seq<seq<Cell>>, g: seq<seq<Cell>>, player: Player, order: seq<Position>)
    requires Shaped(rows, cols, g0) && Shaped(rows, cols, g)
    requires forall p :: PosValid(rows, cols, p) ==> At(g, p) == if p in order then Cell(player, false) else At(g0, p)
    requires forall p :: p in order ==> PosValid(rows, cols, p)
    ensures Seeds(g, player) == Seeds(g0, player) + Elems(order)
  {
    forall p
      ensures p in Seeds(g, player) <==> p in Seeds(g0, player) + Elems(order)
    {
      SeedsIff(g, player, p);
      SeedsIff(g0, player, p);
    }
  }

  /** Every cell of a capture order from `g0` is captured by any conquer
      result of `g0`. */
  lemma {:induction false} DerivedCaptured(rows: int, cols: int, g0: seq<seq<Cell>>, g: seq<seq<Cell>>, player: Player,
                                           order: seq<Position>, d: seq<Position>, n: nat)
    requires Conquered(rows, cols, g0, g, player, order)
    requires Derivation(rows, cols, g0, player, d)
    requires n <= |d|
    ensures Elems(d[..n]) <= Elems(order)
  {
    if n > 0 {
      DerivedCaptured(rows, cols, g0, g, player, order, d, n - 1);
      var x := d[n - 1];
      assert x in order by {
        assert Supported(rows, cols, g0, player, d, n - 1);
        SeedsAfterCapture(rows, cols, g0, g, player, order);
        CountInMono(Adjacent(rows, cols, x), Seeds(g0, player) + Elems(d[..n - 1]), Seeds(g, player));
        assert PosValid(rows, cols, x) && Capturable(At(g0, x), player);
      }
      assert d[..n] == d[..n - 1] + [x];
      assert Elems(d[..n]) == Elems(d[..n - 1]) + {x};
    }
  }

  /** Conquer is deterministic: its result is fixed by the grid and the player. */
  lemma ConquerDeterministic(rows: int, cols: int, g0: seq<seq<Cell>>, player: Player,
                             g1: seq<seq<Cell>>, o1: seq<Position>, g2: seq<seq<Cell>>, o2: seq<Position>)
    requires Conquered(rows, cols, g0, g1, player, o1)
    requires Conquered(rows, cols, g0, g2, player, o2)
    ensures g1 == g2
  {
    DerivedCaptured(rows, cols, g0, g2, player, o2, o1, |o1|);
    DerivedCaptured(rows, cols, g0, g1, player, o1, o2, |o2|);
    assert o1[..|o1|] == o1 && o2[..|o2|] == o2;
    forall p | Has(g1, p)
      ensures At(g1, p) == At(g2, p)
    {
      assert p in o1 <==> p in Elems(o1);
      assert p in o2 <==> p in Elems(o2);
    }
    GridExt(g1, g2);
  }

  /** A second conquer right after the first changes nothing and captures nothing. */
  lemma ConquerIdempotent(rows: int, cols: int, g0: seq<seq<Cell>>, player: Player,
                          g1: seq<seq<Cell>>, o1: seq<Position>, g2: seq<seq<Cell>>, o2: seq<Position>)
    requires Conquered(rows, cols, g0, g1, player, o1)
    requires Conquered(rows, cols, g1, g2, player, o2)
    ensures o2 == [] && g2 == g1
  {
    if o2 != [] {
      FirstCapture(rows, cols, g1, player, o2);
      assert false;
    }
    GridExt(g2, g1);
  }

  /** The first capture of an order needs two neighbours among the seeds alone. */
  lemma FirstCapture(rows: int, cols: int, g: seq<seq<Cell>>, player: Player, d: seq<Position>)
    requires Shaped(rows, cols, g) && Derivation(rows, cols, g, player, d) && d != []
    ensures PosValid(rows, cols, d[0]) && Capturable(At(g, d[0]), player)
    ensures CountIn(Adjacent(rows, cols, d[0]), Seeds(g, player)) >= 2
  {
    assert Elems(d[..0]) == {};
    assert Seeds(g, player) + Elems(d[..0]) == Seeds(g, player);
    assert Supported(rows, cols, g, player, d, 0);
  }

  /** Conquer touches only capturable cells: base cells, neutral cells and the
      player's own cells keep their contents, and captured cells become the
      player's non-base cells; so the configured bases stay in place. */
  lemma ConquerKeepsBases(rows: int, cols: int, bases: seq<BaseLocation>, g0: seq<seq<Cell>>, g: seq<seq<Cell>>,
                          player: Player, order: seq<Position>)
    requires Conquered(rows, cols, g0, g, player, order)
    ensures forall p :: PosValid(rows, cols, p) && !Capturable(At(g0, p), player) ==> At(g, p) == At(g0, p)
    ensures BasesIntact(rows, cols, bases, g0) ==> BasesIntact(rows, cols, bases, g)
  {
  }
}
