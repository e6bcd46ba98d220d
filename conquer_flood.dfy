/** One lemma per step of the flood in `conquer`
    (engine/src/ConquidBoard.ts:181-209), each preserving the invariant of
    `ConquerInv`, so that `ConquidBoard.Board.Conquer` only has to chain them. */
module ConquerFlood {
  import opened Utils
  import opened BoardTypes
  import opened ConquerSpec
  import opened ConquerInv

  /** The queue initially holds the seeds, nothing is touched or captured. */
  lemma FloodStart(rows: int, cols: int, g0: seq<seq<Cell>>, player: Player, touched: seq<seq<int>>, q: seq<Position>)
    requires Shaped(rows, cols, g0) && Shaped(rows, cols, touched)
    requires forall i, j :: 0 <= i < |touched| && 0 <= j < |touched[i]| ==> touched[i][j] == 0
    requires NoDup(q) && forall p :: p in q <==> p in Seeds(g0, player)
    ensures FloodInv(rows, cols, g0, player, g0, touched, q, {}, [])
  {
    assert Elems<Position>([]) == {};
    forall p
      ensures CellAfter(rows, cols, g0, player, g0, [], p)
      ensures TouchRight(rows, cols, player, g0, touched, {}, [], p)
    {
      CountInNone(Adjacent(rows, cols, p), {});
    }
  }

  /** Dequeuing the head of the queue starts a visit. */
  lemma VisitStart(rows: int, cols: int, g0: seq<seq<Cell>>, player: Player, g: seq<seq<Cell>>,
                   touched: seq<seq<int>>, q: seq<Position>, processed: set<Position>, order: seq<Position>)
    requires FloodInv(rows, cols, g0, player, g, touched, q, processed, order) && q != []
    ensures VisitInv(rows, cols, g0, player, g, touched, q[1..], processed, q[0], [], order)
  {
    var curr := q[0];
    assert curr in Elems(q);
    SeedsIff(g0, player, curr);
    assert forall p :: p in q[1..] ==> p in q && p != curr;
    assert Elems(q) == {curr} + Elems(q[1..]);
  }

  /** A neighbour that is not capturable is left alone. */
  lemma TouchSkip(rows: int, cols: int, g0: seq<seq<Cell>>, player: Player, g: seq<seq<Cell>>,
                  touched: seq<seq<int>>, q: seq<Position>, before: set<Position>, curr: Position,
                  done: seq<Position>, order: seq<Position>, adj: Position)
    requires VisitInv(rows, cols, g0, player, g, touched, q, before, curr, done, order)
    requires PosValid(rows, cols, adj) && !Capturable(At(g, adj), player)
    ensures VisitInv(rows, cols, g0, player, g, touched, q, before, curr, done + [adj], order)
  {
    forall p
      ensures TouchRight(rows, cols, player, g, touched, before, done + [adj], p)
    {
      assert TouchRight(rows, cols, player, g, touched, before, done, p);
    }
  }

  /** A capturable neighbour touched for the first time only counts the touch. */
  lemma TouchCount(rows: int, cols: int, g0: seq<seq<Cell>>, player: Player, g: seq<seq<Cell>>,
                   touched: seq<seq<int>>, q: seq<Position>, before: set<Position>, curr: Position,
                   done: seq<Position>, order: seq<Position>, adj: Position)
    requires VisitInv(rows, cols, g0, player, g, touched, q, before, curr, done, order)
    requires PosValid(rows, cols, adj) && Capturable(At(g, adj), player) && adj !in done
    requires At(touched, adj) + 1 < 2
    ensures VisitInv(rows, cols, g0, player, g, Put(touched, adj, At(touched, adj) + 1), q, before, curr, done + [adj], order)
  {
    var t' := Put(touched, adj, At(touched, adj) + 1);
    assert TouchRight(rows, cols, player, g, touched, before, done, adj);
    forall p
      ensures TouchRight(rows, cols, player, g, t', before, done + [adj], p)
    {
      assert TouchRight(rows, cols, player, g, touched, before, done, p);
    }
  }

  /** A capturable neighbour touched for the second time is captured and
      queued. */
  lemma TouchCapture(rows: int, cols: int, g0: seq<seq<Cell>>, player: Player, g: seq<seq<Cell>>,
                     touched: seq<seq<int>>, q: seq<Position>, before: set<Position>, curr: Position,
                     done: seq<Position>, order: seq<Position>, adj: Position)
    requires VisitInv(rows, cols, g0, player, g, touched, q, before, curr, done, order)
    requires PosValid(rows, cols, adj) && Capturable(At(g, adj), player)
    requires CountIn(Adjacent(rows, cols, adj), before + {curr}) >= 2
    ensures VisitInv(rows, cols, g0, player, Put(g, adj, Cell(player, false)), Put(touched, adj, At(touched, adj) + 1),
                     q + [adj], before, curr, done + [adj], order + [adj])
  {
    CaptureTouched(rows, cols, player, g, touched, before, done, adj, At(touched, adj) + 1);
    CaptureQueued(rows, cols, g0, player, g, q, before, curr, order, adj);
  }

  /** A capturable neighbour touched for the second time has two neighbours
      among the dequeued cells, counting `curr`. */
  lemma CaptureCount(rows: int, cols: int, g0: seq<seq<Cell>>, player: Player, g: seq<seq<Cell>>,
                     touched: seq<seq<int>>, q: seq<Position>, before: set<Position>, curr: Position,
                     done: seq<Position>, order: seq<Position>, adj: Position)
    requires VisitInv(rows, cols, g0, player, g, touched, q, before, curr, done, order)
    requires adj in Adjacent(rows, cols, curr) && Capturable(At(g, adj), player) && adj !in done
    requires At(touched, adj) + 1 >= 2
    ensures PosValid(rows, cols, adj)
    ensures CountIn(Adjacent(rows, cols, adj), before + {curr}) >= 2
  {
    assert TouchRight(rows, cols, player, g, touched, before, done, adj);
    VisitTouches(rows, cols, before, curr, adj);
  }

  /** Capturing a capturable cell with two neighbours among the dequeued
      cells, and queueing it, keeps every seed and captured cell either
      dequeued or queued, exactly once. */
  lemma CaptureQueued(rows: int, cols: int, g0: seq<seq<Cell>>, player: Player, g: seq<seq<Cell>>,
                      q: seq<Position>, before: set<Position>, curr: Position, order: seq<Position>, adj: Position)
    requires Captured(rows, cols, g0, player, g, order)
    requires NoDup(q) && (forall p :: p in q ==> p !in before && p != curr)
    requires before + {curr} + Elems(q) == Seeds(g0, player) + Elems(order)
    requires PosValid(rows, cols, adj) && Capturable(At(g, adj), player)
    requires CountIn(Adjacent(rows, cols, adj), before + {curr}) >= 2
    ensures Captured(rows, cols, g0, player, Put(g, adj, Cell(player, false)), order + [adj])
    ensures NoDup(q + [adj]) && (forall p :: p in q + [adj] ==> p !in before && p != curr)
    ensures before + {curr} + Elems(q + [adj]) == Seeds(g0, player) + Elems(order + [adj])
  {
    CountInMono(Adjacent(rows, cols, adj), before + {curr}, Seeds(g0, player) + Elems(order));
    SeedsIff(g0, player, adj);
    assert CellAfter(rows, cols, g0, player, g, order, adj);
    assert adj !in order;
    assert adj !in Elems(q) && adj !in before && adj != curr;
    assert Elems(order + [adj]) == Elems(order) + {adj};
    assert Elems(q + [adj]) == Elems(q) + {adj};
    NoDupAppend(q, adj);
    CaptureCells(rows, cols, g0, player, g, order, adj);
  }

  /** Capturing `adj`, a capturable cell with two neighbours among the seeds
      and the captured cells, extends the capture order by it. */
  lemma CaptureCells(rows: int, cols: int, g0: seq<seq<Cell>>, player: Player, g: seq<seq<Cell>>,
                     order: seq<Position>, adj: Position)
    requires Captured(rows, cols, g0, player, g, order)
    requires PosValid(rows, cols, adj) && Capturable(At(g, adj), player)
    requires CountIn(Adjacent(rows, cols, adj), Seeds(g0, player) + Elems(order)) >= 2
    ensures Captured(rows, cols, g0, player, Put(g, adj, Cell(player, false)), order + [adj])
  {
    var g' := Put(g, adj, Cell(player, false));
    assert CellAfter(rows, cols, g0, player, g, order, adj);
    assert adj !in order;
    NoDupAppend(order, adj);
    DerivationExtend(rows, cols, g0, player, order, adj);
    forall p
      ensures CellAfter(rows, cols, g0, player, g', order + [adj], p)
    {
      assert CellAfter(rows, cols, g0, player, g, order, p);
    }
  }

  /** The captured cell leaves the touch relation; every other cell keeps
      its count. */
  lemma CaptureTouched(rows: int, cols: int, player: Player, g: seq<seq<Cell>>, touched: seq<seq<int>>,
                       before: set<Position>, done: seq<Position>, adj: Position, v: int)
    requires CountedVisiting(rows, cols, player, g, touched, before, done) && PosValid(rows, cols, adj)
    ensures CountedVisiting(rows, cols, player, Put(g, adj, Cell(player, false)), Put(touched, adj, v), before, done + [adj])
  {
    var g' := Put(g, adj, Cell(player, false));
    var t' := Put(touched, adj, v);
    forall p | PosValid(rows, cols, p) && Capturable(At(g', p), player)
      ensures TouchRight(rows, cols, player, g', t', before, done + [adj], p)
    {
      assert TouchRight(rows, cols, player, g, touched, before, done, p);
      assert Has(g, p) && Has(touched, p);
      assert p != adj && At(g', p) == At(g, p) && At(t', p) == At(touched, p);
    }
    forall p | !(PosValid(rows, cols, p) && Capturable(At(g', p), player))
      ensures TouchRight(rows, cols, player, g', t', before, done + [adj], p)
    {
    }
  }

  /** Appending an element not yet present keeps a sequence free of duplicates. */
  lemma NoDupAppend<T>(s: seq<T>, x: T)
    requires NoDup(s) && x !in s
    ensures NoDup(s + [x])
  {
    forall i, j | 0 <= i < j < |s + [x]|
      ensures (s + [x])[i] != (s + [x])[j]
    {
      if j == |s| {
        assert (s + [x])[i] in s;
      }
    }
  }

  /** Once every neighbour of `curr` is handled, `curr` counts as processed. */
  lemma VisitEnd(rows: int, cols: int, g0: seq<seq<Cell>>, player: Player, g: seq<seq<Cell>>,
                 touched: seq<seq<int>>, q: seq<Position>, before: set<Position>, curr: Position,
                 done: seq<Position>, order: seq<Position>)
    requires VisitInv(rows, cols, g0, player, g, touched, q, before, curr, done, order)
    requires forall p :: p in done <==> p in Adjacent(rows, cols, curr)
    ensures FloodInv(rows, cols, g0, player, g, touched, q, before + {curr}, order)
  {
    forall p
      ensures TouchRight(rows, cols, player, g, touched, before + {curr}, [], p)
    {
      assert TouchRight(rows, cols, player, g, touched, before, done, p);
      if PosValid(rows, cols, p) {
        VisitTouches(rows, cols, before, curr, p);
      }
    }
  }

  /** An empty queue leaves a conquered grid. */
  lemma FloodEnd(rows: int, cols: int, g0: seq<seq<Cell>>, player: Player, g: seq<seq<Cell>>,
                 touched: seq<seq<int>>, processed: set<Position>, order: seq<Position>)
    requires FloodInv(rows, cols, g0, player, g, touched, [], processed, order)
    ensures Conquered(rows, cols, g0, g, player, order)
  {
    assert Elems<Position>([]) == {};
    forall p | PosValid(rows, cols, p)
      ensures At(g, p) == if p in order then Cell(player, false) else At(g0, p)
    {
      assert CellAfter(rows, cols, g0, player, g, order, p);
    }
    SeedsAfterCapture(rows, cols, g0, g, player, order);
    assert processed == Seeds(g, player);
    forall p | PosValid(rows, cols, p) && Capturable(At(g, p), player)
      ensures CountIn(Adjacent(rows, cols, p), Seeds(g, player)) < 2
    {
      assert TouchRight(rows, cols, player, g, touched, processed, [], p);
    }
  }
}
