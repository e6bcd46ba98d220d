/** The client's move-composition state (client/src/slices/boardHistorySlice.ts):
    the committed boards, a preview board on which one move at a time is
    composed, the pending move, and whether it may be committed. Each reducer
    is a method of `BoardHistory`; its effect is stated by a step predicate
    over `HistoryState` values. A reducer that throws leaves the state as it
    was, because Immer discards the draft of a recipe that throws. */
module BoardHistorySlice {
  import opened Utils
  import opened BoardTypes
  import opened BoardSpec
  import opened ConquerSpec
  import opened ConquidBoard

  /** `BoardHistoryState` */
  datatype HistoryState = HistoryState(
    boards: seq<BoardLike>, playerIds: seq<string>, playerNo: int,
    preview: Option<BoardLike>, pendingMove: Option<Move>, canCommit: bool)

  /** A move as it arrives from the server: one of the four kinds, or a
      kind the client does not know. */
  datatype IncomingMove = Known(move: Move) | UnknownKind(kind: string)

  const NoBoardYet: Thrown := Error("No board yet")
  const MovePending: Thrown := Error("Move pending already")
  const TooManyCells: Thrown := Error("Too many cells selected already")
  const NoAcquirePending: Thrown := Error("No acquire move pending")
  const CellNotSelected: Thrown := Error("Cell not selected")
  const UnknownMoveKind: Thrown := Error("Unknown move kind")

  /** The slice's `initialState`. */
  function InitialState(): (s: HistoryState)
    ensures Inv(s)
  {
    HistoryState([], [], -1, None, None, false)
  }

  /** What `Board.fromConfig(rows, cols, bases, acquireCount).toObject()` returns. */
  ghost predicate ConfigBoard(b: BoardLike, rows: int, cols: int, bases: seq<BaseLocation>, acquireCount: int)
  {
    b.rows == rows && b.cols == cols && b.bases == bases && b.acquireCount == acquireCount &&
    Shaped(rows, cols, b.grid) && b.path == [] &&
    forall p :: PosValid(rows, cols, p) ==> At(b.grid, p) == ConfigCell(bases, p)
  }

  /** A well-formed board whose configured bases are still in place. This is
      kept only for numbered bases (player p's base is `bases[p - 1]`):
      otherwise a base region may have owner 0, and its cells can be
      acquired. */
  ghost predicate BasesKept(b: BoardLike)
  {
    WellFormed(b) && (BasesNumbered(b.bases) ==> BasesIntact(b.rows, b.cols, b.bases, b.grid))
  }

  /** The cells of a pending acquire are on the preview and, with numbered
      bases, are not base cells; there are at most `acquireCount` of them
      (one, when `acquireCount` is below 1: `acquireOne` starts a pending
      acquire without comparing against the count); and the move can be
      committed only with exactly `acquireCount`. */
  ghost predicate AcquireFits(pv: BoardLike, locs: seq<Position>, canCommit: bool)
  {
    (forall l :: l in locs ==> PosValid(pv.rows, pv.cols, l)) &&
    (BasesNumbered(pv.bases) ==> forall l :: l in locs && Has(pv.grid, l) ==> !At(pv.grid, l).isBase) &&
    |locs| <= (if pv.acquireCount < 1 then 1 else pv.acquireCount) &&
    (canCommit ==> |locs| == pv.acquireCount)
  }

  /** The invariants every reducer keeps. */
  ghost predicate Inv(s: HistoryState)
  {
    (forall i :: 0 <= i < |s.boards| ==> BasesKept(s.boards[i])) &&
    (s.preview.Some? ==> BasesKept(s.preview.value) && |s.boards| >= 1) &&
    (s.pendingMove.Some? ==> s.preview.Some?) &&
    (s.canCommit ==> s.pendingMove.Some?) &&
    (s.pendingMove.None? && s.preview.Some? ==> s.preview.value == s.boards[|s.boards| - 1]) &&
    (s.pendingMove.Some? && s.pendingMove.value.AcquireMove? ==>
      AcquireFits(s.preview.value, s.pendingMove.value.locs, s.canCommit))
  }

  /** `findIndex` by coordinates: the first index holding `x`, or -1. */
  function IndexOf(s: seq<Position>, x: Position): (i: int)
    ensures -1 <= i < |s|
    ensures i == -1 <==> x !in s
    ensures 0 <= i ==> s[i] == x && x !in s[..i]
  {
    if s == [] then -1
    else if s[0] == x then 0
    else
      var j := IndexOf(s[1..], x);
      assert s[1..][..j + 1] == s[1..j + 2] && s[..j + 2] == [s[0]] + s[1..j + 2];
      if j == -1 then -1 else j + 1
  }

  /** A rejection: the reducer throws `e` and the state is as before. */
  ghost predicate Rejected(s: HistoryState, s': HistoryState, r: Outcome, e: Thrown)
  {
    r == Fail(e) && s' == s
  }

  /** `initBoard`: a fresh board from the configuration is committed and
      becomes the preview; nothing is pending. */
  ghost predicate InitBoardStep(s: HistoryState, rows: int, cols: int, bases: seq<BaseLocation>, acquireCount: int,
                                s': HistoryState)
  {
    s'.preview.Some? && ConfigBoard(s'.preview.value, rows, cols, bases, acquireCount) &&
    s' == s.(boards := s.boards + [s'.preview.value], preview := s'.preview, pendingMove := None, canCommit := false)
  }

  /** `acquireOne`: one more cell for the pending acquire, started if none is
      pending, claimed on the preview for `player`; the move becomes
      committable when it holds `acquireCount` cells. */
  ghost predicate AcquireOneStep(s: HistoryState, player: Player, loc: Position, s': HistoryState, r: Outcome)
    requires Inv(s)
  {
    if s.preview.None? then Rejected(s, s', r, NoBoardYet)
    else
      var pv := s.preview.value;
      if s.pendingMove.Some? && !s.pendingMove.value.AcquireMove? then Rejected(s, s', r, MovePending)
      else if s.pendingMove.Some? && |s.pendingMove.value.locs| >= pv.acquireCount then Rejected(s, s', r, TooManyCells)
      else
        var pending := if s.pendingMove.Some? then s.pendingMove.value else AcquireMove(player, []);
        var locs := pending.locs + [loc];
        var check := AcquireCheck(pv.rows, pv.cols, pv.grid, [loc], 1);
        if check.Fail? then r == check && s' == s
        else
          r == Pass &&
          s' == s.(preview := Some(pv.(grid := WithOwner(pv.grid, [loc], player))),
                   pendingMove := Some(pending.(locs := locs)),
                   canCommit := s.canCommit || |locs| == pv.acquireCount)
  }

  /** `unacquireOne`: the first pending cell equal to `loc` is dropped and
      becomes neutral on the preview; the move can no longer be committed. */
  ghost predicate UnacquireOneStep(s: HistoryState, loc: Position, s': HistoryState, r: Outcome)
    requires Inv(s)
  {
    if s.preview.None? then Rejected(s, s', r, NoBoardYet)
    else if s.pendingMove.None? || !s.pendingMove.value.AcquireMove? then Rejected(s, s', r, NoAcquirePending)
    else
      var pv := s.preview.value;
      var locs := s.pendingMove.value.locs;
      var i := IndexOf(locs, loc);
      if i < 0 then Rejected(s, s', r, CellNotSelected)
      else
        r == Pass &&
        s' == s.(preview := Some(pv.(grid := WithOwner(pv.grid, [loc], 0))),
                 pendingMove := Some(s.pendingMove.value.(locs := locs[..i] + locs[i + 1..])),
                 canCommit := false)
  }

  /** `acquire`: a whole acquire move at once. */
  ghost predicate AcquireStep(s: HistoryState, player: Player, locs: seq<Position>, s': HistoryState, r: Outcome)
    requires Inv(s)
  {
    if s.preview.None? then Rejected(s, s', r, NoBoardYet)
    else if s.pendingMove.Some? then Rejected(s, s', r, MovePending)
    else
      var pv := s.preview.value;
      var check := AcquireCheck(pv.rows, pv.cols, pv.grid, locs, pv.acquireCount);
      if check.Fail? then r == check && s' == s
      else
        r == Pass &&
        s' == s.(preview := Some(pv.(grid := WithOwner(pv.grid, locs, player))),
                 pendingMove := Some(AcquireMove(player, locs)), canCommit := true)
  }

  /** `conquer`: never rejected by the engine; the preview's grid becomes the
      conquered grid. */
  ghost predicate ConquerStep(s: HistoryState, player: Player, s': HistoryState, r: Outcome, order: seq<Position>)
    requires Inv(s)
  {
    if s.preview.None? then Rejected(s, s', r, NoBoardYet)
    else if s.pendingMove.Some? then Rejected(s, s', r, MovePending)
    else
      var pv := s.preview.value;
      r == Pass && s'.preview.Some? &&
      Conquered(pv.rows, pv.cols, pv.grid, s'.preview.value.grid, player, order) &&
      s' == s.(preview := Some(pv.(grid := s'.preview.value.grid)),
               pendingMove := Some(ConquerMove(player)), canCommit := true)
  }

  /** `vanquish` */
  ghost predicate VanquishStep(s: HistoryState, player: Player, topLeft: Position, s': HistoryState, r: Outcome)
    requires Inv(s)
  {
    if s.preview.None? then Rejected(s, s', r, NoBoardYet)
    else if s.pendingMove.Some? then Rejected(s, s', r, MovePending)
    else
      var pv := s.preview.value;
      var check := VanquishCheck(pv.rows, pv.cols, pv.grid, player, topLeft);
      if check.Fail? then r == check && s' == s
      else
        r == Pass &&
        s' == s.(preview := Some(pv.(grid := Cleared(pv.grid, topLeft))),
                 pendingMove := Some(VanquishMove(player, topLeft)), canCommit := true)
  }

  /** `conquest`: the engine's `conquest` assigns the path it finds to the
      temporary `Board` wrapped around the preview, not to the preview, so
      the preview keeps its old path. */
  ghost predicate ConquestStep(s: HistoryState, player: Player, s': HistoryState, r: Outcome)
    requires Inv(s)
  {
    if s.preview.None? then Rejected(s, s', r, NoBoardYet)
    else if s.pendingMove.Some? then Rejected(s, s', r, MovePending)
    else
      var pv := s.preview.value;
      match ConquestCheck(pv.rows, pv.cols, pv.grid, pv.bases, player)
      case Err(e) => Rejected(s, s', r, e)
      case Ok(_) => r == Pass && s' == s.(pendingMove := Some(ConquestMove(player)), canCommit := true)
  }

  /** `commit`: the preview joins the history. */
  ghost predicate CommitStep(s: HistoryState, s': HistoryState, r: Outcome)
  {
    if s.preview.None? then Rejected(s, s', r, NoBoardYet)
    else r == Pass && s' == s.(boards := s.boards + [s.preview.value], pendingMove := None, canCommit := false)
  }

  /** `restore`: the preview goes back to the last committed board. */
  ghost predicate RestoreStep(s: HistoryState, s': HistoryState, r: Outcome)
    requires Inv(s)
  {
    if s.preview.None? then Rejected(s, s', r, NoBoardYet)
    else r == Pass && s' == s.(preview := Some(s.boards[|s.boards| - 1]), pendingMove := None, canCommit := false)
  }

  /** One of the four moves, as `executeMove` dispatches it. */
  ghost predicate MoveStep(s: HistoryState, m: Move, s': HistoryState, r: Outcome, order: seq<Position>)
    requires Inv(s)
  {
    match m
    case AcquireMove(player, locs) => AcquireStep(s, player, locs, s', r)
    case ConquerMove(player) => ConquerStep(s, player, s', r, order)
    case VanquishMove(player, topLeft) => VanquishStep(s, player, topLeft, s', r)
    case ConquestMove(player) => ConquestStep(s, player, s', r)
  }

  /** Every move keeps the invariants. */
  lemma MoveStepKeepsInv(s: HistoryState, m: Move, s': HistoryState, r: Outcome, order: seq<Position>)
    requires Inv(s) && MoveStep(s, m, s', r, order)
    ensures Inv(s')
  {
    match m
    case AcquireMove(player, locs) => AcquireKeepsInv(s, player, locs, s', r);
    case ConquerMove(player) => ConquerKeepsInv(s, player, s', r, order);
    case VanquishMove(player, topLeft) => VanquishKeepsInv(s, player, topLeft, s', r);
    case ConquestMove(player) =>
  }

  /** `acquire` keeps the invariants: the cells it claims were neutral, so
      with numbered bases none of them is a base cell. */
  lemma AcquireKeepsInv(s: HistoryState, player: Player, locs: seq<Position>, s': HistoryState, r: Outcome)
    requires Inv(s) && AcquireStep(s, player, locs, s', r)
    ensures Inv(s')
  {
    if r.Pass? {
      var pv := s.preview.value;
      AcquireCheckPasses(pv.rows, pv.cols, pv.grid, locs, pv.acquireCount);
      if BasesNumbered(pv.bases) {
        AcquireKeepsBases(pv.rows, pv.cols, pv.bases, pv.grid, locs, pv.acquireCount, player);
        forall l | l in locs ensures !At(pv.grid, l).isBase {
          NumberedBasesOwned(pv.bases, l);
        }
      }
    }
  }

  /** `conquer` keeps the invariants. */
  lemma ConquerKeepsInv(s: HistoryState, player: Player, s': HistoryState, r: Outcome, order: seq<Position>)
    requires Inv(s) && ConquerStep(s, player, s', r, order)
    ensures Inv(s')
  {
    if r.Pass? {
      var pv := s.preview.value;
      ConquerKeepsBases(pv.rows, pv.cols, pv.bases, pv.grid, s'.preview.value.grid, player, order);
    }
  }

  /** `vanquish` keeps the invariants. */
  lemma VanquishKeepsInv(s: HistoryState, player: Player, topLeft: Position, s': HistoryState, r: Outcome)
    requires Inv(s) && VanquishStep(s, player, topLeft, s', r)
    ensures Inv(s')
  {
    if r.Pass? {
      var pv := s.preview.value;
      var pv' := pv.(grid := Cleared(pv.grid, topLeft));
      assert s' == s.(preview := Some(pv'), pendingMove := Some(VanquishMove(player, topLeft)), canCommit := true);
      if BasesNumbered(pv.bases) {
        VanquishKeepsBases(pv.rows, pv.cols, pv.bases, pv.grid, topLeft);
      }
    }
  }

  /** With the client's default configuration `conquest` is always rejected:
      in every state that keeps the invariants and whose preview is a 14x28
      board with the default bases, `conquest` throws and changes nothing.
      `InitDefaultBoard` shows that `initBoard(defaultConfig)` leads to such
      a state. */
  lemma DefaultConquestRejected(s: HistoryState, player: Player, s': HistoryState, r: Outcome)
    requires Inv(s) && s.preview.Some?
    requires s.preview.value.rows == 14 && s.preview.value.cols == 28 && s.preview.value.bases == DefaultBases()
    requires ConquestStep(s, player, s', r)
    ensures s' == s && r.Fail?
  {
    var pv := s.preview.value;
    assert BasesKept(pv) && BasesNumbered(DefaultBases());
    DefaultConquestAlwaysFails(pv.grid, player);
  }

  /** `initBoard(defaultConfig)` keeps the invariants and leaves a 14x28
      preview with the default bases, the state `DefaultConquestRejected`
      speaks of. */
  lemma InitDefaultBoard(s: HistoryState, acquireCount: int, s': HistoryState)
    requires Inv(s) && InitBoardStep(s, 14, 28, DefaultBases(), acquireCount, s')
    ensures Inv(s') && s'.preview.Some?
    ensures s'.preview.value.rows == 14 && s'.preview.value.cols == 28 && s'.preview.value.bases == DefaultBases()
  {
    var b := s'.preview.value;
    assert BasesInside(14, 28, DefaultBases());
    assert BasesKept(b);
    assert s'.boards == s.boards + [b];
  }

  /** A move composed on a settled preview is discarded by `restore`:
      the state is back to what it was before the move. */
  lemma RestoreDiscardsMove(s: HistoryState, m: Move, s': HistoryState, order: seq<Position>)
    requires Inv(s) && MoveStep(s, m, s', Pass, order)
    ensures Inv(s') && RestoreStep(s', s, Pass)
  {
    MoveStepKeepsInv(s, m, s', Pass, order);
  }

  /** `acquireOne` keeps the invariants. */
  lemma AcquireOneKeepsInv(s: HistoryState, player: Player, loc: Position, s': HistoryState, r: Outcome)
    requires Inv(s) && AcquireOneStep(s, player, loc, s', r)
    ensures Inv(s')
  {
    if r.Pass? {
      var pv := s.preview.value;
      AcquireCheckPasses(pv.rows, pv.cols, pv.grid, [loc], 1);
      assert loc in [loc];
      if BasesNumbered(pv.bases) {
        AcquireKeepsBases(pv.rows, pv.cols, pv.bases, pv.grid, [loc], 1, player);
        NumberedBasesOwned(pv.bases, loc);
      }
    }
  }

  /** `unacquireOne` keeps the invariants: the cell it clears is a pending
      one, hence not a base cell. */
  lemma UnacquireOneKeepsInv(s: HistoryState, loc: Position, s': HistoryState, r: Outcome)
    requires Inv(s) && UnacquireOneStep(s, loc, s', r)
    ensures Inv(s')
  {
    if r.Pass? {
      var pv := s.preview.value;
      var locs := s.pendingMove.value.locs;
      var i := IndexOf(locs, loc);
      assert locs[i] in locs;
      if BasesNumbered(pv.bases) {
        RecolourKeepsBases(pv.rows, pv.cols, pv.bases, pv.grid, [loc], 0);
      }
      assert forall l :: l in locs[..i] + locs[i + 1..] ==> l in locs;
    }
  }

  /** `unacquireOne` undoes `acquireOne`: selecting a new cell and then
      deselecting it gives back the preview and the cells selected before,
      with the move no longer committable. */
  lemma AcquireOneUndone(s: HistoryState, player: Player, loc: Position, s': HistoryState)
    requires Inv(s) && AcquireOneStep(s, player, loc, s', Pass)
    requires s.pendingMove.Some? ==> loc !in s.pendingMove.value.locs
    ensures Inv(s')
    ensures var pending := if s.pendingMove.Some? then s.pendingMove.value else AcquireMove(player, []);
      UnacquireOneStep(s', loc, s.(pendingMove := Some(pending), canCommit := false), Pass)
  {
    AcquireOneKeepsInv(s, player, loc, s', Pass);
    var pv := s.preview.value;
    var pending := if s.pendingMove.Some? then s.pendingMove.value else AcquireMove(player, []);
    AcquireUndoGrid(pv.rows, pv.cols, pv.grid, player, loc);
    DropAppended(pending.locs, loc);
  }

  /** Giving a cell that passed the acquire check to `player` and then
      clearing it gives back the grid. */
  lemma AcquireUndoGrid(rows: int, cols: int, g: seq<seq<Cell>>, player: Player, loc: Position)
    requires Shaped(rows, cols, g) && AcquireCheck(rows, cols, g, [loc], 1) == Pass
    ensures WithOwner(WithOwner(g, [loc], player), [loc], 0) == g
  {
    AcquireCheckPasses(rows, cols, g, [loc], 1);
    assert loc in [loc];
    GridExt(WithOwner(WithOwner(g, [loc], player), [loc], 0), g);
  }

  /** Dropping the first occurrence of `x` from `xs + [x]` gives back `xs`
      when `x` was not in `xs`. */
  lemma DropAppended(xs: seq<Position>, x: Position)
    requires x !in xs
    ensures IndexOf(xs + [x], x) == |xs|
    ensures (xs + [x])[..|xs|] + (xs + [x])[|xs| + 1..] == xs
  {
    var ys := xs + [x];
    assert ys[|xs|] == x && ys[..|xs|] == xs;
  }

  /** `commit` keeps the invariants, and right after it `restore` changes
      nothing: the committed board is the one the preview shows. */
  lemma RestoreAfterCommit(s: HistoryState, s': HistoryState)
    requires Inv(s) && CommitStep(s, s', Pass)
    ensures Inv(s') && RestoreStep(s', s', Pass)
  {
  }

  /** Clearing a cell by direct write is `WithOwner` with owner 0. */
  lemma ClearOne(g: seq<seq<Cell>>, loc: Position)
    requires Has(g, loc)
    ensures Put(g, loc, At(g, loc).(owner := 0)) == WithOwner(g, [loc], 0)
  {
    GridExt(Put(g, loc, At(g, loc).(owner := 0)), WithOwner(g, [loc], 0));
  }

  class BoardHistory {
    var boards: seq<BoardLike>
    var playerIds: seq<string>
    var playerNo: int
    var preview: Option<BoardLike>
    var pendingMove: Option<Move>
    var canCommit: bool

    function State(): HistoryState
      reads this
    {
      HistoryState(boards, playerIds, playerNo, preview, pendingMove, canCommit)
    }

    ghost predicate Valid()
      reads this
    {
      Inv(State())
    }

    constructor ()
      ensures Valid() && State() == InitialState()
    {
      boards := [];
      playerIds := [];
      playerNo := -1;
      preview := None;
      pendingMove := None;
      canCommit := false;
    }

    /** `setPlayerIds` */
    method SetPlayerIds(ids: seq<string>)
      requires Valid()
      modifies this
      ensures Valid() && State() == old(State()).(playerIds := ids)
    {
      playerIds := ids;
    }

    /** `addPlayerId` */
    method AddPlayerId(id: string)
      requires Valid()
      modifies this
      ensures Valid() && State() == old(State()).(playerIds := old(playerIds) + [id])
    {
      playerIds := playerIds + [id];
    }

    /** `resetAll`: every field back to its initial value. */
    method ResetAll()
      modifies this
      ensures Valid() && State() == InitialState()
    {
      boards := [];
      playerIds := [];
      playerNo := -1;
      preview := None;
      pendingMove := None;
      canCommit := false;
    }

    /** `initBoard` */
    method InitBoard(rows: int, cols: int, bases: seq<BaseLocation>, acquireCount: int)
      requires Valid() && BasesInside(rows, cols, bases)
      modifies this
      ensures Valid() && InitBoardStep(old(State()), rows, cols, bases, acquireCount, State())
    {
      var b := new Board.FromConfig(rows, cols, bases, acquireCount);
      var board := b.ToObject();
      boards := boards + [board];
      preview := Some(board);
      pendingMove := None;
      canCommit := false;
    }

    /** `acquireOne`. The engine call runs on a `Board` whose grid is the
        preview's, so its writes land on the preview. */
    method AcquireOne(player: Player, loc: Position) returns (r: Outcome)
      requires Valid()
      modifies this
      ensures Valid() && AcquireOneStep(old(State()), player, loc, State(), r)
    {
      if preview.None? {
        return Fail(NoBoardYet);
      }
      var pv := preview.value;
      if pendingMove.Some? {
        if !pendingMove.value.AcquireMove? {
          return Fail(MovePending);
        } else if |pendingMove.value.locs| >= pv.acquireCount {
          return Fail(TooManyCells);
        }
      }
      var pending := if pendingMove.Some? then pendingMove.value else AcquireMove(player, []);
      pending := pending.(locs := pending.locs + [loc]);
      var board := new Board.FromObject(pv);
      r := board.AcquireOne(player, loc);
      if r.Fail? {
        return;
      }
      AcquireCheckPasses(pv.rows, pv.cols, pv.grid, [loc], 1);
      assert loc in [loc];
      preview := Some(pv.(grid := board.grid));
      pendingMove := Some(pending);
      if |pending.locs| == pv.acquireCount {
        canCommit := true;
      }
      AcquireOneKeepsInv(old(State()), player, loc, State(), r);
    }

    /** `unacquireOne` */
    method UnacquireOne(loc: Position) returns (r: Outcome)
      requires Valid()
      modifies this
      ensures Valid() && UnacquireOneStep(old(State()), loc, State(), r)
    {
      if preview.None? {
        return Fail(NoBoardYet);
      }
      if pendingMove.None? || !pendingMove.value.AcquireMove? {
        return Fail(NoAcquirePending);
      }
      var pv := preview.value;
      var locs := pendingMove.value.locs;
      var index := IndexOf(locs, loc);
      if index < 0 {
        return Fail(CellNotSelected);
      }
      assert locs[index] in locs;
      ClearOne(pv.grid, loc);
      preview := Some(pv.(grid := Put(pv.grid, loc, At(pv.grid, loc).(owner := 0))));
      assert forall l :: l in locs[..index] + locs[index + 1..] ==> l in locs;
      pendingMove := Some(pendingMove.value.(locs := locs[..index] + locs[index + 1..]));
      canCommit := false;
      r := Pass;
      UnacquireOneKeepsInv(old(State()), loc, State(), r);
    }

    /** `acquire` */
    method Acquire(player: Player, locs: seq<Position>) returns (r: Outcome)
      requires Valid()
      modifies this
      ensures Valid() && AcquireStep(old(State()), player, locs, State(), r)
    {
      if preview.None? {
        return Fail(NoBoardYet);
      }
      if pendingMove.Some? {
        return Fail(MovePending);
      }
      var pv := preview.value;
      var board := new Board.FromObject(pv);
      r := board.Acquire(player, locs);
      if r.Fail? {
        return;
      }
      preview := Some(pv.(grid := board.grid));
      pendingMove := Some(AcquireMove(player, locs));
      canCommit := true;
      AcquireKeepsInv(old(State()), player, locs, State(), r);
    }

    /** `conquer`; `order` is the order of capture. */
    method Conquer(player: Player) returns (r: Outcome, ghost order: seq<Position>)
      requires Valid()
      modifies this
      ensures Valid() && ConquerStep(old(State()), player, State(), r, order)
    {
      if preview.None? {
        return Fail(NoBoardYet), [];
      }
      if pendingMove.Some? {
        return Fail(MovePending), [];
      }
      var pv := preview.value;
      var board := new Board.FromObject(pv);
      order := board.Conquer(player);
      preview := Some(pv.(grid := board.grid));
      pendingMove := Some(ConquerMove(player));
      canCommit := true;
      r := Pass;
      ConquerKeepsInv(old(State()), player, State(), r, order);
    }

    /** `vanquish` */
    method Vanquish(player: Player, topLeft: Position) returns (r: Outcome)
      requires Valid()
      modifies this
      ensures Valid() && VanquishStep(old(State()), player, topLeft, State(), r)
    {
      if preview.None? {
        return Fail(NoBoardYet);
      }
      if pendingMove.Some? {
        return Fail(MovePending);
      }
      var pv := preview.value;
      var board := new Board.FromObject(pv);
      r := board.Vanquish(player, topLeft);
      if r.Fail? {
        return;
      }
      preview := Some(pv.(grid := board.grid));
      pendingMove := Some(VanquishMove(player, topLeft));
      canCommit := true;
      VanquishKeepsInv(old(State()), player, topLeft, State(), r);
    }

    /** `conquest`: the path lands on the temporary board only. */
    method Conquest(player: Player) returns (r: Outcome)
      requires Valid()
      modifies this
      ensures Valid() && ConquestStep(old(State()), player, State(), r)
    {
      if preview.None? {
        return Fail(NoBoardYet);
      }
      if pendingMove.Some? {
        return Fail(MovePending);
      }
      var board := new Board.FromObject(preview.value);
      r := board.Conquest(player);
      if r.Fail? {
        return;
      }
      pendingMove := Some(ConquestMove(player));
      canCommit := true;
    }

    /** `commit` */
    method Commit() returns (r: Outcome)
      requires Valid()
      modifies this
      ensures Valid() && CommitStep(old(State()), State(), r)
    {
      if preview.None? {
        return Fail(NoBoardYet);
      }
      boards := boards + [preview.value];
      pendingMove := None;
      canCommit := false;
      r := Pass;
    }

    /** `restore` */
    method Restore() returns (r: Outcome)
      requires Valid()
      modifies this
      ensures Valid() && RestoreStep(old(State()), State(), r)
    {
      if preview.None? {
        return Fail(NoBoardYet);
      }
      preview := Some(boards[|boards| - 1]);
      pendingMove := None;
      canCommit := false;
      r := Pass;
    }

    /** `executeMove`: dispatch on the move's kind to the matching reducer. */
    method ExecuteMove(move: IncomingMove) returns (r: Outcome, ghost order: seq<Position>)
      requires Valid()
      modifies this
      ensures Valid()
      ensures match move
        case UnknownKind(_) => Rejected(old(State()), State(), r, UnknownMoveKind)
        case Known(m) => MoveStep(old(State()), m, State(), r, order)
    {
      order := [];
      match move
      case UnknownKind(_) =>
        r := Fail(UnknownMoveKind);
      case Known(AcquireMove(player, locs)) =>
        r := Acquire(player, locs);
      case Known(ConquerMove(player)) =>
        r, order := Conquer(player);
      case Known(VanquishMove(player, topLeft)) =>
        r := Vanquish(player, topLeft);
      case Known(ConquestMove(player)) =>
        r := Conquest(player);
    }
  }
}
