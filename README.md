# Conquid: board engine and board-history slice in Dafny

Conquid is a two-player territory game on a rectangular grid. Each cell has
an owner (0 means neutral) and may be a base cell. A player moves in one of
four ways:

- **acquire**: claim a fixed number of neutral cells;
- **conquer**: flood-capture enemy cells that touch two or more of the player's cells;
- **vanquish**: clear a uniform 4x4 block that the player surrounds;
- **conquest**: find a breach from the player's base into another player's base.

This project models two parts of the game:

- the engine's `Board` (`engine/src/ConquidBoard.ts`, `engine/src/utils.ts`);
- the client's board-history slice (`client/src/slices/boardHistorySlice.ts`).
  The slice holds the committed boards and a preview board on which the
  player composes the next move.

Modules:

- `Utils`: `make2dArray` as `Make2dArray`, plus grid-shape helpers.
- `BoardTypes`: cells, positions, base regions, moves and error kinds.
  Also the grid geometry: `posValid`, `adjacent`, `surround4x4` and the 4x4 block.
- `BoardSpec`: what `check_acquire`, `check_vanquish` and `check_conquest`
  decide, as functions. Also what a successful `acquire` or `vanquish` does to the grid.
- `ConquerSpec`: the specification of `conquer` as the relation `Conquered`.
  Cells are captured in a valid order (`Derivation`) until nothing more qualifies (`Closed`).
  Lemmas show the result is unique and that a second `conquer` changes nothing.
- `ConquerInv`: the invariant of `conquer`'s queue loop.
- `ConquerFlood`: one lemma per kind of loop step, each keeping that invariant.
- `ConquidBoard`: the class `Board`. Its grid is a field the methods reassign.
  Every check method is proved equal to its specification function.
  Every state-changing method states the new grid and keeps `path` where the source does.
- `BoardHistorySlice`: the slice state `HistoryState` and one step predicate for each reducer that can throw.
  The three that cannot (`setPlayerIds`, `addPlayerId`, `resetAll`) state their new state directly.
  The class `BoardHistory` has one method per reducer, each proved to perform its step and to keep the invariant `Inv`.
  Lemmas give the round trips between reducers.

Errors are values. A failed check returns `Fail(BadMoveError(..))` or
`Fail(Error(..))`, where the source throws. A reducer that throws leaves the
slice state as it was: Immer discards the draft of a recipe that throws.

Three behaviours of the code are easy to misread, and the model follows the code:

- `conquer` touches only cells owned by another player and skips neutral
  cells and base cells (`ConquidBoard.ts:197-200`).
- The vanquish colour scan (`ConquidBoard.ts:230-236`) compares base cells too.
  It takes the square's owner from the first non-base cell. A base cell met
  before that cell is compared against 0.
- The conquest search (`ConquidBoard.ts:273-280`) marks the dequeued cell
  visited, then queues a neighbour only if that same cell is unvisited.
  So it never leaves its start cell. It succeeds only when a neighbour of the
  start cell is a base cell of another player, and the path is then the start
  cell alone (`BoardSpec.ConquestCheck`).
  The walk-back (`ConquidBoard.ts:284-288`) re-reads `curr` instead of `currPos`.
  If the start cell is not the player's own base cell, the walk-back therefore
  dereferences a missing predecessor and throws a TypeError.
  With the client's default configuration (`initBoard(defaultConfig)`,
  `boardHistorySlice.ts:16-37`), conquest can never succeed.
  `BoardSpec.DefaultConquestAlwaysFails` shows this for every grid whose
  default bases are intact. The slice invariant `Inv` keeps numbered bases of
  every board intact, so `BoardHistorySlice.DefaultConquestRejected` shows
  that the `conquest` reducer always throws when the preview is a default
  board. `BoardHistorySlice.InitDefaultBoard` shows that `initBoard` with
  the default configuration leads to such a state.

## Model

| member | source | states |
|---|---|---|
| Utils.Make2dArray | engine/src/utils.ts:1-11 | the result has `rows` rows of `cols` entries, each equal to the initial value; no rows when `rows` is not positive |
| BoardTypes.PosValid | engine/src/ConquidBoard.ts:305-307 | a position is valid iff its row is in `[0, rows)` and its column in `[0, cols)` |
| BoardTypes.KeepValid | engine/src/ConquidBoard.ts:320 | the kept positions are exactly the valid ones of the input, no more of them than the input has, and without repetition when the input has none |
| BoardTypes.Adjacent | engine/src/ConquidBoard.ts:309-321 | exactly the in-bounds up/down/left/right neighbours, without repetition, at most four |
| BoardTypes.Surround4x4 | engine/src/ConquidBoard.ts:323-337 | exactly the in-bounds cells of the 16-cell ring flush with the sides of the 4x4 block, each once |
| BoardTypes.BlockPositions | engine/src/ConquidBoard.ts:225-226 | the 16 cells of the block, in the row-major order of the scan loops |
| BoardTypes.BlockAt | engine/src/ConquidBoard.ts:225-226 | the cell at row `i`, column `j` of the block is visited at step `4*i+j` of the scan |
| BoardSpec.ConfigCell | engine/src/ConquidBoard.ts:113-125 | a cell is a base cell iff some region covers it; its owner is that of the last region covering it; any other cell is neutral and not a base |
| BoardSpec.NumberedBasesOwned | engine/src/ConquidBoard.ts:116-123 | when every region's owner is a player number (at least 1), every base cell `fromConfig` creates is owned |
| BoardSpec.FirstUnacquirable | engine/src/ConquidBoard.ts:158-165 | the index of the first position `check_acquire` rejects: every earlier position is in bounds and neutral, and this one is not |
| BoardSpec.AcquireCheck | engine/src/ConquidBoard.ts:152-166 | `check_acquire` throws only bad-move errors: `acquireCount` with the list's length exactly when the length is wrong, `outOfBounds` for a listed off-board position, `nonEmptyCell` for a listed owned position |
| BoardSpec.AcquireCheckPasses | engine/src/ConquidBoard.ts:152-166 | `check_acquire` passes iff the number of positions is the required one and every position is in bounds and neutral |
| BoardSpec.AcquireCheckReportsFirst | engine/src/ConquidBoard.ts:158-165 | a failing check with the right count names the first bad position: `outOfBounds` if it is off the board, else `nonEmptyCell` |
| BoardSpec.BaseCellNeverAcquired | engine/src/ConquidBoard.ts:162-164 | a list containing an owned base cell is always rejected |
| BoardSpec.WithOwner | engine/src/ConquidBoard.ts:174-179 | exactly the listed cells take the new owner; every other cell is unchanged |
| BoardSpec.RecolourKeepsBases | client/src/slices/boardHistorySlice.ts:84 | giving new owners to cells none of which is a base cell keeps the grid's shape and every base cell |
| BoardSpec.AcquireKeepsBases | engine/src/ConquidBoard.ts:174-179 | a successful acquire keeps the grid's shape and leaves every base cell as `fromConfig` made it |
| BoardSpec.CountOwnedBy | engine/src/ConquidBoard.ts:212-218 | the count is the number of listed positions, counted with repetition, whose cell belongs to the player |
| BoardSpec.RingCount | engine/src/ConquidBoard.ts:212-218 | `surrounding`: the number of in-bounds ring cells of the block that the player owns |
| BoardSpec.BlockScan | engine/src/ConquidBoard.ts:223-238 | the row-major colour scan fails only with `colorMismatch(topLeft)` or with `outOfBounds` for a scanned off-board cell |
| BoardSpec.VanquishCheck | engine/src/ConquidBoard.ts:211-239 | `check_vanquish` passes only with at least 4 ring cells of the player's; it fails only with `notSurroundedCell(topLeft)`, `colorMismatch(topLeft)` or `outOfBounds` for an off-board block cell |
| BoardSpec.BlockScanFound | engine/src/ConquidBoard.ts:225-238 | once the square's owner is fixed, the scan passes iff every remaining cell is in bounds and has that owner |
| BoardSpec.BlockScanMismatchAtTopLeft | engine/src/ConquidBoard.ts:234-235 | `colorMismatch` always reports `topLeft`, whichever cell mismatched |
| BoardSpec.VanquishCheckPasses | engine/src/ConquidBoard.ts:211-239 | when base cells are owned: the check passes iff at least 4 ring cells are the player's, `topLeft` is in bounds and not a base, and the whole block is in bounds with `topLeft`'s owner |
| BoardSpec.VanquishBlockInBounds | engine/src/ConquidBoard.ts:225-229 | a passing check implies all 16 block cells are in bounds |
| BoardSpec.BlockScanInBounds | engine/src/ConquidBoard.ts:225-229 | a passing scan implies every scanned cell is in bounds |
| BoardSpec.Cleared | engine/src/ConquidBoard.ts:244-252 | non-base block cells become neutral; base cells and cells outside the block are unchanged |
| BoardSpec.VanquishKeepsBases | engine/src/ConquidBoard.ts:244-252 | vanquish keeps the grid's shape and every base cell |
| BoardSpec.ConquestCheck | engine/src/ConquidBoard.ts:255-298 | `check_conquest` as written succeeds only for a player with a base whose start cell has a neighbour that is another player's base cell, and the path is then the start cell alone; it fails with `pathNotFound` exactly when the player has a base and no such neighbour |
| BoardSpec.DefaultBases | client/src/slices/boardHistorySlice.ts:16-31 | player 1's base at rows 6-7, columns 4-5 and player 2's at rows 6-7, columns 22-23 |
| BoardSpec.DefaultConquestAlwaysFails | engine/src/ConquidBoard.ts:259-297 | with the 14x28 default bases, whatever the other cells hold, conquest fails: `pathNotFound` for players 1 and 2, and a plain error for any other player |
| ConquerSpec.Conquered | engine/src/ConquidBoard.ts:181-209 | the grid `conquer` leaves: the cells captured in some valid order (each capturable and next to two seeded or captured cells) take the player as owner, every other cell is unchanged, and no capturable cell is left with two such neighbours |
| ConquerSpec.SeedsIff | engine/src/ConquidBoard.ts:184-190 | a cell is queued at the start iff it is on the grid, owned by the player and not a base |
| ConquerSpec.CapturableIff | engine/src/ConquidBoard.ts:197-200 | a cell is touched iff it is on the grid, owned by another non-neutral player, and not a base |
| ConquerSpec.AdjacentSymmetric | engine/src/ConquidBoard.ts:309-321 | `q` is adjacent to `p` iff `p` is adjacent to `q` |
| ConquerSpec.VisitTouches | engine/src/ConquidBoard.ts:195-201 | processing `curr` adds one touch to each of its neighbours, and none to other cells |
| ConquerSpec.DerivationExtend | engine/src/ConquidBoard.ts:201-204 | a capturable cell with two neighbours already seeded or captured may be captured next |
| ConquerSpec.CaptureShrinks | engine/src/ConquidBoard.ts:203 | each capture removes one cell from the capturable set, so the loop terminates |
| ConquerSpec.SeedsAfterCapture | engine/src/ConquidBoard.ts:203-204 | after the captures, the player's non-base cells are the original seeds plus the captured cells |
| ConquerSpec.DerivedCaptured | engine/src/ConquidBoard.ts:193-208 | every cell some valid capture order can reach is captured by `conquer` |
| ConquerSpec.ConquerDeterministic | engine/src/ConquidBoard.ts:181-209 | the grid `conquer` leaves does not depend on the order of capture |
| ConquerSpec.ConquerIdempotent | engine/src/ConquidBoard.ts:181-209 | a second `conquer` by the same player captures nothing and changes nothing |
| ConquerSpec.FirstCapture | engine/src/ConquidBoard.ts:197-204 | the first capture is a capturable cell with two original seeds as neighbours |
| ConquerSpec.ConquerKeepsBases | engine/src/ConquidBoard.ts:197-203 | cells that are not capturable (base, neutral, own) are unchanged, so base cells stay intact |
| ConquerFlood.FloodStart | engine/src/ConquidBoard.ts:182-190 | the seeded queue with a zero touch grid satisfies the loop invariant |
| ConquerFlood.VisitStart | engine/src/ConquidBoard.ts:194 | dequeuing the head starts a visit with the invariant held |
| ConquerFlood.TouchSkip | engine/src/ConquidBoard.ts:197-200 | a neighbour that is not capturable is left alone |
| ConquerFlood.TouchCount | engine/src/ConquidBoard.ts:201 | a first touch only counts |
| ConquerFlood.CaptureCount | engine/src/ConquidBoard.ts:201-202 | a capturable neighbour touched for the second time has two neighbours among the dequeued cells, counting `curr` |
| ConquerFlood.TouchCapture | engine/src/ConquidBoard.ts:201-205 | a second touch captures the cell and queues it, with the invariant held |
| ConquerFlood.CaptureQueued | engine/src/ConquidBoard.ts:203-204 | capturing and queueing the cell extends the capture order and keeps every seed and captured cell dequeued or queued, exactly once |
| ConquerFlood.CaptureCells | engine/src/ConquidBoard.ts:203 | capturing a cell with two seeded or captured neighbours extends a valid capture order |
| ConquerFlood.CaptureTouched | engine/src/ConquidBoard.ts:201-203 | writing one cell and its touch count keeps every other cell's count |
| ConquerFlood.VisitEnd | engine/src/ConquidBoard.ts:195-207 | once every neighbour is handled, the dequeued cell counts as processed |
| ConquerFlood.FloodEnd | engine/src/ConquidBoard.ts:193-208 | an empty queue leaves the grid `Conquered` |
| ConquidBoard.QueueSeeds | engine/src/ConquidBoard.ts:183-190 | the queue holds exactly the player's non-base cells, in row-major order, each once |
| ConquidBoard.TouchNeighbour | engine/src/ConquidBoard.ts:196-206 | handling one neighbour keeps the loop invariant; either nothing changed or the capturable set shrank |
| ConquidBoard.VisitNeighbours | engine/src/ConquidBoard.ts:195-207 | the loop invariant holds after all neighbours of `curr` are handled; either nothing changed or the capturable set shrank |
| ConquidBoard.Board.FromConfig | engine/src/ConquidBoard.ts:113-125 | every cell is `ConfigCell`, the base cells are intact, the path is empty |
| ConquidBoard.Board.FromObject | engine/src/ConquidBoard.ts:127-132 | the board's `toObject` is the given object |
| ConquidBoard.Board.ToObject | engine/src/ConquidBoard.ts:134-143 | a valid board yields a well-formed plain object |
| ConquidBoard.Board.Clone | engine/src/ConquidBoard.ts:145-150 | a fresh board with the same contents |
| ConquidBoard.Board.CheckAcquire | engine/src/ConquidBoard.ts:152-166 | the outcome is `AcquireCheck` |
| ConquidBoard.Board.AcquireOne | engine/src/ConquidBoard.ts:168-172 | checks one position against count 1; on success that cell takes the player as owner, otherwise the grid is unchanged |
| ConquidBoard.Board.Acquire | engine/src/ConquidBoard.ts:174-179 | checks against `acquireCount`; on success exactly the listed cells take the player as owner, otherwise the grid is unchanged |
| ConquidBoard.Board.Conquer | engine/src/ConquidBoard.ts:181-209 | the new grid is `Conquered` from the old one; the path is kept |
| ConquidBoard.Board.CheckVanquish | engine/src/ConquidBoard.ts:211-239 | the outcome is `VanquishCheck`: the ring count, then the row-major block scan |
| ConquidBoard.CountSurrounding | engine/src/ConquidBoard.ts:212-218 | the loop's count `surrounding` is `RingCount`, the number of ring cells the player owns |
| ConquidBoard.ClearBlock | engine/src/ConquidBoard.ts:244-252 | the grid after the two loops is `Cleared`: every non-base cell of the block loses its owner, every other cell is unchanged |
| ConquidBoard.Board.Vanquish | engine/src/ConquidBoard.ts:241-253 | on a passing check the grid is `Cleared`; otherwise unchanged |
| ConquidBoard.Board.CheckConquest | engine/src/ConquidBoard.ts:255-298 | the outcome of the search as written is `ConquestCheck` |
| ConquidBoard.Board.Conquest | engine/src/ConquidBoard.ts:300-303 | on success the path is the one found; on failure the path is unchanged; the grid is never changed |
| BoardHistorySlice.InitialState | client/src/slices/boardHistorySlice.ts:41-48 | the initial state satisfies the slice invariant |
| BoardHistorySlice.IndexOf | client/src/slices/boardHistorySlice.ts:80 | the first index holding the position, or -1 iff it is absent |
| BoardHistorySlice.BasesKept | engine/src/ConquidBoard.ts:113-125 | a well-formed board whose configured bases, when numbered by player, are still as `fromConfig` made them |
| BoardHistorySlice.Inv | client/src/slices/boardHistorySlice.ts:64-172 | what every reducer keeps: every board is well-formed and, when its bases are numbered by player, keeps them as `fromConfig` made them; a pending move implies a preview, and a committable move implies a pending one; with nothing pending the preview is the last committed board; a pending acquire's cells are on the preview and not base cells, at most `acquireCount` of them (one when `acquireCount < 1`), exactly `acquireCount` when committable |
| BoardHistorySlice.MoveStepKeepsInv | client/src/slices/boardHistorySlice.ts:109-156 | each of the four move reducers keeps the slice invariant |
| BoardHistorySlice.AcquireKeepsInv | client/src/slices/boardHistorySlice.ts:109-120 | `acquire` keeps the slice invariant, base cells included: the cells it claims were neutral, hence not base cells |
| BoardHistorySlice.ConquerKeepsInv | client/src/slices/boardHistorySlice.ts:121-132 | `conquer` keeps the slice invariant, base cells included |
| BoardHistorySlice.VanquishKeepsInv | client/src/slices/boardHistorySlice.ts:133-144 | `vanquish` keeps the slice invariant, base cells included |
| BoardHistorySlice.InitDefaultBoard | client/src/slices/boardHistorySlice.ts:64-71 | `initBoard` with the default 14x28 configuration keeps the slice invariant and leaves a preview with that size and the default bases |
| BoardHistorySlice.DefaultConquestRejected | client/src/slices/boardHistorySlice.ts:145-156 | on a slice state whose preview is the default 14x28 board with the default bases, `conquest` always throws and leaves the state unchanged |
| BoardHistorySlice.RestoreDiscardsMove | client/src/slices/boardHistorySlice.ts:165-172 | `restore` after a move returns the state from before the move |
| BoardHistorySlice.AcquireOneKeepsInv | client/src/slices/boardHistorySlice.ts:88-108 | `acquireOne` keeps the invariant: at most `acquireCount` cells pending (one when `acquireCount < 1`), none of them a base cell, committable only with exactly that many |
| BoardHistorySlice.UnacquireOneKeepsInv | client/src/slices/boardHistorySlice.ts:72-87 | `unacquireOne` keeps the invariant: the cell it clears is pending, hence not a base cell, so the bases stay intact |
| BoardHistorySlice.AcquireOneUndone | client/src/slices/boardHistorySlice.ts:72-108 | `unacquireOne` of a newly selected cell restores the preview and the earlier selection, and clears `canCommit` |
| BoardHistorySlice.RestoreAfterCommit | client/src/slices/boardHistorySlice.ts:157-172 | `commit` keeps the invariant, and a `restore` right after it changes nothing |
| BoardHistorySlice.AcquireUndoGrid | client/src/slices/boardHistorySlice.ts:84-101 | giving a cell that passed the acquire check to a player and then writing owner 0 into it gives back the grid |
| BoardHistorySlice.DropAppended | client/src/slices/boardHistorySlice.ts:80-85 | a position appended to a list that lacks it is found at the old length, and splicing it out gives back the list |
| BoardHistorySlice.ClearOne | client/src/slices/boardHistorySlice.ts:84 | writing owner 0 into one cell is `WithOwner` of that cell with owner 0 |
| BoardHistorySlice.BoardHistory.constructor | client/src/slices/boardHistorySlice.ts:41-48 | the initial state |
| BoardHistorySlice.BoardHistory.SetPlayerIds | client/src/slices/boardHistorySlice.ts:50-52 | only `playerIds` changes, to the given list |
| BoardHistorySlice.BoardHistory.AddPlayerId | client/src/slices/boardHistorySlice.ts:53-55 | only `playerIds` changes, with the id appended |
| BoardHistorySlice.BoardHistory.ResetAll | client/src/slices/boardHistorySlice.ts:56-63 | every field back to its initial value |
| BoardHistorySlice.BoardHistory.InitBoard | client/src/slices/boardHistorySlice.ts:64-71 | a `fromConfig` board is appended to the history and becomes the preview; nothing is pending |
| BoardHistorySlice.BoardHistory.UnacquireOne | client/src/slices/boardHistorySlice.ts:72-87 | the error cases in order; on success the first matching pending cell is removed and made neutral, and the move is not committable |
| BoardHistorySlice.BoardHistory.AcquireOne | client/src/slices/boardHistorySlice.ts:88-108 | the error cases in order; on success the cell is claimed on the preview and appended to the pending acquire, which becomes committable at `acquireCount` cells |
| BoardHistorySlice.BoardHistory.Acquire | client/src/slices/boardHistorySlice.ts:109-120 | rejects when no board or a move is pending; otherwise the engine's acquire on the preview decides, and on success the move is pending and committable |
| BoardHistorySlice.BoardHistory.Conquer | client/src/slices/boardHistorySlice.ts:121-132 | the preview's grid is `Conquered` and a committable conquer move is pending |
| BoardHistorySlice.BoardHistory.Vanquish | client/src/slices/boardHistorySlice.ts:133-144 | the engine's vanquish check decides; on success the preview's grid is `Cleared` and the move is pending |
| BoardHistorySlice.BoardHistory.Conquest | client/src/slices/boardHistorySlice.ts:145-156 | the engine's conquest check decides; on success the move is pending and the preview is unchanged |
| BoardHistorySlice.BoardHistory.Commit | client/src/slices/boardHistorySlice.ts:157-164 | the preview is appended to the history; nothing is pending |
| BoardHistorySlice.BoardHistory.Restore | client/src/slices/boardHistorySlice.ts:165-172 | the preview is the last committed board; nothing is pending |
| BoardHistorySlice.BoardHistory.ExecuteMove | client/src/slices/boardHistorySlice.ts:179-196 | dispatches each known kind to its reducer's step; an unknown kind is rejected with the state unchanged |

## Left out

- `Board.check_acquire` / `BoardSpec.AcquireCheck`: `[...new Set(locs)]` merges
  only entries that are the same object. Positions here are values, so no entry is merged.
  Two distinct objects with equal coordinates count twice in the source too.
  Passing one object twice is not modelled.
- `console.log(this)` in `acquireOne` is output only and is left out.
- `clone` copies through JSON. It is modelled as a copy of the grid and path
  values, which is what the JSON round trip yields for this plain data.
- `Board.fromObject` shares the object's grid, so the engine's writes reach the slice's preview.
  The model copies the grid back into the preview after a successful engine call, which has the same effect.
  Aliasing between other objects is not modelled.
- `make2dArray` takes an initialiser callback. The model takes the initial value itself.
  Every call site passes a constant.
- BoardHistorySlice.BoardHistory.Conquest: the path the engine finds is stored
  on the temporary `Board` around the preview, not on the preview.
  So the slice's preview keeps its old path, and the model states exactly that.
- `BoardSpec.ConquestCheck`: error texts are shortened.
  The missing-base error is "Cannot find base for player", without the player number.
  The walk-back's TypeError is an `Error` with the text "Cannot read properties of null".
- `BoardSpec.BasesInside` also requires every base region to be non-empty. `fromConfig`'s loops
  (`ConquidBoard.ts:117-118`) accept an empty region and do nothing for it. Such regions are excluded
  because the model's loops over a region in `Board.FromConfig` (`for i := loc.startRow to loc.endRow + 1`,
  and likewise for columns) need a lower bound no greater than the upper one.
- `Make2dArray` and the grid use unbounded integers; JavaScript numbers are not modelled.
- The slice's async thunks (`joinGame`, `remoteCommit`), the socket, the server,
  the UI components and persistence are not part of this model.
- A reducer's `action` object is modelled as the method's parameters. The
  `api.dispatch` in `executeMove` is a direct call to the reducer method.
