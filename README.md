# Snake ("boa") engine skeleton and game tables, in Dafny

This project models the core of a grid-based snake game: the `Engine` class of
`core/engine.py` and the game tables of `core/config.py`.

**Engine (module `CoreEngine`, file `engine.dfy`).** The engine owns a grid
(the "terrarium") of integer cell codes. The engine numbers these codes itself:
NONE = 0, EATS = 1, HEAD = 2 and BODY = 3. It also holds the snake as a list of
per-segment offsets, a map of turn points, a food countdown, an eaten counter
and a step lock. The engine's operations are:

- `clear` rebuilds a `height x width` grid of NONE. It empties the snake and
  the turn-point map, zeroes the eaten counter and releases the lock.
- `start` creates a one-segment snake when there is none. Its head goes at
  row 0, column `width // 2`, and it arms the countdown with 10.
- `cell`, `eaten` and `length` are queries.
- `__check_pos` checks that a list of coordinates is on the grid and that
  each cell holds NONE or EATS.
- `move` and the four turn commands do not yet change anything observable.

The class is modelled as `CoreEngine.Engine`, with the grid as an `array2<int>`.
Before the first `clear`, the grid is Python's empty list, which is modelled as
a 0 x 0 array. A value-level picture of all the fields, `EngineState`, is given
by the ghost function `Snapshot()`. `ClearSpec` and `StartSpec` describe
`clear` and `start` on such values, and the methods are proved to follow them.

The invariant `Inv` holds after every operation:

- the lock is free and nothing has been eaten;
- the snake has at most one segment;
- the grid is either not built yet or `height x width`;
- every cell is NONE except the head's cell, which holds HEAD while the snake
  exists.

Two behaviours of Python are modelled explicitly:

- **Negative indices.** `cell` accepts negative indices, which count from the
  end. The model states the accepted range and the wrapped position.
- **IndexError.** `cell`, `start` and `__check_pos` can raise IndexError.
  Each returns a `Result` that carries it. Calling `start` before `clear`, or
  on a grid with no rows or no columns, raises after it has already armed the
  countdown, created the snake and set the head coordinates. The model keeps
  that partial update.

**Tables (module `Config`, file `config.dfy`).** This module holds:

- the ten cell-type codes 0..9 and a datatype with one value per code;
- the four groups `empty`, `boa`, `eats` and `barrier`;
- `DeathTypes = boa + barrier`;
- the arrangement selectors, the difficulty table, the cell colours and the
  win/lose codes.

These codes differ from the engine's, and the two modules do not share them.

**Python runtime (module `PyRuntime`, file `py_runtime.dfy`).** This module has
`Option`, a `Result` that carries IndexError, and the meaning of a Python list
subscript.

The code is an early skeleton of a fuller game design. Where that design and the code differ, the model follows the code:

- `clear` does not reset the food countdown or the head coordinates.
- `start` places a single head rather than an arranged body.
- `move` performs no step.

## Model

| member | source | states |
|---|---|---|
| PyRuntime.Index | core/engine.py:56-57 | A Python subscript of a list of length n is accepted exactly for -n <= i < n. The position it uses is i reduced modulo n. |
| CoreEngine.Engine.constructor | core/engine.py:17-39 | A new engine has the given size, a free lock, zero eaten and countdown, and an unbuilt (empty) grid. It has no snake, no turn points and head coordinates (0, 0). It satisfies the invariant. |
| CoreEngine.ClearSpec | core/engine.py:49-54 | From any state, clear yields a full-size height x width grid of NONE. There is no snake, the turn-point map is empty, eaten is 0 and the lock is free, so the invariant holds. Size, food countdown and head coordinates are unchanged. |
| CoreEngine.Engine.Clear | core/engine.py:49-54 | Needs no precondition. Builds a fresh grid and leaves the engine exactly as ClearSpec says, in a valid, cleared state. |
| CoreEngine.StartSpec | core/engine.py:41-47 | With a snake present, start changes nothing. Otherwise: the snake gets one segment, the countdown becomes 10 and the head is (0, width // 2). The call raises IndexError exactly when the grid has no row 0 or row 0 is too short. On success that one cell becomes HEAD and every other cell keeps its value. On error the grid is untouched. Lock, eaten and turn points never change. |
| CoreEngine.Engine.Start | core/engine.py:41-47 | The new state and the raised/not-raised outcome are exactly StartSpec of the old state. The grid array stays the same object and the invariant is kept. |
| CoreEngine.StartIdempotent | core/engine.py:41-47 | Calling start twice gives the same state as calling it once, and the second call never raises. |
| CoreEngine.StartPreservesInv | core/engine.py:41-47 | start keeps the invariant, including "the only non-NONE cell is the head's HEAD". |
| CoreEngine.StartRaisesOnlyWithoutGrid | core/engine.py:41-54 | On a valid engine with no snake, start raises exactly when the grid was never built by clear, or has zero height or zero width. |
| CoreEngine.ClearThenStart | core/engine.py:41-54 | clear followed by start on a grid with at least one cell succeeds. The result has length 1, countdown 10 and eaten 0, and satisfies the invariant. HEAD is at (0, width // 2) and NONE is everywhere else. |
| CoreEngine.Engine.Cell | core/engine.py:56-57 | Returns the stored code. For 0 <= top < rows and 0 <= left < columns it returns that cell. It raises IndexError exactly outside Python's accepted index range. Negative indices wrap. |
| CoreEngine.Engine.Eaten | core/engine.py:59-60 | On a valid engine the eaten count is 0, because only clear writes it, and clear writes 0. |
| CoreEngine.Engine.Length | core/engine.py:62-63 | The number of snake segments is at most 1, and it is 0 exactly when there is no snake. |
| CoreEngine.Engine.CheckPos | core/engine.py:90-97 | Changes nothing. On a built grid it returns true iff every coordinate is on the grid and its cell holds at most 1 (NONE or EATS); the empty list gives true. On an unbuilt grid the first coordinate decides: an empty list gives true, a first coordinate off the grid gives false, and one on the grid raises IndexError. |
| CoreEngine.Engine.FreeIsAllButHead | core/engine.py:90-97 | On a built, valid grid, a coordinate passes the check iff it is on the grid and is not the head of an existing snake. |
| CoreEngine.Engine.Move | core/engine.py:65-67 | Changes no grid cell, snake entry, counter, turn point or head coordinate. The lock is free on exit. |
| CoreEngine.Engine.TryMove | core/engine.py:103-113 | Takes the lock and releases it. Nothing else changes and the lock is free on exit. |
| CoreEngine.Engine.TurnRight | core/engine.py:69-71 | Changes no state: the method may modify nothing, and the whole snapshot is unchanged. |
| CoreEngine.Engine.TurnLeft | core/engine.py:73-75 | Changes no state. |
| CoreEngine.Engine.TurnUp | core/engine.py:77-79 | Changes no state. |
| CoreEngine.Engine.TurnDown | core/engine.py:81-83 | Changes no state. |
| CoreEngine.Engine.ChangeDirection | core/engine.py:99-101 | Changes no state. |
| Config.Code | core/config.py:59-68 | Every cell type has a code in FIELD_TYPE_NONE..FIELD_TYPE_ROCK (0..9). |
| Config.FromCode | core/config.py:59-68 | An integer names a cell type exactly when it lies in 0..9. |
| Config.CodeRoundTrip | core/config.py:59-68 | Decoding the code of a cell type gives that type back. |
| Config.FromCodeRoundTrip | core/config.py:59-68 | Every code in 0..9 decodes to a type whose code it is, so the ten codes are exactly 0..9. |
| Config.CodesDistinct | core/config.py:59-68 | Different cell types have different codes. |
| Config.GroupName | core/config.py:70-73 | Each group is named by one of the four group-name constants. |
| Config.GroupNamesDistinct | core/config.py:70-80 | Different groups have different names, so the group dictionary has four keys. |
| Config.AreaTypes | core/config.py:75-80 | `empty` holds exactly code 0, `eats` exactly codes 1..5, `boa` exactly {6, 7} (HEAD, BODY) and `barrier` exactly {8, 9} (HOLE, ROCK). |
| Config.AreaTypesPartition | core/config.py:75-80 | Every cell type lies in some group, and in only one: the groups are pairwise disjoint and cover all ten types. |
| Config.DeathTypesExact | core/config.py:82 | DeathTypes is exactly boa together with barrier, which is codes {6, 7, 8, 9}. It contains neither the empty type nor any food type. |
| Config.ArrangeTypesExact | core/config.py:84-86 | There are exactly two arrangement selectors, HELIX = 0 and ZIGZAG = 1, and they are distinct. |
| Config.DifficultysWellFormed | core/config.py:8-57 | The difficulty table has exactly the keys 1..5. Every entry has a positive initial speed of at least MinSpeed (100) and a positive barrier count. |
| Config.ColorsComplete | core/config.py:88-99 | Every one of the ten cell types has a colour, and only BODY's colour is a two-colour gradient. |
| Config.GameOverCodesDistinct | core/config.py:103-104 | WIN_CODE and LOSE_CODE differ. |

## Left out

- The busy-wait `while self.__locked: pass` in `__try_move` is left out. Its
  purpose is mutual exclusion between threads, which is not modelled.
  Sequentially the lock is always free on entry (it is part of the
  invariant), so the loop never runs. The model keeps only that the lock is
  taken and is free on exit.
- `__calc_pos` is left out. Its body is `pass`, so it returns `None`, and
  nothing calls it.
- `StopGameException` is left out because nothing raises it.
- `import random` is left out because nothing uses it.
- The snake's offset list has no effect yet. `start` stores `[1, 0]` as the
  head's offset, and the model keeps it as data.
- Width and height are modelled as natural numbers. The engine with a negative
  size, where Python would build no rows, is not modelled.
- `Config`'s display-only and UI values are left out: the icon, the window
  title, the save-file names, `NoAutosave`, the timer and acceleration
  settings (`Accelerator` is a floating-point factor) and the board size.
  Also left out are the win/lose gradient colours, the sparkle-algorithm
  selectors and `EatsRaiseInterval` (15). The engine uses its own interval,
  10, and none of these values is used by the engine.
- `core/game.py` (the Qt window, painting, timers and key handling) and
  `snake.py` (argument parsing and launch) are not part of this model.
- Turn propagation, collision and win detection, growth, food and barrier
  placement, the helix/zigzag arrangements and save/load are not part of
  this model. None of them exists in the modelled source.
