# Snake game state machine in Dafny

This project models the core of a terminal snake game written in Go with the
Bubble Tea framework. The model covers:

- the game model: phase, board, snake cells (head first), score, fruit cell,
  current direction and pending ("new") direction;
- `initialModel`, which builds the 16 × 20 board and seeds the snake and the fruit;
- the key and tick branches of `Update`;
- `updateSnake`, the engine that runs one tick of movement, eating and collision;
- `sliceContains`.

The Go model is a struct that is copied on every call. Here it becomes the
datatype `Snake.Model`. Each core Go function becomes a method with the same
loops, branches and early returns: `InitialModel`, `SliceContains`,
`UpdateSnake` and `Update`. The last two assign fields of a local copy of the
model, as the Go code does. Two specification functions, `SnakeStep` and
`Next`, state what a tick and a message do. `UpdateSnake` and `Update` are proved equal to them.

`SnakeSession.Run` feeds a sequence of messages to `Next` and stops at the first
one that quits, as the program does. It is used to state properties that hold
in every state a game can reach.

The model follows the code as written, including where it departs from its own comment at main.go:167 ("first 3") and from the usual rules of snake:

- The collision test skips two snake cells, not three. It looks at
  `snakeCells[2:]` after the tail was already dropped on a tick that does not
  eat.
- Eating appends the new head at the tail end. Index 0 does not move on an
  eating tick.
- A new fruit is never drawn on the last row or the last column.
- Space sets the phase to playing from any phase, `ended` included.
- A crashing tick still returns changes. On a tick that does not eat it keeps
  the snake without its tail cell. When the head hit the fruit it keeps the
  whole old snake with the new score and fruit.
- Snake cells need not be distinct. The seeded snake has its head at the left
  end while moving right, so the first tick puts the head on the second cell.

Both constants are as in the source: `WIDTH = 20`, `HEIGHT = 16`.

## Model

| member | source | states |
|---|---|---|
| `Snake.Advance` | main.go:140-145 | the new head is the neighbour of the old head; it stays in the same column exactly for up and down, and moves to a larger row+column sum exactly for down and right |
| `Snake.SnakeStep` | main.go:137-183 | a crash happens iff the head meets a cell from index 2 up to the end (not counting the tail when not eating) or leaves the 16 × 20 board. Score and fruit change exactly when the head reaches the fruit, and the new fruit lies in [0,15) × [0,19). A successful step gives `[head] + old[..len-1]` when not eating and `old + [head]` when eating. It leaves the head in bounds and keeps the phase. A crash sets `Ended` and keeps the old snake (without its tail when not eating). Board and directions never change |
| `Snake.UpdateSnake` | main.go:137-183 | the step-by-step engine (the loop that copies the body, the collision scan, the wall tests) returns exactly what `SnakeStep` describes |
| `Snake.SliceContains` | main.go:128-135 | returns true iff the cell occurs in the sequence. On a hit it has looked at exactly the cells up to and including the first match; on a miss it has looked at all of them |
| `Snake.InitialModel` | main.go:29-46 | phase `Starting`, score 0, snake `[(8,5),(8,6),(8,7)]`, fruit `(8,16)` not on the snake, both directions `Right`, a HEIGHT × WIDTH board of `"[]"` cells, and the live-game invariant |
| `Snake.Next` | main.go:53-95 | quit keys quit and change nothing. A direction key changes only the pending direction, and only when it is not the reverse of the current one. Space sets `Playing` whatever the phase. Other keys and messages change nothing, and only ticks touch snake, score or fruit. A tick outside play changes nothing. A tick in play runs the engine on the current direction, quits exactly on a crash, and adopts the pending direction otherwise. The score rises by at most 1. The live-game invariant is kept on every message that does not quit; a quit leaves a live or a just-crashed game |
| `Snake.Update` | main.go:53-95 | the handler's switch, assigning fields of its copy, returns exactly what `Next` describes |
| `SnakeSession.Run` | main.go:53-95 | along any sequence of messages from a live game, every state before a quit is live: not ended, `len(snake) == score + 3 >= 3`, all cells in bounds, fruit in its draw range, pending direction never the reverse of the current one, blank board. The last state of a session that quit is live or just crashed (`len(snake) == score + 2`) |
| `SnakeSession.ScoreNeverDecreases` | main.go:154-156 | the score at the end of any session is at least the score at its start |
| `SnakeSession.KeysNeverMoveTheSnake` | main.go:55-80 | a session made only of key presses leaves snake, score and fruit as they were and never crashes |
| `SnakeSession.EndedOnlyOnQuit` | main.go:82-91 | a session ends in the `Ended` phase only if it quit, and then the snake holds `score + 2` cells |
| `SnakeSession.DirectionTakesEffectNextTick` | main.go:82-90 | after a direction key during play, the next tick still moves along the old current direction: without a crash its new head (index 0 when not eating, the appended last cell when eating) is one step from the old head in the old current direction. It adopts the pending direction if it did not crash, and keeps the old current direction if it crashed |
| `SnakeSession.SpaceIsIdempotent` | main.go:78-79 | after space the phase is `Playing`, and a second space changes nothing |
| `SnakeSession.SpaceRevivesACrashedGame` | main.go:78-79 | space turns a crashed game back to `Playing`, with `score + 2` cells, one fewer than a live game of that score has |
| `SnakeSession.FirstTickOverlapsTheBody` | main.go:41-44 | from the seeded snake, set playing, the first tick gives `[(8,6),(8,5),(8,6)]` without a crash |
| `SnakeSession.TopWallCrash` | main.go:173-175 | a head at `(0,5)` moving up crashes and ends the game |
| `SnakeSession.EatingTick` | main.go:150-157 | a head at `(5,5)` moving right onto a fruit at `(5,6)`: score +1, length +1, index 0 stays `(5,5)`, `(5,6)` is added at the tail end, and the fruit becomes the drawn cell |
| `SnakeSession.NoReversal` | main.go:69-72 | with the snake moving right, a left key leaves the model unchanged |

## Left out

- `View` and the colour styling (main.go:97-126) are rendering through outside libraries. They are not modelled.
- `Init`, `tickEvery` and `main` (main.go:49-51, 186-199) are timer and runtime plumbing. They are not modelled. Neither is the time a tick message carries.
- The `tea.Cmd` results are reduced to one flag, `quit`, which is true where the source returns `tea.Quit`. Returning the next timer command and returning `nil` both count as not quitting.
- `rand.Intn` is replaced by a caller-supplied cell. Its type `FruitDraw` allows exactly the range of the two calls.
- `reflect.DeepEqual` on two-element integer slices becomes structural equality on `Cell`.
- Direction and phase strings become enumerations. So the direction switch's implicit case for an unknown direction string (the head stays where it is) cannot occur.
- Go's `int` is at least 32-bit (32 or 64 bits depending on the platform); the model's integers are unbounded. The score rises by at most one per tick, so a wrap needs at least 2^31 - 1 ticks, over six years of play at 10 ticks a second.
- Slice aliasing is not modelled, that is, `append` writing into a backing array shared with an earlier copy of the model. No later read observes it.
- `Snake.UpdateSnake`: requires at least three cells. The Go code would also run on a two-cell snake that eats. The model does not cover it, because no session reaches it.
- Messages handled after a quit are not modelled: `Run` stops at the first quit, as the program does. So a crashed game revived by space, as described by `SpaceRevivesACrashedGame`, is not part of any session. A tick that does not eat, on the two-cell snake it leaves, would index out of range in the Go code (the cut at main.go:161 leaves one cell, and `[2:]` at main.go:168 cannot slice it). A tick that eats on such a snake runs and grows it to three cells.
