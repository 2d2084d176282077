# Audio-clip trainer: unlock gate, grid randomiser, recording store and playback flags

This project models the stateful core of a small browser app (`main.js`). The
app shows a colour-grid lock screen. Clicking the cells in the secret order
opens an admin screen. There the user records audio clips into two buckets,
"good" and "bad", and deletes them again. A play screen then loops over one
bucket, picking a random clip each round. The lock button stops playback and
re-randomises the grid.

Six modules, one per component:

- `Palette` (`palette.dfy`): the four colour tokens and the secret code.
- `UnlockGate` (`unlock_gate.dfy`): the cell click handler as class `Gate`.
  - The `input` array is a field.
  - A ghost click history specifies the field.
  - The `join()` comparison is modelled as written, with a `Join` function.
- `Grid` (`grid.dfy`): `randomizeGrid` and the in-place Fisher–Yates `shuffle`.
  - `BuildPool` grows the pool in a loop, as the source does.
  - `Shuffle` swaps in place over an `array`.
  - Both are proved against the specification functions `SeededPool` and `Shuffled`.
- `Recordings` (`recordings.dfy`): the `{good, bad}` store as class `Store`.
  - `Save` appends a recording (`push`).
  - `Delete` removes one by position (`splice(i, 1)`).
  - The audio blob is an opaque type.
- `Playback` (`playback.dfy`): the `playing`/`currentMode` flags as class `Session`.
  - `StartLoop` and `Lock` write the flags.
  - `LoopHead` is one check of the loop's continuation guard, followed by the pick.
  - The pure functions `Apply` and `Run` over flag-writing events specify the flags.
  - `GuardAfterRun` characterises the guard after any sequence of events.
- `Shell` (`shell.dfy`): the lock button handler. It resets the flags and
  re-randomises the grid.

Random numbers are parameters with range preconditions:

- `draws[k] < 4` is the k-th top-up colour of the pool.
- `js[i] <= i` is the swap partner of position `i` in the shuffle.
- `k < |list|` is the loop's pick. It is `0` on an empty list, because `Math.floor(Math.random() * 0)` is 0.

The model follows the code in these places:

- The lock handler (main.js:118-127) does not clear the unlock gate's pending
  input. `Shell.LockButton` states that the input is left unchanged.
- The loop guard is checked only at the loop head (main.js:89), not after every
  `await`. An iteration already past its head still announces and plays its
  pick after a lock or a mode switch. `LoopHead` promises nothing beyond the head.
- A bucket emptied while its loop runs is not treated as a stop. The pick is
  `list[0]`, which is `undefined`, and reading its name at main.js:96 throws.
  `LoopHead` returns `EmptyPick` there.
- Deleting with an index past the end is a no-op, which is what `splice` does.

## Model

| member | source | states |
|---|---|---|
| `Palette.PaletteFacts` | main.js:1-2 | The code equals the palette, the four palette tokens are pairwise distinct, and none contains a comma |
| `UnlockGate.Join` | main.js:20 | `Array.prototype.join()` with the default "," separator: the joined string starts with the first token, followed by a comma when more tokens come |
| `UnlockGate.Feed` | main.js:18-21 | One click pushes the colour, or clears the input when it reaches four. Either way the result is the old input plus the colour, or empty, and an input shorter than the code stays shorter |
| `UnlockGate.Pending` | main.js:18-21 | The pending input after any sequence of clicks from the empty start is shorter than the code |
| `UnlockGate.JoinInjective` | main.js:20 | For comma-free token sequences of equal length, the joined strings are equal iff the sequences are equal element by element |
| `UnlockGate.CodeMatches` | main.js:20 | `input.join() === CODE.join()` on four comma-free tokens is true exactly when the input equals the code in order |
| `UnlockGate.PendingIsTail` | main.js:17-22 | After any sequence of clicks, the pending input is the clicks since the last multiple of four, so it is always shorter than the code |
| `UnlockGate.UnlockIff` | main.js:17-22 | A click unlocks iff it completes a block of four clicks, counted from the start, that equals the code |
| `UnlockGate.Gate.constructor` | main.js:3 | The gate starts with an empty pending input |
| `UnlockGate.Gate.Click` | main.js:16-24 | Appends the colour and clears the input once it reaches four entries, match or not. Reports unlock exactly when those four equal the code. Keeps the input shorter than the code and equal to the pending input of the whole click history |
| `UnlockGate.CodeUnlocks` | main.js:16-24 | On a fresh gate, clicking blue, green, red, yellow unlocks |
| `UnlockGate.MismatchResets` | main.js:16-24 | On a fresh gate, clicking blue, green, red, blue does not unlock and leaves the input empty |
| `Grid.Swap` | main.js:187 | The destructuring swap exchanges positions `i` and `j` and leaves every other position as it was |
| `Grid.ShuffleFrom` | main.js:185-188 | The countdown loop from position `i` down to 1 keeps the length. Its permutation fact is `Grid.ShuffleFromPermutes` |
| `Grid.Shuffled` | main.js:184-189 | The whole shuffle of a sequence with partners `js` keeps its length. Its permutation fact is `Grid.ShuffledPermutes` |
| `Grid.SwapPermutes` | main.js:187 | The destructuring swap keeps the length and the multiset of elements |
| `Grid.ShuffleFromPermutes` | main.js:185-188 | Every tail of the shuffle loop yields a permutation of its input, for any partners with `j <= i` |
| `Grid.ShuffledPermutes` | main.js:184-189 | `shuffle` yields a permutation of its input, with the same length and the same multiset |
| `Grid.Shuffle` | main.js:184-189 | The in-place loop leaves the array equal to the specified shuffle of its old contents, and a permutation of them |
| `Grid.SeededPool` | main.js:193-201 | The pool has `max(4, cellCount)` entries. The first four are the palette in order, and each later entry is the palette colour of its draw |
| `Grid.SeededPoolCovers` | main.js:195-201 | Every pool entry is a palette colour, and every palette colour occurs in the pool |
| `Grid.ShuffledPoolCovers` | main.js:195-204 | After the shuffle, the pool still has `max(4, cellCount)` entries, all palette colours, and every colour at least once |
| `Grid.BuildPool` | main.js:193-201 | Seeding with the palette and pushing draws while the pool is shorter than the cell count yields exactly the seeded pool |
| `Grid.FewCellsMissColor` | main.js:207-210 | Fewer than four cells cannot show every palette colour |
| `Grid.RandomizeGrid` | main.js:191-211 | The applied colours are the first `cellCount` entries of the shuffled pool, all from the palette. Every colour appears iff `cellCount >= 4` |
| `Recordings.RecordingName` | main.js:44 | A recording's name is never empty: it is the name field when that is non-empty, otherwise "Untitled" |
| `Recordings.RemoveAt` | main.js:65 | `splice(i, 1)` on an in-range index drops exactly element `i` and keeps the others in order. The removed element is the only one missing from the multiset |
| `Recordings.RemoveLastUndoesAppend` | main.js:44-65 | Deleting the recording just appended restores the bucket |
| `Recordings.Store.Bucket` | main.js:47 | `recordings[mode]`: the good list for the good mode, the bad list for the bad mode |
| `Recordings.Store.constructor` | main.js:26 | Both buckets start empty |
| `Recordings.Store.Save` | main.js:42-48 | Appends `{name, blob}` at the end of the chosen bucket and leaves the other bucket unchanged |
| `Recordings.Store.Delete` | main.js:64-67 | Removes exactly element `i` of the chosen bucket, or does nothing when `i` is past the end. The other bucket is unchanged |
| `Playback.Guard` | main.js:89 | The loop's continuation guard `playing && currentMode === mode` |
| `Playback.GuardExclusive` | main.js:89 | At most one mode passes the guard at a time |
| `Playback.Apply` | main.js:82-85 | One flag write. A start on an empty bucket changes nothing. After a lock no mode passes the guard, and after a start on a non-empty bucket exactly the started mode does |
| `Playback.Run` | main.js:82-85 | The flags after a sequence of starts and locks, applied in order. Events that write nothing leave the flags as they were |
| `Playback.GuardAfterRun` | main.js:82-89 | After any sequence of starts and locks, the guard for a mode holds iff the last event that wrote the flags was a start of that mode on a non-empty bucket, or no event wrote them and the guard held before |
| `Playback.StaleGuardFails` | main.js:118-120 | After a lock or a start of another mode, the guard for a mode stays false until that mode is started again on a non-empty bucket |
| `Playback.Session.constructor` | main.js:28-29 | The flags start as not playing and no mode |
| `Playback.Session.StartLoop` | main.js:81-85 | On an empty bucket, changes neither flag and reports not started. Otherwise the guard then holds for that mode and for no other. The event history grows by this start |
| `Playback.Session.Lock` | main.js:118-120 | Afterwards the guard is false for every mode, and the event history grows by a lock |
| `Playback.Session.LoopHead` | main.js:89-91 | Leaves the loop iff the guard fails. Otherwise it yields the recording at index `k` of the bucket as it stands now, or `EmptyPick` when that bucket is empty |
| `Playback.PlaybackScenario` | main.js:78-91 | With good = chirp, tweet and bad empty: starting bad is ignored, a good loop plays chirp or tweet, a bad loop exits, and after a lock the good loop exits |
| `Playback.ModeSwitchScenario` | main.js:81-91 | After switching from good to bad, the good loop exits at its head and the bad loop plays the bad recording |
| `Shell.LockButton` | main.js:118-127 | Afterwards no mode's guard holds. The new grid has `cellCount` palette colours and shows every colour iff `cellCount >= 4`. The gate's pending input is unchanged |

## Left out

- Screens and rendering (`show`, `render`'s list building, the `modeIndicator` and `nowPlaying` texts, main.js:5-14, 56-76, 87, 93-97, 121-126) are DOM output.
- Microphone capture (`getUserMedia`, `MediaRecorder`, main.js:36-54) is a browser API. The blob it produces is the opaque type `Blob`, and `Save` models the stop handler's append.
- Audio playback and pacing (`Audio`, `waitForAudio`, `cooldown`, the 200 ms and 1000 ms pauses, main.js:93-116) are timers and asynchronous waits. The loop body after the pick is not modelled.
- Concurrency is not modelled. There is no interleaving between awaits, and no second loop started by a repeated `startLoop` while an earlier one is still running.
- Import and export (main.js:130-182) are file I/O, JSON and data-URI conversion. Import clears the store before its asynchronous refill, so it is not all-or-nothing. No round-trip is claimed.
- `Math.random` is replaced by index parameters. Nothing is claimed about distribution or uniformity.
- Writing the grid colours into the DOM cells (main.js:207-210) is modelled as the returned `grid` sequence. The click handler takes the clicked cell's colour as a parameter.
- `Playback.Session.LoopHead`: for an emptied bucket it stops at `EmptyPick`. It does not model the exception thrown at main.js:96, or the flags left set after it.
