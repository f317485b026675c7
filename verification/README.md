# ShowJPEG slideshow core, modelled in Dafny

ShowJPEG is a full-screen photo slideshow for a classroom laptop. Its core is in
`show.py`: the `MediaArchive` photo history, a circular buffer with a display cursor
and head/tail write cursors, and the main procedure's display loop, which reacts to
key presses (pause, next, previous, faster, slower, blank the screen, quit) and to a
timer that advances the slideshow.

The model has five modules:

- `Photos` (`photo.dfy`): the `Photo` record (URI, title, description, date,
  start-of-page flag) and the list of photos built from the sorted file names.
- `Cursors` (`cursors.dfy`): the index arithmetic of the buffer as pure functions.
  `NextSlot` wraps to the absolute slot 0. `PrevSlot` stops at the tail.
  `TailAfterAppend` evicts the oldest photo. Lemmas cover cycles of moves, moving back
  after moving forward, and occupancy under appends.
- `Archive` (`archive.dfy`): the class `MediaArchive`. Its fields are `history` (a
  `seq` that is reassigned slot by slot), `head`, `curPhoto`, `tail` and `maxHistory`.
  Each method is proved against the `Cursors` functions. The module also holds three
  client methods whose postconditions state concrete scenarios.
- `Speed` (`speed.dfy`): the timing constants and the two-tier speed steps. Lemmas
  show that every interval stays a positive multiple of 1500 ms.
- `Controller` (`controller.dfy`): the loop state as a value (`Loop`). Pure transition
  functions cover one event (`OnEvent`, `OnKey`), a batch of pending events
  (`OnEvents`), the end-of-pass redraw (`OnTick`) and a whole pass (`OnPass`). The
  class `Slideshow` owns the archive and the loop variables. Each of its methods
  ensures that its new `View()` equals the matching transition function applied to the
  old one. Lemmas over the transition functions state the loop's rules.

The following points of the source are kept as written:

- `next` wraps to slot 0, not to the tail. The program never appends, so its tail stays
  at 0 (`Slideshow.Valid`). In the running program, slot 0 is therefore also the
  oldest slot.
- After loading, the head sits on the last loaded photo (`max_history - 1`), not past
  it. An append right after loading therefore overwrites the last file and moves the
  tail past the first (`AppendAfterLoad`). Appends then keep at most `m - 1` photos
  retained (`AppendOccupancy`).
- The cursor can stand on the head slot: after loading, `m - 1` forward moves take the
  cursor from slot 0 to slot `m - 1`, which is where `head` points (show.py:165, 170-174).
- The timer fires only when its time is strictly past, `next_time < now` (show.py:366).
- While the archive is empty, each pass looks only at its first event (for quit or
  Escape) and drops the rest of that pass's events (show.py:278-279).
- Faster and slower presses are not inverse at 15000 ms: slower goes to 30000 ms, and
  faster comes back only to 28500 ms (`SpeedUpAfterSlowDown`).

## Model

| member | source | states |
|---|---|---|
| Photos.NewPhoto | show.py:85-90 | a new photo records its URI and has empty title, description and date and no start-of-page mark |
| Photos.PhotosOf | show.py:157-162 | one photo per file name, same count, slot i made from name i |
| Cursors.NextSlot | show.py:170-174 | the forward cursor stays in range and is (c + 1) mod m, so it wraps to the absolute slot 0 |
| Cursors.PrevSlot | show.py:185-191 | at the tail the cursor stays put; elsewhere it becomes (c - 1) mod m, so slot 0 goes back to m - 1 |
| Cursors.TailAfterAppend | show.py:202-205 | the tail moves exactly when the advanced head meets it (and the buffer has more than one slot), then to (t + 1) mod m; it stays in range |
| Cursors.NextNWraps | show.py:167-175 | n forward moves from c land on (c + n) mod m |
| Cursors.FullCycleReturns | show.py:167-175 | m forward moves return to the starting slot |
| Cursors.CycleVisitsOnce | show.py:167-175 | fewer than m forward moves never revisit a slot |
| Cursors.PrevUndoesNext | show.py:167-192 | a backward move undoes a forward move that did not land on the tail |
| Cursors.BackUndoesForward | show.py:167-192 | n backward moves undo n forward moves when none of the forward moves landed on the tail |
| Cursors.PrevAtTailStays | show.py:185-187 | any number of backward moves at the tail leaves the cursor at the tail |
| Cursors.AppendOccupancy | show.py:194-205 | each append adds one retained photo until m - 1 are retained, then evicts the oldest |
| Archive.MediaArchive.constructor | show.py:149-165 | history holds the photos of the names in order, capacity is their count, head is capacity - 1, tail and cursor are 0 |
| Archive.MediaArchive.Next | show.py:167-175 | the cursor becomes NextSlot of the old cursor, nothing else changes, and the photo there is returned |
| Archive.MediaArchive.Curr | show.py:177-180 | returns the photo under the cursor |
| Archive.MediaArchive.Prev | show.py:182-192 | the cursor becomes PrevSlot of the old cursor and the tail, nothing else changes, and the photo there is returned |
| Archive.MediaArchive.AppendToHistory | show.py:194-206 | only the old head slot is overwritten; head advances by NextSlot; tail follows TailAfterAppend |
| Archive.CycleOfThree | show.py:160-175 | with files A, B, C three forward moves return B, C, then A again |
| Archive.BackAtStart | show.py:182-187 | right after loading, backing up twice returns the first photo both times |
| Archive.AppendAfterLoad | show.py:164-205 | an append right after loading overwrites the last loaded photo and moves the tail to 1 |
| Speed.SpeedUp | show.py:309-314 | at or below 1500 ms no change; above it the interval strictly decreases but stays positive, keeps its residue mod 1500 and stays on the grid |
| Speed.SlowDown | show.py:319-323 | the interval strictly increases, keeps its residue mod 1500 and stays on the grid |
| Speed.SpeedKeysStayOnGrid | show.py:308-325 | any run of speed keys from a positive multiple of 1500 (such as the default 6000) stays a positive multiple of 1500 |
| Speed.FasterReachesFloor | show.py:309-314 | s/1500 or more faster presses bring any grid interval to exactly 1500 ms |
| Speed.TierThresholds | show.py:311-323 | the step tiers switch exactly above 30000 ms (faster) and at 15000 ms (slower) |
| Speed.SpeedUpAfterSlowDown | show.py:309-323 | faster undoes slower on the grid exactly when the interval is not 15000 ms |
| Controller.OnEvent | show.py:267-342 | one event keeps the loop invariant; it ends the program exactly on quit or Escape; an event that is neither an exit nor a key press, and any non-exit event when there are no photos, leaves the state unchanged; only an unblanked speed key changes the interval |
| Controller.OnKey | show.py:286-342 | a dispatched key keeps the loop invariant and never ends the program; Space/P toggle the pause (pausing redraws with the note); Right moves the cursor by NextSlot and Left by PrevSlot (staying at the tail), each leaving that photo pending; `.`/`>` and `,`/`<` set the interval to SpeedUp/SlowDown of the old one, keep the cursor and timer, and redraw without the note; B/S blank and save the brightness; any other key shows the usage image and sets the next time to now + 3000; each part of the state changes only under the keys that assign it (interval: speed keys; screen: pausing Space/P, speed keys, other keys; timer: other keys; cursor and pending photo: arrows; pause: Space/P; blanking and saved brightness: B/S) |
| Controller.OnEvents | show.py:267-279 | a batch of events handled up to the first one that stops the pass keeps the loop invariant |
| Controller.OnTick | show.py:344-370 | the end-of-pass redraw keeps the invariant, clears the pending change, keeps the interval, the pause and blanking flags, the saved brightness and the exit flag, and moves the cursor only when no change was pending and the show is playing, unblanked and past due; the timer advance then moves the cursor by NextSlot, shows that photo without the note, makes it the pending photo and reschedules one interval from now |
| Controller.OnPass | show.py:266-370 | a whole pass keeps the loop invariant (interval on the grid, cursor in range, pending change has a photo) |
| Controller.BlankedKeyOnlyUnblanks | show.py:281-283 | while blanked, any key but Escape only clears the blanking |
| Controller.PauseToggles | show.py:287-296 | Space or P flips the pause state without moving the cursor or changing the interval; two presses restore it |
| Controller.RightThenLeftReturns | show.py:298-306 | Right then Left returns to the starting photo (unless Right landed on the tail) and leaves a pending change |
| Controller.ChangeIsShown | show.py:355-362 | a pending move is shown even when paused (with the paused note), the timer restarts from now and the flag clears |
| Controller.TimerAdvancesOnlyWhenDue | show.py:364-370 | with no pending move the pass changes anything exactly when playing, unblanked and past due, and then advances one slot, shows the photo there and reschedules |
| Controller.ExitEndsPass | show.py:267-276 | a quit or Escape event anywhere in the batch ends the program when there are photos |
| Controller.NoExitKeepsRunning | show.py:267-276 | a batch without quit or Escape never ends the program |
| Controller.EmptyArchivePass | show.py:278-353 | with no photos a pass either exits on its first event or only shows the "nothing found" image and reschedules |
| Controller.Slideshow.constructor | show.py:247-263 | loads the archive, shows its first photo if any, sets interval 6000 ms, next time now + 6000, not paused, not blanked, no pending change |
| Controller.Slideshow.HandleEvent | show.py:267-283 | the new state is OnEvent of the old one; stop reports quit, Escape or an empty archive |
| Controller.Slideshow.HandleKey | show.py:286-342 | the new state is OnKey of the old one |
| Controller.Slideshow.HandleEvents | show.py:267-279 | the new state is OnEvents of the old one |
| Controller.Slideshow.Tick | show.py:344-370 | the new state is OnTick of the old one |
| Controller.Slideshow.Pass | show.py:266-370 | the new state is OnPass of the old one, and the invariant is kept |

## Left out

- Archive.MediaArchive.Next, Archive.MediaArchive.Prev, Archive.MediaArchive.Curr and Archive.MediaArchive.AppendToHistory require a non-empty archive. On an empty one the source raises an index error. The main procedure never calls them then (show.py:252, 278, 344).
- `Photo.show`: loading, scaling and drawing an image, which is rendering with floating point. A photo is shown in the model only as the `screen` value it leaves.
- A photo whose image cannot be loaded: the `except IOError` branch (show.py:100-104) draws nothing, and show.py:107 then reads the unbound `image`, so the source ends with an exception. The model treats every redraw as succeeding (`Showing` in `OnKey`, `OnTick` and the `Slideshow` constructor).
- `print_centered_msg`, `print_note` and `print_paused` are font rendering. Their effect is the `Message` screen and the `pausedNote` flag.
- The directory scan (`glob`, `sorted`) and the printing of file names: the archive receives the sorted names as a sequence.
- The display-brightness calls. The brightness read on B/S is a parameter and is saved in `oldBrightness`. Setting the brightness (to 0 on B/S, back on unblanking or quit) is not modelled.
- `sys.exit` becomes the `exited` flag. No method runs after it.
- The clock: `now` is a parameter. `Pass` uses one reading for the whole pass, while the source reads the clock separately at each use.
- The `while True` loop itself: `Pass` models one iteration.
- Events other than quit and key presses become `OtherEvent`, and the model ignores them as the source does.
- `MAX_HISTORY_SIZE` is declared but never used by the source, so it is not modelled. The capacity is the file count.
- `activity.py`: the desktop-shell activity, toolbar, journal and process launching. It is platform glue and is not part of this model.
