/** The display loop of the slideshow (the main procedure of show.py): keyboard events
    change the timing state and move the archive cursor, and once per pass the loop
    either shows a manually selected photo or lets the timer advance. */
module Controller {
  import opened Photos
  import opened Cursors
  import opened Archive
  import opened Speed

  datatype Option<T> = None | Some(value: T)

  /** The keys the loop tells apart; any other key is `OtherKey`. */
  datatype Key = Escape | Space | KeyP | Right | Left | Period | Greater | Comma | Less | KeyB | KeyS | OtherKey(code: int)

  /** An input event: the window's quit signal, a key press, or anything else. */
  datatype Event = Quit | KeyDown(key: Key) | OtherEvent

  /** What the last redraw left on the screen. */
  datatype Screen =
    | Message(text: string)
    | Showing(photo: Photo, pausedNote: bool)
    | UsageHelp
    | NothingFound

  /** The state of the loop: its timing variables, the photo chosen by the last move,
      the archive cursor and the screen. */
  datatype Loop = Loop(
    sleepTime: int,
    nextTime: int,
    paused: bool,
    blankedOut: bool,
    oldBrightness: int,
    changed: bool,
    nextPhoto: Option<Photo>,
    exited: bool,
    cursor: int,
    screen: Screen)

  /** The quit signal and the Escape key end the program. */
  predicate IsExit(e: Event)
  {
    e == Quit || e == KeyDown(Escape)
  }

  /** Whether the rest of the pending events are skipped after `e`: the program has
      ended, or there are no photos at all. */
  predicate Stops(e: Event, m: int)
  {
    IsExit(e) || m == 0
  }

  /** The sleep interval stays on the grid, the cursor indexes the archive, and a
      pending change has a photo to show. */
  predicate LoopInv(s: Loop, m: int)
  {
    && OnGrid(s.sleepTime)
    && (m > 0 ==> 0 <= s.cursor < m)
    && (s.changed ==> s.nextPhoto.Some?)
    && (m == 0 ==> !s.changed)
  }

  /** One input event, handled against the archive contents `history` whose oldest
      retained slot is `tail`, at clock reading `now` with display brightness
      `brightness`. */
  function OnEvent(s: Loop, e: Event, now: int, brightness: int, history: seq<Photo>, tail: int): (r: Loop)
    requires LoopInv(s, |history|)
    ensures LoopInv(r, |history|)
    ensures r.exited <==> s.exited || IsExit(e)
    ensures !IsExit(e) && (!e.KeyDown? || |history| == 0) ==> r == s
    ensures r.sleepTime != s.sleepTime ==> e.KeyDown? && e.key in {Period, Greater, Comma, Less} && !s.blankedOut
  {
    if IsExit(e) then s.(exited := true)
    else if |history| == 0 then s
    else if s.blankedOut && e.KeyDown? then s.(blankedOut := false)
    else if !e.KeyDown? then s
    else OnKey(s, e.key, now, brightness, history, tail)
  }

  /** A key press other than Escape while the screen is not blanked and there are photos.
      Escape never reaches here: it ends the program first. */
  function OnKey(s: Loop, k: Key, now: int, brightness: int, history: seq<Photo>, tail: int): (r: Loop)
    requires LoopInv(s, |history|) && |history| > 0 && k != Escape
    ensures LoopInv(r, |history|)
    ensures r.exited == s.exited
    // Which keys may change which part of the state; every other part is left alone.
    ensures r.sleepTime != s.sleepTime ==> k in {Period, Greater, Comma, Less}
    ensures r.screen != s.screen ==> k in {Space, KeyP, Period, Greater, Comma, Less} || k.OtherKey?
    ensures k in {Space, KeyP} && s.paused ==> r.screen == s.screen
    ensures r.nextTime != s.nextTime ==> k.OtherKey?
    ensures r.cursor != s.cursor || r.changed != s.changed || r.nextPhoto != s.nextPhoto ==> k in {Right, Left}
    ensures r.paused != s.paused ==> k in {Space, KeyP}
    ensures r.blankedOut != s.blankedOut || r.oldBrightness != s.oldBrightness ==> k in {KeyB, KeyS}
    // Space and P toggle the pause; pausing redraws the current photo with the note.
    ensures k in {Space, KeyP} ==>
      && r.paused == !s.paused && r.cursor == s.cursor && r.changed == s.changed
      && (!s.paused ==> r.screen == Showing(history[s.cursor], true))
    // Right moves the cursor forward and leaves the photo there pending.
    ensures k == Right ==>
      && r.cursor == NextSlot(s.cursor, |history|) && r.changed && r.nextPhoto == Some(history[r.cursor])
      && r.paused == s.paused && r.nextTime == s.nextTime
    // Left moves the cursor back, staying put at the tail, and leaves the photo there pending.
    ensures k == Left ==>
      && r.cursor == PrevSlot(s.cursor, tail, |history|) && (s.cursor == tail ==> r.cursor == s.cursor)
      && r.changed && r.nextPhoto == Some(history[r.cursor])
      && r.paused == s.paused && r.nextTime == s.nextTime
    // The speed keys step the interval and redraw the current photo without the paused note.
    ensures k in {Period, Greater} ==>
      && r.sleepTime == SpeedUp(s.sleepTime) && r.cursor == s.cursor && r.nextTime == s.nextTime
      && r.changed == s.changed && r.screen == Showing(history[s.cursor], false)
    ensures k in {Comma, Less} ==>
      && r.sleepTime == SlowDown(s.sleepTime) && r.cursor == s.cursor && r.nextTime == s.nextTime
      && r.changed == s.changed && r.screen == Showing(history[s.cursor], false)
    // B and S blank the screen and save the brightness read from the display.
    ensures k in {KeyB, KeyS} ==>
      && r.blankedOut && r.oldBrightness == brightness
      && r.cursor == s.cursor && r.paused == s.paused && r.screen == s.screen
    // Any other key puts up the usage image and holds off the timer for the usage time.
    ensures k.OtherKey? ==>
      && r.screen == UsageHelp && r.nextTime == now + DefaultUsageTime
      && r.cursor == s.cursor && r.paused == s.paused && r.changed == s.changed
  {
    match k
    case Space | KeyP =>
      if s.paused then s.(paused := false)
      else s.(paused := true, screen := Showing(history[s.cursor], true))
    case Right =>
      var c := NextSlot(s.cursor, |history|);
      s.(cursor := c, nextPhoto := Some(history[c]), changed := true)
    case Left =>
      var c := PrevSlot(s.cursor, tail, |history|);
      s.(cursor := c, nextPhoto := Some(history[c]), changed := true)
    case Period | Greater =>
      s.(sleepTime := SpeedUp(s.sleepTime), screen := Showing(history[s.cursor], false))
    case Comma | Less =>
      s.(sleepTime := SlowDown(s.sleepTime), screen := Showing(history[s.cursor], false))
    case KeyB | KeyS =>
      s.(blankedOut := true, oldBrightness := brightness)
    case _ =>
      s.(screen := UsageHelp, nextTime := now + DefaultUsageTime)
  }

  /** The pending events of one pass, handled in order up to the first that stops the
      pass. */
  function OnEvents(s: Loop, es: seq<Event>, now: int, brightness: int, history: seq<Photo>, tail: int): (r: Loop)
    requires LoopInv(s, |history|)
    ensures LoopInv(r, |history|)
    decreases |es|
  {
    if es == [] then s
    else
      var s' := OnEvent(s, es[0], now, brightness, history, tail);
      if Stops(es[0], |history|) then s' else OnEvents(s', es[1..], now, brightness, history, tail)
  }

  /** The end of one pass: with no photos the "nothing found" image; otherwise a
      pending manual move is shown (with the paused note when paused) and the timer
      restarted, or, when playing, not blanked and past the scheduled time, the
      archive advances and the timer restarts. */
  function OnTick(s: Loop, now: int, history: seq<Photo>): (r: Loop)
    requires LoopInv(s, |history|)
    ensures LoopInv(r, |history|)
    ensures !r.changed && r.sleepTime == s.sleepTime
    ensures r.paused == s.paused && r.blankedOut == s.blankedOut
    ensures r.oldBrightness == s.oldBrightness && r.exited == s.exited
    ensures r.cursor != s.cursor ==> !s.changed && !s.paused && !s.blankedOut && s.nextTime < now
    // The timer-driven advance shows the photo under the advanced cursor and reschedules.
    ensures |history| > 0 && !s.changed && !s.paused && !s.blankedOut && s.nextTime < now ==>
      && r.cursor == NextSlot(s.cursor, |history|) && r.nextPhoto == Some(history[r.cursor])
      && r.screen == Showing(history[r.cursor], false) && r.nextTime == now + s.sleepTime
  {
    if |history| == 0 then s.(screen := NothingFound, nextTime := now + DefaultUsageTime)
    else if s.changed then
      s.(screen := Showing(s.nextPhoto.value, s.paused), nextTime := now + s.sleepTime, changed := false)
    else if !s.paused && !s.blankedOut && s.nextTime < now then
      var c := NextSlot(s.cursor, |history|);
      s.(cursor := c, nextPhoto := Some(history[c]), screen := Showing(history[c], false), nextTime := now + s.sleepTime)
    else s
  }

  /** One pass of the main loop: the pending events, then, unless the program has
      ended, the change- or timer-driven redraw. */
  function OnPass(s: Loop, es: seq<Event>, now: int, brightness: int, history: seq<Photo>, tail: int): (r: Loop)
    requires LoopInv(s, |history|)
    ensures LoopInv(r, |history|)
  {
    var s' := OnEvents(s, es, now, brightness, history, tail);
    if s'.exited then s' else OnTick(s', now, history)
  }

  /** While blanked, any key other than Escape only lifts the blanking: the pause
      state, the cursor, the interval and the screen are untouched. */
  lemma BlankedKeyOnlyUnblanks(s: Loop, k: Key, now: int, brightness: int, history: seq<Photo>, tail: int)
    requires LoopInv(s, |history|) && |history| > 0 && s.blankedOut && k != Escape
    ensures OnEvent(s, KeyDown(k), now, brightness, history, tail) == s.(blankedOut := false)
  {
  }

  /** Space and P toggle the pause state, so two presses restore it; neither press
      moves the cursor or changes the interval. */
  lemma PauseToggles(s: Loop, k: Key, now: int, brightness: int, history: seq<Photo>, tail: int)
    requires LoopInv(s, |history|) && |history| > 0 && !s.blankedOut && k in {Space, KeyP}
    ensures var r := OnEvent(s, KeyDown(k), now, brightness, history, tail);
      && r.paused == !s.paused && r.cursor == s.cursor && r.sleepTime == s.sleepTime
      && OnEvent(r, KeyDown(k), now, brightness, history, tail).paused == s.paused
  {
  }

  /** Right then Left comes back to the photo the pass started on, unless the forward
      move landed on the oldest slot; both moves leave a pending change. */
  lemma RightThenLeftReturns(s: Loop, now: int, brightness: int, history: seq<Photo>, tail: int)
    requires LoopInv(s, |history|) && |history| > 0 && !s.blankedOut
    requires NextSlot(s.cursor, |history|) != tail
    ensures var r := OnEvents(s, [KeyDown(Right), KeyDown(Left)], now, brightness, history, tail);
      r.cursor == s.cursor && r.changed && r.nextPhoto == Some(history[s.cursor])
  {
    var es := [KeyDown(Right), KeyDown(Left)];
    var s1 := OnEvent(s, es[0], now, brightness, history, tail);
    assert es[1..] == [KeyDown(Left)];
    PrevUndoesNext(s.cursor, tail, |history|);
    assert OnEvents(s1, es[1..], now, brightness, history, tail) == OnEvent(s1, KeyDown(Left), now, brightness, history, tail);
  }

  /** A pending manual move is always shown, even while paused or blanked, with the
      paused note when paused; the timer restarts from now and the flag clears. */
  lemma ChangeIsShown(s: Loop, now: int, history: seq<Photo>)
    requires LoopInv(s, |history|) && |history| > 0 && s.changed
    ensures var r := OnTick(s, now, history);
      && r.screen == Showing(s.nextPhoto.value, s.paused)
      && r.nextTime == now + s.sleepTime && !r.changed && r.cursor == s.cursor
  {
  }

  /** With no pending move, the end of a pass does anything at all exactly when the
      show is playing, not blanked and past its scheduled time; it then advances the
      cursor one slot and schedules the next advance one interval from now. */
  lemma TimerAdvancesOnlyWhenDue(s: Loop, now: int, history: seq<Photo>)
    requires LoopInv(s, |history|) && |history| > 0 && !s.changed
    ensures var r := OnTick(s, now, history);
      && (r != s <==> !s.paused && !s.blankedOut && s.nextTime < now)
      && (r != s ==> r.cursor == NextSlot(s.cursor, |history|) && r.nextTime == now + s.sleepTime
                     && r.nextPhoto == Some(history[r.cursor]) && r.screen == Showing(history[r.cursor], false))
  {
    var r := OnTick(s, now, history);
    if !s.paused && !s.blankedOut && s.nextTime < now {
      assert r.nextTime != s.nextTime;
    }
  }

  /** An exit event anywhere among the pending events ends the program during the pass,
      whatever comes before it, as long as there are photos. */
  lemma {:induction false} ExitEndsPass(s: Loop, es: seq<Event>, k: nat, now: int, brightness: int, history: seq<Photo>, tail: int)
    requires LoopInv(s, |history|) && |history| > 0
    requires k < |es| && IsExit(es[k])
    ensures OnEvents(s, es, now, brightness, history, tail).exited
    decreases k
  {
    var s' := OnEvent(s, es[0], now, brightness, history, tail);
    if !Stops(es[0], |history|) {
      ExitEndsPass(s', es[1..], k - 1, now, brightness, history, tail);
    }
  }

  /** Only an exit event ends the program: a pass whose events hold none leaves it
      running. */
  lemma {:induction false} NoExitKeepsRunning(s: Loop, es: seq<Event>, now: int, brightness: int, history: seq<Photo>, tail: int)
    requires LoopInv(s, |history|) && !s.exited
    requires forall i :: 0 <= i < |es| ==> !IsExit(es[i])
    ensures !OnEvents(s, es, now, brightness, history, tail).exited
    decreases |es|
  {
    if es != [] {
      var s' := OnEvent(s, es[0], now, brightness, history, tail);
      if !Stops(es[0], |history|) {
        NoExitKeepsRunning(s', es[1..], now, brightness, history, tail);
      }
    }
  }

  /** With no photos, a pass ends with the "nothing found" image, the cursor and the
      loop variables untouched except for the rescheduled timer, unless its first event
      ended the program. */
  lemma EmptyArchivePass(s: Loop, es: seq<Event>, now: int, brightness: int, tail: int)
    requires LoopInv(s, 0) && !s.exited
    ensures var r := OnPass(s, es, now, brightness, [], tail);
      if es != [] && IsExit(es[0]) then r == s.(exited := true)
      else r == s.(screen := NothingFound, nextTime := now + DefaultUsageTime)
  {
  }

  /** The slideshow process: the archive and the loop variables of the main procedure. */
  class Slideshow {
    const books: MediaArchive
    var sleepTime: int
    var nextTime: int
    var blankedOut: bool
    var oldBrightness: int
    var paused: bool
    var changed: bool
    var nextPhoto: Option<Photo>
    var exited: bool
    ghost var screen: Screen

    /** The loop state as a value. */
    ghost function View(): Loop
      reads this, books
    {
      Loop(sleepTime, nextTime, paused, blankedOut, oldBrightness, changed, nextPhoto, exited, books.curPhoto, screen)
    }

    /** The archive is consistent, the loop invariant holds, and the program never
        appends, so the head and tail stay where loading put them. */
    ghost predicate Valid()
      reads this, books
    {
      && books.Valid()
      && LoopInv(View(), books.maxHistory)
      && books.tail == 0 && books.head == books.maxHistory - 1
    }

    /** Start-up: load the archive, show its first photo if there is one, and schedule
        the first advance one default interval after `now`. */
    constructor (filenames: seq<string>, now: int)
      ensures Valid() && fresh(books) && !exited
      ensures books.history == PhotosOf(filenames)
      ensures View() == Loop(DefaultSleepTime, now + DefaultSleepTime, false, false, 50, false, None, false, 0,
                             if |filenames| > 0 then Showing(NewPhoto(filenames[0]), false) else Message("Fetching photos..."))
    {
      screen := Message("Fetching photos...");
      books := new MediaArchive(filenames);
      new;
      if |books.history| != 0 {
        var p := books.Curr();
        screen := Showing(p, false);
      }
      sleepTime := DefaultSleepTime;
      nextTime := now + sleepTime;
      blankedOut := false;
      oldBrightness := 50;
      paused := false;
      changed := false;
      nextPhoto := None;
      exited := false;
    }

    /** Handles one input event; `stop` says whether the rest of the pending events are
        skipped. */
    method HandleEvent(e: Event, now: int, brightness: int) returns (stop: bool)
      requires Valid() && !exited
      modifies this, books`curPhoto
      ensures Valid()
      ensures stop == Stops(e, books.maxHistory)
      ensures View() == OnEvent(old(View()), e, now, brightness, books.history, books.tail)
    {
      if e == Quit {
        exited := true;
        return true;
      } else if e.KeyDown? && e.key == Escape {
        exited := true;
        return true;
      }
      if |books.history| == 0 {
        return true;
      }
      stop := false;
      if blankedOut && e.KeyDown? {
        blankedOut := false;
      } else if e.KeyDown? {
        HandleKey(e.key, now, brightness);
      }
    }

    /** Dispatches a key press other than Escape while the screen is not blanked. */
    method HandleKey(key: Key, now: int, brightness: int)
      requires Valid() && !exited && !blankedOut && key != Escape && |books.history| > 0
      modifies this, books`curPhoto
      ensures Valid()
      ensures View() == OnKey(old(View()), key, now, brightness, books.history, books.tail)
    {
      if key == Space || key == KeyP {
        if paused {
          paused := false;
        } else {
          paused := true;
          var p := books.Curr();
          screen := Showing(p, true);
        }
      } else if key == Right {
        var p := books.Next();
        nextPhoto := Some(p);
        changed := true;
      } else if key == Left {
        var p := books.Prev();
        nextPhoto := Some(p);
        changed := true;
      } else if key == Period || key == Greater {
        sleepTime := SpeedUp(sleepTime);
        var p := books.Curr();
        screen := Showing(p, false);
      } else if key == Comma || key == Less {
        sleepTime := SlowDown(sleepTime);
        var p := books.Curr();
        screen := Showing(p, false);
      } else if key == KeyB || key == KeyS {
        blankedOut := true;
        oldBrightness := brightness;
      } else {
        screen := UsageHelp;
        nextTime := now + DefaultUsageTime;
      }
    }

    /** Drains the pending events, handling them in order until one stops the pass. */
    method HandleEvents(events: seq<Event>, now: int, brightness: int)
      requires Valid() && !exited
      modifies this, books`curPhoto
      ensures Valid()
      ensures View() == OnEvents(old(View()), events, now, brightness, books.history, books.tail)
    {
      var i := 0;
      var stop := false;
      while i < |events| && !stop
        invariant 0 <= i <= |events|
        invariant Valid() && (stop || !exited)
        invariant !stop ==> OnEvents(View(), events[i..], now, brightness, books.history, books.tail)
                            == OnEvents(old(View()), events, now, brightness, books.history, books.tail)
        invariant stop ==> View() == OnEvents(old(View()), events, now, brightness, books.history, books.tail)
      {
        assert events[i..][1..] == events[i + 1..];
        stop := HandleEvent(events[i], now, brightness);
        i := i + 1;
      }
    }

    /** The redraw at the end of a pass. */
    method Tick(now: int)
      requires Valid() && !exited
      modifies this, books`curPhoto
      ensures Valid()
      ensures View() == OnTick(old(View()), now, books.history)
    {
      if |books.history| == 0 {
        screen := NothingFound;
        nextTime := now + DefaultUsageTime;
        return;
      }
      if changed {
        screen := Showing(nextPhoto.value, paused);
        nextTime := now + sleepTime;
        changed := false;
      } else if !paused && !blankedOut && nextTime < now {
        var p := books.Next();
        nextPhoto := Some(p);
        screen := Showing(p, false);
        nextTime := now + sleepTime;
      }
    }

    /** One pass of the main loop at clock reading `now`. */
    method Pass(events: seq<Event>, now: int, brightness: int)
      requires Valid() && !exited
      modifies this, books`curPhoto
      ensures Valid()
      ensures View() == OnPass(old(View()), events, now, brightness, books.history, books.tail)
    {
      HandleEvents(events, now, brightness);
      if !exited {
        Tick(now);
      }
    }
  }
}
