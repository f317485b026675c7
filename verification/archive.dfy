/** The photo history of the slideshow: a circular buffer over a list of photos with a
    read cursor and head/tail write cursors (the `MediaArchive` class of show.py). */
module Archive {
  import opened Photos
  import opened Cursors

  class MediaArchive {
    /** The circular buffer; its length is fixed once loaded. */
    var history: seq<Photo>
    /** The slot the next append writes. */
    var head: int
    /** The photo on display. */
    var curPhoto: int
    /** The oldest retained slot: backing up stops here. */
    var tail: int
    /** The capacity, which is the number of files found at start-up. */
    var maxHistory: int

    /** All cursors index the buffer, except that an empty archive leaves `head` at -1. */
    ghost predicate Valid()
      reads this
    {
      && maxHistory == |history|
      && (maxHistory == 0 ==> head == -1 && tail == 0 && curPhoto == 0)
      && (maxHistory > 0 ==> 0 <= head < maxHistory && 0 <= tail < maxHistory && 0 <= curPhoto < maxHistory)
    }

    /** Loads one photo per file name, in the order given (the directory scan sorts them),
        and points the cursor and tail at the first and the head at the last. */
    constructor (filenames: seq<string>)
      ensures Valid()
      ensures history == PhotosOf(filenames) && maxHistory == |filenames|
      ensures head == maxHistory - 1 && tail == 0 && curPhoto == 0
    {
      history := [];
      head := 0;
      curPhoto := 0;
      tail := 0;
      maxHistory := 0;
      new;
      var i := 0;
      while i < |filenames|
        invariant 0 <= i <= |filenames|
        invariant history == PhotosOf(filenames[..i])
        modifies this`history
      {
        assert filenames[..i + 1][..i] == filenames[..i];
        history := history + [NewPhoto(filenames[i])];
        i := i + 1;
      }
      assert filenames[..i] == filenames;
      maxHistory := |history|;
      head := maxHistory - 1;
    }

    /** Moves the cursor one slot forward, wrapping to slot 0, and returns the photo there. */
    method Next() returns (p: Photo)
      requires Valid() && maxHistory > 0
      modifies this`curPhoto
      ensures Valid()
      ensures curPhoto == NextSlot(old(curPhoto), maxHistory)
      ensures p == history[curPhoto]
    {
      var curr := curPhoto;
      curr := curr + 1;
      if curr >= maxHistory {
        curr := 0;
      }
      curPhoto := curr;
      p := history[curr];
    }

    /** The photo under the cursor. */
    method Curr() returns (p: Photo)
      requires Valid() && maxHistory > 0
      ensures p in history && p == history[curPhoto]
    {
      p := history[curPhoto];
    }

    /** Moves the cursor one slot back, unless it is at the oldest retained slot, and
        returns the photo under the cursor. */
    method Prev() returns (p: Photo)
      requires Valid() && maxHistory > 0
      modifies this`curPhoto
      ensures Valid()
      ensures curPhoto == PrevSlot(old(curPhoto), tail, maxHistory)
      ensures p == history[curPhoto]
    {
      if curPhoto == tail {
        p := history[curPhoto];
        return;
      } else {
        curPhoto := curPhoto - 1;
        if curPhoto < 0 {
          curPhoto := maxHistory - 1;
        }
      }
      p := history[curPhoto];
    }

    /** Writes `photo` at the head slot, advances the head and, when the head has caught
        up with the tail, evicts the oldest photo by advancing the tail. */
    method AppendToHistory(photo: Photo)
      requires Valid() && maxHistory > 0
      modifies this`history, this`head, this`tail
      ensures Valid()
      ensures history == old(history)[old(head) := photo]
      ensures head == NextSlot(old(head), maxHistory)
      ensures tail == TailAfterAppend(old(head), old(tail), maxHistory)
    {
      history := history[head := photo];
      head := head + 1;
      if head >= maxHistory {
        head := 0;
      }
      if head == tail {
        tail := tail + 1;
        if tail >= maxHistory {
          tail := 0;
        }
      }
    }
  }

  /** Three files loaded in order: three forward moves show the second, the third and
      then the first again. */
  method CycleOfThree(a: string, b: string, c: string) returns (seen: seq<Photo>)
    ensures seen == [NewPhoto(b), NewPhoto(c), NewPhoto(a)]
  {
    var books := new MediaArchive([a, b, c]);
    var p1 := books.Next();
    var p2 := books.Next();
    var p3 := books.Next();
    seen := [p1, p2, p3];
  }

  /** A backward move right after loading stays on the first photo: it is the oldest. */
  method BackAtStart(names: seq<string>) returns (p: Photo, q: Photo)
    requires |names| > 0
    ensures p == q == NewPhoto(names[0])
  {
    var books := new MediaArchive(names);
    p := books.Prev();
    q := books.Prev();
  }

  /** Appending right after loading overwrites the last loaded photo, because the head
      starts on the last slot, and moves the tail past the first photo. */
  method AppendAfterLoad(names: seq<string>, photo: Photo) returns (h: seq<Photo>, t: int)
    requires |names| >= 2
    ensures h == PhotosOf(names)[|names| - 1 := photo]
    ensures t == 1
  {
    var books := new MediaArchive(names);
    books.AppendToHistory(photo);
    h, t := books.history, books.tail;
  }
}
