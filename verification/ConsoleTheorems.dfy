/** The window is a terminal: it shows the end of an unbounded page that is never scrolled. */
module ConsoleTheorems {
  import opened Common
  import opened ConsoleSpec

  // Everything written since the region was set, with the cursor; the cursor may stand on
  // the row that the next output will start.
  datatype Page = Page(rows: seq<Row>, x: nat, y: nat)

  ghost predicate Wide(p: Page, width: nat, height: nat) {
    && |p.rows| >= height && (forall k | 0 <= k < |p.rows| :: |p.rows[k]| == width)
    && p.x < width && |p.rows| - height <= p.y <= |p.rows|
    && (p.y == |p.rows| ==> p.x == 0)
  }

  function BlankRows(width: nat, n: nat): (r: seq<Row>)
    ensures |r| == n
  {
    seq(n, i => Blanks(width))
  }

  function Started(p: Page, width: nat): (r: Page) {
    if p.y >= |p.rows| then p.(rows := p.rows + [Blanks(width)]) else p
  }

  function PageWritten(p: Page, data: Row): (r: Page)
    requires p.y < |p.rows| && p.x + |data| <= |p.rows[p.y]|
  {
    p.(rows := p.rows[p.y := Patched(p.rows[p.y], p.x, data)])
  }

  // Output to the page: a line that is full or ended makes the next one current.
  function PagePut(p: Page, width: nat, c: Word): (r: Page)
    requires p.x < width && p.y <= |p.rows| && forall k | 0 <= k < |p.rows| :: |p.rows[k]| == width
  {
    var q := Started(p, width);
    if c % 0x100 == NEWLINE then PageWritten(q, Blanks(width - q.x)).(x := 0, y := q.y + 1)
    else if c % 0x100 == RETURN then q.(x := 0)
    else
      var r := PageWritten(q, [Shown(c)]);
      if q.x + 1 == width then r.(x := 0, y := q.y + 1) else r.(x := q.x + 1)
  }

  // The region's rows, from the top.
  function Region(s: Screen): (r: seq<Row>)
    requires Sane(s)
    ensures |r| == s.Height()
    ensures forall k | 0 <= k < s.Height() :: r[k] == Inner(s, s.minY + k)
  {
    seq(s.Height(), k requires 0 <= k < s.Height() => Inner(s, s.minY + k))
  }

  lemma CursorApart(s: Screen, t: Screen)
    requires Sane(s) && Sane(t) && t == s.(x := t.x, y := t.y)
    ensures Region(t) == Region(s)
  {
    forall k | 0 <= k < s.Height()
      ensures Region(t)[k] == Region(s)[k]
    {
      assert Region(t)[k] == Inner(t, t.minY + k);
    }
  }

  // The window shows the last rows of the page, and the cursors agree.
  ghost predicate Shows(s: Screen, p: Page)
    requires Sane(s)
  {
    && Wide(p, s.Width(), s.Height())
    && p.x == s.x - s.minX && p.y - (|p.rows| - s.Height()) == s.y - s.minY
    && Region(s) == p.rows[|p.rows| - s.Height()..]
  }

  // The same screen outside the region, and the same region.
  ghost predicate SameOutside(s: Screen, t: Screen) {
    && Sane(s) && Sane(t) && t.minX == s.minX && t.maxX == s.maxX && t.minY == s.minY && t.maxY == s.maxY
    && forall y, x | 0 <= y < SCREEN_Y_SIZE && 0 <= x < SCREEN_X_SIZE
                     && !(s.minY <= y <= s.maxY && s.minX <= x <= s.maxX) :: t.grid[y][x] == s.grid[y][x]
  }

  lemma SameOutsideTransitive(s: Screen, t: Screen, u: Screen)
    requires SameOutside(s, t) && SameOutside(t, u)
    ensures SameOutside(s, u)
  {}

  lemma WithRowIs(s: Screen, y: nat, data: Row, k: nat)
    requires Sane(s) && s.minY <= y <= s.maxY && |data| == s.Width() && k < SCREEN_Y_SIZE
    ensures Inner(WithRow(s, y, data), k) == if k == y then data else Inner(s, k)
    ensures SameOutside(s, WithRow(s, y, data))
  {}

  lemma {:induction false} ClearFromIs(s: Screen, y: nat, k: nat)
    requires Sane(s) && s.minY <= y <= s.maxY + 1 && k < SCREEN_Y_SIZE
    ensures Inner(ClearFrom(s, y), k) == if y <= k <= s.maxY then Blanks(s.Width()) else Inner(s, k)
    ensures SameOutside(s, ClearFrom(s, y))
    decreases s.maxY + 1 - y
  {
    if y <= s.maxY {
      var t := WithRow(s, y, Blanks(s.Width()));
      WithRowIs(s, y, Blanks(s.Width()), k);
      ClearFromIs(t, y + 1, k);
      SameOutsideTransitive(s, t, ClearFrom(t, y + 1));
    }
  }

  // Row k after scrolling what is below row y.
  function Scrolled(s: Screen, lines: nat, y: nat, k: nat): Row
    requires Sane(s) && k < SCREEN_Y_SIZE
  {
    if !(y <= k <= s.maxY) then Inner(s, k)
    else if k + lines <= s.maxY then Inner(s, k + lines) else Blanks(s.Width())
  }

  // Copying one line loses nothing that is still to be copied.
  lemma ScrolledStep(s: Screen, lines: nat, y: nat, k: nat)
    requires Sane(s) && s.minY <= y && y + lines <= s.maxY && k < SCREEN_Y_SIZE
    ensures Scrolled(WithRow(s, y, Inner(s, y + lines)), lines, y + 1, k) == Scrolled(s, lines, y, k)
  {
    WithRowIs(s, y, Inner(s, y + lines), k);
    if y < k && k + lines <= s.maxY {
      WithRowIs(s, y, Inner(s, y + lines), k + lines);
    }
  }

  lemma {:induction false} ScrollFromIs(s: Screen, lines: nat, y: nat, k: nat)
    requires Sane(s) && s.minY <= y && y + lines <= s.maxY + 1 && k < SCREEN_Y_SIZE
    ensures Inner(ScrollFrom(s, lines, y), k) == Scrolled(s, lines, y, k)
    decreases s.maxY + 1 - y
  {
    if y + lines > s.maxY {
      ClearFromIs(s, y, k);
    } else {
      ScrolledStep(s, lines, y, k);
      ScrollFromIs(WithRow(s, y, Inner(s, y + lines)), lines, y + 1, k);
    }
  }

  lemma {:induction false} ScrollFromOutside(s: Screen, lines: nat, y: nat)
    requires Sane(s) && s.minY <= y && y + lines <= s.maxY + 1
    ensures SameOutside(s, ScrollFrom(s, lines, y))
    decreases s.maxY + 1 - y
  {
    if y + lines > s.maxY {
      ClearFromIs(s, y, 0);
    } else {
      var t := WithRow(s, y, Inner(s, y + lines));
      WithRowIs(s, y, Inner(s, y + lines), y);
      ScrollFromOutside(t, lines, y + 1);
      SameOutsideTransitive(s, t, ScrollFrom(t, lines, y + 1));
    }
  }

  lemma ClearIs(s: Screen)
    requires Sane(s)
    ensures Region(Clear(s)) == BlankRows(s.Width(), s.Height())
    ensures SameOutside(s, Clear(s))
  {
    forall k | 0 <= k < s.Height()
      ensures Region(Clear(s))[k] == Blanks(s.Width())
    {
      ClearFromIs(s, s.minY, s.minY + k);
    }
    ClearFromIs(s, s.minY, 0);
  }

  function Least(a: nat, b: nat): nat { if a < b then a else b }

  lemma RegionAt(s: Screen, k: nat)
    requires Sane(s) && k < s.Height()
    ensures Region(s)[k] == Inner(s, s.minY + k)
  {}

  // From the rows of the screen to those of the region.
  lemma RegionShifts(s: Screen, t: Screen, lines: nat, k: nat)
    requires Sane(s) && Sane(t) && t == s.(grid := t.grid) && k < s.Height()
    requires Inner(t, s.minY + k) == if k + lines < s.Height() then Inner(s, s.minY + k + lines) else Blanks(s.Width())
    ensures Region(t)[k] == if k + lines < s.Height() then Region(s)[k + lines] else Blanks(s.Width())
  {
    RegionAt(t, k);
    if k + lines < s.Height() {
      RegionAt(s, k + lines);
    }
  }

  lemma ScrollFewAt(s: Screen, t: Screen, lines: nat, k: nat)
    requires Sane(s) && lines < s.Height() && k < s.Height() && t == ScrollFrom(s, lines, s.minY)
    ensures Inner(t, s.minY + k) == if k + lines < s.Height() then Inner(s, s.minY + k + lines) else Blanks(s.Width())
  {
    ScrollFromIs(s, lines, s.minY, s.minY + k);
  }

  lemma RowsShifted(rows: seq<Row>, now: seq<Row>, lines: nat, width: nat)
    requires |now| == |rows| && lines < |rows|
    requires forall k | 0 <= k < |rows| :: now[k] == if k + lines < |rows| then rows[k + lines] else Blanks(width)
    ensures now == rows[lines..] + BlankRows(width, lines)
  {}

  lemma ScrollFew(s: Screen, lines: Word)
    requires Sane(s) && lines < s.Height()
    ensures Region(Scroll(s, lines)) == Region(s)[lines..] + BlankRows(s.Width(), lines)
  {
    var t := ScrollFrom(s, lines, s.minY);
    var rows, now := Region(s), Region(t);
    forall k | 0 <= k < |rows|
      ensures now[k] == if k + lines < |rows| then rows[k + lines] else Blanks(s.Width())
    {
      ScrollFewAt(s, t, lines, k);
      RegionShifts(s, t, lines, k);
    }
    RowsShifted(rows, now, lines, s.Width());
  }

  lemma ScrollIs(s: Screen, lines: Word)
    requires Sane(s)
    ensures var n := Least(lines, s.Height());
            Region(Scroll(s, lines)) == Region(s)[n..] + BlankRows(s.Width(), n)
    ensures SameOutside(s, Scroll(s, lines))
  {
    if lines >= s.Height() {
      ClearIs(s);
      CursorApart(Clear(s), Scroll(s, lines));
    } else {
      ScrollFew(s, lines);
      ScrollFromOutside(s, lines, s.minY);
    }
  }

  lemma PatchedInner(row: Row, from: nat, to: nat, at: nat, data: Row)
    requires from <= at && at + |data| <= to <= |row|
    ensures Patched(row, at, data)[from..to] == Patched(row[from..to], at - from, data)
  {}

  // Writing part of one row of the region.
  lemma WrittenIs(s: Screen, data: Row)
    requires Sane(s) && s.y <= s.maxY && s.x + |data| <= s.maxX + 1
    ensures SameOutside(s, Written(s, data))
    ensures Region(Written(s, data)) == Region(s)[s.y - s.minY := Patched(Inner(s, s.y), s.x - s.minX, data)]
  {
    var t := Written(s, data);
    PatchedInner(s.grid[s.y], s.minX, s.maxX + 1, s.x, data);
    var changed := Region(s)[s.y - s.minY := Patched(Inner(s, s.y), s.x - s.minX, data)];
    forall k | 0 <= k < s.Height()
      ensures Region(t)[k] == changed[k]
    {
      assert Region(t)[k] == Inner(t, s.minY + k);
    }
  }

  lemma WrittenShows(s: Screen, p: Page, data: Row)
    requires Sane(s) && Shows(s, p) && s.y <= s.maxY && s.x + |data| <= s.maxX + 1
    ensures p.y < |p.rows| && p.x + |data| <= |p.rows[p.y]|
    ensures Shows(Written(s, data), PageWritten(p, data))
  {
    WrittenIs(s, data);
    var base, r := |p.rows| - s.Height(), PageWritten(p, data);
    assert p.rows[p.y] == p.rows[base..][p.y - base] == Inner(s, s.y);
    assert r.rows[base..] == p.rows[base..][p.y - base := r.rows[p.y]];
  }

  // Whatever is on the screen can be taken as the page so far.
  lemma ScreenShows(s: Screen)
    requires Sane(s)
    ensures Shows(s, Page(Region(s), s.x - s.minX, s.y - s.minY))
  {}

  lemma LastRowsMove(rows: seq<Row>, height: nat, more: seq<Row>)
    requires |more| <= height <= |rows|
    ensures (rows + more)[|rows| + |more| - height..] == rows[|rows| - height..][|more|..] + more
  {}

  // Scrolling by n lines, with the cursors where they belong afterwards.
  lemma MovedShows(s: Screen, p: Page, t: Screen, q: Page, n: nat)
    requires Sane(s) && Sane(t) && Shows(s, p) && n <= s.Height() == t.Height() && s.Width() == t.Width()
    requires Region(t) == Region(s)[n..] + BlankRows(s.Width(), n)
    requires q.rows == p.rows + BlankRows(s.Width(), n)
    requires q.x == t.x - t.minX && q.y - (|q.rows| - t.Height()) == t.y - t.minY
    ensures Shows(t, q)
  {
    LastRowsMove(p.rows, s.Height(), BlankRows(s.Width(), n));
  }

  lemma RoomShows(s: Screen, p: Page)
    requires Sane(s) && Shows(s, p)
    ensures Shows(Room(s), Started(p, s.Width())) && SameOutside(s, Room(s))
  {
    if s.y > s.maxY {
      ScrollIs(s, 1);
      CursorApart(Scroll(s, 1), Room(s));
      assert BlankRows(s.Width(), 1) == [Blanks(s.Width())];
      MovedShows(s, p, Room(s), Started(p, s.Width()), 1);
    }
  }

  // Only the cursors move.
  lemma CursorShows(s: Screen, p: Page, t: Screen, q: Page)
    requires Sane(s) && Sane(t) && t == s.(x := t.x, y := t.y) && Shows(s, p)
    requires q == p.(x := q.x, y := q.y) && q.x == t.x - t.minX && q.y - p.y == t.y - s.y
    ensures Shows(t, q) && SameOutside(s, t)
  {
    CursorApart(s, t);
  }

  // A character that writes these cells and moves the cursors.
  lemma OutputShows(t: Screen, q: Page, data: Row, u: Screen, r: Page)
    requires Sane(t) && Shows(t, q) && t.y <= t.maxY && t.x + |data| <= t.maxX + 1 && Sane(u)
    requires u == Written(t, data).(x := u.x, y := u.y)
    requires q.y < |q.rows| && q.x + |data| <= |q.rows[q.y]| && r == PageWritten(q, data).(x := r.x, y := r.y)
    requires r.x == u.x - u.minX && r.y - q.y == u.y - t.y
    ensures Shows(u, r) && SameOutside(t, u)
  {
    WrittenIs(t, data);
    WrittenShows(t, q, data);
    CursorShows(Written(t, data), PageWritten(q, data), u, r);
    SameOutsideTransitive(t, Written(t, data), u);
  }

  lemma CursorOnPage(t: Screen, q: Page)
    requires Sane(t) && Shows(t, q) && t.y <= t.maxY
    ensures q.y < |q.rows| && |q.rows[q.y]| == t.Width()
  {}

  lemma PutRoomShows(t: Screen, q: Page, c: Word)
    requires Sane(t) && Shows(t, q) && t.y <= t.maxY
    ensures Shows(PutChar(t, c), PagePut(q, t.Width(), c)) && SameOutside(t, PutChar(t, c))
  {
    CursorOnPage(t, q);
    var u, r := PutChar(t, c), PagePut(q, t.Width(), c);
    if c % 0x100 == RETURN {
      CursorShows(t, q, u, r);
    } else {
      OutputShows(t, q, if c % 0x100 == NEWLINE then Blanks(t.maxX + 1 - t.x) else [Shown(c)], u, r);
    }
  }

  // The first step of every output.
  lemma PutChars(s: Screen, p: Page, c: Word)
    requires Sane(s) && Shows(s, p)
    ensures PutChar(s, c) == PutChar(Room(s), c)
    ensures PagePut(p, s.Width(), c) == PagePut(Started(p, s.Width()), s.Width(), c)
  {}

  lemma PutShows(s: Screen, p: Page, c: Word)
    requires Sane(s) && Shows(s, p)
    ensures Shows(PutChar(s, c), PagePut(p, s.Width(), c)) && SameOutside(s, PutChar(s, c))
  {
    RoomShows(s, p);
    PutRoomShows(Room(s), Started(p, s.Width()), c);
    SameOutsideTransitive(s, Room(s), PutChar(Room(s), c));
    PutChars(s, p, c);
  }

  // The other calls that change the window.
  datatype Op = Put(c: Word) | Move(x: Word, y: Word) | Erase | ScrollUp(lines: Word)

  function Do(s: Screen, op: Op): (r: Screen)
    requires Sane(s)
    ensures Sane(r)
  {
    match op
    case Put(c) => PutChar(s, c)
    case Move(x, y) => MoveTo(s, x, y)
    case Erase => Clear(s)
    case ScrollUp(lines) => Scroll(s, lines)
  }

  // A window-relative coordinate: one whose sum with the corner overflows counts as 0.
  function Coordinate(v: Word, corner: nat, size: nat): nat
    requires size > 0
  {
    if v + corner >= 0x1_0000_0000 then 0 else if v >= size then size - 1 else v
  }

  // The place and size of the region.
  datatype Frame = Frame(left: nat, top: nat, width: nat, height: nat)

  function FrameOf(s: Screen): Frame
    requires Sane(s)
  {
    Frame(s.minX, s.minY, s.Width(), s.Height())
  }

  // The same on a page seen through this frame.
  ghost function PageDo(p: Page, f: Frame, op: Op): (r: Page)
    requires Wide(p, f.width, f.height) && f.height > 0
    ensures Wide(r, f.width, f.height)
  {
    var top := |p.rows| - f.height;
    match op
    case Put(c) => PagePut(p, f.width, c)
    case Move(x, y) => p.(x := Coordinate(x, f.left, f.width), y := top + Coordinate(y, f.top, f.height))
    case Erase => p.(rows := p.rows[..top] + BlankRows(f.width, f.height))
    case ScrollUp(lines) =>
      if lines >= f.height then Page(p.rows + BlankRows(f.width, f.height), 0, |p.rows|)
      else p.(rows := p.rows + BlankRows(f.width, lines), y := p.y + lines)
  }

  lemma ScrollShows(s: Screen, p: Page, lines: Word)
    requires Sane(s) && Shows(s, p)
    ensures Shows(Scroll(s, lines), PageDo(p, FrameOf(s), ScrollUp(lines))) && SameOutside(s, Scroll(s, lines))
  {
    ScrollIs(s, lines);
    MovedShows(s, p, Scroll(s, lines), PageDo(p, FrameOf(s), ScrollUp(lines)), Least(lines, s.Height()));
  }

  lemma MoveShows(s: Screen, p: Page, x: Word, y: Word)
    requires Sane(s) && Shows(s, p)
    ensures Shows(MoveTo(s, x, y), PageDo(p, FrameOf(s), Move(x, y))) && SameOutside(s, MoveTo(s, x, y))
  {
    CursorShows(s, p, MoveTo(s, x, y), PageDo(p, FrameOf(s), Move(x, y)));
  }

  lemma EraseShows(s: Screen, p: Page)
    requires Sane(s) && Shows(s, p)
    ensures Shows(Clear(s), PageDo(p, FrameOf(s), Erase)) && SameOutside(s, Clear(s))
  {
    ClearIs(s);
    var q, top := PageDo(p, FrameOf(s), Erase), |p.rows| - s.Height();
    assert q.rows[top..] == BlankRows(s.Width(), s.Height());
  }

  lemma DoShows(s: Screen, p: Page, op: Op)
    requires Sane(s) && Shows(s, p)
    ensures Shows(Do(s, op), PageDo(p, FrameOf(s), op)) && SameOutside(s, Do(s, op))
  {
    match op
    case Put(c) => PutShows(s, p, c);
    case Move(x, y) => MoveShows(s, p, x, y);
    case Erase => EraseShows(s, p);
    case ScrollUp(lines) => ScrollShows(s, p, lines);
  }

  function DoAll(s: Screen, ops: seq<Op>): (r: Screen)
    requires Sane(s)
    ensures Sane(r)
    decreases |ops|
  {
    if ops == [] then s else DoAll(Do(s, ops[0]), ops[1..])
  }

  ghost function PageDoAll(p: Page, f: Frame, ops: seq<Op>): (r: Page)
    requires Wide(p, f.width, f.height) && f.height > 0
    ensures Wide(r, f.width, f.height)
    decreases |ops|
  {
    if ops == [] then p else PageDoAll(PageDo(p, f, ops[0]), f, ops[1..])
  }

  // After any calls at all the window shows the end of the page that they describe, and
  // nothing outside the region has changed.
  lemma {:induction false} WindowIsTerminal(s: Screen, p: Page, ops: seq<Op>)
    requires Sane(s) && Shows(s, p)
    ensures Shows(DoAll(s, ops), PageDoAll(p, FrameOf(s), ops)) && SameOutside(s, DoAll(s, ops))
    decreases |ops|
  {
    if ops != [] {
      var t := Do(s, ops[0]);
      DoShows(s, p, ops[0]);
      assert FrameOf(t) == FrameOf(s);
      WindowIsTerminal(t, PageDo(p, FrameOf(s), ops[0]), ops[1..]);
      SameOutsideTransitive(s, t, DoAll(s, ops));
    }
  }

  // So whatever is on the screen, from the window as it stands.
  lemma WindowFromAnyScreen(s: Screen, ops: seq<Op>)
    requires Sane(s)
    ensures var p := Page(Region(s), s.x - s.minX, s.y - s.minY);
            && Wide(p, s.Width(), s.Height())
            && Shows(DoAll(s, ops), PageDoAll(p, FrameOf(s), ops)) && SameOutside(s, DoAll(s, ops))
  {
    ScreenShows(s);
    WindowIsTerminal(s, Page(Region(s), s.x - s.minX, s.y - s.minY), ops);
  }
}
