/** The console cell by cell, and as it is read: the low byte of a cell is a character, the high byte its colours. */
module ConsoleCells {
  import opened Common
  import opened ConsoleSpec
  import opened ConsoleTheorems
  import opened ConsoleLayout

  const SPACE_CHAR: Word := 32

  // The cell shows this character: white on black, unless its colours come with it.
  ghost predicate Reads(cell: Half, c: Word) {
    cell % 0x100 == c % 0x100 && cell / 0x100 == if c <= 0xff then 7 else c / 0x100 % 0x100
  }

  // A number by its two low bytes.
  lemma LowBytes(c: nat)
    ensures c % 0x1_0000 == c / 0x100 % 0x100 * 0x100 + c % 0x100
  {
    var h, m, l := c / 0x1_0000, c / 0x100 % 0x100, c % 0x100;
    assert c == h * 0x1_0000 + (m * 0x100 + l);
  }

  lemma TwoBytes(cell: Half, m: nat, l: nat)
    requires cell == m * 0x100 + l && l < 0x100
    ensures cell % 0x100 == l && cell / 0x100 == m
  {}

  lemma ShownReads(c: Word)
    ensures Reads(Shown(c), c)
  {
    if c > 0xff {
      LowBytes(c);
      TwoBytes(Shown(c), c / 0x100 % 0x100, c % 0x100);
    } else {
      TwoBytes(Shown(c), 7, c);
    }
  }

  lemma BlankReads()
    ensures Reads(BLANK, SPACE_CHAR)
  {}

  // The row on which the next output goes.
  function OutputRow(s: Screen): int { if s.y > s.maxY then s.maxY else s.y }

  // Output shows exactly this character at the cursor, and the cursor goes on.
  lemma PutReads(s: Screen, c: Word)
    requires Sane(s) && c % 0x100 != NEWLINE && c % 0x100 != RETURN
    ensures var r := PutChar(s, c);
      && Reads(r.grid[OutputRow(s)][s.x], c)
      && (s.x < s.maxX ==> r.x == s.x + 1 && r.y == OutputRow(s))
      && (s.x == s.maxX ==> r.x == s.minX && r.y == OutputRow(s) + 1)
  {
    ShownReads(c);
  }

  // Where nothing scrolls, no other cell changes.
  lemma PutElsewhere(s: Screen, c: Word, y: nat, x: nat)
    requires Sane(s) && s.y <= s.maxY && c % 0x100 != NEWLINE && c % 0x100 != RETURN
    requires y < SCREEN_Y_SIZE && x < SCREEN_X_SIZE && (y != s.y || x != s.x)
    ensures PutChar(s, c).grid[y][x] == s.grid[y][x]
  {}

  // A newline leaves spaces from the cursor to the end of its row.
  lemma NewlineReads(s: Screen, c: Word, x: nat)
    requires Sane(s) && c % 0x100 == NEWLINE && s.x <= x <= s.maxX
    ensures Reads(PutChar(s, c).grid[OutputRow(s)][x], SPACE_CHAR)
  {
    BlankReads();
  }

  // A cleared region is full of spaces.
  lemma ClearReads(s: Screen, y: nat, x: nat)
    requires Sane(s) && s.minY <= y <= s.maxY && s.minX <= x <= s.maxX
    ensures Reads(Clear(s).grid[y][x], SPACE_CHAR)
  {
    BlankReads();
    ClearFromIs(s, s.minY, y);
    assert Clear(s).grid[y][x] == Inner(Clear(s), y)[x - s.minX];
  }

  // Scrolling moves every cell up; from below come spaces.
  lemma ScrollReads(s: Screen, lines: Word, y: nat, x: nat)
    requires Sane(s) && s.minY <= y <= s.maxY && s.minX <= x <= s.maxX
    ensures var cell := Scroll(s, lines).grid[y][x];
      if y + lines <= s.maxY then cell == s.grid[y + lines][x] else Reads(cell, SPACE_CHAR)
  {
    BlankReads();
    ScrollIs(s, lines);
    var r, k := Scroll(s, lines), y - s.minY;
    var n := Least(lines, s.Height());
    assert r.grid[y][x] == Region(r)[k][x - s.minX];
    assert Region(r)[k] == (Region(s)[n..] + BlankRows(s.Width(), n))[k];
  }

  // Bounds.

  function Distance(a: int, b: int): nat { if a < b then b - a else a - b }

  // r is the value between lo and hi that is nearest to v.
  ghost predicate Nearest(v: int, lo: int, hi: int, r: int) {
    lo <= r <= hi && forall k | lo <= k <= hi :: Distance(v, r) <= Distance(v, k)
  }

  // Each corner is the place nearest to what is asked for, on the screen and not before the
  // top left; the cursor goes there, and what is on the screen stays.
  lemma SetScrollNearest(s: Screen, minX: Word, minY: Word, maxX: Word, maxY: Word)
    requires Sane(s)
    ensures var r := SetScroll(s, minX, minY, maxX, maxY);
      && Nearest(minX, 0, 79, r.minX) && Nearest(minY, 0, 24, r.minY)
      && Nearest(maxX, r.minX, 79, r.maxX) && Nearest(maxY, r.minY, 24, r.maxY)
      && r.x == r.minX && r.y == r.minY && r.grid == s.grid
  {}

  // The region that _init sets up: all but the first seven rows.
  lemma InitRegion(s: Screen)
    requires Sane(s)
    ensures SetScroll(s, 0, 7, 99, 99) == Screen(s.grid, 0, 7, 79, 24, 0, 7)
  {}

  // The cursor goes to the place in the region nearest to the one asked for, as long as the
  // sums do not wrap.
  lemma MoveToNearest(s: Screen, x: Word, y: Word)
    requires Sane(s) && x + s.minX < 0x1_0000_0000 && y + s.minY < 0x1_0000_0000
    ensures var r := MoveTo(s, x, y);
      && Nearest(x + s.minX, s.minX, s.maxX, r.x) && Nearest(y + s.minY, s.minY, s.maxY, r.y)
      && r == s.(x := r.x, y := r.y)
  {}

  // Text.

  lemma DressedReads(line: Text, width: nat, j: nat)
    requires |line| <= width && j < width
    ensures Reads(Dressed(line, width)[j], if j < |line| then line[j] else SPACE_CHAR)
  {
    if j < |line| {
      ShownReads(line[j]);
    } else {
      BlankReads();
    }
  }

  // With row `top` of the rows at the top of the region, place j of its row k shows a
  // character of the row, or a space behind it.
  ghost predicate PlaceReads(t: Screen, rows: seq<Text>, top: nat, k: nat, j: nat)
    requires Sane(t) && k < t.Height() && j < t.Width()
  {
    var line := if top + k < |rows| then rows[top + k] else [];
    Reads(t.grid[t.minY + k][t.minX + j], if j < |line| then line[j] else SPACE_CHAR)
  }

  lemma RowReads(t: Screen, rows: seq<Text>, top: nat, k: nat, j: nat)
    requires Sane(t) && k < t.Height() && j < t.Width() && RowShows(t, rows, top, k)
    ensures PlaceReads(t, rows, top, k, j)
  {
    DressedReads(Line(rows, top + k), t.Width(), j);
    assert t.grid[t.minY + k][t.minX + j] == Region(t)[k][j];
  }

  // The last rows of the sheet, of which one that nothing has happened on yet is not counted,
  // can be read in the region, and the cursor is in the last of them.
  ghost predicate ReadsEnd(t: Screen, s: Sheet)
    requires Sane(t) && s.rows != []
  {
    var used := if s.started then |s.rows| else |s.rows| - 1;
    var top := if used <= t.Height() then 0 else used - t.Height();
    && t.y - t.minY == |s.rows| - 1 - top && t.x - t.minX == s.x
    && forall k, j | 0 <= k < t.Height() && 0 <= j < t.Width() :: PlaceReads(t, s.rows, top, k, j)
  }

  lemma ShownEndReads(t: Screen, s: Sheet)
    requires Sane(t) && s.rows != [] && ShowsEnd(t, s)
    ensures ReadsEnd(t, s)
  {
    var top := if Used(s) <= t.Height() then 0 else Used(s) - t.Height();
    forall k, j | 0 <= k < t.Height() && 0 <= j < t.Width()
      ensures PlaceReads(t, s.rows, top, k, j)
    {
      RowReads(t, s.rows, top, k, j);
    }
  }

  // From a cleared region with the cursor at its top left, text of any length can be read in
  // the region, character by character, as it is laid out without any terminal.
  lemma WindowShowsText(s: Screen, text: Text)
    requires Sane(s)
    requires Region(s) == BlankRows(s.Width(), s.Height()) && s.x == s.minX && s.y == s.minY
    ensures ReadsEnd(PutText(s, text), Layout(text, s.Width())) && SameOutside(s, PutText(s, text))
  {
    WindowShowsRows(s, text);
    ShownEndReads(PutText(s, text), Layout(text, s.Width()));
  }
}
