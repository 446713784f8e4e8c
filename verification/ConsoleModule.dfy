/** The console as it runs: c_io.c on video memory and its globals, each call proved to do
    what ConsoleSpec describes. */
module ConsoleModule {
  import opened Common
  import opened ConsoleSpec

  const MAX_X := SCREEN_X_SIZE - 1
  const MAX_Y := SCREEN_Y_SIZE - 1

  class Console {
    const video: array<Half>
    var scrollMinX: nat
    var scrollMinY: nat
    var scrollMaxX: nat
    var scrollMaxY: nat
    var currX: nat
    var currY: nat

    // VIDEO_ADDR
    static function Address(x: nat, y: nat): nat { y * SCREEN_X_SIZE + x }

    ghost function Line(y: nat): (r: Row)
      reads video
      requires video.Length == SCREEN_X_SIZE * SCREEN_Y_SIZE && y < SCREEN_Y_SIZE
      ensures |r| == SCREEN_X_SIZE
    {
      video[SCREEN_X_SIZE * y..SCREEN_X_SIZE * y + SCREEN_X_SIZE]
    }

    ghost function Grid(): (g: seq<Row>)
      reads video
      requires video.Length == SCREEN_X_SIZE * SCREEN_Y_SIZE
      ensures |g| == SCREEN_Y_SIZE && forall k | 0 <= k < SCREEN_Y_SIZE :: g[k] == Line(k)
    {
      seq(SCREEN_Y_SIZE, y requires 0 <= y < SCREEN_Y_SIZE reads video => Line(y))
    }

    ghost function Abs(): Screen
      reads this, video
      requires video.Length == SCREEN_X_SIZE * SCREEN_Y_SIZE
    {
      Screen(Grid(), scrollMinX, scrollMinY, scrollMaxX, scrollMaxY, currX, currY)
    }

    ghost predicate Valid()
      reads this, video
    {
      video.Length == SCREEN_X_SIZE * SCREEN_Y_SIZE && Sane(Abs())
    }

    // c_io_init, on whatever is on the screen
    constructor (video: array<Half>)
      requires video.Length == SCREEN_X_SIZE * SCREEN_Y_SIZE
      ensures this.video == video && Valid()
      ensures Abs() == Screen(Grid(), 0, 0, MAX_X, MAX_Y, 0, 0)
    {
      this.video := video;
      scrollMinX, scrollMinY, scrollMaxX, scrollMaxY := 0, 0, MAX_X, MAX_Y;
      currX, currY := 0, 0;
    }

    // __c_putchar_at, for a cell on the screen
    method Store(x: nat, y: nat, cell: Half)
      requires Valid() && x <= MAX_X && y <= MAX_Y
      modifies video
      ensures Valid() && Abs() == old(Abs()).(grid := old(Grid())[y := Patched(old(Grid()[y]), x, [cell])])
    {
      ghost var before := Grid();
      video[Address(x, y)] := cell;
      forall k | 0 <= k < SCREEN_Y_SIZE
        ensures Line(k) == if k == y then Patched(before[y], x, [cell]) else before[k]
      {
        assert before[k] == old(Line(k));
      }
      assert Grid() == before[y := Patched(before[y], x, [cell])];
    }

    method PutCharAt(x: nat, y: nat, c: Word)
      requires Valid()
      modifies video
      ensures Valid()
      ensures Abs() == if x <= MAX_X && y <= MAX_Y
                       then old(Abs()).(grid := old(Grid())[y := Patched(old(Grid()[y]), x, [Shown(c)])])
                       else old(Abs())
    {
      if x <= MAX_X && y <= MAX_Y {
        Store(x, y, if c > 0xff then c % 0x1_0000 else c + 0x0700);
      }
    }

    // c_setscroll
    method SetScroll(minX: Word, minY: Word, maxX: Word, maxY: Word)
      requires Valid()
      modifies this
      ensures Valid() && Abs() == ConsoleSpec.SetScroll(old(Abs()), minX, minY, maxX, maxY)
    {
      scrollMinX := Bound(0, minX, MAX_X);
      scrollMinY := Bound(0, minY, MAX_Y);
      scrollMaxX := Bound(scrollMinX, maxX, MAX_X);
      scrollMaxY := Bound(scrollMinY, maxY, MAX_Y);
      currX := scrollMinX;
      currY := scrollMinY;
    }

    // c_moveto
    method MoveCursor(x: Word, y: Word)
      requires Valid()
      modifies `currX, `currY
      ensures Valid() && Abs() == MoveTo(old(Abs()), x, y)
    {
      currX := Bound(scrollMinX, Wrap(x + scrollMinX), scrollMaxX);
      currY := Bound(scrollMinY, Wrap(y + scrollMinY), scrollMaxY);
    }

    // Blanks from column x of row y to the end of the region.
    method EraseLine(x: nat, y: nat)
      requires Valid() && scrollMinX <= x && x <= scrollMaxX + 1 && y <= MAX_Y
      modifies video
      ensures Valid()
      ensures Abs() == old(Abs()).(grid := old(Grid())[y := Patched(old(Grid()[y]), x, Blanks(scrollMaxX + 1 - x))])
    {
      ghost var before, data := Abs(), Blanks(scrollMaxX + 1 - x);
      var i := x;
      assert Patched(before.grid[y], x, data[..0]) == before.grid[y];
      while i <= scrollMaxX
        invariant x <= i <= scrollMaxX + 1 && Valid()
        invariant Abs() == before.(grid := before.grid[y := Patched(before.grid[y], x, data[..i - x])])
      {
        PutCharAt(i, y, 32);
        PatchedMore(before.grid[y], x, data, i - x);
        i := i + 1;
      }
      assert data[..i - x] == data;
    }

    // The clearing loop, from row l on.
    method ClearRows(first: nat)
      requires Valid() && scrollMinY <= first <= scrollMaxY + 1
      modifies video
      ensures Valid() && Abs() == ClearFrom(old(Abs()), first)
    {
      var l := first;
      while l <= scrollMaxY
        invariant first <= l <= scrollMaxY + 1 && Valid()
        invariant ClearFrom(old(Abs()), first) == ClearFrom(Abs(), l)
      {
        EraseLine(scrollMinX, l);
        l := l + 1;
      }
    }

    // c_clearscroll
    method ClearScroll()
      requires Valid()
      modifies video
      ensures Valid() && Abs() == Clear(old(Abs()))
    {
      ClearRows(scrollMinY);
    }

    // One line of the copying loop of c_scroll, cell by cell.
    method CopyLine(source: nat, line: nat)
      requires Valid() && line <= source <= MAX_Y
      modifies video
      ensures Valid() && Abs() == WithRow(old(Abs()), line, Inner(old(Abs()), source))
    {
      ghost var before := Abs();
      ghost var data := Inner(before, source);
      var nchars := scrollMaxX - scrollMinX + 1;
      assert Patched(before.grid[line], scrollMinX, data[..0]) == before.grid[line];
      for c := 0 to nchars
        invariant Valid()
        invariant Abs() == before.(grid := before.grid[line := Patched(before.grid[line], scrollMinX, data[..c])])
      {
        CopyCell(before, data, c, source, line);
      }
      assert data[..nchars] == data;
    }

    // Cell c of a line of which the cells before are copied.
    method CopyCell(ghost before: Screen, ghost data: Row, c: nat, source: nat, line: nat)
      requires Valid() && Sane(before) && line <= source <= MAX_Y && c < |data| == scrollMaxX + 1 - scrollMinX
      requires before.minX == scrollMinX && before.maxX == scrollMaxX && data == Inner(before, source)
      requires Abs() == before.(grid := before.grid[line := Patched(before.grid[line], scrollMinX, data[..c])])
      modifies video
      ensures Valid()
      ensures Abs() == before.(grid := before.grid[line := Patched(before.grid[line], scrollMinX, data[..c + 1])])
    {
      var x := scrollMinX + c;
      var cell := Fetch(x, source);
      SourceCell(before, c, source, line);
      Store(x, line, cell);
      PatchedMore(before.grid[line], scrollMinX, data, c);
    }

    // It has not been written over, even if the lines are the same.
    static lemma SourceCell(before: Screen, c: nat, source: nat, line: nat)
      requires Sane(before) && line <= source <= MAX_Y && c < before.Width()
      ensures var data := Inner(before, source);
              var grid := before.grid[line := Patched(before.grid[line], before.minX, data[..c])];
              grid[source][before.minX + c] == data[c]
    {
      var data := Inner(before, source);
      if source == line {
        var row := before.grid[line];
        assert Patched(row, before.minX, data[..c])[before.minX + c] == row[before.minX + c];
      }
    }

    method Fetch(x: nat, y: nat) returns (cell: Half)
      requires Valid() && x <= MAX_X && y <= MAX_Y
      ensures cell == Grid()[y][x]
    {
      cell := video[Address(x, y)];
      assert cell == Line(y)[x];
    }

    static lemma PatchedMore(row: Row, at: nat, data: Row, n: nat)
      requires at + |data| <= |row| && n < |data|
      ensures Patched(Patched(row, at, data[..n]), at + n, [data[n]]) == Patched(row, at, data[..n + 1])
    {}

    // The copying loop of c_scroll, and the clearing loop behind it.
    method CopyRows(lines: nat)
      requires Valid() && lines <= scrollMaxY - scrollMinY
      modifies video
      ensures Valid() && Abs() == ScrollFrom(old(Abs()), lines, scrollMinY)
    {
      var line := scrollMinY;
      ghost var goal := ScrollFrom(Abs(), lines, line);
      assert Scrolls(Abs(), lines, line, goal);
      while line + lines <= scrollMaxY
        invariant scrollMinY <= line && line + lines <= scrollMaxY + 1 && Valid()
        invariant Scrolls(Abs(), lines, line, goal)
      {
        ScrollsStep(Abs(), lines, line, goal);
        CopyLine(line + lines, line);
        line := line + 1;
      }
      ScrollsStep(Abs(), lines, line, goal);
      ClearRows(line);
    }

    // c_scroll
    method ScrollUp(lines: Word)
      requires Valid()
      modifies this, video
      ensures Valid() && Abs() == Scroll(old(Abs()), lines)
    {
      if lines > scrollMaxY - scrollMinY {
        ClearScroll();
        currX := scrollMinX;
        currY := scrollMinY;
      } else {
        CopyRows(lines);
      }
    }

    // The delayed scroll of c_putchar.
    method MakeRoom()
      requires Valid()
      modifies this, video
      ensures Valid() && Abs() == Room(old(Abs()))
    {
      if currY > scrollMaxY {
        ScrollUp(currY - scrollMaxY);
        currY := scrollMaxY;
      }
    }

    // A newline: the rest of the line is erased.
    method EndLine()
      requires Valid() && currY <= scrollMaxY
      modifies this, video
      ensures Valid()
      ensures var s := old(Abs()); Abs() == Written(s, Blanks(s.maxX + 1 - s.x)).(x := s.minX, y := s.y + 1)
    {
      EraseLine(currX, currY);
      currX := scrollMinX;
      currY := currY + 1;
    }

    // Any other character.
    method PutPlain(c: Word)
      requires Valid() && currY <= scrollMaxY
      modifies this, video
      ensures Valid()
      ensures var s := old(Abs());
              var t := Written(s, [Shown(c)]);
              Abs() == if s.x + 1 > s.maxX then t.(x := s.minX, y := s.y + 1) else t.(x := s.x + 1)
    {
      PutCharAt(currX, currY, c);
      currX := currX + 1;
      if currX > scrollMaxX {
        currX := scrollMinX;
        currY := currY + 1;
      }
    }

    // c_putchar
    method PutCharacter(c: Word)
      requires Valid()
      modifies this, video
      ensures Valid() && Abs() == PutChar(old(Abs()), c)
    {
      MakeRoom();
      if c % 0x100 == NEWLINE {
        EndLine();
      } else if c % 0x100 == RETURN {
        currX := scrollMinX;
      } else {
        PutPlain(c);
      }
    }
  }
}
