/** The scrolling window of c_io.c as functions on the screen's rows and the cursor. */
module ConsoleSpec {
  import opened Common

  const SCREEN_X_SIZE := 80
  const SCREEN_Y_SIZE := 25
  const BLANK: Half := 0x0720

  type Row = seq<Half>

  // The screen, the scroll region and the cursor.
  datatype Screen = Screen(grid: seq<Row>, minX: nat, minY: nat, maxX: nat, maxY: nat, x: nat, y: nat) {
    function Width(): int { maxX - minX + 1 }
    function Height(): int { maxY - minY + 1 }
  }

  // The cursor is in the region, or waits at the left below it for the next output.
  ghost predicate Sane(s: Screen) {
    && |s.grid| == SCREEN_Y_SIZE && (forall k | 0 <= k < SCREEN_Y_SIZE :: |s.grid[k]| == SCREEN_X_SIZE)
    && s.minX <= s.x <= s.maxX < SCREEN_X_SIZE
    && s.minY <= s.maxY < SCREEN_Y_SIZE && s.minY <= s.y <= s.maxY + 1
    && (s.y == s.maxY + 1 ==> s.x == s.minX)
  }

  function Bound(min: nat, value: nat, max: nat): nat {
    var v := if value < min then min else value;
    if v > max then max else v
  }

  // What __c_putchar_at stores: a plain character is white on black.
  function Shown(c: Word): Half {
    if c > 0xff then c % 0x1_0000 else c + 0x0700
  }

  function Blanks(n: nat): (r: Row)
    ensures |r| == n
  {
    seq(n, i => BLANK)
  }

  function Patched(row: Row, at: nat, data: Row): (r: Row)
    requires at + |data| <= |row|
    ensures |r| == |row|
  {
    row[..at] + data + row[at + |data|..]
  }

  // c_setscroll
  function SetScroll(s: Screen, minX: Word, minY: Word, maxX: Word, maxY: Word): (r: Screen)
    requires |s.grid| == SCREEN_Y_SIZE && forall k | 0 <= k < SCREEN_Y_SIZE :: |s.grid[k]| == SCREEN_X_SIZE
    ensures Sane(r)
  {
    var left, top := Bound(0, minX, SCREEN_X_SIZE - 1), Bound(0, minY, SCREEN_Y_SIZE - 1);
    Screen(s.grid, left, top, Bound(left, maxX, SCREEN_X_SIZE - 1), Bound(top, maxY, SCREEN_Y_SIZE - 1), left, top)
  }

  // c_moveto: the sums are unsigned.
  function MoveTo(s: Screen, x: Word, y: Word): (r: Screen)
    requires Sane(s)
    ensures Sane(r)
  {
    s.(x := Bound(s.minX, Wrap(x + s.minX), s.maxX), y := Bound(s.minY, Wrap(y + s.minY), s.maxY))
  }

  // Row y of the region replaced.
  function WithRow(s: Screen, y: nat, data: Row): (r: Screen)
    requires Sane(s) && y < SCREEN_Y_SIZE && |data| == s.Width()
    ensures Sane(r)
  {
    s.(grid := s.grid[y := Patched(s.grid[y], s.minX, data)])
  }

  // c_clearscroll from row y on
  function ClearFrom(s: Screen, y: nat): (r: Screen)
    requires Sane(s) && y <= s.maxY + 1
    ensures Sane(r)
    ensures r == s.(grid := r.grid)
    decreases s.maxY + 1 - y
  {
    if y > s.maxY then s else ClearFrom(WithRow(s, y, Blanks(s.Width())), y + 1)
  }

  function Clear(s: Screen): (r: Screen)
    requires Sane(s)
    ensures Sane(r)
  {
    ClearFrom(s, s.minY)
  }

  // The part of row y that belongs to the region.
  function Inner(s: Screen, y: nat): (r: Row)
    requires Sane(s) && y < SCREEN_Y_SIZE
    ensures |r| == s.Width()
  {
    s.grid[y][s.minX..s.maxX + 1]
  }

  // The copying loop of c_scroll from row y on, and the clearing of what remains.
  function ScrollFrom(s: Screen, lines: nat, y: nat): (r: Screen)
    requires Sane(s) && y <= s.maxY + 1
    ensures Sane(r)
    ensures r == s.(grid := r.grid)
    decreases s.maxY + 1 - y
  {
    if y + lines > s.maxY then ClearFrom(s, y)
    else ScrollFrom(WithRow(s, y, Inner(s, y + lines)), lines, y + 1)
  }

  // The copying loop, by name.
  ghost predicate ScrollsParts(s: Screen, lines: nat, y: nat, r: Screen) {
    Sane(s) && y <= s.maxY + 1 && r == ScrollFrom(s, lines, y)
  }

  ghost predicate Scrolls(s: Screen, lines: nat, y: nat, r: Screen) {
    forall t {:trigger ScrollsParts(s, lines, y, t)} | t == r :: ScrollsParts(s, lines, y, t)
  }

  lemma ScrollsStep(s: Screen, lines: nat, y: nat, r: Screen)
    requires Sane(s) && y <= s.maxY + 1 && Scrolls(s, lines, y, r)
    ensures if y + lines > s.maxY then r == ClearFrom(s, y)
            else Scrolls(WithRow(s, y, Inner(s, y + lines)), lines, y + 1, r)
  {
    assert ScrollsParts(s, lines, y, r);
  }

  // c_scroll
  function Scroll(s: Screen, lines: Word): (r: Screen)
    requires Sane(s)
    ensures Sane(r)
  {
    if lines > s.maxY - s.minY then Clear(s).(x := s.minX, y := s.minY)
    else ScrollFrom(s, lines, s.minY)
  }

  // The delayed scroll.
  function Room(s: Screen): (r: Screen)
    requires Sane(s)
    ensures Sane(r) && r.y <= r.maxY
  {
    if s.y > s.maxY then Scroll(s, s.y - s.maxY).(y := s.maxY) else s
  }

  const NEWLINE := 10
  const RETURN := 13

  // Cells of the cursor's row replaced, from the cursor on.
  function Written(s: Screen, data: Row): (r: Screen)
    requires Sane(s) && s.y <= s.maxY && s.x + |data| <= s.maxX + 1
    ensures Sane(r)
  {
    s.(grid := s.grid[s.y := Patched(s.grid[s.y], s.x, data)])
  }

  // c_putchar
  function PutChar(s: Screen, c: Word): (r: Screen)
    requires Sane(s)
    ensures Sane(r)
  {
    var t := Room(s);
    if c % 0x100 == NEWLINE then Written(t, Blanks(t.maxX + 1 - t.x)).(x := t.minX, y := t.y + 1)
    else if c % 0x100 == RETURN then t.(x := t.minX)
    else
      var u := Written(t, [Shown(c)]);
      if t.x + 1 > t.maxX then u.(x := t.minX, y := t.y + 1) else u.(x := t.x + 1)
  }
}
