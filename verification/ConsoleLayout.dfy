/** What text looks like in the window, without any terminal: its lines, wrapped, and written
    over from the start of a row by what follows a carriage return. */
module ConsoleLayout {
  import opened Common
  import opened ConsoleSpec
  import opened ConsoleTheorems

  type Text = seq<Word>

  predicate Ends(c: Word) { c % 0x100 == 10 }
  predicate Returns(c: Word) { c % 0x100 == 13 }

  // The length of the first line, and of its part in front of a carriage return.
  function LineEnd(text: Text): (n: nat)
    ensures n <= |text| && (n < |text| ==> Ends(text[n])) && forall i | 0 <= i < n :: !Ends(text[i])
  {
    if text == [] || Ends(text[0]) then 0 else 1 + LineEnd(text[1..])
  }

  function ReturnEnd(text: Text): (n: nat)
    ensures n <= |text| && (n < |text| ==> Returns(text[n])) && forall i | 0 <= i < n :: !Returns(text[i])
  {
    if text == [] || Returns(text[0]) then 0 else 1 + ReturnEnd(text[1..])
  }

  // A line in rows of the given width; one that fills its last row is followed by an empty one.
  function Chunks(line: Text, width: nat): (rows: seq<Text>)
    requires width > 0
    ensures |rows| > 0 && |rows[|rows| - 1]| < width
    ensures Narrow(rows, width)
  {
    if |line| < width then [line] else [line[..width]] + Chunks(line[width..], width)
  }

  function Last(rows: seq<Text>): Text
    requires rows != []
  {
    rows[|rows| - 1]
  }

  function Front(rows: seq<Text>): seq<Text>
    requires rows != []
  {
    rows[..|rows| - 1]
  }

  // Rows of text, the column of the cursor in the last one, and whether anything but the end
  // of the row before has happened there.
  datatype Sheet = Sheet(rows: seq<Text>, x: nat, started: bool)

  predicate Narrow(rows: seq<Text>, width: nat) {
    forall k | 0 <= k < |rows| :: |rows[k]| <= width
  }

  predicate Neat(s: Sheet, width: nat) {
    && s.rows != [] && s.x <= |Last(s.rows)| < width && (!s.started ==> Last(s.rows) == [])
    && Narrow(s.rows, width)
  }

  function Below(before: seq<Text>, s: Sheet): Sheet { s.(rows := before + s.rows) }

  lemma BelowNeat(before: seq<Text>, s: Sheet, width: nat)
    requires Narrow(before, width) && Neat(s, width)
    ensures Neat(Below(before, s), width)
    ensures Last(Below(before, s).rows) == Last(s.rows) && Front(Below(before, s).rows) == before + Front(s.rows)
  {}

  // A line written over a row.
  function Over(line: Text, under: Text): Text {
    if |line| < |under| then line + under[|line|..] else line
  }

  // These rows, on a row which holds something already.
  function Topped(under: Text, started: bool, rows: seq<Text>): Sheet
    requires rows != []
  {
    var first := |rows| == 1;
    Sheet(Front(rows) + [if first then Over(Last(rows), under) else Last(rows)], |Last(rows)|,
          (first && started) || Last(rows) != [])
  }

  lemma ToppedNeat(under: Text, started: bool, rows: seq<Text>, width: nat)
    requires rows != [] && Narrow(rows, width) && |Last(rows)| < width && |under| < width && (!started ==> under == [])
    ensures Neat(Topped(under, started, rows), width) && Narrow(Front(rows), width)
  {}

  // A line on such a row.
  function Overlaid(under: Text, started: bool, line: Text, width: nat): (s: Sheet)
    requires |under| < width && (!started ==> under == [])
    ensures Neat(s, width)
    decreases |line|
  {
    var n := ReturnEnd(line);
    var rows := Chunks(line[..n], width);
    var part := Topped(under, started, rows);
    ToppedNeat(under, started, rows, width);
    if n == |line| then part
    else
      var rest := Overlaid(Last(part.rows), true, line[n + 1..], width);
      BelowNeat(Front(rows), rest, width);
      Below(Front(rows), rest)
  }

  // The rows of a line that a newline ends: nothing remains behind the cursor.
  function Ended(s: Sheet, width: nat): (rows: seq<Text>)
    requires Neat(s, width)
    ensures Narrow(rows, width)
  {
    Front(s.rows) + [Last(s.rows)[..s.x]]
  }

  function Stacked(line: Sheet, rest: Sheet, width: nat): (s: Sheet)
    requires Neat(line, width) && Neat(rest, width)
    ensures Neat(s, width)
  {
    BelowNeat(Ended(line, width), rest, width);
    Below(Ended(line, width), rest)
  }

  function Layout(text: Text, width: nat): (s: Sheet)
    requires width > 0
    ensures Neat(s, width)
    decreases |text|
  {
    var n := LineEnd(text);
    var line := Overlaid([], false, text[..n], width);
    if n == |text| then line
    else Stacked(line, Layout(text[n + 1..], width), width)
  }

  // One more character.

  function Set(row: Text, x: nat, c: Word): Text
    requires x <= |row|
  {
    if x < |row| then row[x := c] else row + [c]
  }

  function Next(s: Sheet, c: Word, width: nat): Sheet
    requires Neat(s, width)
  {
    if Ends(c) then Sheet(Ended(s, width) + [[]], 0, false)
    else if Returns(c) then s.(x := 0, started := true)
    else
      var row := Set(Last(s.rows), s.x, c);
      if s.x + 1 == width then Sheet(Front(s.rows) + [row, []], 0, false)
      else Sheet(Front(s.rows) + [row], s.x + 1, true)
  }

  function Grown(rows: seq<Text>, c: Word, width: nat): seq<Text>
    requires rows != []
  {
    var last := Last(rows) + [c];
    Front(rows) + (if |last| == width then [last, []] else [last])
  }

  lemma {:induction false} ChunksGrow(line: Text, c: Word, width: nat)
    requires width > 0
    ensures Chunks(line + [c], width) == Grown(Chunks(line, width), c, width)
  {
    var longer := line + [c];
    if |line| < width {
      if |longer| == width {
        assert longer[..width] == longer && longer[width..] == [];
      }
    } else {
      var first, rest := line[..width], line[width..];
      assert longer[..width] == first && longer[width..] == rest + [c];
      ChunksGrow(rest, c, width);
      GrownBelow(first, Chunks(rest, width), c, width);
    }
  }

  lemma GrownBelow(first: Text, rows: seq<Text>, c: Word, width: nat)
    requires rows != []
    ensures Grown([first] + rows, c, width) == [first] + Grown(rows, c, width)
  {
    assert Last([first] + rows) == Last(rows) && Front([first] + rows) == [first] + Front(rows);
  }

  lemma {:induction false} LineEndGrows(text: Text, c: Word)
    ensures LineEnd(text + [c]) == if LineEnd(text) < |text| || Ends(c) then LineEnd(text) else |text| + 1
  {
    if text != [] && !Ends(text[0]) {
      assert (text + [c])[1..] == text[1..] + [c];
      LineEndGrows(text[1..], c);
    }
  }

  lemma {:induction false} ReturnEndGrows(text: Text, c: Word)
    ensures ReturnEnd(text + [c]) == if ReturnEnd(text) < |text| || Returns(c) then ReturnEnd(text) else |text| + 1
  {
    if text != [] && !Returns(text[0]) {
      assert (text + [c])[1..] == text[1..] + [c];
      ReturnEndGrows(text[1..], c);
    }
  }

  lemma NextBelow(before: seq<Text>, s: Sheet, c: Word, width: nat)
    requires Neat(s, width) && Narrow(before, width)
    ensures Neat(Below(before, s), width) && Next(Below(before, s), c, width) == Below(before, Next(s, c, width))
  {
    BelowNeat(before, s, width);
  }

  lemma TailGrows(text: Text, c: Word, n: nat)
    requires n < |text|
    ensures (text + [c])[..n] == text[..n] && (text + [c])[n + 1..] == text[n + 1..] + [c]
  {}

  // A line laid on a row, by name.
  ghost predicate OverlaysParts(under: Text, started: bool, line: Text, width: nat, s: Sheet) {
    |under| < width && (!started ==> under == []) && s == Overlaid(under, started, line, width)
  }

  ghost predicate Overlays(under: Text, started: bool, line: Text, width: nat, s: Sheet) {
    forall t {:trigger OverlaysParts(under, started, line, width, t)} | t == s ::
      OverlaysParts(under, started, line, width, t)
  }

  lemma OverlaysSome(under: Text, started: bool, line: Text, width: nat) returns (s: Sheet)
    requires |under| < width && (!started ==> under == [])
    ensures Neat(s, width) && Overlays(under, started, line, width, s)
  {
    s := Overlaid(under, started, line, width);
  }

  // A line with no carriage return.
  lemma OverlaysOnce(under: Text, started: bool, line: Text, width: nat)
    requires |under| < width && (!started ==> under == []) && ReturnEnd(line) == |line|
    ensures Overlays(under, started, line, width, Topped(under, started, Chunks(line, width)))
  {
    assert line[..|line|] == line;
  }

  // A line with a carriage return behind its first n characters.
  lemma OverlaysSplit(under: Text, started: bool, line: Text, width: nat, n: nat, rows: seq<Text>, rest: Text,
                      row: Text, s: Sheet)
    requires |under| < width && (!started ==> under == []) && n == ReturnEnd(line) < |line|
    requires rows == Chunks(line[..n], width) && rest == line[n + 1..]
    requires row == Last(Topped(under, started, rows).rows) && Overlays(row, true, rest, width, s)
    ensures Overlays(under, started, line, width, Below(Front(rows), s))
  {
    assert OverlaysParts(row, true, rest, width, s);
  }

  lemma OverlaysNothing(under: Text, started: bool, width: nat)
    requires |under| < width && (!started ==> under == [])
    ensures Overlays(under, started, [], width, Sheet([under], 0, started))
  {
    OverlaysOnce(under, started, [], width);
    assert Over([], under) == under && Chunks([], width) == [[]];
  }

  lemma OverSet(last: Text, under: Text, c: Word, width: nat)
    requires |last| < width && |under| < width
    ensures |last| + 1 < width ==> Over(last + [c], under) == Set(Over(last, under), |last|, c)
    ensures |last| + 1 == width ==> last + [c] == Set(Over(last, under), |last|, c)
  {}

  // The sheets before and after a character at the end of such rows.
  lemma FullTopped(under: Text, started: bool, rows: seq<Text>, c: Word, width: nat)
    requires |under| < width && (!started ==> under == []) && !Returns(c) && !Ends(c)
    requires rows != [] && Narrow(rows, width) && |Last(rows)| + 1 == width
    ensures var s := Topped(under, started, rows);
            Neat(s, width) && Next(s, c, width) == Topped(under, started, Grown(rows, c, width))
  {
    OverSet(Last(rows), under, c, width);
    var s, more := Topped(under, started, rows), Grown(rows, c, width);
    assert Front(s.rows) == Front(rows);
    assert Front(more) == Front(rows) + [Last(rows) + [c]] && Last(more) == [];
  }

  lemma PlainTopped(under: Text, started: bool, rows: seq<Text>, c: Word, width: nat)
    requires |under| < width && (!started ==> under == []) && !Returns(c) && !Ends(c)
    requires rows != [] && Narrow(rows, width) && |Last(rows)| < width
    ensures var s := Topped(under, started, rows);
            Neat(s, width) && Next(s, c, width) == Topped(under, started, Grown(rows, c, width))
  {
    if |Last(rows)| + 1 == width {
      FullTopped(under, started, rows, c, width);
    } else {
      OverSet(Last(rows), under, c, width);
      var s, more := Topped(under, started, rows), Grown(rows, c, width);
      assert Front(s.rows) == Front(rows);
      assert Front(more) == Front(rows) && Last(more) == Last(rows) + [c];
    }
  }

  // A carriage return, and a character, behind a line that has none.
  lemma ReturnBehind(under: Text, started: bool, line: Text, c: Word, width: nat) returns (s: Sheet)
    requires |under| < width && (!started ==> under == []) && ReturnEnd(line) == |line| && Returns(c) && !Ends(c)
    ensures Neat(s, width) && Overlays(under, started, line, width, s)
    ensures Overlays(under, started, line + [c], width, Next(s, c, width))
  {
    var longer, rows := line + [c], Chunks(line, width);
    s := Topped(under, started, rows);
    ToppedNeat(under, started, rows, width);
    OverlaysOnce(under, started, line, width);
    ReturnEndGrows(line, c);
    assert longer[..|line|] == line && longer[|line| + 1..] == [];
    var row := Last(s.rows);
    OverlaysNothing(row, true, width);
    OverlaysSplit(under, started, longer, width, |line|, rows, [], row, Sheet([row], 0, true));
    assert Below(Front(rows), Sheet([row], 0, true)) == Next(s, c, width);
  }

  lemma PlainBehind(under: Text, started: bool, line: Text, c: Word, width: nat) returns (s: Sheet)
    requires |under| < width && (!started ==> under == []) && ReturnEnd(line) == |line| && !Returns(c) && !Ends(c)
    ensures Neat(s, width) && Overlays(under, started, line, width, s)
    ensures Overlays(under, started, line + [c], width, Next(s, c, width))
  {
    s := Topped(under, started, Chunks(line, width));
    OverlaysOnce(under, started, line, width);
    ReturnEndGrows(line, c);
    OverlaysOnce(under, started, line + [c], width);
    ChunksGrow(line, c, width);
    PlainTopped(under, started, Chunks(line, width), c, width);
  }

  // One more character in a line.
  lemma {:induction false} OverlaysGrow(under: Text, started: bool, line: Text, c: Word, width: nat)
      returns (s: Sheet)
    requires |under| < width && (!started ==> under == []) && !Ends(c)
    ensures Neat(s, width) && Overlays(under, started, line, width, s)
    ensures Overlays(under, started, line + [c], width, Next(s, c, width))
    decreases |line|
  {
    var n := ReturnEnd(line);
    if n < |line| {
      var rows, rest := Chunks(line[..n], width), line[n + 1..];
      ToppedNeat(under, started, rows, width);
      var row := Last(Topped(under, started, rows).rows);
      var r := OverlaysGrow(row, true, rest, c, width);
      ReturnEndGrows(line, c);
      TailGrows(line, c, n);
      OverlaysSplit(under, started, line, width, n, rows, rest, row, r);
      OverlaysSplit(under, started, line + [c], width, n, rows, rest + [c], row, Next(r, c, width));
      NextBelow(Front(rows), r, c, width);
      s := Below(Front(rows), r);
    } else if Returns(c) {
      s := ReturnBehind(under, started, line, c, width);
    } else {
      s := PlainBehind(under, started, line, c, width);
    }
  }

  // The same of whole texts.

  ghost predicate LaysParts(text: Text, width: nat, s: Sheet) { width > 0 && s == Layout(text, width) }

  ghost predicate Lays(text: Text, width: nat, s: Sheet) {
    forall t {:trigger LaysParts(text, width, t)} | t == s :: LaysParts(text, width, t)
  }

  lemma LaysOnce(text: Text, width: nat, s: Sheet)
    requires width > 0 && LineEnd(text) == |text| && Overlays([], false, text, width, s)
    ensures Lays(text, width, s)
  {
    assert OverlaysParts([], false, text, width, s);
    assert text[..|text|] == text;
  }

  lemma LaysSplit(text: Text, width: nat, n: nat, line: Text, rest: Text, s: Sheet, r: Sheet)
    requires width > 0 && n == LineEnd(text) < |text| && line == text[..n] && rest == text[n + 1..]
    requires Neat(s, width) && Neat(r, width) && Overlays([], false, line, width, s) && Lays(rest, width, r)
    ensures Lays(text, width, Stacked(s, r, width))
  {
    assert OverlaysParts([], false, line, width, s) && LaysParts(rest, width, r);
  }

  lemma LaysNothing(width: nat)
    requires width > 0
    ensures Lays([], width, Sheet([[]], 0, false))
  {
    OverlaysNothing([], false, width);
    LaysOnce([], width, Sheet([[]], 0, false));
  }

  lemma LaysLast(text: Text, c: Word, width: nat) returns (s: Sheet)
    requires width > 0 && LineEnd(text) == |text|
    ensures Neat(s, width) && Lays(text, width, s) && Lays(text + [c], width, Next(s, c, width))
  {
    LineEndGrows(text, c);
    if Ends(c) {
      var longer := text + [c];
      s := OverlaysSome([], false, text, width);
      LaysOnce(text, width, s);
      LaysNothing(width);
      assert longer[..|text|] == text && longer[|text| + 1..] == [];
      LaysSplit(longer, width, |text|, text, [], s, Sheet([[]], 0, false));
    } else {
      s := OverlaysGrow([], false, text, c, width);
      LaysOnce(text, width, s);
      LaysOnce(text + [c], width, Next(s, c, width));
    }
  }

  lemma {:induction false} LaysGrow(text: Text, c: Word, width: nat) returns (s: Sheet)
    requires width > 0
    ensures Neat(s, width) && Lays(text, width, s) && Lays(text + [c], width, Next(s, c, width))
    decreases |text|
  {
    var n := LineEnd(text);
    if n == |text| {
      s := LaysLast(text, c, width);
    } else {
      var line, rest := text[..n], text[n + 1..];
      var l := OverlaysSome([], false, line, width);
      var r := LaysGrow(rest, c, width);
      LineEndGrows(text, c);
      TailGrows(text, c, n);
      NextBelow(Ended(l, width), r, c, width);
      LaysSplit(text, width, n, line, rest, l, r);
      LaysSplit(text + [c], width, n, line, rest + [c], l, Next(r, c, width));
      s := Stacked(l, r, width);
    }
  }

  // Appending a character changes the layout at its end only, as the cursor moves.
  lemma LayoutGrows(text: Text, c: Word, width: nat)
    requires width > 0
    ensures Layout(text + [c], width) == Next(Layout(text, width), c, width)
  {
    var s := LaysGrow(text, c, width);
    assert LaysParts(text, width, s) && LaysParts(text + [c], width, Next(s, c, width));
  }

  // Text without a carriage return is just wrapped.

  predicate Plain(text: Text) {
    forall i | 0 <= i < |text| :: !Returns(text[i])
  }

  function Wrapped(text: Text, width: nat): (rows: seq<Text>)
    requires width > 0
    ensures rows != []
    decreases |text|
  {
    var n := LineEnd(text);
    if n == |text| then Chunks(text, width)
    else Chunks(text[..n], width) + Wrapped(text[n + 1..], width)
  }

  // Rows as they are when no carriage return changes them.
  function Flush(rows: seq<Text>): Sheet
    requires rows != []
  {
    Sheet(rows, |Last(rows)|, Last(rows) != [])
  }

  lemma PlainLine(line: Text, width: nat)
    requires width > 0 && Plain(line)
    ensures Overlays([], false, line, width, Flush(Chunks(line, width)))
  {
    var n, rows := ReturnEnd(line), Chunks(line, width);
    assert n == |line|;
    OverlaysOnce([], false, line, width);
    assert Front(rows) + [Last(rows)] == rows;
  }

  lemma StackedFlush(rows: seq<Text>, below: seq<Text>, width: nat)
    requires rows != [] && below != [] && Neat(Flush(rows), width) && Neat(Flush(below), width)
    ensures Stacked(Flush(rows), Flush(below), width) == Flush(rows + below) && Neat(Flush(rows + below), width)
  {
    assert Last(rows)[..|Last(rows)|] == Last(rows) && Front(rows) + [Last(rows)] == rows;
    assert Last(rows + below) == Last(below);
  }

  ghost predicate WrapsParts(text: Text, width: nat, rows: seq<Text>) { width > 0 && rows == Wrapped(text, width) }

  ghost predicate Wraps(text: Text, width: nat, rows: seq<Text>) {
    forall r {:trigger WrapsParts(text, width, r)} | r == rows :: WrapsParts(text, width, r)
  }

  lemma WrapsOnce(text: Text, width: nat)
    requires width > 0 && LineEnd(text) == |text|
    ensures Wraps(text, width, Chunks(text, width))
  {}

  lemma WrapsSplit(text: Text, width: nat, n: nat, below: seq<Text>)
    requires width > 0 && n == LineEnd(text) < |text| && Wraps(text[n + 1..], width, below)
    ensures Wraps(text, width, Chunks(text[..n], width) + below)
  {
    assert WrapsParts(text[n + 1..], width, below);
  }

  lemma {:induction false} PlainWraps(text: Text, width: nat) returns (rows: seq<Text>)
    requires width > 0 && Plain(text)
    ensures rows != [] && Neat(Flush(rows), width) && Wraps(text, width, rows) && Lays(text, width, Flush(rows))
    decreases |text|
  {
    var n := LineEnd(text);
    if n == |text| {
      rows := Chunks(text, width);
      PlainLine(text, width);
      LaysOnce(text, width, Flush(rows));
      WrapsOnce(text, width);
    } else {
      var line, rest := text[..n], text[n + 1..];
      var first := Chunks(line, width);
      var below := PlainWraps(rest, width);
      PlainLine(line, width);
      StackedFlush(first, below, width);
      LaysSplit(text, width, n, line, rest, Flush(first), Flush(below));
      WrapsSplit(text, width, n, below);
      rows := first + below;
    }
  }

  lemma PlainIsWrapped(text: Text, width: nat)
    requires width > 0 && Plain(text)
    ensures Layout(text, width) == Flush(Wrapped(text, width))
  {
    var rows := PlainWraps(text, width);
    assert LaysParts(text, width, Flush(rows)) && WrapsParts(text, width, rows);
  }

  // On the page.

  function Dressed(line: Text, width: nat): (r: Row)
    requires |line| <= width
    ensures |r| == width
  {
    seq(|line|, i requires 0 <= i < |line| => Shown(line[i])) + Blanks(width - |line|)
  }

  // The rows that have been started.
  function Used(s: Sheet): nat
    requires s.rows != []
  {
    if s.started then |s.rows| else |s.rows| - 1
  }

  function Line(rows: seq<Text>, k: nat): Text {
    if k < |rows| then rows[k] else []
  }

  ghost predicate LaidOut(p: Page, s: Sheet, width: nat, height: nat) {
    && Wide(p, width, height) && Neat(s, width)
    && p.y == |s.rows| - 1 && p.x == s.x
    && |p.rows| == (if Used(s) < height then height else Used(s))
    && forall k | 0 <= k < |p.rows| :: p.rows[k] == Dressed(Line(s.rows, k), width)
  }

  lemma DressedSet(row: Text, x: nat, c: Word, width: nat)
    requires x <= |row| < width
    ensures Dressed(Set(row, x, c), width) == Patched(Dressed(row, width), x, [Shown(c)])
  {}

  lemma DressedEnd(row: Text, x: nat, width: nat)
    requires x <= |row| <= width
    ensures Dressed(row[..x], width) == Patched(Dressed(row, width), x, Blanks(width - x))
  {}

  // On a row that the page has.
  ghost predicate LaidOutRoom(p: Page, s: Sheet, width: nat, height: nat) {
    && (forall k | 0 <= k < |p.rows| :: |p.rows[k]| == width) && Neat(s, width)
    && p.y == |s.rows| - 1 < |p.rows| && p.x == s.x
    && |p.rows| == (if |s.rows| < height then height else |s.rows|)
    && forall k | 0 <= k < |p.rows| :: p.rows[k] == Dressed(Line(s.rows, k), width)
  }

  lemma RoomLaidOut(p: Page, s: Sheet, width: nat, height: nat)
    requires LaidOut(p, s, width, height)
    ensures LaidOutRoom(Started(p, width), s, width, height)
  {
    assert Dressed([], width) == Blanks(width);
  }

  lemma NewlineLaidOut(q: Page, s: Sheet, width: nat, height: nat, c: Word)
    requires LaidOutRoom(q, s, width, height) && height > 0 && Ends(c)
    ensures LaidOut(PageWritten(q, Blanks(width - q.x)).(x := 0, y := q.y + 1), Next(s, c, width), width, height)
  {
    DressedEnd(Last(s.rows), s.x, width);
  }

  lemma ReturnLaidOut(q: Page, s: Sheet, width: nat, height: nat, c: Word)
    requires LaidOutRoom(q, s, width, height) && height > 0 && Returns(c) && !Ends(c)
    ensures LaidOut(q.(x := 0), Next(s, c, width), width, height)
  {}

  lemma WrapLaidOut(q: Page, s: Sheet, width: nat, height: nat, c: Word)
    requires LaidOutRoom(q, s, width, height) && height > 0 && !Ends(c) && !Returns(c) && q.x + 1 == width
    ensures LaidOut(PageWritten(q, [Shown(c)]).(x := 0, y := q.y + 1), Next(s, c, width), width, height)
  {
    DressedSet(Last(s.rows), s.x, c, width);
  }

  lemma PlainLaidOut(q: Page, s: Sheet, width: nat, height: nat, c: Word)
    requires LaidOutRoom(q, s, width, height) && height > 0 && !Ends(c) && !Returns(c) && q.x + 1 < width
    ensures LaidOut(PageWritten(q, [Shown(c)]).(x := q.x + 1), Next(s, c, width), width, height)
  {
    DressedSet(Last(s.rows), s.x, c, width);
  }

  lemma PutLaidOut(p: Page, s: Sheet, width: nat, height: nat, c: Word)
    requires LaidOut(p, s, width, height) && height > 0
    ensures LaidOut(PagePut(p, width, c), Next(s, c, width), width, height)
  {
    RoomLaidOut(p, s, width, height);
    var q := Started(p, width);
    if Ends(c) {
      NewlineLaidOut(q, s, width, height, c);
    } else if Returns(c) {
      ReturnLaidOut(q, s, width, height, c);
    } else if q.x + 1 == width {
      WrapLaidOut(q, s, width, height, c);
    } else {
      PlainLaidOut(q, s, width, height, c);
    }
  }

  function PutText(s: Screen, text: Text): (r: Screen)
    requires Sane(s)
    ensures Sane(r)
  {
    if text == [] then s else PutChar(PutText(s, text[..|text| - 1]), text[|text| - 1])
  }

  // The screen t, come from s, shows the page p on which this sheet is laid out.
  ghost predicate DisplayParts(s: Screen, t: Screen, p: Page, sheet: Sheet) {
    SameOutside(s, t) && Shows(t, p) && LaidOut(p, sheet, s.Width(), s.Height())
  }

  ghost predicate Displays(s: Screen, t: Screen, p: Page, sheet: Sheet) {
    forall q {:trigger DisplayParts(s, t, q, sheet)} | q == p :: DisplayParts(s, t, q, sheet)
  }

  lemma StepDisplays(s: Screen, t: Screen, p: Page, sheet: Sheet, c: Word) returns (q: Page)
    requires Displays(s, t, p, sheet) && Sane(t) && s.Width() > 0 && Neat(sheet, s.Width())
    ensures Displays(s, PutChar(t, c), q, Next(sheet, c, s.Width()))
  {
    assert DisplayParts(s, t, p, sheet);
    q := PagePut(p, s.Width(), c);
    PutShows(t, p, c);
    PutLaidOut(p, sheet, s.Width(), s.Height(), c);
    SameOutsideTransitive(s, t, PutChar(t, c));
  }

  lemma NothingOnPage(s: Screen) returns (p: Page)
    requires Sane(s)
    requires Region(s) == BlankRows(s.Width(), s.Height()) && s.x == s.minX && s.y == s.minY
    ensures Displays(s, s, p, Sheet([[]], 0, false))
  {
    p := Page(BlankRows(s.Width(), s.Height()), 0, 0);
    assert Dressed([], s.Width()) == Blanks(s.Width());
  }

  lemma LaysSame(text: Text, width: nat, s: Sheet, t: Sheet)
    requires Lays(text, width, s) && Lays(text, width, t)
    ensures s == t
  {
    assert LaysParts(text, width, s) && LaysParts(text, width, t);
  }

  lemma {:induction false} TextOnPage(s: Screen, text: Text) returns (p: Page, sheet: Sheet)
    requires Sane(s)
    requires Region(s) == BlankRows(s.Width(), s.Height()) && s.x == s.minX && s.y == s.minY
    ensures Neat(sheet, s.Width()) && Lays(text, s.Width(), sheet) && Displays(s, PutText(s, text), p, sheet)
  {
    var w := s.Width();
    if text == [] {
      p := NothingOnPage(s);
      sheet := Sheet([[]], 0, false);
      LaysNothing(w);
    } else {
      var before, c := text[..|text| - 1], text[|text| - 1];
      assert before + [c] == text;
      p, sheet := TextOnPage(s, before);
      var same := LaysGrow(before, c, w);
      LaysSame(before, w, sheet, same);
      p := StepDisplays(s, PutText(s, before), p, sheet, c);
      NextNeat(sheet, c, w);
      sheet := Next(sheet, c, w);
    }
  }

  lemma NextNeat(s: Sheet, c: Word, width: nat)
    requires Neat(s, width)
    ensures Neat(Next(s, c, width), width)
  {}

  // The last rows of the layout are in the region, and the cursor is in the last of them.
  ghost predicate ShowsEnd(t: Screen, s: Sheet)
    requires Sane(t) && s.rows != []
  {
    var top := if Used(s) <= t.Height() then 0 else Used(s) - t.Height();
    && t.y - t.minY == |s.rows| - 1 - top && t.x - t.minX == s.x
    && forall k | 0 <= k < t.Height() :: RowShows(t, s.rows, top, k)
  }

  // With row `top` of the layout at the top, row k of the region shows its line, blank padded.
  ghost predicate RowShows(t: Screen, rows: seq<Text>, top: nat, k: nat)
    requires Sane(t) && k < t.Height()
  {
    var line := Line(rows, top + k);
    |line| <= t.Width() && Region(t)[k] == Dressed(line, t.Width())
  }

  lemma DisplayedRow(s: Screen, t: Screen, p: Page, sheet: Sheet, k: nat)
    requires Displays(s, t, p, sheet) && Sane(t) && k < t.Height() <= |p.rows|
    ensures RowShows(t, sheet.rows, |p.rows| - t.Height(), k)
  {
    assert DisplayParts(s, t, p, sheet);
    var top := |p.rows| - t.Height();
    assert Region(t)[k] == p.rows[top..][k] == p.rows[top + k];
  }

  lemma DisplayedTop(s: Screen, t: Screen, p: Page, sheet: Sheet)
    requires Displays(s, t, p, sheet)
    ensures Sane(t) && sheet.rows != []
    ensures |p.rows| == if Used(sheet) <= t.Height() then t.Height() else Used(sheet)
    ensures t.y - t.minY == |sheet.rows| - 1 - (|p.rows| - t.Height()) && t.x - t.minX == sheet.x
    ensures SameOutside(s, t)
  {
    assert DisplayParts(s, t, p, sheet);
  }

  lemma DisplayedEnd(s: Screen, t: Screen, p: Page, sheet: Sheet)
    requires Displays(s, t, p, sheet)
    ensures Sane(t) && sheet.rows != [] && ShowsEnd(t, sheet) && SameOutside(s, t)
  {
    DisplayedTop(s, t, p, sheet);
    var top := if Used(sheet) <= t.Height() then 0 else Used(sheet) - t.Height();
    forall k | 0 <= k < t.Height()
      ensures RowShows(t, sheet.rows, top, k)
    {
      DisplayedRow(s, t, p, sheet, k);
    }
  }

  lemma WindowShowsRows(s: Screen, text: Text)
    requires Sane(s)
    requires Region(s) == BlankRows(s.Width(), s.Height()) && s.x == s.minX && s.y == s.minY
    ensures ShowsEnd(PutText(s, text), Layout(text, s.Width())) && SameOutside(s, PutText(s, text))
  {
    var p, sheet := TextOnPage(s, text);
    assert LaysParts(text, s.Width(), sheet);
    DisplayedEnd(s, PutText(s, text), p, sheet);
  }
}
