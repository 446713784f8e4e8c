/** The formatters as they run, storing characters through a pointer into the caller's buffer. */
module Formatters {
  import opened Common
  import opened Digits

  function Over(s: string, at: nat, data: string): (r: string)
    requires at + |data| <= |s|
    ensures |r| == |s|
  {
    s[..at] + data + s[at + |data|..]
  }

  lemma OverTwice(s: string, at: nat, x: string, y: string)
    requires at + |x| + |y| <= |s|
    ensures Over(Over(s, at, x), at + |x|, y) == Over(s, at, x + y)
  {}

  lemma OverNothing(s: string, at: nat)
    requires at <= |s|
    ensures Over(s, at, "") == s
  {}

  // One character stored, and the pointer moved on.
  method Store(buf: array<char>, bp: nat, c: char) returns (next: nat)
    requires bp < buf.Length
    modifies buf
    ensures next == bp + 1 && buf[..] == Over(old(buf[..]), bp, [c])
  {
    buf[bp] := c;
    next := bp + 1;
  }

  // A character stored behind what has been written from place `at` on.
  method Append(buf: array<char>, ghost start: string, ghost at: nat, ghost text: string, bp: nat, c: char)
      returns (next: nat)
    requires bp == at + |text| < buf.Length == |start| && buf[..] == Over(start, at, text)
    modifies buf
    ensures next == bp + 1 && buf[..] == Over(start, at, text + [c])
  {
    OverTwice(start, at, text, [c]);
    next := Store(buf, bp, c);
  }

  // The same for a digit that is only stored if it is wanted.
  method AppendWanted(buf: array<char>, ghost start: string, ghost text: string, bp: nat, wanted: bool, c: char)
      returns (next: nat)
    requires bp == |text| < buf.Length == |start| && buf[..] == Over(start, 0, text)
    modifies buf
    ensures var more := if wanted then text + [c] else text; next == |more| && buf[..] == Over(start, 0, more)
  {
    next := bp;
    if wanted {
      next := Append(buf, start, 0, text, bp, c);
    }
  }

  // The magnitude of the most negative number.
  const MOST: nat := 0x8000_0000

  // What cvtdec0 emits, for the values it is not meant for as well.
  function Emitted(value: Int32): string {
    if value >= 0 then Numeral(value, 10)
    else if value <= -10 then Numeral(MOST, 10)
    else [('0' as int + value) as char]
  }

  // The quotient to emit first and the value whose last digit follows: the most negative
  // number, which has no negation, is replaced by what its magnitude would give.
  function Split(value: Int32): (Int32, Int32) {
    if Quotient(value) < 0 then (214748364, 8) else (Quotient(value), value)
  }

  function LastDigit(value: Int32): char {
    ('0' as int + Remainder(Split(value).1)) as char
  }

  lemma DecimalDigit(d: nat)
    requires d < 10
    ensures Digit(d) == ('0' as int + d) as char
  {}

  lemma EmittedPositive(value: Int32)
    requires value >= 10
    ensures Emitted(value) == Emitted(Split(value).0) + [LastDigit(value)] && Split(value).0 > 0
  {
    var v: nat := value;
    DecimalDigit(v % 10);
    assert Numeral(v, 10) == Numeral(v / 10, 10) + [Digit(v % 10)];
  }

  lemma EmittedNegative(value: Int32)
    requires value <= -10
    ensures Split(value) == (214748364, 8) && LastDigit(value) == '8'
    ensures Emitted(value) == Emitted(214748364) + ['8']
  {
    assert Numeral(MOST, 10) == Numeral(214748364, 10) + [Digit(8)];
  }

  lemma EmittedSingle(value: Int32)
    requires -10 < value < 10
    ensures Split(value) == (0, value) && Emitted(value) == [LastDigit(value)]
  {
    if value >= 0 {
      DecimalDigit(value);
    }
  }

  lemma EmittedIs(value: Int32)
    ensures Emitted(value) == (if Split(value).0 == 0 then "" else Emitted(Split(value).0)) + [LastDigit(value)]
  {
    if value >= 10 {
      EmittedPositive(value);
    } else if value <= -10 {
      EmittedNegative(value);
    } else {
      EmittedSingle(value);
    }
  }

  // cvtdec0 and itos10x
  method CvtDec0(buf: array<char>, bp: nat, value: Int32) returns (next: nat)
    requires bp + |Emitted(value)| <= buf.Length
    modifies buf
    ensures next == bp + |Emitted(value)| && buf[..] == Over(old(buf[..]), bp, Emitted(value))
    decreases if value < 0 then 0x8000_0000 else value as int
  {
    var quotient, v := Quotient(value), value;
    if quotient < 0 {
      quotient, v := 214748364, 8;
    }
    var last := ('0' as int + Remainder(v)) as char;
    assert quotient == Split(value).0 && last == LastDigit(value);
    EmittedIs(value);
    next := bp;
    ghost var start, text := buf[..], if quotient == 0 then "" else Emitted(quotient);
    if quotient != 0 {
      next := CvtDec0(buf, next, quotient);
    } else {
      OverNothing(start, bp);
    }
    next := Append(buf, start, bp, text, next, last);
  }

  // cvtdec and itos10: the text, its terminator, and nothing behind that.
  method CvtDec(buf: array<char>, value: Int32) returns (length: nat)
    requires |Decimal(value)| < buf.Length
    modifies buf
    ensures length == |Decimal(value)| && buf[..] == Over(old(buf[..]), 0, Decimal(value) + ['\0'])
  {
    var bp, v := 0, value;
    ghost var sign := if value < 0 then "-" else "";
    assert Over(buf[..], 0, "") == buf[..];
    if value < 0 {
      bp := Store(buf, bp, '-');
      v := Negated(value);
    }
    assert Emitted(v) == Numeral(Magnitude(value), 10);
    OverTwice(old(buf[..]), 0, sign, Emitted(v));
    bp := CvtDec0(buf, bp, v);
    OverTwice(old(buf[..]), 0, Decimal(value), ['\0']);
    length := bp;
    bp := Store(buf, bp, '\0');
  }

  function Times16(n: nat, k: nat): nat {
    if k == 0 then n else 16 * Times16(n, k - 1)
  }

  // The eight-digit window: what was shifted out above the word, and what is left in it.
  ghost predicate Shifted(value: Word, k: nat, out: nat, word: Word) {
    out * 0x1_0000_0000 + word == Times16(value, k)
  }

  lemma ShiftMore(value: Word, k: nat, out: nat, word: Word)
    requires Shifted(value, k, out, word)
    ensures Shifted(value, k + 1, 16 * out + word / 0x1000_0000, Wrap(16 * word))
  {
    var high, low := word / 0x1000_0000, word % 0x1000_0000;
    assert word == high * 0x1000_0000 + low;
    assert 16 * word == high * 0x1_0000_0000 + 16 * low;
    assert Wrap(16 * word) == 16 * low;
  }

  lemma ShiftedOut(value: Word, out: nat, word: Word)
    requires Shifted(value, 8, out, word)
    ensures out == value && word == 0
  {
    var n: nat := value;
    assert Times16(n, 1) == 16 * n && Times16(n, 2) == 16 * Times16(n, 1) && Times16(n, 3) == 16 * Times16(n, 2);
    assert Times16(n, 4) == 16 * Times16(n, 3) && Times16(n, 5) == 16 * Times16(n, 4);
    assert Times16(n, 6) == 16 * Times16(n, 5) && Times16(n, 7) == 16 * Times16(n, 6);
  }

  // A digit more of either form.
  lemma DigitMore(out: nat, d: nat, k: nat)
    requires d < 16
    ensures Fixed(16 * out + d, k + 1) == Fixed(out, k) + [Digit(d)]
    ensures Numeral(16 * out + d, 16) == (if out == 0 then "" else Numeral(out, 16)) + [Digit(d)]
  {
    assert (16 * out + d) / 16 == out && (16 * out + d) % 16 == d;
  }

  // The digits so far: leading zeros only when all are wanted.
  function Begun(out: nat, k: nat, all: bool): string {
    if all then Fixed(out, k) else if out == 0 then "" else Numeral(out, 16)
  }

  // After k digits of the value.
  ghost predicate ConvertedParts(value: Word, k: nat, all: bool, out: nat, word: Word, text: string) {
    && Shifted(value, k, out, word)
    && if k < 8 then text == Begun(out, k, all) else k == 8 && out < 0x1_0000_0000 && text == Hex(out, all)
  }

  ghost predicate Converted(value: Word, k: nat, all: bool, out: nat, word: Word, text: string) {
    forall t {:trigger ConvertedParts(value, k, all, out, word, t)} | t == text ::
      ConvertedParts(value, k, all, out, word, t)
  }

  lemma BegunMore(out: nat, k: nat, all: bool, d: nat)
    requires d < 16
    ensures d == 0 && !all && Begun(out, k, all) == "" ==> Begun(16 * out + d, k + 1, all) == ""
    ensures d != 0 || all || Begun(out, k, all) != "" ==>
              Begun(16 * out + d, k + 1, all) == Begun(out, k, all) + [Digit(d)]
  {
    DigitMore(out, d, k);
  }

  lemma BegunLast(out: nat, all: bool, d: nat)
    requires d < 16 && 16 * out + d < 0x1_0000_0000
    ensures Hex(16 * out + d, all) == Begun(out, 7, all) + [Digit(d)]
  {
    DigitMore(out, d, 7);
  }

  lemma ConvertedMore(value: Word, k: nat, all: bool, out: nat, word: Word, text: string) returns (next: string)
    requires Converted(value, k, all, out, word, text) && k < 8
    ensures var d := word / 0x1000_0000;
            && next == (if k == 7 || d != 0 || all || text != "" then text + [Digit(d)] else text)
            && Converted(value, k + 1, all, 16 * out + d, Wrap(16 * word), next)
  {
    assert ConvertedParts(value, k, all, out, word, text);
    var d: nat := word / 0x1000_0000;
    next := if k == 7 || d != 0 || all || text != "" then text + [Digit(d)] else text;
    ShiftMore(value, k, out, word);
    if k == 7 {
      ShiftedOut(value, 16 * out + d, Wrap(16 * word));
      BegunLast(out, all, d);
    } else {
      BegunMore(out, k, all, d);
    }
  }

  lemma ConvertedNone(value: Word, all: bool)
    ensures Converted(value, 0, all, 0, value, "")
  {}

  lemma ConvertedAll(value: Word, all: bool, out: nat, word: Word, text: string)
    requires Converted(value, 8, all, out, word, text)
    ensures text == Hex(value, all)
  {
    assert ConvertedParts(value, 8, all, out, word, text);
    ShiftedOut(value, out, word);
  }

  method HighDigit(v: Word) returns (digit: nat)
    ensures digit == v / 0x1000_0000 < 16
  {
    digit := v / 0x1000_0000;
  }

  // One turn of the loops below: the digit, if there is anything in front of it or it is not
  // 0 or the last one, and the value shifted.
  method PutDigit(buf: array<char>, ghost value: Word, ghost all: bool, ghost start: string, ghost out: nat,
                  ghost text: string, i: nat, v: Word, digit: nat, bp: nat, wanted: bool)
      returns (word: Word, next: nat, ghost more: nat, ghost longer: string)
    requires i < 8 && digit == v / 0x1000_0000 < 16 && Converted(value, i, all, out, v, text)
    requires bp == |text| < buf.Length == |start| && buf[..] == Over(start, 0, text)
    requires wanted <==> i == 7 || digit != 0 || all || text != ""
    modifies buf
    ensures Converted(value, i + 1, all, more, word, longer)
    ensures longer == (if wanted then text + [Digit(digit)] else text)
    ensures next == |longer| && buf[..] == Over(start, 0, longer)
  {
    longer := ConvertedMore(value, i, all, out, v, text);
    next := AppendWanted(buf, start, text, bp, wanted, Digit(digit));
    more, word := 16 * out + digit, Wrap(16 * v);
  }

  // itos16
  method ItoS16(buf: array<char>, value: Word, storeAll: bool) returns (length: nat)
    requires buf.Length >= 9
    modifies buf
    ensures length == |Hex(value, storeAll)| && buf[..] == Over(old(buf[..]), 0, Hex(value, storeAll) + ['\0'])
  {
    var bp, v: Word, store := 0, value, storeAll;
    ghost var start, out: nat, text := buf[..], 0, "";
    OverNothing(start, 0);
    ConvertedNone(value, storeAll);
    for i := 0 to 8
      invariant Converted(value, i, storeAll, out, v, text) && bp == |text| <= i
      invariant store <==> storeAll || text != ""
      invariant buf[..] == Over(start, 0, text)
    {
      var val := HighDigit(v);
      store := i == 7 || val != 0 || store;
      v, bp, out, text := PutDigit(buf, value, storeAll, start, out, text, i, v, val, bp, store);
    }
    ConvertedAll(value, storeAll, out, v, text);
    length := bp;
    bp := Append(buf, start, 0, text, bp, '\0');
  }

  // The top digit of a signed value: masked, then shifted down arithmetically and masked.
  method TopDigit(v: Word) returns (val: int, digit: nat)
    ensures digit == v / 0x1000_0000 < 16 && (val == 0 <==> digit == 0)
  {
    val := Signed(v - v % 0x1000_0000);
    var shifted := val / 0x1000_0000;
    digit := shifted % 16;
  }

  // cvthex: the same digits by way of a signed shift.
  method CvtHex(buf: array<char>, value: Word) returns (length: nat)
    requires buf.Length >= 9
    modifies buf
    ensures length == |Hex(value, false)| && buf[..] == Over(old(buf[..]), 0, Hex(value, false) + ['\0'])
  {
    var bp, v: Word, charsStored := 0, value, false;
    ghost var start, out: nat, text := buf[..], 0, "";
    OverNothing(start, 0);
    ConvertedNone(value, false);
    for i := 0 to 8
      invariant Converted(value, i, false, out, v, text) && bp == |text| <= i
      invariant charsStored <==> text != ""
      invariant buf[..] == Over(start, 0, text)
    {
      var val, d := TopDigit(v);
      charsStored := i == 7 || val != 0 || charsStored;
      v, bp, out, text := PutDigit(buf, value, false, start, out, text, i, v, d, bp, charsStored);
    }
    ConvertedAll(value, false, out, v, text);
    length := bp;
    bp := Append(buf, start, 0, text, bp, '\0');
  }
}
