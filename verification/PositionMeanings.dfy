/** What a position means: lines counted by their ends, columns by the UTF-16 code units of the runes that the
    bytes encode. */
module PositionMeanings {
  import opened Wrappers
  import opened Positions

  // ----- UTF-8 (section 3 of RFC 3629)

  /** A code point that is no surrogate. */
  predicate Scalar(v: nat) {
    v < 0xD800 || 0xE000 <= v < 0x110000
  }

  function Encode(v: nat): Text
    requires v < 0x110000
  {
    if v < 0x80 then [v]
    else if v < 0x800 then [0xC0 + v / 0x40, 0x80 + v % 0x40]
    else if v < 0x10000 then [0xE0 + v / 0x1000, 0x80 + v / 0x40 % 0x40, 0x80 + v % 0x40]
    else [0xF0 + v / 0x40000, 0x80 + v / 0x1000 % 0x40, 0x80 + v / 0x40 % 0x40, 0x80 + v % 0x40]
  }

  /** The bytes from `i` on begin with the encoding of `v`. */
  predicate Begins(text: Text, i: nat, v: nat)
    requires v < 0x110000
  {
    i + |Encode(v)| <= |text| && text[i..i + |Encode(v)|] == Encode(v)
  }

  lemma Digits(v: nat)
    ensures v == v / 0x40 * 0x40 + v % 0x40 && v / 0x40 == v / 0x1000 * 0x40 + v / 0x40 % 0x40
    ensures v / 0x1000 == v / 0x40000 * 0x40 + v / 0x1000 % 0x40
  {
    assert v / 0x1000 == v / 0x40 / 0x40 && v / 0x40000 == v / 0x1000 / 0x40;
  }

  lemma FromDigits(a: nat, b: nat)
    requires b < 0x40
    ensures (a * 0x40 + b) / 0x40 == a && (a * 0x40 + b) % 0x40 == b
  {
  }

  /** Decoding inverts encoding. */
  lemma DecodesEncoded(text: Text, i: nat, v: nat)
    requires Scalar(v) && Begins(text, i, v)
    ensures i < |text| && Decode(text, i) == Rune(v, |Encode(v)|)
  {
    Digits(v);
    assert forall j | 0 <= j < |Encode(v)| :: text[i + j] == text[i..i + |Encode(v)|][j] == Encode(v)[j];
  }

  /** And what it accepts is the encoding of a scalar value, the shortest one. */
  lemma EncodesDecoded(text: Text, i: nat)
    requires i < |text| && Decode(text, i).Rune?
    ensures var d := Decode(text, i); Scalar(d.value) && d.size == |Encode(d.value)| && Begins(text, i, d.value)
  {
    var d := Decode(text, i);
    var b: int := text[i];
    if d.size == 2 {
      FromDigits(b - 0xC0, text[i + 1] as int - 0x80);
      assert text[i..i + 2] == [text[i], text[i + 1]];
    } else if d.size == 3 {
      var high: nat := (b - 0xE0) * 0x40 + (text[i + 1] as int - 0x80);
      FromDigits(b - 0xE0, text[i + 1] as int - 0x80);
      FromDigits(high, text[i + 2] as int - 0x80);
      assert d.value == high * 0x40 + (text[i + 2] as int - 0x80);
      Digits(d.value);
      assert text[i..i + 3] == [text[i], text[i + 1], text[i + 2]];
    } else if d.size == 4 {
      FourBytes(text, i);
    }
  }

  lemma FourBytes(text: Text, i: nat)
    requires i < |text| && Decode(text, i).Rune? && Decode(text, i).size == 4
    ensures var d := Decode(text, i); Scalar(d.value) && d.size == |Encode(d.value)| && Begins(text, i, d.value)
  {
    var d := Decode(text, i);
    var top: nat := (text[i] as int - 0xF0) * 0x40 + (text[i + 1] as int - 0x80);
    var high: nat := top * 0x40 + (text[i + 2] as int - 0x80);
    FromDigits(text[i] as int - 0xF0, text[i + 1] as int - 0x80);
    FromDigits(top, text[i + 2] as int - 0x80);
    FromDigits(high, text[i + 3] as int - 0x80);
    assert d.value == high * 0x40 + (text[i + 3] as int - 0x80);
    Digits(d.value);
    assert text[i..i + 4] == [text[i], text[i + 1], text[i + 2], text[i + 3]];
  }

  /** A rune is decoded from exactly the bytes that encode it. */
  lemma DecodeExactly(text: Text, i: nat, v: nat, size: nat)
    requires i < |text|
    ensures Decode(text, i) == Rune(v, size) <==> Scalar(v) && size == |Encode(v)| && Begins(text, i, v)
  {
    if Decode(text, i) == Rune(v, size) { EncodesDecoded(text, i); }
    if Scalar(v) && Begins(text, i, v) { DecodesEncoded(text, i, v); }
  }

  // ----- UTF-16 (section 2.1 of RFC 2781)

  function Units(v: nat): seq<nat> {
    if v < 0x10000 then [v] else [0xD800 + (v - 0x10000) / 0x400, 0xDC00 + (v - 0x10000) % 0x400]
  }

  lemma WidthIsUnits(v: nat)
    ensures Width(v) == |Units(v)|
  {
  }

  predicate Scalars(runes: seq<nat>) {
    forall i | 0 <= i < |runes| :: Scalar(runes[i])
  }

  function EncodeAll(runes: seq<nat>): Text
    requires Scalars(runes)
  {
    if runes == [] then [] else Encode(runes[0]) + EncodeAll(runes[1..])
  }

  function UnitsAll(runes: seq<nat>): seq<nat> {
    if runes == [] then [] else Units(runes[0]) + UnitsAll(runes[1..])
  }

  /** These bytes are these runes. */
  predicate Spells(text: Text, from: nat, until: nat, runes: seq<nat>) {
    from <= until <= |text| && Scalars(runes) && text[from..until] == EncodeAll(runes)
  }

  /** A column is the number of code units of the runes that the bytes spell; and without one they spell none. */
  lemma {:induction false} ColumnIsUnits(text: Text, from: nat, until: nat, runes: seq<nat>)
    requires Spells(text, from, until, runes)
    ensures Column(text, from, until) == Some(|UnitsAll(runes)|)
    decreases |runes|
  {
    hide Decode, Encode, Units, Width;
    if runes != [] {
      var v, size := runes[0], |Encode(runes[0])|;
      FirstRune(text, from, until, runes);
      DecodesEncoded(text, from, v);
      WidthIsUnits(v);
      ColumnIsUnits(text, from + size, until, runes[1..]);
    }
  }

  /** The first rune, and what is left. */
  lemma FirstRune(text: Text, from: nat, until: nat, runes: seq<nat>)
    requires Spells(text, from, until, runes) && runes != []
    ensures Scalar(runes[0]) && Begins(text, from, runes[0]) && 1 <= |Encode(runes[0])| <= until - from
    ensures Spells(text, from + |Encode(runes[0])|, until, runes[1..])
  {
    var size, rest := |Encode(runes[0])|, EncodeAll(runes[1..]);
    assert size >= 1;
    hide Encode;
    assert text[from..until] == Encode(runes[0]) + rest && |text[from..until]| == size + |rest|;
    Split(text, from, from + size, until);
    TwoParts(Encode(runes[0]), rest);
  }

  lemma Split(text: Text, from: nat, mid: nat, until: nat)
    requires from <= mid <= until <= |text|
    ensures text[from..mid] == text[from..until][..mid - from] && text[mid..until] == text[from..until][mid - from..]
  {
  }

  lemma TwoParts(a: Text, b: Text)
    ensures (a + b)[..|a|] == a && (a + b)[|a|..] == b
  {
  }

  lemma {:induction false} ColumnSpells(text: Text, from: nat, until: nat) returns (runes: seq<nat>)
    requires until <= |text| && Column(text, from, until).Some?
    ensures Spells(text, from, until, runes)
    decreases |text| - from
  {
    if from == until {
      return [];
    }
    var d := Decode(text, from);
    EncodesDecoded(text, from);
    var rest := ColumnSpells(text, from + d.size, until);
    runes := [d.value] + rest;
    assert runes[1..] == rest;
    assert text[from..until] == text[from..from + d.size] + text[from + d.size..until];
  }

  // ----- lines

  /** The last byte of a line: LF, or a CR that no LF follows. */
  predicate EndsLine(text: Text, i: nat) {
    i < |text| && (text[i] == LF || (text[i] == CR && !(i + 1 < |text| && text[i + 1] == LF)))
  }

  /** How many lines end before an offset. */
  function LinesBefore(text: Text, o: nat): nat {
    if o == 0 then 0 else LinesBefore(text, o - 1) + if EndsLine(text, o - 1) then 1 else 0
  }

  predicate StartsLine(text: Text, s: nat) {
    s <= |text| && (s == 0 || EndsLine(text, s - 1))
  }

  predicate InsidePair(text: Text, o: nat) {
    0 < o < |text| && text[o - 1] == CR && text[o] == LF
  }

  lemma {:induction false} MoreLater(text: Text, a: nat, b: nat)
    requires a <= b
    ensures LinesBefore(text, a) <= LinesBefore(text, b)
    ensures (forall i | a <= i < b :: !EndsLine(text, i)) ==> LinesBefore(text, a) == LinesBefore(text, b)
  {
    if a < b { MoreLater(text, a, b - 1); }
  }

  lemma EndCounts(text: Text, a: nat, i: nat, b: nat)
    requires a <= i < b && EndsLine(text, i)
    ensures LinesBefore(text, a) < LinesBefore(text, b)
  {
    MoreLater(text, a, i);
    MoreLater(text, i + 1, b);
  }

  /** After a delimiter one more line has ended. */
  lemma DelimiterCounts(text: Text, s: nat)
    requires s <= |text|
    ensures var d := NextDelimiter(text, s);
            if d.None? then forall o | s <= o <= |text| :: LinesBefore(text, o) == LinesBefore(text, s)
            else
              var next := d.value.at + d.value.size;
              && StartsLine(text, next) && LinesBefore(text, next) == LinesBefore(text, s) + 1
              && (forall o | s <= o <= d.value.at :: LinesBefore(text, o) == LinesBefore(text, s))
              && EndsLine(text, next - 1) && (d.value.size == 2 ==> InsidePair(text, d.value.at + 1))
  {
    hide LinesBefore;
    var d := NextDelimiter(text, s);
    var end := if d.Some? then d.value.at else |text|;
    forall o | s <= o <= end ensures LinesBefore(text, o) == LinesBefore(text, s) { MoreLater(text, s, o); }
    if d.Some? { AfterDelimiter(text, d.value); }
  }

  lemma AfterDelimiter(text: Text, d: Delimiter)
    requires d.at + d.size <= |text| && 1 <= d.size <= 2 && (text[d.at] == LF || text[d.at] == CR)
    requires d.size == 2 <==> text[d.at] == CR && d.at + 1 < |text| && text[d.at + 1] == LF
    ensures EndsLine(text, d.at + d.size - 1) && LinesBefore(text, d.at + d.size) == LinesBefore(text, d.at) + 1
    ensures d.size == 2 ==> InsidePair(text, d.at + 1)
  {
    if d.size == 2 {
      assert !EndsLine(text, d.at);
      assert LinesBefore(text, d.at + 1) == LinesBefore(text, d.at);
      assert LinesBefore(text, d.at + 2) == LinesBefore(text, d.at + 1) + 1;
    }
  }

  lemma {:induction false} LineStartCounts(text: Text, line: nat)
    ensures LineStart(text, line).Some? ==> StartsLine(text, LineStart(text, line).value) && LinesBefore(text, LineStart(text, line).value) == line
    ensures LineStart(text, line).None? ==> LinesBefore(text, |text|) < line
  {
    hide NextDelimiter;
    if line > 0 {
      LineStartCounts(text, line - 1);
      if LineStart(text, line - 1).Some? { DelimiterCounts(text, LineStart(text, line - 1).value); }
    }
  }

  /** Line `l` starts where a line ended, or at the beginning, with `l` ends before it. */
  lemma LineStartIs(text: Text, line: nat, s: nat)
    ensures LineStart(text, line) == Some(s) <==> StartsLine(text, s) && LinesBefore(text, s) == line
  {
    LineStartCounts(text, line);
    if StartsLine(text, s) && LinesBefore(text, s) == line {
      MoreLater(text, s, |text|);
      var t := LineStart(text, line).value;
      if t < s { EndCounts(text, t, s - 1, s); } else if s < t { EndCounts(text, s, t - 1, t); }
    }
  }

  /** An offset is on the line whose number of ends are before it, and inside a CRLF pair on none. */
  lemma OnLineIs(text: Text, o: nat, line: nat)
    requires o <= |text|
    ensures OnLine(text, o, line) <==> LinesBefore(text, o) == line && !InsidePair(text, o)
  {
    hide NextDelimiter, LineStart;
    LineStartCounts(text, line);
    MoreLater(text, o, |text|);
    if LineStart(text, line).Some? {
      var s := LineStart(text, line).value;
      DelimiterCounts(text, s);
      if o < s {
        EndCounts(text, o, s - 1, s);
      } else if o > LineEnd(text, s) {
        PastTheEnd(text, s, o);
      } else {
        NoPairInside(text, s, o);
      }
    }
  }

  lemma PastTheEnd(text: Text, s: nat, o: nat)
    requires s <= |text| && LineEnd(text, s) < o <= |text|
    ensures LinesBefore(text, s) < LinesBefore(text, o) || InsidePair(text, o)
  {
    hide LinesBefore, NextDelimiter;
    DelimiterCounts(text, s);
    var d := NextDelimiter(text, s).value;
    if d.at + d.size <= o { MoreLater(text, d.at + d.size, o); }
  }

  lemma NoPairInside(text: Text, s: nat, o: nat)
    requires StartsLine(text, s) && s <= o <= LineEnd(text, s)
    ensures !InsidePair(text, o)
  {
    if s < o { assert text[o - 1] != CR; }
  }

  /** What a position means.  An offset is at a position exactly if as many lines end before it, the bytes from
      the start of its line spell runes with as many UTF-16 code units, a rune begins there or the text ends,
      and it is not between a CR and its LF. */
  lemma PositionMeans(text: Text, o: nat, p: Position)
    requires o <= |text|
    ensures Located(text, o, p) <==>
              && p.line == LinesBefore(text, o) && !InsidePair(text, o)
              && (exists s, runes :: StartsLine(text, s) && LinesBefore(text, s) == p.line && Spells(text, s, o, runes) && p.column == |UnitsAll(runes)|)
              && (o < |text| ==> exists v :: Scalar(v) && Begins(text, o, v))
  {
    hide LineStart, Column, Decode, LinesBefore, UnitsAll;
    if p.line >= 0 { OnLineIs(text, o, p.line); }
    DecodesIs(text, o);
    if Located(text, o, p) {
      var s := LineStart(text, p.line).value;
      LineStartIs(text, p.line, s);
      var runes := ColumnSpells(text, s, o);
      ColumnIsUnits(text, s, o, runes);
    }
    if p.line >= 0 && exists s, runes :: StartsLine(text, s) && LinesBefore(text, s) == p.line && Spells(text, s, o, runes) && p.column == |UnitsAll(runes)| {
      var s, runes :| StartsLine(text, s) && LinesBefore(text, s) == p.line && Spells(text, s, o, runes) && p.column == |UnitsAll(runes)|;
      LineStartIs(text, p.line, s);
      ColumnIsUnits(text, s, o, runes);
    }
  }

  lemma DecodesIs(text: Text, o: nat)
    ensures Decodes(text, o) <==> (o < |text| ==> exists v :: Scalar(v) && Begins(text, o, v))
  {
    if o < |text| {
      if Decode(text, o).Rune? {
        EncodesDecoded(text, o);
        FirstByteStarts(text, o);
      } else if v: nat :| Scalar(v) && Begins(text, o, v) {
        DecodesEncoded(text, o, v);
      }
    }
  }
}
