/** Byte offsets and LSP positions: lines split at LF, CRLF and CR, columns in UTF-16 code units. */
module Positions {
  import opened Wrappers

  type Byte = b: nat | b < 256

  type Text = seq<Byte>

  datatype Position = Position(line: int, column: int)

  const LF: Byte := 10
  const CR: Byte := 13

  // ----- UTF-8 (section 4 of RFC 3629)

  datatype Decoded = Bad | Rune(value: nat, size: nat)

  predicate Continues(text: Text, i: nat, low: nat, high: nat) {
    i < |text| && low <= text[i] <= high
  }

  /** utf8.DecodeRuneInString: Bad is RuneError with a size of at most one. */
  function Decode(text: Text, i: nat): (d: Decoded)
    requires i < |text|
    ensures d.Rune? ==> 1 <= d.size <= 4 && i + d.size <= |text| && d.value < 0x110000
    ensures d.Rune? ==> forall j | i < j < i + d.size :: 0x80 <= text[j] <= 0xBF
  {
    var b: int := text[i];
    if b < 0x80 then Rune(b, 1)
    else if 0xC2 <= b <= 0xDF then
      if Continues(text, i + 1, 0x80, 0xBF) then Rune((b - 0xC0) * 0x40 + (text[i + 1] as int - 0x80), 2) else Bad
    else if 0xE0 <= b <= 0xEF then
      if Continues(text, i + 1, if b == 0xE0 then 0xA0 else 0x80, if b == 0xED then 0x9F else 0xBF) && Continues(text, i + 2, 0x80, 0xBF)
      then Rune((b - 0xE0) * 0x1000 + (text[i + 1] as int - 0x80) * 0x40 + (text[i + 2] as int - 0x80), 3) else Bad
    else if 0xF0 <= b <= 0xF4 then
      if Continues(text, i + 1, if b == 0xF0 then 0x90 else 0x80, if b == 0xF4 then 0x8F else 0xBF)
         && Continues(text, i + 2, 0x80, 0xBF) && Continues(text, i + 3, 0x80, 0xBF)
      then Rune((b - 0xF0) * 0x40000 + (text[i + 1] as int - 0x80) * 0x1000 + (text[i + 2] as int - 0x80) * 0x40 + (text[i + 3] as int - 0x80), 4) else Bad
    else Bad
  }

  /** utf8.RuneStart */
  predicate RuneStart(b: Byte) {
    !(0x80 <= b <= 0xBF)
  }

  /** UTF-16 code units (section 2.1 of RFC 2781). */
  function Width(r: nat): nat {
    if r > 0xFFFF then 2 else 1
  }

  /** The UTF-16 length of the whole runes from `from` to `until`, if those are whole runes. */
  function Column(text: Text, from: nat, until: nat): Option<nat>
    requires until <= |text|
    decreases |text| - from
  {
    if from == until then Some(0)
    else if from > until || Decode(text, from).Bad? then None
    else
      var d := Decode(text, from);
      var rest := Column(text, from + d.size, until);
      if rest.Some? then Some(Width(d.value) + rest.value) else None
  }

  // ----- lines

  datatype Delimiter = Delimiter(at: nat, size: nat)

  /** nextLineDelimiter */
  function NextDelimiter(text: Text, from: nat): (d: Option<Delimiter>)
    requires from <= |text|
    ensures d.Some? ==> from <= d.value.at < d.value.at + d.value.size <= |text| && 1 <= d.value.size <= 2
    ensures d.Some? ==> text[d.value.at] == LF || text[d.value.at] == CR
    ensures d.Some? ==> (d.value.size == 2 <==> text[d.value.at] == CR && d.value.at + 1 < |text| && text[d.value.at + 1] == LF)
    ensures forall j | from <= j < (if d.Some? then d.value.at else |text|) :: text[j] != LF && text[j] != CR
    decreases |text| - from
  {
    if from == |text| then None
    else if text[from] == LF then Some(Delimiter(from, 1))
    else if text[from] == CR then Some(Delimiter(from, if from + 1 < |text| && text[from + 1] == LF then 2 else 1))
    else NextDelimiter(text, from + 1)
  }

  function LineEnd(text: Text, start: nat): (e: nat)
    requires start <= |text|
    ensures start <= e <= |text|
  {
    var d := NextDelimiter(text, start);
    if d.Some? then d.value.at else |text|
  }

  function LineStart(text: Text, line: nat): (s: Option<nat>)
    ensures s.Some? ==> s.value <= |text|
  {
    if line == 0 then Some(0) else
      var before := LineStart(text, line - 1);
      if before.None? then None else
        var d := NextDelimiter(text, before.value);
        if d.None? then None else Some(d.value.at + d.value.size)
  }

  // ----- the relation both directions compute

  predicate Decodes(text: Text, o: nat) {
    o < |text| ==> RuneStart(text[o]) && Decode(text, o).Rune?
  }

  predicate OnLine(text: Text, o: nat, line: nat) {
    LineStart(text, line).Some? && LineStart(text, line).value <= o <= LineEnd(text, LineStart(text, line).value)
  }

  /** Offset `o` is position `p`: on that line, that many code units of whole runes after its start, and
      at a whole rune or at the end. */
  predicate Located(text: Text, o: nat, p: Position) {
    && p.line >= 0 && p.column >= 0 && o <= |text|
    && OnLine(text, o, p.line)
    && Column(text, LineStart(text, p.line).value, o) == Some(p.column as nat)
    && Decodes(text, o)
  }

  ghost function OffsetAt(text: Text, p: Position): (r: Option<nat>)
    ensures r.Some? <==> exists o :: Located(text, o, p)
    ensures r.Some? ==> Located(text, r.value, p)
  {
    if o: nat :| Located(text, o, p) then Some(o) else None
  }

  ghost function PositionOf(text: Text, o: nat): (r: Option<Position>)
    ensures r.Some? <==> exists p :: Located(text, o, p)
    ensures r.Some? ==> Located(text, o, r.value)
  {
    if p: Position :| Located(text, o, p) then Some(p) else None
  }

  // ----- it is one to one

  /** Every line ends before the next one starts. */
  lemma {:induction false} LinesAscend(text: Text, a: nat, b: nat)
    requires a < b && LineStart(text, b).Some?
    ensures LineStart(text, a).Some? && LineEnd(text, LineStart(text, a).value) < LineStart(text, b).value
    decreases b
  {
    if a < b - 1 {
      LinesAscend(text, a, b - 1);
    }
  }

  lemma OneLine(text: Text, o: nat, a: nat, b: nat)
    requires OnLine(text, o, a) && OnLine(text, o, b)
    ensures a == b
  {
    if a < b { LinesAscend(text, a, b); } else if b < a { LinesAscend(text, b, a); }
  }

  /** Columns add up. */
  lemma {:induction false} ColumnSplits(text: Text, from: nat, mid: nat, until: nat)
    requires from <= mid <= until <= |text| && Column(text, from, mid).Some?
    ensures Column(text, from, until).Some? <==> Column(text, mid, until).Some?
    ensures Column(text, from, until).Some? ==> Column(text, from, until).value == Column(text, from, mid).value + Column(text, mid, until).value
    decreases |text| - from
  {
    if from < mid {
      ColumnSplits(text, from + Decode(text, from).size, mid, until);
    }
  }

  /** The whole runes before a later offset pass through every earlier one that is reached by them. */
  lemma {:induction false} ColumnsNest(text: Text, from: nat, mid: nat, until: nat)
    requires from <= mid <= until <= |text| && Column(text, from, mid).Some? && Column(text, from, until).Some?
    ensures Column(text, from, mid).value <= Column(text, from, until).value
    ensures mid < until ==> Column(text, from, mid).value < Column(text, from, until).value
  {
    ColumnSplits(text, from, mid, until);
    if mid < until {
      assert Column(text, mid, until).value >= Width(Decode(text, mid).value);
    }
  }

  /** A position determines its offset, and an offset its position. */
  lemma LocatedOnce(text: Text, o: nat, p: Position, o': nat, p': Position)
    requires Located(text, o, p) && Located(text, o', p')
    ensures o == o' <==> p == p'
  {
    if o == o' {
      OneLine(text, o, p.line, p'.line);
    }
    if p == p' {
      var s := LineStart(text, p.line).value;
      if o < o' { ColumnsNest(text, s, o, o'); } else if o' < o { ColumnsNest(text, s, o', o); }
    }
  }

  /** Position bijection: on any bytes at all, whenever one direction succeeds the other undoes it. */
  lemma Inverse(text: Text, o: nat, p: Position)
    ensures OffsetAt(text, p) == Some(o) <==> PositionOf(text, o) == Some(p)
  {
    if OffsetAt(text, p) == Some(o) {
      assert Located(text, o, p);
      LocatedOnce(text, o, p, o, PositionOf(text, o).value);
    }
    if PositionOf(text, o) == Some(p) {
      assert Located(text, o, p);
      LocatedOnce(text, o, p, OffsetAt(text, p).value, p);
    }
  }

  // ----- a rune stays within its line

  lemma RuneInLine(text: Text, start: nat, o: nat)
    requires start <= |text| && start <= o < LineEnd(text, start) && Decode(text, o).Rune?
    ensures o + Decode(text, o).size <= LineEnd(text, start)
  {
    var e := LineEnd(text, start);
    assert e < |text| ==> text[e] == LF || text[e] == CR;
  }

  // ----- the two conversions

  method FindDelimiter(text: Text, from: nat) returns (d: Option<Delimiter>)
    requires from <= |text|
    ensures d == NextDelimiter(text, from)
  {
    for i := from to |text|
      invariant NextDelimiter(text, from) == NextDelimiter(text, i)
    {
      if text[i] == LF {
        return Some(Delimiter(i, 1));
      }
      if text[i] == CR {
        if i + 1 < |text| && text[i + 1] == LF {
          return Some(Delimiter(i, 2));
        }
        return Some(Delimiter(i, 1));
      }
    }
    return None;
  }

  lemma NoLaterLine(text: Text, line: nat, later: nat)
    requires LineStart(text, line).None? && line <= later
    ensures LineStart(text, later).None?
    decreases later
  {
    if line < later {
      NoLaterLine(text, line, later - 1);
    }
  }

  method ByteOffset(text: Text, p: Position) returns (r: Option<nat>)
    ensures r == OffsetAt(text, p)
  {
    hide NextDelimiter, Column, Decode, Decodes;
    if p.line < 0 || p.column < 0 {
      return None;
    }
    var line, lineStart := 0, 0;
    while line < p.line
      invariant 0 <= line <= p.line && 0 <= lineStart <= |text| && LineStart(text, line) == Some(lineStart)
    {
      var delim := FindDelimiter(text, lineStart);
      if delim.None? {
        NoLaterLine(text, line + 1, p.line);
        return None;
      }
      lineStart, line := delim.value.at + delim.value.size, line + 1;
    }
    var lineEnd := |text|;
    var delim := FindDelimiter(text, lineStart);
    if delim.Some? {
      lineEnd := delim.value.at;
    }
    r := OffsetOnLine(text, lineStart, lineEnd, p.column);
    if o: nat :| Located(text, o, p) {
      assert r.Some?;
    }
    if r.Some? {
      assert Located(text, r.value, p);
      LocatedOnce(text, r.value, p, OffsetAt(text, p).value, p);
    }
  }

  /** The column loop of ByteOffset. */
  method OffsetOnLine(text: Text, lineStart: nat, lineEnd: nat, target: nat) returns (r: Option<nat>)
    requires lineStart <= |text| && lineEnd == LineEnd(text, lineStart)
    ensures r.Some? ==> lineStart <= r.value <= lineEnd && Column(text, lineStart, r.value) == Some(target) && Decodes(text, r.value)
    ensures r.None? ==> forall o | lineStart <= o <= lineEnd && Decodes(text, o) :: Column(text, lineStart, o) != Some(target)
  {
    var column, offset := 0, lineStart;
    while offset < lineEnd
      invariant lineStart <= offset <= lineEnd && Column(text, lineStart, offset) == Some(column)
      invariant column <= target
      invariant forall o | lineStart <= o < offset && Decodes(text, o) :: Column(text, lineStart, o) != Some(target)
    {
      var d := Decode(text, offset);
      NothingPast(text, lineStart, offset, lineEnd, column, target);
      if d.Bad? {
        return None;
      }
      if column == target {
        FirstByteStarts(text, offset);
        return Some(offset);
      }
      if target < column + Width(d.value) {
        return None;
      }
      RuneInLine(text, lineStart, offset);
      ColumnSplits(text, lineStart, offset, offset + d.size);
      InsideRune(text, offset);
      column, offset := column + Width(d.value), offset + d.size;
    }
    if column == target {
      EndDecodes(text, lineStart);
      return Some(offset);
    }
    return None;
  }

  lemma FirstByteStarts(text: Text, o: nat)
    requires o < |text| && Decode(text, o).Rune?
    ensures RuneStart(text[o])
  {
  }

  lemma EndDecodes(text: Text, start: nat)
    requires start <= |text|
    ensures Decodes(text, LineEnd(text, start))
  {
  }

  /** No whole run of runes ends inside a rune. */
  lemma InsideRune(text: Text, o: nat)
    requires o < |text| && Decode(text, o).Rune?
    ensures forall j | o < j < o + Decode(text, o).size :: !Decodes(text, j)
  {
  }

  /** What the rune at an offset says of every offset after it on the line. */
  lemma NothingPast(text: Text, start: nat, offset: nat, end: nat, column: nat, target: nat)
    requires start <= offset < end <= |text| && Column(text, start, offset) == Some(column) && column <= target
    ensures Decode(text, offset).Bad? ==> forall o | offset < o <= end :: Column(text, start, o).None?
    ensures Decode(text, offset).Bad? ==> !Decodes(text, offset)
    ensures Decode(text, offset).Rune? && target < column + Width(Decode(text, offset).value) ==>
              forall o | offset < o <= end :: Column(text, start, o) != Some(target)
  {
    forall o | offset < o <= end
      ensures Decode(text, offset).Bad? ==> Column(text, start, o).None?
      ensures Decode(text, offset).Rune? && target < column + Width(Decode(text, offset).value) ==> Column(text, start, o) != Some(target)
    {
      ColumnSplits(text, start, offset, o);
    }
  }

  method PositionAt(text: Text, byteOffset: int) returns (r: Option<Position>)
    ensures if 0 <= byteOffset <= |text| then r == PositionOf(text, byteOffset) else r.None?
  {
    if byteOffset < 0 || byteOffset > |text| {
      return None;
    }
    if byteOffset < |text| {
      if !RuneStart(text[byteOffset]) || Decode(text, byteOffset).Bad? {
        return None;
      }
    }
    var found, line, lineStart := FindLine(text, byteOffset);
    if !found {
      return None;
    }
    var column := MeasureColumn(text, lineStart, byteOffset);
    if column.Some? {
      r := Some(Position(line, column.value));
      assert Located(text, byteOffset, r.value);
      LocatedOnce(text, byteOffset, r.value, byteOffset, PositionOf(text, byteOffset).value);
    } else {
      r := None;
      if p: Position :| Located(text, byteOffset, p) {
        OneLine(text, byteOffset, p.line, line);
      }
    }
  }

  /** The line loop of PositionAt: an offset inside a CRLF pair is on no line. */
  method FindLine(text: Text, o: nat) returns (found: bool, line: nat, lineStart: nat)
    requires o <= |text|
    ensures found ==> OnLine(text, o, line) && LineStart(text, line) == Some(lineStart)
    ensures !found ==> forall l: nat :: !OnLine(text, o, l)
  {
    hide NextDelimiter;
    line, lineStart := 0, 0;
    while true
      invariant lineStart <= |text| && LineStart(text, line) == Some(lineStart) && lineStart <= o
      decreases |text| - lineStart
    {
      var delim := FindDelimiter(text, lineStart);
      var lineEnd, nextLineStart := |text|, |text|;
      if delim.Some? {
        lineEnd, nextLineStart := delim.value.at, delim.value.at + delim.value.size;
      }
      if o <= lineEnd {
        return true, line, lineStart;
      }
      if o < nextLineStart {
        forall l: nat ensures !OnLine(text, o, l) { BetweenLines(text, line, o, l); }
        return false, line, lineStart;
      }
      lineStart, line := nextLineStart, line + 1;
    }
  }

  lemma BetweenLines(text: Text, line: nat, o: nat, l: nat)
    requires LineStart(text, line).Some? && LineStart(text, line + 1).Some?
    requires LineEnd(text, LineStart(text, line).value) < o < LineStart(text, line + 1).value
    ensures !OnLine(text, o, l)
  {
    if l < line && LineStart(text, l).Some? {
      LinesAscend(text, l, line);
    } else if l > line + 1 && LineStart(text, l).Some? {
      LinesAscend(text, line + 1, l);
    }
  }

  /** The column loop of PositionAt. */
  method MeasureColumn(text: Text, lineStart: nat, target: nat) returns (r: Option<nat>)
    requires lineStart <= target <= |text| && (target < |text| ==> RuneStart(text[target]))
    ensures r == Column(text, lineStart, target)
  {
    var column, offset := 0, lineStart;
    while offset < target
      invariant lineStart <= offset <= target && Column(text, lineStart, offset) == Some(column)
    {
      var d := Decode(text, offset);
      ColumnSplits(text, lineStart, offset, target);
      if d.Bad? {
        return None;
      }
      assert offset + d.size <= target;
      ColumnSplits(text, lineStart, offset, offset + d.size);
      column, offset := column + Width(d.value), offset + d.size;
    }
    return Some(column);
  }
}
