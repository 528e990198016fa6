/** positionCursor: PositionAt for ascending offsets, in one forward pass. */
module PositionCursors {
  import opened Wrappers
  import opened Positions

  /** `o` is reached from `from` by whole runes. */
  predicate Boundary(text: Text, from: nat, o: nat)
    requires from <= |text|
    decreases |text| - from
  {
    from == o || (from < o && from < |text| && Decode(text, from).Rune? && Boundary(text, from + Decode(text, from).size, o))
  }

  lemma {:induction false} BoundaryInText(text: Text, from: nat, o: nat)
    requires from <= |text| && Boundary(text, from, o)
    ensures from <= o <= |text|
    decreases |text| - from
  {
    if from != o {
      BoundaryInText(text, from + Decode(text, from).size, o);
    }
  }

  /** Of two boundaries, the later one is a boundary as seen from the earlier. */
  lemma {:induction false} BoundariesNest(text: Text, from: nat, a: nat, b: nat)
    requires from <= |text| && Boundary(text, from, a) && Boundary(text, from, b) && a <= b
    ensures a <= |text| && Boundary(text, a, b)
    decreases |text| - from
  {
    BoundaryInText(text, from, a);
    if from != a {
      BoundariesNest(text, from + Decode(text, from).size, a, b);
    }
  }

  lemma {:induction false} BoundaryExtends(text: Text, from: nat, o: nat)
    requires from <= |text| && Boundary(text, from, o) && o < |text| && Decode(text, o).Rune?
    ensures Boundary(text, from, o + Decode(text, o).size)
    decreases |text| - from
  {
    if from != o {
      BoundaryExtends(text, from + Decode(text, from).size, o);
    }
  }

  /** On the way from `from` to `o` by whole runes there are bytes that are none. */
  predicate Broken(text: Text, from: nat, o: nat)
    decreases |text| - from
  {
    from < o && from < |text| && (Decode(text, from).Bad? || Broken(text, from + Decode(text, from).size, o))
  }

  lemma {:induction false} BrokenFrom(text: Text, from: nat, a: nat, o: nat)
    requires from <= |text| && Boundary(text, from, a)
    ensures Broken(text, from, o) <==> Broken(text, a, o)
    decreases |text| - from
  {
    BoundaryInText(text, from, a);
    if from != a {
      BrokenFrom(text, from + Decode(text, from).size, a, o);
    }
  }

  /** A cursor reached by whole runes, on its line and so many code units after its start. */
  predicate Stands(text: Text, offset: nat, line: nat, column: nat) {
    && offset <= |text| && Boundary(text, 0, offset) && OnLine(text, offset, line)
    && Column(text, LineStart(text, line).value, offset) == Some(column)
  }

  lemma StandsFirst(text: Text)
    ensures Stands(text, 0, 0, 0)
  {
  }

  predicate AtDelimiter(text: Text, o: nat) {
    o < |text| && (text[o] == LF || text[o] == CR)
  }

  function DelimiterSize(text: Text, o: nat): nat
    requires o < |text|
  {
    if text[o] == CR && o + 1 < |text| && text[o + 1] == LF then 2 else 1
  }

  /** The delimiter under the cursor ends its line. */
  lemma {:induction false} LineEndsHere(text: Text, s: nat, o: nat)
    requires s <= o && AtDelimiter(text, o) && o <= LineEnd(text, s)
    ensures NextDelimiter(text, s) == Some(Delimiter(o, DelimiterSize(text, o)))
    decreases o - s
  {
    if s < o {
      LineEndsHere(text, s + 1, o);
    }
  }

  lemma AsciiDecodes(text: Text, o: nat)
    requires o < |text| && text[o] < 0x80
    ensures Decode(text, o) == Rune(text[o], 1)
  {
  }

  lemma DelimiterBoundary(text: Text, o: nat)
    requires Boundary(text, 0, o) && AtDelimiter(text, o)
    ensures Boundary(text, 0, o + DelimiterSize(text, o))
  {
    hide Decode, Boundary;
    AsciiDecodes(text, o);
    BoundaryExtends(text, 0, o);
    if DelimiterSize(text, o) == 2 {
      AsciiDecodes(text, o + 1);
      BoundaryExtends(text, 0, o + 1);
    }
  }

  /** Past a delimiter the next line starts. */
  lemma StandsOnNextLine(text: Text, o: nat, line: nat, column: nat)
    requires Stands(text, o, line, column) && AtDelimiter(text, o)
    ensures Stands(text, o + DelimiterSize(text, o), line + 1, 0)
  {
    hide Decode, Boundary, DelimiterSize;
    LineEndsHere(text, LineStart(text, line).value, o);
    DelimiterBoundary(text, o);
  }

  /** Past a rune the cursor is further along its line. */
  lemma StandsPastRune(text: Text, o: nat, line: nat, column: nat)
    requires Stands(text, o, line, column) && o < |text| && !AtDelimiter(text, o) && Decode(text, o).Rune?
    ensures Stands(text, o + Decode(text, o).size, line, column + Width(Decode(text, o).value))
  {
    hide Decode, Boundary, NextDelimiter;
    var d, s := Decode(text, o), LineStart(text, line).value;
    assert o < LineEnd(text, s);
    RuneInLine(text, s, o);
    ColumnSplits(text, s, o, o + d.size);
    BoundaryExtends(text, 0, o);
  }

  /** Inside a CRLF pair there is no position. */
  lemma NoPosition(text: Text, o: nat, line: nat, column: nat)
    requires Stands(text, o, line, column) && AtDelimiter(text, o) && DelimiterSize(text, o) == 2
    ensures o < |text| && PositionOf(text, o + 1).None?
  {
    hide Decode, Boundary, Decodes, DelimiterSize;
    LineEndsHere(text, LineStart(text, line).value, o);
    var inside := o + 1;
    forall p ensures !Located(text, inside, p) {
      if p.line >= 0 { BetweenLines(text, line, inside, p.line); }
    }
  }

  lemma PositionIs(text: Text, o: nat, line: nat, column: nat)
    requires Stands(text, o, line, column)
    ensures PositionOf(text, o) == if Decodes(text, o) then Some(Position(line, column)) else None
  {
    hide Boundary, Column, OnLine, Decodes;
    if Decodes(text, o) {
      assert Located(text, o, Position(line, column));
      LocatedOnce(text, o, Position(line, column), o, PositionOf(text, o).value);
    }
  }

  /** A later boundary is not inside the rune at the cursor. */
  lemma BoundaryAhead(text: Text, o: nat, line: nat, column: nat, target: nat)
    requires Stands(text, o, line, column) && Boundary(text, 0, target) && o < target
    ensures target <= |text| && o < |text| && Decode(text, o).Rune? && o + Decode(text, o).size <= target
  {
    hide Decode, OnLine, Column;
    BoundaryInText(text, 0, target);
    BoundariesNest(text, 0, o, target);
    BoundaryInText(text, o + Decode(text, o).size, target);
  }

  class PositionCursor {
    const text: Text
    var offset: nat
    var line: nat
    var column: nat

    ghost predicate Valid()
      reads this
    {
      Stands(text, offset, line, column)
    }

    constructor (text: Text)
      ensures Valid() && this.text == text && offset == 0
    {
      this.text := text;
      offset, line, column := 0, 0, 0;
      new;
      StandsFirst(text);
    }

    /** Ahead of the cursor: where whole runes lead and another begins, what PositionAt answers, failures
        inside CRLF included; past bytes that are no rune, nothing, also when PositionAt, which decodes the
        target's line only, has an answer; inside a rune or before such bytes, a position, where PositionAt
        fails.  Behind the cursor or past the text there is no answer and the cursor stays. */
    method At(target: int) returns (r: Option<Position>)
      requires Valid()
      modifies this`offset, this`line, this`column
      ensures Valid() && old(offset) <= offset
      ensures target < old(offset) || target > |text| ==> r.None? && offset == old(offset) && line == old(line) && column == old(column)
      ensures old(offset) <= target <= |text| && Boundary(text, 0, target) && Decodes(text, target) ==> r == PositionOf(text, target)
      ensures old(offset) <= target <= |text| && Boundary(text, 0, target) ==> offset <= target
      ensures old(offset) <= target <= |text| && Broken(text, 0, target) ==> r.None?
      ensures old(offset) <= target <= |text| && !Broken(text, 0, target) && !(Boundary(text, 0, target) && Decodes(text, target)) ==>
                r.Some? && PositionOf(text, target).None?
    {
      hide Stands, Boundary, Broken, Decode, Decodes, Width, PositionOf;
      if target < offset || target > |text| {
        return None;
      }
      while offset < target
        invariant Valid() && old(offset) <= offset <= |text|
        invariant offset > target ==> PositionOf(text, target).None? && !Boundary(text, 0, target)
        decreases target - offset
      {
        if text[offset] == LF {
          StandsOnNextLine(text, offset, line, column);
          offset, line, column := offset + 1, line + 1, 0;
        } else if text[offset] == CR {
          StandsOnNextLine(text, offset, line, column);
          if offset + 1 < |text| && text[offset + 1] == LF {
            if target == offset + 1 {
              NoPosition(text, offset, line, column);
              InsidePair(text, offset, line, column);
              return None;
            }
            offset := offset + 1;
          }
          offset, line, column := offset + 1, line + 1, 0;
        } else {
          var d := Decode(text, offset);
          if d.Bad? {
            BadAhead(text, offset, line, column, target);
            return None;
          }
          StandsPastRune(text, offset, line, column);
          InsideNoPosition(text, offset, line, column, target);
          WidthIs(d.value);
          if d.value > 0xFFFF {
            column := column + 1;
          }
          offset, column := offset + d.size, column + 1;
        }
      }
      StandsAtBoundary(text, offset, line, column, target);
      PositionIs(text, offset, line, column);
      return Some(Position(line, column));
    }
  }

  /** Past bytes that are no rune there is no boundary. */
  lemma BadAhead(text: Text, o: nat, line: nat, column: nat, target: nat)
    requires Stands(text, o, line, column) && o < |text| && Decode(text, o).Bad? && o < target <= |text|
    ensures Broken(text, 0, target) && !Boundary(text, 0, target)
  {
    hide Decode, OnLine, Column;
    BrokenFrom(text, 0, o, target);
    if Boundary(text, 0, target) {
      BoundariesNest(text, 0, o, target);
    }
  }

  /** Between CR and LF is a rune boundary. */
  lemma InsidePair(text: Text, o: nat, line: nat, column: nat)
    requires Stands(text, o, line, column) && AtDelimiter(text, o) && DelimiterSize(text, o) == 2
    ensures Boundary(text, 0, o + 1) && Decodes(text, o + 1)
    ensures !Broken(text, 0, o + 1)
  {
    hide Decode, Boundary, Column, OnLine;
    AsciiDecodes(text, o);
    AsciiDecodes(text, o + 1);
    BoundaryExtends(text, 0, o);
    BrokenFrom(text, 0, o + 1, o + 1);
  }

  lemma StandsAtBoundary(text: Text, o: nat, line: nat, column: nat, target: nat)
    requires Stands(text, o, line, column) && target <= o
    ensures o <= |text| && Boundary(text, 0, o) && !Broken(text, 0, target)
  {
    BrokenFrom(text, 0, o, target);
  }

  /** Inside the rune at the cursor there is no boundary and no position. */
  lemma InsideNoPosition(text: Text, o: nat, line: nat, column: nat, target: nat)
    requires Stands(text, o, line, column) && o < |text| && Decode(text, o).Rune? && o < target
    ensures target < o + Decode(text, o).size ==> PositionOf(text, target).None? && !Boundary(text, 0, target)
  {
    hide Decode, Column, OnLine, Decodes, Boundary;
    if target < o + Decode(text, o).size {
      InsideRune(text, o);
      NotAhead(text, o, line, column, target);
    }
  }

  lemma NotAhead(text: Text, o: nat, line: nat, column: nat, target: nat)
    requires Stands(text, o, line, column) && o < |text| && Decode(text, o).Rune? && o < target < o + Decode(text, o).size
    ensures !Boundary(text, 0, target)
  {
    hide Decode, OnLine, Column, Boundary;
    if Boundary(text, 0, target) {
      BoundaryAhead(text, o, line, column, target);
    }
  }

  lemma WidthIs(r: nat)
    ensures Width(r) == if r > 0xFFFF then 2 else 1
  {
  }
}
