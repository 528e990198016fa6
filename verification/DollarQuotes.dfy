/** tokenizeDollarQuotedString: the streaming matcher for PostgreSQL dollar-quoted literals
    (section 4.1.2.4 of the PostgreSQL documentation). */
module DollarQuotes {
  import opened Wrappers

  datatype TokenKind = Char | SingleQuotedString

  predicate IsTagStart(r: char) {
    r == '_' || 'a' <= r <= 'z' || 'A' <= r <= 'Z'
  }

  predicate IsTagPart(r: char) {
    IsTagStart(r) || '0' <= r <= '9'
  }

  /** The text from `i` on is the delimiter. */
  predicate Occurs(text: string, d: string, i: nat) {
    i + |d| <= |text| && text[i..i + |d|] == d
  }

  // ----- what the literal should be

  /** How many tag characters follow. */
  function TagLength(text: string, from: nat): (k: nat)
    requires from <= |text|
    ensures from + k <= |text|
    ensures forall j | from <= j < from + k :: IsTagPart(text[j])
    ensures from + k < |text| ==> !IsTagPart(text[from + k])
    decreases |text| - from
  {
    if from < |text| && IsTagPart(text[from]) then 1 + TagLength(text, from + 1) else 0
  }

  /** The opening delimiter at `start`, if the dollar there opens a literal: "$$", or "$tag$". */
  function Opening(text: string, start: nat): Option<string>
    requires start < |text| && text[start] == '$'
  {
    if start + 1 == |text| then None
    else if text[start + 1] == '$' then Some("$$")
    else if !IsTagStart(text[start + 1]) then None
    else
      var k := TagLength(text, start + 1);
      if start + 1 + k < |text| && text[start + 1 + k] == '$' then Some(text[start..start + k + 2]) else None
  }

  /** `end` is the end of the literal that opens with `d` at `start`: the first occurrence of the
      delimiter after it closes the literal, and without one it goes on to the end of the input. */
  ghost predicate LiteralEnds(text: string, start: nat, d: string, end: nat) {
    start + |d| <= end <= |text| && (ClosedAt(text, d, start + |d|, end) || (end == |text| && Unclosed(text, d, start + |d|)))
  }

  /** The first occurrence of the delimiter from `body` on ends at `end`. */
  predicate ClosedAt(text: string, d: string, body: nat, end: nat) {
    body + |d| <= end && Occurs(text, d, end - |d|) && NoneStarts(text, d, body, end - |d|)
  }

  predicate NoneStarts(text: string, d: string, body: nat, until: int) {
    forall i | body <= i < until :: !Occurs(text, d, i)
  }

  predicate Unclosed(text: string, d: string, body: nat) {
    NoneStarts(text, d, body, |text|)
  }

  lemma NoLaterEnd(text: string, start: nat, d: string, end: nat, other: nat)
    requires d != "" && LiteralEnds(text, start, d, end)
    ensures end < other ==> !LiteralEnds(text, start, d, other)
  {
    assert end < |text| ==> Occurs(text, d, end - |d|);
  }

  /** The text decides where a literal ends. */
  lemma EndsOnce(text: string, start: nat, d: string, end: nat, other: nat)
    requires d != "" && LiteralEnds(text, start, d, end) && LiteralEnds(text, start, d, other)
    ensures end == other
  {
    hide LiteralEnds;
    NoLaterEnd(text, start, d, end, other);
    NoLaterEnd(text, start, d, other, end);
  }

  // ----- lines and columns

  datatype Place = Place(line: int, column: int, lastWasCR: bool)

  /** advanceQuotedRune */
  function Advanced(p: Place, r: char): Place {
    if r == '\r' then Place(p.line + 1, 0, true)
    else if r == '\n' then Place(if p.lastWasCR then p.line else p.line + 1, 0, false)
    else Place(p.line, p.column + 1, false)
  }

  function AdvancedAll(p: Place, s: string): Place {
    if s == "" then p else Advanced(AdvancedAll(p, s[..|s| - 1]), s[|s| - 1])
  }

  // ----- what is an opening delimiter, and where the runes lead

  /** A dollar, a tag that is empty or an identifier without dollars, and a dollar. */
  predicate IsDelimiter(d: string) {
    && |d| >= 2 && d[0] == '$' && d[|d| - 1] == '$'
    && (|d| > 2 ==> IsTagStart(d[1])) && forall i | 1 <= i < |d| - 1 :: IsTagPart(d[i])
  }

  /** A literal opens with exactly the delimiter that stands there, if one does. */
  lemma OpeningIsDelimiter(text: string, start: nat, d: string)
    requires start < |text| && text[start] == '$'
    ensures Opening(text, start) == Some(d) <==> IsDelimiter(d) && Occurs(text, d, start)
  {
    if start + 1 < |text| && text[start + 1] != '$' {
      var k := TagLength(text, start + 1);
      if IsDelimiter(d) && Occurs(text, d, start) {
        assert forall i | 0 <= i < |d| :: text[start + i] == text[start..start + |d|][i] == d[i];
        assert !IsTagPart(text[start + |d| - 1]) && IsTagPart(text[start + 1]);
        assert k == |d| - 2;
      }
    } else if IsDelimiter(d) && Occurs(text, d, start) {
      assert forall i | 0 <= i < |d| :: text[start + i] == text[start..start + |d|][i] == d[i];
    }
    if start + 1 < |text| && text[start + 1] == '$' { assert text[start..start + 2] == "$$"; }
  }

  /** A line ends at a CR, and at an LF that no CR comes before. */
  predicate NewLine(s: string, i: nat, afterCR: bool) {
    i < |s| && (s[i] == '\r' || (s[i] == '\n' && !if i == 0 then afterCR else s[i - 1] == '\r'))
  }

  function NewLines(s: string, n: nat, afterCR: bool): nat {
    if n == 0 then 0 else NewLines(s, n - 1, afterCR) + if NewLine(s, n - 1, afterCR) then 1 else 0
  }

  /** `k` runes follow the last CR or LF, or are all there are. */
  predicate RunesAfterBreak(s: string, k: nat) {
    && k <= |s| && (forall i | |s| - k <= i < |s| :: s[i] != '\r' && s[i] != '\n')
    && (k < |s| ==> s[|s| - k - 1] == '\r' || s[|s| - k - 1] == '\n')
  }

  lemma NewLinesStay(s: string, c: char, n: nat, afterCR: bool)
    requires n <= |s|
    ensures NewLines(s + [c], n, afterCR) == NewLines(s, n, afterCR)
  {
  }

  /** Where a token ends: as many lines further as end in it, a CRLF pair counted once; and in the column of the
      runes after its last line break, or as many columns further if it has none. */
  lemma {:induction false} PlaceMeans(p: Place, s: string, k: nat)
    requires RunesAfterBreak(s, k)
    ensures var q := AdvancedAll(p, s);
            && q.line == p.line + NewLines(s, |s|, p.lastWasCR)
            && q.column == (if k == |s| then p.column + k else k)
            && q.lastWasCR == if s == "" then p.lastWasCR else s[|s| - 1] == '\r'
  {
    if s != "" {
      var front, last := s[..|s| - 1], s[|s| - 1];
      var j := AfterBreak(front);
      PlaceMeans(p, front, j);
      NewLinesStay(front, last, |front|, p.lastWasCR);
      assert s == front + [last];
      if k > 0 {
        assert RunesAfterBreak(front, k - 1);
        OneBreak(front, j, k - 1);
      }
    }
  }

  lemma OneBreak(s: string, j: nat, k: nat)
    requires RunesAfterBreak(s, j) && RunesAfterBreak(s, k)
    ensures j == k
  {
  }

  lemma AfterBreak(s: string) returns (k: nat)
    ensures RunesAfterBreak(s, k)
  {
    k := 0;
    if s != "" && s[|s| - 1] != '\r' && s[|s| - 1] != '\n' {
      var j := AfterBreak(s[..|s| - 1]);
      k := j + 1;
    }
  }

  // ----- the matcher

  /** The last `k` runes of `s` begin the delimiter. */
  predicate SuffixFits(s: string, d: string, k: nat) {
    k <= |s| && s[|s| - k..] <= d
  }

  /** `pending` is the longest suffix of what was consumed that is a prefix of the delimiter. */
  ghost predicate Pending(consumed: string, d: string, pending: string) {
    && |pending| <= |consumed| && pending == consumed[|consumed| - |pending|..] && pending <= d
    && NoneLonger(consumed, d, |pending|)
  }

  predicate NoneLonger(s: string, d: string, k: nat) {
    forall j | k < j <= |s| :: !SuffixFits(s, d, j)
  }

  lemma Mismatch(value: string, prefix: string, i: nat)
    requires i < |value| <= |prefix| && value[i] != prefix[i]
    ensures !(value <= prefix)
  {
  }

  method RunesPrefix(value: string, prefix: string) returns (fits: bool)
    ensures fits <==> value <= prefix
  {
    if |value| > |prefix| {
      return false;
    }
    for i := 0 to |value|
      invariant value[..i] == prefix[..i]
    {
      if value[i] != prefix[i] {
        Mismatch(value, prefix, i);
        return false;
      }
    }
    assert value[..|value|] == value;
    return true;
  }

  /** A suffix that begins the delimiter did so without the last rune, too. */
  lemma FrontFits(consumed: string, d: string, r: char, k: nat)
    requires 1 <= k && SuffixFits(consumed + [r], d, k)
    ensures SuffixFits(consumed, d, k - 1)
  {
    var all := consumed + [r];
    var suffix := all[|all| - k..];
    assert consumed[|consumed| - (k - 1)..] == suffix[..k - 1];
    assert suffix[..k - 1] == d[..k - 1];
  }

  lemma NoLongerSuffix(consumed: string, d: string, pending: string, r: char)
    requires Pending(consumed, d, pending)
    ensures NoneLonger(consumed + [r], d, |pending| + 1)
  {
    forall k | |pending| + 1 < k <= |consumed| + 1 ensures !SuffixFits(consumed + [r], d, k) {
      if SuffixFits(consumed + [r], d, k) {
        FrontFits(consumed, d, r, k);
      }
    }
  }

  lemma DropFirst(body: string, pending: string, all: string)
    requires body + pending == all && pending != ""
    ensures (body + [pending[0]]) + pending[1..] == all
  {
  }

  /** Shorten `pending` and a new rune from the front until it is a prefix of the delimiter again. */
  method Shift(body: string, pending: string, r: char, d: string, ghost consumed: string) returns (body': string, pending': string)
    requires Pending(consumed, d, pending) && body + pending == consumed
    ensures Pending(consumed + [r], d, pending') && body' + pending' == consumed + [r]
  {
    hide NoneLonger, SuffixFits;
    ghost var all := consumed + [r];
    body', pending' := body, pending + [r];
    NoLongerSuffix(consumed, d, pending, r);
    assert body' + pending' == all;
    while |pending'| > 0
      invariant body' + pending' == all && |pending'| <= |all|
      invariant NoneLonger(all, d, |pending'|)
    {
      SuffixOf(body', pending', all);
      var fits := RunesPrefix(pending', d);
      if fits {
        return;
      }
      OneShorter(all, d, pending');
      DropFirst(body', pending', all);
      body', pending' := body' + [pending'[0]], pending'[1..];
    }
    assert all[|all|..] == "";
  }

  lemma OneShorter(all: string, d: string, pending: string)
    requires 0 < |pending| <= |all| && all[|all| - |pending|..] == pending && !(pending <= d) && NoneLonger(all, d, |pending|)
    ensures NoneLonger(all, d, |pending| - 1)
  {
  }

  lemma SuffixOf(body: string, pending: string, all: string)
    requires body + pending == all
    ensures |pending| <= |all| && all[|all| - |pending|..] == pending
  {
  }

  /** A delimiter ends exactly when all of it is pending. */
  lemma EndsWhenPending(text: string, start: nat, pos: nat, d: string, pending: string)
    requires start <= pos <= |text| && d != "" && Pending(text[start..pos], d, pending)
    ensures |pending| == |d| <==> pos - start >= |d| && Occurs(text, d, pos - |d|)
  {
    var consumed := text[start..pos];
    if |pending| == |d| {
      assert pending == d;
      assert text[pos - |d|..pos] == consumed[|consumed| - |d|..];
    }
    if pos - start >= |d| && Occurs(text, d, pos - |d|) {
      assert consumed[|consumed| - |d|..] == text[pos - |d|..pos] == d;
      assert SuffixFits(consumed, d, |d|);
    }
  }

  /** No delimiter has ended by `at`. */
  predicate NoneBefore(text: string, d: string, body: nat, at: nat) {
    NoneStarts(text, d, body, at - |d| + 1)
  }

  /** Between two runes: everything from `from` to `pos` is in `body` and `pending`, and no delimiter has ended yet. */
  ghost predicate Matching(text: string, d: string, from: nat, pos: nat, body: string, pending: string) {
    && from <= pos <= |text| && body + pending == text[from..pos] && |pending| < |d|
    && Pending(text[from..pos], d, pending) && NoneBefore(text, d, from, pos)
  }

  lemma OneMoreStart(text: string, d: string, from: nat, pos: nat)
    requires d != "" && from <= pos < |text| && NoneBefore(text, d, from, pos)
    ensures pos + 1 - from < |d| || !Occurs(text, d, pos + 1 - |d|) ==> NoneBefore(text, d, from, pos + 1)
    ensures NoneStarts(text, d, from, pos + 1 - |d|)
  {
  }

  /** What one more rune does: the first delimiter ends there, or matching goes on. */
  lemma OneMore(text: string, d: string, from: nat, pos: nat, body: string, pending: string, body': string, pending': string)
    requires pos < |text| && Matching(text, d, from, pos, body, pending)
    requires Pending(text[from..pos] + [text[pos]], d, pending') && body' + pending' == text[from..pos] + [text[pos]]
    ensures |pending'| == |d| ==> ClosedAt(text, d, from, pos + 1)
    ensures |pending'| != |d| ==> Matching(text, d, from, pos + 1, body', pending')
  {
    hide NoneLonger, SuffixFits, NoneStarts, Occurs;
    assert text[from..pos + 1] == text[from..pos] + [text[pos]];
    EndsWhenPending(text, from, pos + 1, d, pending');
    OneMoreStart(text, d, from, pos);
  }

  /** The literal is its delimiter, what was consumed, and nothing else. */
  lemma Verbatim(text: string, start: nat, d: string, pos: nat, body: string, pending: string)
    requires start + |d| <= pos <= |text| && text[start..start + |d|] == d && body + pending == text[start + |d|..pos]
    ensures text[start..pos] == d + (body + pending) == d + body + pending
  {
    assert text[start..pos] == text[start..start + |d|] + text[start + |d|..pos];
  }

  lemma AdvancedOnce(p: Place, text: string, from: nat, pos: nat)
    requires from <= pos < |text|
    ensures AdvancedAll(p, text[from..pos + 1]) == Advanced(AdvancedAll(p, text[from..pos]), text[pos])
  {
    var s := text[from..pos + 1];
    assert s[..|s| - 1] == text[from..pos];
  }

  lemma NothingYet(text: string, d: string, from: nat, p: Place)
    requires from <= |text| && d != ""
    ensures Matching(text, d, from, from, "", "") && AdvancedAll(p, text[from..from]) == p
  {
    assert text[from..from] == "";
    assert NoneLonger("", d, 0);
  }

  lemma ClosingDelimiter(text: string, d: string, from: nat, pos: nat, pending: string)
    requires from < pos <= |text| && Pending(text[from..pos - 1] + [text[pos - 1]], d, pending)
    ensures |pending| == |d| ==> pending == d
    ensures text[from..pos] == text[from..pos - 1] + [text[pos - 1]]
  {
  }

  lemma NeverClosed(text: string, start: nat, d: string, body: string, pending: string)
    requires start + |d| <= |text| && text[start..start + |d|] == d && d != ""
    requires Matching(text, d, start + |d|, |text|, body, pending)
    ensures LiteralEnds(text, start, d, |text|) && text[start..|text|] == d + (body + pending)
  {
    hide Pending;
    Verbatim(text, start, d, |text|, body, pending);
  }

  lemma BareDelimiter(text: string, start: nat)
    requires start + 1 < |text| && text[start] == '$' == text[start + 1]
    ensures Opening(text, start) == Some("$$") && text[start..start + 2] == "$$"
  {
  }

  lemma TaggedDelimiter(text: string, start: nat, end: nat)
    requires start + 1 < |text| && text[start] == '$' && IsTagStart(text[start + 1]) && end == start + 1 + TagLength(text, start + 1)
    ensures end <= |text|
    ensures if end < |text| && text[end] == '$'
              then Opening(text, start) == Some(text[start..end + 1]) && text[start..end + 1] == text[start..end] + [text[end]]
            else Opening(text, start) == None
  {
  }

  lemma NoDelimiter(text: string, start: nat)
    requires start < |text| && text[start] == '$'
    requires start + 1 == |text| || (text[start + 1] != '$' && !IsTagStart(text[start + 1]))
    ensures Opening(text, start) == None && text[start..start + 1] == "$"
  {
  }

  class Tokenizer {
    const text: string
    var pos: nat
    var line: int
    var col: int

    constructor (text: string)
      ensures this.text == text && pos == 0 && line == 0 && col == 0
    {
      this.text := text;
      pos, line, col := 0, 0, 0;
    }

    /** At a dollar.  Either no literal opens there and the dollar, with the tag characters after it, is
        a token by itself; or the token is the literal, verbatim from its opening delimiter to the end
        of the first closing one, or of the input. */
    method TokenizeDollarQuotedString() returns (kind: TokenKind, token: string)
      requires pos < |text| && text[pos] == '$'
      modifies this`pos, this`line, this`col
      ensures old(pos) < pos <= |text| && token == text[old(pos)..pos]
      ensures kind == SingleQuotedString <==> Opening(text, old(pos)).Some?
      ensures kind == SingleQuotedString ==>
                var d := Opening(text, old(pos)).value;
                && LiteralEnds(text, old(pos), d, pos)
                && PlacedAt(AdvancedAll(Place(old(line), old(col) + |d|, false), text[old(pos) + |d|..pos]))
      ensures kind == Char ==> pos == old(pos) + 1 + (if old(pos) + 1 < |text| && IsTagStart(text[old(pos) + 1]) then TagLength(text, old(pos) + 1) else 0)
      ensures kind == Char ==> line == old(line) && col == old(col) + |token|
    {
      hide Opening, LiteralEnds, AdvancedAll, TagLength, IsTagStart;
      ghost var start := pos;
      var delimiter := "$";
      pos, col := pos + 1, col + 1;
      if pos < |text| && text[pos] == '$' {
        delimiter := "$$";
        pos, col := pos + 1, col + 1;
        BareDelimiter(text, start);
      } else if pos < |text| && IsTagStart(text[pos]) {
        delimiter := ReadTag(delimiter, start);
        TaggedDelimiter(text, start, pos);
        if !(pos < |text| && text[pos] == '$') {
          return Char, delimiter;
        }
        delimiter := delimiter + [text[pos]];
        pos, col := pos + 1, col + 1;
      } else {
        NoDelimiter(text, start);
        return Char, "$";
      }
      token := ReadBody(delimiter, start);
      return SingleQuotedString, token;
    }

    method ReadTag(dollar: string, ghost start: nat) returns (delimiter: string)
      requires start + 1 == pos <= |text| && dollar == text[start..pos]
      modifies this`pos, this`col
      ensures pos == old(pos) + TagLength(text, old(pos)) && delimiter == text[start..pos] && col == old(col) + (pos - old(pos))
    {
      delimiter := dollar;
      while pos < |text| && IsTagPart(text[pos])
        invariant old(pos) <= pos <= |text| && delimiter == text[start..pos] && col == old(col) + (pos - old(pos))
        invariant TagLength(text, old(pos)) == pos - old(pos) + TagLength(text, pos)
        decreases |text| - pos
      {
        delimiter := delimiter + [text[pos]];
        pos, col := pos + 1, col + 1;
      }
    }

    method ReadBody(d: string, ghost start: nat) returns (token: string)
      requires start + |d| == pos <= |text| && text[start..pos] == d && d != ""
      modifies this`pos, this`line, this`col
      ensures old(pos) <= pos <= |text| && token == text[start..pos] && LiteralEnds(text, start, d, pos)
      ensures PlacedAt(AdvancedAll(Place(old(line), old(col), false), text[old(pos)..pos]))
    {
      hide Pending, NoneBefore, ClosedAt, NoneStarts, Advanced, AdvancedAll;
      ghost var from := pos;
      var body, pending, lastWasCR := "", "", false;
      ghost var first := Place(line, col, false);
      NothingYet(text, d, from, first);
      while pos < |text|
        invariant Matching(text, d, from, pos, body, pending)
        invariant AdvancedAll(first, text[from..pos]) == Place(line, col, lastWasCR)
        decreases |text| - pos
      {
        var r := text[pos];
        AdvancedOnce(first, text, from, pos);
        lastWasCR := Advance(r, lastWasCR);
        var body', pending' := Shift(body, pending, r, d, text[from..pos]);
        OneMore(text, d, from, pos, body, pending, body', pending');
        ClosingDelimiter(text, d, from, pos + 1, pending');
        body, pending, pos := body', pending', pos + 1;
        if |pending| == |d| {
          Verbatim(text, start, d, pos, body, pending);
          return d + body + d;
        }
      }
      NeverClosed(text, start, d, body, pending);
      return d + (body + pending);
    }

    ghost predicate PlacedAt(p: Place)
      reads this`line, this`col
    {
      line == p.line && col == p.column
    }

    method Advance(r: char, lastWasCR: bool) returns (nextWasCR: bool)
      modifies this`line, this`col
      ensures Place(line, col, nextWasCR) == Advanced(Place(old(line), old(col), lastWasCR), r)
    {
      if r == '\r' {
        line, col := line + 1, 0;
        return true;
      }
      if r == '\n' {
        if !lastWasCR {
          line := line + 1;
        }
        col := 0;
        return false;
      }
      col := col + 1;
      return false;
    }
  }
}
