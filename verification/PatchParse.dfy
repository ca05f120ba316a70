/** Reading and writing the unified diff format, line by line. */
module PatchParse {
  import opened Common
  import opened PatchApply

  datatype FormatError =
    | NoHunks
    | MalformedHeader
    | UnexpectedEnd
    | MalformedLine
    | ExceedsOldCount
    | ExceedsNewCount

  // ----- numbers -----

  predicate IsDigit(c: char) {
    '0' <= c <= '9'
  }

  function DigitOf(c: char): nat
    requires IsDigit(c)
  {
    (c - '0') as nat
  }

  function CharOf(d: nat): (c: char)
    requires d < 10
    ensures IsDigit(c) && DigitOf(c) == d
  {
    '0' + d as char
  }

  /** How many digits a string starts with. */
  function Span(s: string): (n: nat)
    ensures n <= |s| && forall i :: 0 <= i < n ==> IsDigit(s[i])
  {
    if s == "" || !IsDigit(s[0]) then 0 else 1 + Span(s[1..])
  }

  function NumberOf(s: string): nat
    requires forall i :: 0 <= i < |s| ==> IsDigit(s[i])
  {
    if s == "" then 0 else NumberOf(s[..|s| - 1]) * 10 + DigitOf(s[|s| - 1])
  }

  function Decimal(n: nat): (s: string)
    ensures |s| > 0 && forall i :: 0 <= i < |s| ==> IsDigit(s[i])
    ensures NumberOf(s) == n
  {
    if n < 10 then [CharOf(n)] else Decimal(n / 10) + [CharOf(n % 10)]
  }

  /** A non-empty run of digits and the text behind it. */
  function ReadNumber(s: string): Option<(nat, string)> {
    var n := Span(s);
    if n == 0 then None else Some((NumberOf(s[..n]), s[n..]))
  }

  lemma {:induction false} SpanStops(digits: string, rest: string)
    requires forall i :: 0 <= i < |digits| ==> IsDigit(digits[i])
    requires rest == "" || !IsDigit(rest[0])
    ensures Span(digits + rest) == |digits|
  {
    if digits == "" {
      assert digits + rest == rest;
    } else {
      assert (digits + rest)[1..] == digits[1..] + rest;
      SpanStops(digits[1..], rest);
    }
  }

  lemma {:induction false} NumberReadsBack(n: nat, rest: string)
    requires rest == "" || !IsDigit(rest[0])
    ensures ReadNumber(Decimal(n) + rest) == Some((n, rest))
  {
    var s := Decimal(n) + rest;
    SpanStops(Decimal(n), rest);
    assert s[..|Decimal(n)|] == Decimal(n) && s[|Decimal(n)|..] == rest;
  }

  // ----- hunk headers -----

  /** `start` or `start,count`; a missing count is one. */
  function ReadRange(s: string): Option<(nat, nat, string)> {
    match ReadNumber(s)
    case None => None
    case Some((start, rest)) =>
      if rest != "" && rest[0] == ',' && ReadNumber(rest[1..]).Some? then
        var (count, rest2) := ReadNumber(rest[1..]).value;
        Some((start, count, rest2))
      else Some((start, 1, rest))
  }

  const OPEN := "@@ -"
  const BETWEEN := " +"
  const CLOSE := " @@"

  /** The four numbers of a header that matches the pattern; text after it is ignored. */
  function ReadHeader(line: string): Option<(nat, nat, nat, nat)> {
    if !(OPEN <= line) then None
    else
      match ReadRange(line[|OPEN|..])
      case None => None
      case Some((oldStart, oldCount, rest)) =>
        if !(BETWEEN <= rest) then None
        else
          match ReadRange(rest[|BETWEEN|..])
          case None => None
          case Some((newStart, newCount, rest2)) =>
            if CLOSE <= rest2 then Some((oldStart, oldCount, newStart, newCount)) else None
  }

  function WriteRange(start: nat, count: nat): string {
    Decimal(start) + ("," + Decimal(count))
  }

  function WriteHeader(oldStart: nat, oldCount: nat, newStart: nat, newCount: nat): string {
    OPEN + (WriteRange(oldStart, oldCount) + (BETWEEN + (WriteRange(newStart, newCount) + CLOSE)))
  }

  lemma {:induction false} RangeReadsBack(start: nat, count: nat, rest: string)
    requires rest == "" || !IsDigit(rest[0])
    ensures ReadRange(WriteRange(start, count) + rest) == Some((start, count, rest))
  {
    var tail := "," + (Decimal(count) + rest);
    assert WriteRange(start, count) + rest == Decimal(start) + tail;
    NumberReadsBack(start, tail);
    assert tail[1..] == Decimal(count) + rest;
    NumberReadsBack(count, rest);
  }

  lemma {:induction false} HeaderReadsBack(oldStart: nat, oldCount: nat, newStart: nat, newCount: nat)
    ensures ReadHeader(WriteHeader(oldStart, oldCount, newStart, newCount))
            == Some((oldStart, oldCount, newStart, newCount))
  {
    var second := WriteRange(newStart, newCount) + CLOSE;
    var first := WriteRange(oldStart, oldCount) + (BETWEEN + second);
    var line := OPEN + first;
    assert line[|OPEN|..] == first && OPEN <= line;
    RangeReadsBack(oldStart, oldCount, BETWEEN + second);
    assert (BETWEEN + second)[|BETWEEN|..] == second && BETWEEN <= BETWEEN + second;
    RangeReadsBack(newStart, newCount, CLOSE);
  }

  // ----- which headers are read -----

  ghost predicate IsNumeral(t: string, n: nat) {
    t != "" && (forall i :: 0 <= i < |t| ==> IsDigit(t[i])) && NumberOf(t) == n
  }

  /** `start` with a count of one, or `start,count`. */
  ghost predicate IsRange(t: string, start: nat, count: nat) {
    || (IsNumeral(t, start) && count == 1)
    || exists a, b :: t == a + ("," + b) && IsNumeral(a, start) && IsNumeral(b, count)
  }

  /** The pattern `@@ -range +range @@`, with anything behind it. */
  ghost predicate IsHeader(line: string, oldStart: nat, oldCount: nat, newStart: nat, newCount: nat) {
    exists a, b, tail ::
      line == OPEN + (a + (BETWEEN + (b + (CLOSE + tail))))
      && IsRange(a, oldStart, oldCount) && IsRange(b, newStart, newCount)
  }

  lemma {:induction false} SpanIsMaximal(s: string)
    ensures Span(s) == |s| || !IsDigit(s[Span(s)])
  {
    if s != "" && IsDigit(s[0]) {
      SpanIsMaximal(s[1..]);
    }
  }

  lemma NumeralIsRead(t: string, n: nat, rest: string)
    requires IsNumeral(t, n) && (rest == "" || !IsDigit(rest[0]))
    ensures ReadNumber(t + rest) == Some((n, rest))
  {
    SpanStops(t, rest);
    assert (t + rest)[..|t|] == t && (t + rest)[|t|..] == rest;
  }

  lemma ReadIsNumeral(s: string)
    requires ReadNumber(s).Some?
    ensures s == s[..Span(s)] + ReadNumber(s).value.1 && IsNumeral(s[..Span(s)], ReadNumber(s).value.0)
  {
  }

  lemma RangeIsRead(t: string, start: nat, count: nat, rest: string)
    requires IsRange(t, start, count) && (rest == "" || (!IsDigit(rest[0]) && rest[0] != ','))
    ensures ReadRange(t + rest) == Some((start, count, rest))
  {
    if IsNumeral(t, start) && count == 1 {
      NumeralIsRead(t, start, rest);
    } else {
      var a, b :| t == a + ("," + b) && IsNumeral(a, start) && IsNumeral(b, count);
      var tail := "," + (b + rest);
      assert t + rest == a + tail;
      NumeralIsRead(a, start, tail);
      assert tail[1..] == b + rest;
      NumeralIsRead(b, count, rest);
    }
  }

  lemma ReadIsRange(s: string) returns (t: string)
    requires ReadRange(s).Some?
    ensures s == t + ReadRange(s).value.2 && IsRange(t, ReadRange(s).value.0, ReadRange(s).value.1)
  {
    ReadIsNumeral(s);
    var (start, rest) := ReadNumber(s).value;
    t := s[..Span(s)];
    if rest != "" && rest[0] == ',' && ReadNumber(rest[1..]).Some? {
      ReadIsNumeral(rest[1..]);
      var a, b := t, rest[1..][..Span(rest[1..])];
      assert rest == "," + rest[1..];
      assert rest == "," + b + ReadNumber(rest[1..]).value.1;
      t := a + ("," + b);
    }
  }

  /** Exactly the lines of this form are headers; a range without a count stands for one line. */
  lemma HeaderIsReadIff(line: string, oldStart: nat, oldCount: nat, newStart: nat, newCount: nat)
    ensures ReadHeader(line) == Some((oldStart, oldCount, newStart, newCount))
            <==> IsHeader(line, oldStart, oldCount, newStart, newCount)
  {
    if IsHeader(line, oldStart, oldCount, newStart, newCount) {
      WrittenHeaderIsRead(line, oldStart, oldCount, newStart, newCount);
    }
    if ReadHeader(line) == Some((oldStart, oldCount, newStart, newCount)) {
      ReadHeaderIsWritten(line);
    }
  }

  lemma WrittenHeaderIsRead(line: string, oldStart: nat, oldCount: nat, newStart: nat, newCount: nat)
    requires IsHeader(line, oldStart, oldCount, newStart, newCount)
    ensures ReadHeader(line) == Some((oldStart, oldCount, newStart, newCount))
  {
    var a, b, tail :|
      line == OPEN + (a + (BETWEEN + (b + (CLOSE + tail))))
      && IsRange(a, oldStart, oldCount) && IsRange(b, newStart, newCount);
    var end := CLOSE + tail;
    var second := BETWEEN + (b + end);
    assert line[|OPEN|..] == a + second && OPEN <= line;
    RangeIsRead(a, oldStart, oldCount, second);
    assert second[|BETWEEN|..] == b + end && BETWEEN <= second;
    RangeIsRead(b, newStart, newCount, end);
  }

  lemma ReadHeaderIsWritten(line: string)
    requires ReadHeader(line).Some?
    ensures var (oldStart, oldCount, newStart, newCount) := ReadHeader(line).value;
            IsHeader(line, oldStart, oldCount, newStart, newCount)
  {
    var first := line[|OPEN|..];
    var a := ReadIsRange(first);
    var rest := ReadRange(first).value.2;
    var second := rest[|BETWEEN|..];
    var b := ReadIsRange(second);
    var end := ReadRange(second).value.2;
    FrontAndRest(OPEN, line);
    FrontAndRest(BETWEEN, rest);
    FrontAndRest(CLOSE, end);
    var tail := end[|CLOSE|..];
    assert second == b + (CLOSE + tail);
    assert line == OPEN + (a + (BETWEEN + (b + (CLOSE + tail))));
  }

  lemma FrontAndRest(front: string, s: string)
    requires front <= s
    ensures s == front + s[|front|..]
  {
  }

  // ----- hunk bodies -----

  function ReadLine(s: string): Option<Line> {
    if s == "" then None
    else if s[0] == ' ' then Some(Context(s[1..]))
    else if s[0] == '+' then Some(Add(s[1..]))
    else if s[0] == '-' then Some(Remove(s[1..]))
    else None
  }

  function WriteLine(line: Line): string {
    match line
    case Context(t) => " " + t
    case Add(t) => "+" + t
    case Remove(t) => "-" + t
  }

  lemma {:induction false} LineReadsBack(line: Line)
    ensures ReadLine(WriteLine(line)) == Some(line)
  {
    assert WriteLine(line)[1..] == line.text;
  }

  /** A body line is a text with a space, a plus or a minus in front, and nothing else is. */
  lemma {:induction false} LineIsReadIff(s: string, line: Line)
    ensures ReadLine(s) == Some(line)
            <==> s == [if line.Context? then ' ' else if line.Add? then '+' else '-'] + line.text
  {
    if s != "" {
      assert s == [s[0]] + s[1..];
    }
  }

  /** Body lines until both counts are reached, and the lines behind them.  Added and
      removed lines may not exceed their count; a context line may. */
  function ReadBody(lines: seq<string>, oldLeft: int, newLeft: int): Result<(seq<Line>, seq<string>), FormatError>
    decreases |lines|
  {
    if oldLeft <= 0 && newLeft <= 0 then Ok(([], lines))
    else if lines == [] then Err(UnexpectedEnd)
    else
      match ReadLine(lines[0])
      case None => Err(MalformedLine)
      case Some(line) =>
        if line.Remove? && oldLeft <= 0 then Err(ExceedsOldCount)
        else if line.Add? && newLeft <= 0 then Err(ExceedsNewCount)
        else
          match ReadBody(lines[1..], oldLeft - OldWeight(line), newLeft - NewWeight(line))
          case Err(e) => Err(e)
          case Ok((body, rest)) => Ok(([line] + body, rest))
  }

  function OldWeight(line: Line): nat {
    if line.Add? then 0 else 1
  }

  function NewWeight(line: Line): nat {
    if line.Remove? then 0 else 1
  }

  /** The bodies that can be read back: nothing is missing and nothing is left over. */
  predicate Complete(body: seq<Line>, oldLeft: int, newLeft: int) {
    if oldLeft <= 0 && newLeft <= 0 then body == []
    else
      body != []
      && (body[0].Remove? ==> oldLeft > 0) && (body[0].Add? ==> newLeft > 0)
      && Complete(body[1..], oldLeft - OldWeight(body[0]), newLeft - NewWeight(body[0]))
  }

  predicate Readable(h: Hunk) {
    h.oldStart >= 0 && h.oldCount >= 0 && h.newStart >= 0 && h.newCount >= 0
    && Complete(h.lines, h.oldCount, h.newCount)
  }

  function WriteBody(body: seq<Line>): seq<string> {
    if body == [] then [] else [WriteLine(body[0])] + WriteBody(body[1..])
  }

  /** Reading one more line in front. */
  lemma {:induction false} BodyStep(
    line: Line, body: seq<Line>, text: seq<string>, oldLeft: int, newLeft: int, rest: seq<string>)
    requires (oldLeft > 0 || newLeft > 0) && (line.Remove? ==> oldLeft > 0) && (line.Add? ==> newLeft > 0)
    requires ReadBody(text, oldLeft - OldWeight(line), newLeft - NewWeight(line)) == Ok((body, rest))
    ensures ReadBody([WriteLine(line)] + text, oldLeft, newLeft) == Ok(([line] + body, rest))
  {
    LineReadsBack(line);
    assert ([WriteLine(line)] + text)[1..] == text;
  }

  lemma {:induction false} BodyReadsBack(body: seq<Line>, oldLeft: int, newLeft: int, rest: seq<string>)
    requires Complete(body, oldLeft, newLeft)
    ensures ReadBody(WriteBody(body) + rest, oldLeft, newLeft) == Ok((body, rest))
    decreases |body|
  {
    if body == [] {
      assert WriteBody(body) + rest == rest;
    } else {
      var line, tail := body[0], body[1..];
      BodyReadsBack(tail, oldLeft - OldWeight(line), newLeft - NewWeight(line), rest);
      BodyStep(line, tail, WriteBody(tail) + rest, oldLeft, newLeft, rest);
      ConcatAssociates([WriteLine(line)], WriteBody(tail), rest);
      assert body == [line] + tail;
    }
  }

  lemma {:induction false} BodyIsComplete(lines: seq<string>, oldLeft: int, newLeft: int)
    requires ReadBody(lines, oldLeft, newLeft).Ok?
    ensures Complete(ReadBody(lines, oldLeft, newLeft).value.0, oldLeft, newLeft)
    ensures |ReadBody(lines, oldLeft, newLeft).value.1| <= |lines|
    decreases |lines|
  {
    if oldLeft > 0 || newLeft > 0 {
      var line := ReadLine(lines[0]).value;
      BodyIsComplete(lines[1..], oldLeft - OldWeight(line), newLeft - NewWeight(line));
      var body := ReadBody(lines[1..], oldLeft - OldWeight(line), newLeft - NewWeight(line)).value.0;
      assert ([line] + body)[1..] == body;
    }
  }

  /** A readable body covers both counts and meets one of them exactly: only context lines
      can overshoot, and only on one side. */
  lemma {:induction false} CompleteCounts(body: seq<Line>, oldLeft: int, newLeft: int)
    requires Complete(body, oldLeft, newLeft) && (oldLeft >= 0 || newLeft >= 0)
    ensures |OldSide(body)| >= oldLeft && |NewSide(body)| >= newLeft
    ensures |OldSide(body)| == oldLeft || |NewSide(body)| == newLeft
    decreases |body|
  {
    if body != [] {
      CompleteCounts(body[1..], oldLeft - OldWeight(body[0]), newLeft - NewWeight(body[0]));
    }
  }

  /** Bodies whose sides have exactly the declared lengths are readable. */
  lemma {:induction false} ExactCountsAreComplete(body: seq<Line>)
    ensures Complete(body, |OldSide(body)|, |NewSide(body)|)
  {
    if body != [] {
      ExactCountsAreComplete(body[1..]);
    }
  }

  /** A context line that comes when one of the counts is already met. */
  predicate LateContext(body: seq<Line>, oldCount: int, newCount: int, i: nat) {
    i < |body| && body[i].Context? && (|OldSide(body[..i])| >= oldCount || |NewSide(body[..i])| >= newCount)
  }

  lemma {:induction false} LateContextShifts(body: seq<Line>, oldCount: int, newCount: int, i: nat)
    requires body != []
    ensures LateContext(body[1..], oldCount - OldWeight(body[0]), newCount - NewWeight(body[0]), i)
            <==> LateContext(body, oldCount, newCount, i + 1)
  {
    if i < |body[1..]| {
      assert body[..i + 1][1..] == body[1..][..i];
    }
  }

  ghost predicate NoLateContext(body: seq<Line>, oldCount: int, newCount: int) {
    forall i: nat :: !LateContext(body, oldCount, newCount, i)
  }

  lemma {:induction false} NoLateContextShifts(body: seq<Line>, oldCount: int, newCount: int)
    requires body != [] && !LateContext(body, oldCount, newCount, 0)
    ensures NoLateContext(body[1..], oldCount - OldWeight(body[0]), newCount - NewWeight(body[0]))
            <==> NoLateContext(body, oldCount, newCount)
  {
    var oldLeft, newLeft := oldCount - OldWeight(body[0]), newCount - NewWeight(body[0]);
    if i: nat :| LateContext(body[1..], oldLeft, newLeft, i) {
      LateContextShifts(body, oldCount, newCount, i);
      assert LateContext(body, oldCount, newCount, i + 1);
    } else if i: nat :| LateContext(body, oldCount, newCount, i) {
      LateContextShifts(body, oldCount, newCount, i - 1);
    }
  }

  /** The sides of a body that was read have exactly the declared lengths if and only if no
      context line comes late. */
  lemma {:induction false} CountsAreExactIff(body: seq<Line>, oldCount: nat, newCount: nat)
    requires Complete(body, oldCount, newCount)
    ensures |OldSide(body)| == oldCount && |NewSide(body)| == newCount <==> NoLateContext(body, oldCount, newCount)
    decreases |body|
  {
    if body != [] {
      var line := body[0];
      assert body[..0] == [] && OldSide([]) == [] && NewSide([]) == [];
      if line.Context? && (oldCount == 0 || newCount == 0) {
        assert LateContext(body, oldCount, newCount, 0);
      } else {
        CountsAreExactIff(body[1..], oldCount - OldWeight(line), newCount - NewWeight(line));
        NoLateContextShifts(body, oldCount, newCount);
      }
    }
  }

  // ----- whole patches -----

  predicate StartsHunk(line: string) {
    |line| >= 2 && line[0] == line[1] == '@'
  }

  lemma StartsHunkMeaning(line: string)
    ensures StartsHunk(line) <==> "@@" <= line
  {
    if StartsHunk(line) {
      assert line[..2] == "@@";
    }
  }

  function ReadHunk(lines: seq<string>): Result<(Hunk, seq<string>), FormatError>
    requires lines != []
  {
    match ReadHeader(lines[0])
    case None => Err(MalformedHeader)
    case Some((oldStart, oldCount, newStart, newCount)) =>
      match ReadBody(lines[1..], oldCount, newCount)
      case Err(e) => Err(e)
      case Ok((body, rest)) => Ok((Hunk(oldStart, oldCount, newStart, newCount, body), rest))
  }

  /** Every hunk of the text; lines outside hunks are skipped. */
  function ReadHunks(lines: seq<string>): Result<seq<Hunk>, FormatError>
    decreases |lines|
  {
    if lines == [] then Ok([])
    else if !StartsHunk(lines[0]) then ReadHunks(lines[1..])
    else
      match ReadHunk(lines)
      case Err(e) => Err(e)
      case Ok((h, rest)) =>
        HunkConsumes(lines);
        match ReadHunks(rest)
        case Err(e) => Err(e)
        case Ok(hs) => Ok([h] + hs)
  }

  lemma {:induction false} HunkConsumes(lines: seq<string>)
    requires lines != [] && ReadHunk(lines).Ok?
    ensures |ReadHunk(lines).value.1| < |lines| && Readable(ReadHunk(lines).value.0)
  {
    var (oldStart, oldCount, newStart, newCount) := ReadHeader(lines[0]).value;
    BodyIsComplete(lines[1..], oldCount, newCount);
  }

  function ReadPatch(lines: seq<string>): Result<seq<Hunk>, FormatError> {
    match ReadHunks(lines)
    case Err(e) => Err(e)
    case Ok(hs) => if hs == [] then Err(NoHunks) else Ok(hs)
  }

  function WriteHunk(h: Hunk): seq<string>
    requires Readable(h)
  {
    [WriteHeader(h.oldStart, h.oldCount, h.newStart, h.newCount)] + WriteBody(h.lines)
  }

  function WritePatch(hunks: seq<Hunk>): seq<string>
    requires forall h :: h in hunks ==> Readable(h)
  {
    if hunks == [] then [] else WriteHunk(hunks[0]) + WritePatch(hunks[1..])
  }

  lemma {:induction false} HunkReadsBack(h: Hunk, rest: seq<string>)
    requires Readable(h)
    ensures ReadHunk(WriteHunk(h) + rest) == Ok((h, rest))
    ensures StartsHunk((WriteHunk(h) + rest)[0])
  {
    var header, lines := WriteHeader(h.oldStart, h.oldCount, h.newStart, h.newCount), WriteHunk(h) + rest;
    HeaderReadsBack(h.oldStart, h.oldCount, h.newStart, h.newCount);
    HeaderStartsHunk(h.oldStart, h.oldCount, h.newStart, h.newCount);
    BodyReadsBack(h.lines, h.oldCount, h.newCount, rest);
    HunkFromParts(h, header, WriteBody(h.lines) + rest, rest);
    ConcatAssociates([header], WriteBody(h.lines), rest);
  }

  lemma {:induction false} HeaderStartsHunk(oldStart: nat, oldCount: nat, newStart: nat, newCount: nat)
    ensures StartsHunk(WriteHeader(oldStart, oldCount, newStart, newCount))
  {
    var line := WriteHeader(oldStart, oldCount, newStart, newCount);
    assert line[0] == OPEN[0] && line[1] == OPEN[1];
  }

  lemma {:induction false} HunkFromParts(h: Hunk, header: string, tail: seq<string>, rest: seq<string>)
    requires Readable(h)
    requires ReadHeader(header) == Some((h.oldStart, h.oldCount, h.newStart, h.newCount))
    requires ReadBody(tail, h.oldCount, h.newCount) == Ok((h.lines, rest))
    ensures ReadHunk([header] + tail) == Ok((h, rest))
  {
    assert ([header] + tail)[1..] == tail;
  }

  lemma {:induction false} HunksReadBack(hunks: seq<Hunk>)
    requires forall h :: h in hunks ==> Readable(h)
    ensures ReadHunks(WritePatch(hunks)) == Ok(hunks)
  {
    if hunks != [] {
      HunkReadsBack(hunks[0], WritePatch(hunks[1..]));
      HunksReadBack(hunks[1..]);
      PatchFromParts(hunks, WritePatch(hunks), WritePatch(hunks[1..]));
    }
  }

  lemma {:induction false} PatchFromParts(hunks: seq<Hunk>, lines: seq<string>, rest: seq<string>)
    requires hunks != [] && lines != [] && StartsHunk(lines[0])
    requires ReadHunk(lines) == Ok((hunks[0], rest)) && ReadHunks(rest) == Ok(hunks[1..])
    ensures ReadHunks(lines) == Ok(hunks)
  {
    ReadHunksStep(lines);
    assert hunks == [hunks[0]] + hunks[1..];
  }

  lemma {:induction false} ReadHunksStep(lines: seq<string>)
    requires lines != [] && StartsHunk(lines[0]) && ReadHunk(lines).Ok?
    ensures ReadHunks(lines) ==
            match ReadHunks(ReadHunk(lines).value.1)
            case Err(e) => Err(e)
            case Ok(more) => Ok([ReadHunk(lines).value.0] + more)
  {
    HunkConsumes(lines);
  }

  lemma {:induction false} HunksAreReadable(lines: seq<string>)
    requires ReadHunks(lines).Ok?
    ensures forall h :: h in ReadHunks(lines).value ==> Readable(h)
    decreases |lines|
  {
    if lines == [] {
    } else if !StartsHunk(lines[0]) {
      HunksAreReadable(lines[1..]);
    } else {
      HunkConsumes(lines);
      HunksAreReadable(ReadHunk(lines).value.1);
    }
  }

  ghost predicate ReadablePatch(hunks: seq<Hunk>) {
    hunks != [] && forall h :: h in hunks ==> Readable(h)
  }

  lemma {:induction false} PatchIsReadable(lines: seq<string>)
    requires ReadPatch(lines).Ok?
    ensures ReadablePatch(ReadPatch(lines).value)
  {
    HunksAreReadable(lines);
  }

  /** Writing readable hunks gives a text from which exactly they are read back. */
  lemma {:induction false} PatchReadsBack(hunks: seq<Hunk>)
    requires ReadablePatch(hunks)
    ensures ReadPatch(WritePatch(hunks)) == Ok(hunks)
  {
    HunksReadBack(hunks);
  }

  /** A hunk that declares one old line and is read with two. */
  lemma {:induction false} ContextCanOvershoot(a: string, b: string)
    ensures var h := Hunk(1, 1, 1, 2, [Context(a), Context(b)]);
            ReadablePatch([h]) && ReadPatch(WritePatch([h])) == Ok([h]) && |OldSide(h.lines)| == 2 && h.oldCount == 1
  {
    var h := Hunk(1, 1, 1, 2, [Context(a), Context(b)]);
    assert h.lines[1..] == [Context(b)] && [Context(b)][1..] == [];
    assert Complete([], -1, 0) && Complete([Context(b)], 0, 1) && Complete(h.lines, 1, 2);
    assert OldSide([Context(b)]) == [b];
    PatchReadsBack([h]);
  }

  /** The parser returns exactly the non-empty lists of readable hunks. */
  lemma {:induction false} ReadPatchImage(hunks: seq<Hunk>)
    ensures (exists lines :: ReadPatch(lines) == Ok(hunks)) <==> ReadablePatch(hunks)
  {
    if ReadablePatch(hunks) {
      PatchReadsBack(hunks);
    }
    forall lines | ReadPatch(lines) == Ok(hunks)
      ensures ReadablePatch(hunks)
    {
      PatchIsReadable(lines);
    }
  }

  // ----- the reading loops -----

  method ReadBodyLoop(lines: seq<string>, from: nat, oldCount: nat, newCount: nat)
    returns (r: Result<seq<Line>, FormatError>, next: nat)
    requires from <= |lines|
    ensures from <= next <= |lines|
    ensures match ReadBody(lines[from..], oldCount, newCount)
            case Err(e) => r == Err(e)
            case Ok((body, rest)) => r == Ok(body) && rest == lines[next..]
  {
    var body: seq<Line>, oldSeen: nat, newSeen: nat := [], 0, 0;
    next := from;
    ghost var spec := ReadBody(lines[from..], oldCount, newCount);
    PrefixedByNothing(spec);
    while oldSeen < oldCount || newSeen < newCount
      invariant from <= next <= |lines|
      invariant spec == Prefixed(body, ReadBody(lines[next..], oldCount - oldSeen, newCount - newSeen))
      decreases |lines| - next
    {
      if next >= |lines| {
        return Err(UnexpectedEnd), next;
      }
      var line := ReadLine(lines[next]);
      if line.None? {
        return Err(MalformedLine), next;
      }
      ghost var here := ReadBody(lines[next..], oldCount - oldSeen, newCount - newSeen);
      if !line.value.Add? {
        oldSeen := oldSeen + 1;
        if line.value.Remove? && oldSeen > oldCount {
          return Err(ExceedsOldCount), next;
        }
      }
      if !line.value.Remove? {
        newSeen := newSeen + 1;
        if line.value.Add? && newSeen > newCount {
          return Err(ExceedsNewCount), next;
        }
      }
      assert lines[next..][1..] == lines[next + 1..];
      ghost var later := ReadBody(lines[next + 1..], oldCount - oldSeen, newCount - newSeen);
      assert here == Prefixed([line.value], later);
      PrefixedTwice(body, [line.value], later);
      body := body + [line.value];
      next := next + 1;
    }
    assert body + [] == body;
    r := Ok(body);
  }

  function Prefixed(done: seq<Line>, r: Result<(seq<Line>, seq<string>), FormatError>)
    : Result<(seq<Line>, seq<string>), FormatError>
  {
    match r
    case Err(e) => Err(e)
    case Ok((body, rest)) => Ok((done + body, rest))
  }

  lemma {:induction false} PrefixedByNothing(r: Result<(seq<Line>, seq<string>), FormatError>)
    ensures Prefixed([], r) == r
  {
    if r.Ok? {
      assert [] + r.value.0 == r.value.0;
    }
  }

  lemma {:induction false} PrefixedTwice(a: seq<Line>, b: seq<Line>, r: Result<(seq<Line>, seq<string>), FormatError>)
    ensures Prefixed(a, Prefixed(b, r)) == Prefixed(a + b, r)
  {
    if r.Ok? {
      ConcatAssociates(a, b, r.value.0);
    }
  }

  /** Hunks already read, put before those still to come. */
  function Followed(done: seq<Hunk>, r: Result<seq<Hunk>, FormatError>): Result<seq<Hunk>, FormatError> {
    match r
    case Err(e) => Err(e)
    case Ok(more) => Ok(done + more)
  }

  lemma {:induction false} FollowedByNothing(r: Result<seq<Hunk>, FormatError>)
    ensures Followed([], r) == r
  {
    if r.Ok? {
      assert [] + r.value == r.value;
    }
  }

  lemma {:induction false} FollowedTwice(a: seq<Hunk>, b: seq<Hunk>, r: Result<seq<Hunk>, FormatError>)
    ensures Followed(a, Followed(b, r)) == Followed(a + b, r)
  {
    if r.Ok? {
      ConcatAssociates(a, b, r.value);
    }
  }

  predicate IsFileHeader(line: string) {
    "--- " <= line || "+++ " <= line || "diff --git " <= line || "index " <= line
  }

  method SkipFileHeaders(lines: seq<string>) returns (i: nat)
    ensures i <= |lines| && ReadHunks(lines[i..]) == ReadHunks(lines)
  {
    i := 0;
    while i < |lines| && IsFileHeader(lines[i])
      invariant i <= |lines| && ReadHunks(lines[i..]) == ReadHunks(lines)
    {
      assert lines[i..][1..] == lines[i + 1..];
      i := i + 1;
    }
  }

  method HunkAt(lines: seq<string>, i: nat) returns (r: Result<Hunk, FormatError>, next: nat)
    requires i < |lines|
    ensures i < next <= |lines|
    ensures match ReadHunk(lines[i..])
            case Err(e) => r == Err(e)
            case Ok((h, rest)) => r == Ok(h) && rest == lines[next..]
  {
    next := i + 1;
    var header := ReadHeader(lines[i]);
    if header.None? {
      return Err(MalformedHeader), next;
    }
    var (oldStart, oldCount, newStart, newCount) := header.value;
    assert lines[i..][1..] == lines[i + 1..];
    var body;
    body, next := ReadBodyLoop(lines, i + 1, oldCount, newCount);
    r := if body.Err? then Err(body.error) else Ok(Hunk(oldStart, oldCount, newStart, newCount, body.value));
  }

  /** `parse_unified_patch` on the lines of a patch text. */
  method ParseUnifiedPatch(lines: seq<string>) returns (r: Result<seq<Hunk>, FormatError>)
    ensures r == ReadPatch(lines)
    ensures r.Ok? ==> ReadablePatch(r.value)
  {
    var hunks: seq<Hunk> := [];
    ghost var spec := ReadHunks(lines);
    var i := SkipFileHeaders(lines);
    FollowedByNothing(spec);
    while i < |lines|
      invariant i <= |lines|
      invariant spec == Followed(hunks, ReadHunks(lines[i..]))
      decreases |lines| - i
    {
      assert lines[i..][1..] == lines[i + 1..];
      if StartsHunk(lines[i]) {
        var h, next := HunkAt(lines, i);
        if h.Err? {
          return Err(h.error);
        }
        ReadHunksStep(lines[i..]);
        FollowedTwice(hunks, [h.value], ReadHunks(lines[next..]));
        hunks := hunks + [h.value];
        i := next;
      } else {
        i := i + 1;
      }
    }
    assert hunks + [] == hunks;
    assert spec == Ok(hunks);
    r := if hunks == [] then Err(NoHunks) else Ok(hunks);
    if r.Ok? {
      PatchIsReadable(lines);
    }
  }

  // ----- undoing a patch text -----

  lemma {:induction false} FlippedBodyIsComplete(body: seq<Line>, oldLeft: int, newLeft: int)
    requires Complete(body, oldLeft, newLeft)
    ensures Complete(Flip(body), newLeft, oldLeft)
    decreases |body|
  {
    if body != [] {
      assert Flip(body)[1..] == Flip(body[1..]);
      FlippedBodyIsComplete(body[1..], oldLeft - OldWeight(body[0]), newLeft - NewWeight(body[0]));
    }
  }

  lemma {:induction false} ReversedHunk(hunks: seq<Hunk>, shift: int, k: nat)
    requires k < |hunks|
    ensures |Reverse(hunks, shift)| == |hunks|
    ensures var h, back := hunks[k], Reverse(hunks, shift)[k];
            && back.oldCount == h.newCount && back.newStart == h.oldStart && back.newCount == h.oldCount
            && back.lines == Flip(h.lines)
    decreases |hunks|
  {
    if |hunks| > 1 {
      ReversedHunk(hunks[1..], shift + |NewSide(hunks[0].lines)| - |OldSide(hunks[0].lines)|,
          if k == 0 then 0 else k - 1);
    }
  }

  lemma {:induction false} ReversedHunksAreReadable(hunks: seq<Hunk>)
    requires forall h :: h in hunks ==> Readable(h)
    requires forall k :: 0 <= k < |Reverse(hunks, 0)| ==> Pos(Reverse(hunks, 0)[k]) >= 0
    ensures forall h :: h in Reverse(hunks, 0) ==> Readable(h)
    ensures |Reverse(hunks, 0)| == |hunks|
  {
    var back := Reverse(hunks, 0);
    if hunks != [] {
      ReversedHunk(hunks, 0, 0);
    }
    forall k | 0 <= k < |back|
      ensures Readable(back[k])
    {
      ReversedHunk(hunks, 0, k);
      assert hunks[k] in hunks && Pos(back[k]) >= 0;
      FlippedBodyIsComplete(hunks[k].lines, hunks[k].oldCount, hunks[k].newCount);
    }
  }

  /** A patch text that was applied without touching the space past the end has an undo
      text: it is well-formed, it parses to the reversed hunks, and it restores the file. */
  lemma {:induction false} PatchTextCanBeUndone(
    file: seq<string>, blank: bool, text: seq<string>, r: seq<string>, blankResult: bool)
    requires ReadPatch(text).Ok? && NoNewFile(ReadPatch(text).value)
    requires Apply(file, blank, ReadPatch(text).value) == Ok(r) && StaysInside(file, ReadPatch(text).value)
    ensures var back := Reverse(ReadPatch(text).value, 0);
            && (forall h :: h in back ==> Readable(h))
            && ReadPatch(WritePatch(back)) == Ok(back)
            && Apply(r, blankResult, back) == Ok(file)
  {
    var hunks := ReadPatch(text).value;
    HunksAreReadable(text);
    ReversePatchUndoes(file, blank, hunks, r, blankResult);
    AcceptedIffFits(file, blank, hunks);
    ReversedStarts(file, 0, hunks, 0);
    ReversedHunksAreReadable(hunks);
    HunksReadBack(Reverse(hunks, 0));
  }
}
