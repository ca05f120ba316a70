/** Applying parsed hunks to a file seen as a sequence of lines. */
module PatchApply {
  import opened Common
  import Splicing

  /** A hunk line without its prefix character. */
  datatype Line = Context(text: string) | Add(text: string) | Remove(text: string)

  datatype Hunk = Hunk(oldStart: int, oldCount: int, newStart: int, newCount: int, lines: seq<Line>)

  datatype PatchError =
    | FileExists
    | NewFileHasOldLines
    | OutOfOrder(start: int, consumed: int)
    | Conflict(start: int, line: int)

  predicate IsNewFile(h: Hunk) {
    h.oldStart == 0 && h.oldCount == 0
  }

  /** The lines a hunk expects to find: context and removed ones. */
  function OldSide(lines: seq<Line>): seq<string> {
    if lines == [] then []
    else (if lines[0].Add? then [] else [lines[0].text]) + OldSide(lines[1..])
  }

  /** The lines a hunk leaves behind: context and added ones. */
  function NewSide(lines: seq<Line>): seq<string> {
    if lines == [] then []
    else (if lines[0].Remove? then [] else [lines[0].text]) + NewSide(lines[1..])
  }

  function Added(lines: seq<Line>): seq<string> {
    if lines == [] then []
    else (if lines[0].Add? then [lines[0].text] else []) + Added(lines[1..])
  }

  function Pos(h: Hunk): int {
    h.oldStart - 1
  }

  function End(h: Hunk): int {
    Pos(h) + |OldSide(h.lines)|
  }

  function Min(a: int, b: int): int {
    if a <= b then a else b
  }

  /** Python's `s[lo:hi]` for bounds that are not negative. */
  function Slice(s: seq<string>, lo: int, hi: int): seq<string>
    requires 0 <= lo <= hi
  {
    s[Min(lo, |s|)..Min(hi, |s|)]
  }

  // ----- what the code does, hunk by hunk -----

  /** The first line of `side` that is not the line of `file` at the same offset from `at`. */
  function FirstMismatch(file: seq<string>, side: seq<string>, at: nat): Option<nat> {
    if side == [] then None
    else if at < |file| && file[at] == side[0] then FirstMismatch(file, side[1..], at + 1)
    else Some(at)
  }

  datatype Progress = Progress(cursor: nat, out: seq<string>)

  function ApplyHunk(file: seq<string>, blank: bool, h: Hunk, p: Progress): Result<Progress, PatchError> {
    if IsNewFile(h) then
      if !blank then Err(FileExists)
      else if exists k :: 0 <= k < |h.lines| && !h.lines[k].Add? then Err(NewFileHasOldLines)
      else Ok(p.(out := Added(h.lines)))
    else if Pos(h) < p.cursor then Err(OutOfOrder(h.oldStart, p.cursor))
    else
      match FirstMismatch(file, OldSide(h.lines), Pos(h))
      case Some(at) => Err(Conflict(h.oldStart, at + 1))
      case None => Ok(Progress(End(h), p.out + Slice(file, p.cursor, Pos(h)) + NewSide(h.lines)))
  }

  function ApplyHunks(file: seq<string>, blank: bool, hunks: seq<Hunk>, p: Progress): Result<Progress, PatchError>
    decreases |hunks|
  {
    if hunks == [] then Ok(p)
    else
      match ApplyHunk(file, blank, hunks[0], p)
      case Err(e) => Err(e)
      case Ok(next) => ApplyHunks(file, blank, hunks[1..], next)
  }

  /** `blank` says whether the content is nothing but white space. */
  function Apply(file: seq<string>, blank: bool, hunks: seq<Hunk>): Result<seq<string>, PatchError> {
    match ApplyHunks(file, blank, hunks, Progress(0, []))
    case Err(e) => Err(e)
    case Ok(p) => Ok(p.out + Slice(file, p.cursor, p.cursor + |file|))
  }

  // ----- the loops -----

  method MatchHunk(file: seq<string>, h: Hunk, pos: nat) returns (idx: nat, mismatch: Option<nat>)
    ensures mismatch == FirstMismatch(file, OldSide(h.lines), pos)
    ensures mismatch.None? ==> idx == pos + |OldSide(h.lines)|
  {
    idx := pos;
    for k := 0 to |h.lines|
      invariant pos <= idx
      invariant FirstMismatch(file, OldSide(h.lines), pos) == FirstMismatch(file, OldSide(h.lines[k..]), idx)
      invariant idx + |OldSide(h.lines[k..])| == pos + |OldSide(h.lines)|
    {
      var rest := h.lines[k..];
      assert rest[1..] == h.lines[k + 1..];
      if !h.lines[k].Add? {
        assert OldSide(rest)[1..] == OldSide(rest[1..]);
        if idx >= |file| || file[idx] != h.lines[k].text {
          return idx, Some(idx);
        }
        idx := idx + 1;
      } else {
        assert OldSide(rest) == OldSide(rest[1..]);
      }
    }
    mismatch := None;
  }

  method Collect(lines: seq<Line>) returns (kept: seq<string>, added: seq<string>)
    ensures kept == NewSide(lines) && added == Added(lines)
  {
    kept, added := [], [];
    for k := 0 to |lines|
      invariant kept + NewSide(lines[k..]) == NewSide(lines)
      invariant added + Added(lines[k..]) == Added(lines)
    {
      assert lines[k..][1..] == lines[k + 1..];
      ConcatAssociates(kept, [lines[k].text], NewSide(lines[k + 1..]));
      ConcatAssociates(added, [lines[k].text], Added(lines[k + 1..]));
      if lines[k].Add? {
        added := added + [lines[k].text];
      }
      if !lines[k].Remove? {
        kept := kept + [lines[k].text];
      }
    }
  }

  /** One hunk of the loop. */
  method ApplyOneHunk(
    file: seq<string>, blank: bool, h: Hunk, out: seq<string>, cursor: nat) returns (r: Result<Progress, PatchError>)
    ensures r == ApplyHunk(file, blank, h, Progress(cursor, out))
  {
    var kept, added := Collect(h.lines);
    if IsNewFile(h) {
      if !blank {
        return Err(FileExists);
      }
      if exists k :: 0 <= k < |h.lines| && !h.lines[k].Add? {
        return Err(NewFileHasOldLines);
      }
      return Ok(Progress(cursor, added));
    }
    var pos := h.oldStart - 1;
    if pos < cursor {
      return Err(OutOfOrder(h.oldStart, cursor));
    }
    var idx, mismatch := MatchHunk(file, h, pos);
    if mismatch.Some? {
      return Err(Conflict(h.oldStart, mismatch.value + 1));
    }
    r := Ok(Progress(idx, out + Slice(file, cursor, pos) + kept));
  }

  /** The hunks still to come decide as all of them did, once one more is applied. */
  lemma {:induction false} HunksStep(
    file: seq<string>, blank: bool, hunks: seq<Hunk>, k: nat, p: Progress, one: Result<Progress, PatchError>)
    requires k < |hunks| && one == ApplyHunk(file, blank, hunks[k], p)
    ensures ApplyHunks(file, blank, hunks[k..], p)
            == if one.Err? then Err(one.error) else ApplyHunks(file, blank, hunks[k + 1..], one.value)
  {
    assert hunks[k..][0] == hunks[k] && hunks[k..][1..] == hunks[k + 1..];
  }

  /** `apply_patch` on parsed hunks. */
  method ApplyPatch(file: seq<string>, blank: bool, hunks: seq<Hunk>) returns (r: Result<seq<string>, PatchError>)
    ensures r == Apply(file, blank, hunks)
  {
    var p := Progress(0, []);
    ghost var spec := ApplyHunks(file, blank, hunks, p);
    assert hunks[0..] == hunks;
    for k := 0 to |hunks|
      invariant spec == ApplyHunks(file, blank, hunks[k..], p)
    {
      var one := ApplyOneHunk(file, blank, hunks[k], p.out, p.cursor);
      HunksStep(file, blank, hunks, k, p, one);
      if one.Err? {
        return Err(one.error);
      }
      p := one.value;
    }
    assert hunks[|hunks|..] == [];
    r := Ok(p.out + Slice(file, p.cursor, p.cursor + |file|));
  }

  // ----- acceptance and result, declaratively -----

  ghost predicate NoNewFile(hunks: seq<Hunk>) {
    forall k :: 0 <= k < |hunks| ==> !IsNewFile(hunks[k])
  }

  /** A hunk cuts its old side at its position and puts its new side there. */
  function EditOf(h: Hunk): Splicing.Edit {
    Splicing.Edit(h.oldStart - 1, OldSide(h.lines), NewSide(h.lines))
  }

  function Edits(hunks: seq<Hunk>): seq<Splicing.Edit> {
    seq(|hunks|, k requires 0 <= k < |hunks| => EditOf(hunks[k]))
  }

  /** The hunks are in order, do not overlap, and match the file where they say. */
  ghost predicate Fits(file: seq<string>, hunks: seq<Hunk>) {
    && (forall i :: 0 <= i < |hunks| ==>
          Pos(hunks[i]) >= 0 && OldSide(hunks[i].lines) <= Splicing.After(file, Pos(hunks[i])))
    && (forall i, j :: 0 <= i < j < |hunks| ==> End(hunks[i]) <= Pos(hunks[j]))
  }

  lemma {:induction false} FitsAsEdits(file: seq<string>, hunks: seq<Hunk>)
    ensures Fits(file, hunks) <==> Splicing.Fits(file, Edits(hunks))
  {
    var edits := Edits(hunks);
    assert forall i :: 0 <= i < |hunks| ==> edits[i] == EditOf(hunks[i]);
    assert forall i :: 0 <= i < |hunks| ==> Splicing.End(edits[i]) == End(hunks[i]);
  }

  lemma {:induction false} PrefixStep(side: seq<string>, x: string, rest: seq<string>)
    requires side != []
    ensures side <= [x] + rest <==> side[0] == x && side[1..] <= rest
  {
    assert side == [side[0]] + side[1..];
    if side <= [x] + rest {
      assert side[1..] == ([x] + rest)[..|side|][1..];
    }
  }

  lemma {:induction false} NoMismatchMeansMatch(file: seq<string>, side: seq<string>, at: nat)
    ensures FirstMismatch(file, side, at).None? <==> side <= Splicing.After(file, at)
  {
    if side != [] {
      if at < |file| {
        Splicing.AfterStep(file, at);
        PrefixStep(side, file[at], Splicing.After(file, at + 1));
        NoMismatchMeansMatch(file, side[1..], at + 1);
      } else {
        Splicing.CutsAreSlices(file, at);
      }
    }
  }

  /** A slice as what is left of the rest of the file. */
  lemma {:induction false} SliceOfRest(file: seq<string>, cursor: nat, pos: nat, rest: seq<string>)
    requires cursor <= pos && rest == if cursor <= |file| then file[cursor..] else []
    ensures Slice(file, cursor, pos) == if pos - cursor <= |rest| then rest[..pos - cursor] else rest
  {
    if pos <= |file| {
      assert file[cursor..pos] == rest[..pos - cursor];
    } else if cursor <= |file| {
      assert file[cursor..|file|] == rest;
    }
  }

  lemma {:induction false} SliceOfFile(file: seq<string>, cursor: nat, pos: nat)
    requires cursor <= pos
    ensures Slice(file, cursor, pos) == Splicing.Before(Splicing.After(file, cursor), pos - cursor)
  {
    var rest := Splicing.After(file, cursor);
    Splicing.CutsAreSlices(file, cursor);
    SliceOfRest(file, cursor, pos, rest);
    Splicing.CutsAreSlices(rest, pos - cursor);
  }

  /** Applying the hunks from some progress on succeeds exactly when they fit what is left
      of the file, and then completes the splice. */
  ghost predicate Splices(file: seq<string>, blank: bool, hunks: seq<Hunk>, p: Progress) {
    var r, rest := ApplyHunks(file, blank, hunks, p), Splicing.After(file, p.cursor);
    && (r.Ok? <==> Splicing.FitsFrom(rest, p.cursor, Edits(hunks)))
    && (r.Ok? ==> r.value.out + Splicing.After(file, r.value.cursor)
                  == p.out + Splicing.Splice(rest, p.cursor, Edits(hunks)))
  }

  /** One edit more in front of a splice. */
  lemma {:induction false} SpliceGrows(
    out: seq<string>, rest: seq<string>, base: int, edits: seq<Splicing.Edit>,
    grown: seq<string>, left: seq<string>, end: int, more: seq<Splicing.Edit>)
    requires edits != [] && Splicing.FitsFrom(rest, base, edits) && more == edits[1..] && end == Splicing.End(edits[0])
    requires left == Splicing.Remainder(rest, base, edits[0])
    requires grown == out + Splicing.Before(rest, edits[0].pos - base) + edits[0].put
    ensures Splicing.FitsFrom(left, end, more)
    ensures out + Splicing.Splice(rest, base, edits) == grown + Splicing.Splice(left, end, more)
  {
    var gap, put := Splicing.Before(rest, edits[0].pos - base), edits[0].put;
    var tail := Splicing.Splice(left, end, more);
    ConcatAssociates(out + gap, put, tail);
    ConcatAssociates(out, gap, put + tail);
  }

  /** What one hunk leaves for the others to complete. */
  ghost predicate Advanced(file: seq<string>, h: Hunk, p: Progress, next: Progress) {
    var rest, e := Splicing.After(file, p.cursor), EditOf(h);
    && Splicing.FitsHere(rest, p.cursor, e)
    && next == Progress(End(h), p.out + Splicing.Before(rest, Pos(h) - p.cursor) + e.put)
    && Splicing.Remainder(rest, p.cursor, e) == Splicing.After(file, End(h))
  }

  /** If `done` completes the splice from the next hunk on, it completes it from this one. */
  lemma {:induction false} SpliceCompleted(
    file: seq<string>, hunks: seq<Hunk>, p: Progress, next: Progress, done: seq<string>)
    requires hunks != [] && Advanced(file, hunks[0], p, next)
    requires Splicing.FitsFrom(Splicing.After(file, next.cursor), next.cursor, Edits(hunks[1..]))
    requires done == next.out + Splicing.Splice(Splicing.After(file, next.cursor), next.cursor, Edits(hunks[1..]))
    ensures Splicing.FitsFrom(Splicing.After(file, p.cursor), p.cursor, Edits(hunks))
    ensures done == p.out + Splicing.Splice(Splicing.After(file, p.cursor), p.cursor, Edits(hunks))
  {
    FitsOneMore(Splicing.After(file, p.cursor), p.cursor, hunks);
    SpliceGrows(p.out, Splicing.After(file, p.cursor), p.cursor, Edits(hunks),
                next.out, Splicing.After(file, next.cursor), next.cursor, Edits(hunks[1..]));
  }

  lemma {:induction false} SplicesStep(file: seq<string>, blank: bool, hunks: seq<Hunk>, p: Progress, next: Progress)
    requires hunks != [] && ApplyHunk(file, blank, hunks[0], p) == Ok(next) && Advanced(file, hunks[0], p, next)
    requires Splices(file, blank, hunks[1..], next)
    ensures Splices(file, blank, hunks, p)
  {
    var r := ApplyHunks(file, blank, hunks, p);
    assert r == ApplyHunks(file, blank, hunks[1..], next);
    FitsOneMore(Splicing.After(file, p.cursor), p.cursor, hunks);
    if r.Ok? {
      SpliceCompleted(file, hunks, p, next, r.value.out + Splicing.After(file, r.value.cursor));
    }
  }

  lemma {:induction false} FitsOneMore(rest: seq<string>, base: int, hunks: seq<Hunk>)
    requires hunks != [] && Splicing.FitsHere(rest, base, EditOf(hunks[0]))
    ensures Edits(hunks)[0] == EditOf(hunks[0]) && Edits(hunks)[1..] == Edits(hunks[1..])
    ensures Splicing.FitsFrom(rest, base, Edits(hunks))
            <==> Splicing.FitsFrom(Splicing.Remainder(rest, base, EditOf(hunks[0])), End(hunks[0]), Edits(hunks[1..]))
  {
    assert Edits(hunks)[1..] == Edits(hunks[1..]);
  }

  lemma {:induction false} HunksApplyIffFit(file: seq<string>, blank: bool, hunks: seq<Hunk>, p: Progress)
    requires NoNewFile(hunks)
    ensures Splices(file, blank, hunks, p)
    decreases |hunks|
  {
    if hunks != [] {
      var one := ApplyHunk(file, blank, hunks[0], p);
      if one.Ok? {
        HunksApplyIffFit(file, blank, hunks[1..], one.value);
        HunkAppliesIffFits(file, blank, hunks[0], p);
        SplicesStep(file, blank, hunks, p, one.value);
      } else {
        assert Edits(hunks)[0] == EditOf(hunks[0]);
        HunkAppliesIffFits(file, blank, hunks[0], p);
      }
    }
  }

  lemma {:induction false} HunkAppliesIffFits(file: seq<string>, blank: bool, h: Hunk, p: Progress)
    requires !IsNewFile(h)
    ensures var one, rest, e := ApplyHunk(file, blank, h, p), Splicing.After(file, p.cursor), EditOf(h);
            && (one.Ok? <==> Splicing.FitsHere(rest, p.cursor, e))
            && (one.Ok? ==>
                  && one.value == Progress(End(h), p.out + Splicing.Before(rest, Pos(h) - p.cursor) + e.put)
                  && Splicing.Remainder(rest, p.cursor, e) == Splicing.After(file, End(h)))
  {
    if Pos(h) >= p.cursor {
      NoMismatchMeansMatch(file, OldSide(h.lines), Pos(h));
      Splicing.RemainderOfFile(file, p.cursor, EditOf(h));
      SliceOfFile(file, p.cursor, Pos(h));
    }
  }

  /** Without a new-file hunk, a patch is accepted exactly when its hunks fit, and the
      result is then the file with each old side replaced by the new one. */
  lemma {:induction false} AcceptedIffFits(file: seq<string>, blank: bool, hunks: seq<Hunk>)
    requires NoNewFile(hunks)
    ensures Apply(file, blank, hunks).Ok? <==> Fits(file, hunks)
    ensures Fits(file, hunks) ==>
              && Splicing.FitsFrom(file, 0, Edits(hunks))
              && Apply(file, blank, hunks) == Ok(Splicing.Splice(file, 0, Edits(hunks)))
  {
    var r := ApplyHunks(file, blank, hunks, Progress(0, []));
    HunksApplyIffFit(file, blank, hunks, Progress(0, []));
    Splicing.FitsFromMeansFits(file, Edits(hunks), 0);
    FitsAsEdits(file, hunks);
    if r.Ok? {
      var cursor := r.value.cursor;
      Splicing.CutsAreSlices(file, cursor);
      assert Slice(file, cursor, cursor + |file|) == Splicing.After(file, cursor);
      assert [] + Splicing.Splice(file, 0, Edits(hunks)) == Splicing.Splice(file, 0, Edits(hunks));
    }
  }

  /** The sides of a hunk keep the order of its lines: a line stands behind those of its side
      that come before it. */
  lemma {:induction false} SidesKeepOrder(lines: seq<Line>, i: nat)
    requires i < |lines|
    ensures !lines[i].Add? ==> |OldSide(lines[..i])| < |OldSide(lines)|
                               && OldSide(lines)[|OldSide(lines[..i])|] == lines[i].text
    ensures !lines[i].Remove? ==> |NewSide(lines[..i])| < |NewSide(lines)|
                                  && NewSide(lines)[|NewSide(lines[..i])|] == lines[i].text
  {
    if i > 0 {
      SidesKeepOrder(lines[1..], i - 1);
      assert lines[..i][1..] == lines[1..][..i - 1];
      assert lines[..i][0] == lines[0];
    }
  }

  /** The lines `cut` stand in the file between `a` and `b`, behind `at` lines. */
  ghost predicate Stands(file: seq<string>, at: int, cut: seq<string>, a: seq<string>, b: seq<string>) {
    |a| == at && file == a + cut + b
  }

  lemma {:induction false} StandsIsSlices(file: seq<string>, at: nat, cut: seq<string>)
    requires at <= |file|
    ensures cut <= file[at..] ==> Stands(file, at, cut, file[..at], file[at + |cut|..])
    ensures forall a, b :: Stands(file, at, cut, a, b)
                           ==> cut <= file[at..] && a == file[..at] && b == file[at + |cut|..]
  {
    if cut <= file[at..] {
      assert file[at..] == cut + file[at..][|cut|..];
      assert file[at..][|cut|..] == file[at + |cut|..];
      assert file == file[..at] + (cut + file[at + |cut|..]);
      ConcatAssociates(file[..at], cut, file[at + |cut|..]);
    }
    forall a, b | Stands(file, at, cut, a, b)
      ensures cut <= file[at..] && a == file[..at] && b == file[at + |cut|..]
    {
      ConcatAssociates(a, cut, b);
      assert file[at..] == cut + b;
      assert file[at..][|cut|..] == file[at + |cut|..];
    }
  }

  lemma {:induction false} OneHunkResult(file: seq<string>, blank: bool, h: Hunk)
    requires !IsNewFile(h) && 1 <= h.oldStart <= |file| + 1
    ensures var at, cut := h.oldStart - 1, OldSide(h.lines);
            if cut <= file[at..]
            then Apply(file, blank, [h]) == Ok(file[..at] + NewSide(h.lines) + file[at + |cut|..])
            else Apply(file, blank, [h]).Err?
  {
    var at, cut, put := h.oldStart - 1, OldSide(h.lines), NewSide(h.lines);
    FoundIffPrefix(file, cut, at);
    OneHunkOutcome(file, blank, h, FirstMismatch(file, cut, at), cut, put);
    if cut <= file[at..] {
      PutBetween(file, at, |cut|, put);
    }
  }

  lemma {:induction false} FoundIffPrefix(file: seq<string>, cut: seq<string>, at: nat)
    requires at <= |file|
    ensures FirstMismatch(file, cut, at).None? <==> cut <= file[at..]
  {
    NoMismatchMeansMatch(file, cut, at);
    Splicing.CutsAreSlices(file, at);
  }

  lemma {:induction false} PutBetween(file: seq<string>, at: nat, n: nat, put: seq<string>)
    requires at + n <= |file|
    ensures ([] + Slice(file, 0, at) + put) + Slice(file, at + n, at + n + |file|) == file[..at] + put + file[at + n..]
  {
    NothingInFront(file[..at]);
  }

  lemma {:induction false} OneHunkOutcome(
    file: seq<string>, blank: bool, h: Hunk, mismatch: Option<nat>, cut: seq<string>, put: seq<string>)
    requires !IsNewFile(h) && h.oldStart >= 1 && cut == OldSide(h.lines) && put == NewSide(h.lines)
    requires mismatch == FirstMismatch(file, cut, h.oldStart - 1)
    ensures var at := h.oldStart - 1;
            match mismatch
            case Some(_) => Apply(file, blank, [h]).Err?
            case None =>
              Apply(file, blank, [h])
              == Ok(([] + Slice(file, 0, at) + put) + Slice(file, at + |cut|, at + |cut| + |file|))
  {
    assert [h][1..] == [];
    assert ApplyHunks(file, blank, [h], Progress(0, [])) == ApplyHunk(file, blank, h, Progress(0, []));
  }

  /** A single hunk replaces its old side, found behind `oldStart - 1` lines, by its new side. */
  lemma {:induction false} OneHunkReplaces(file: seq<string>, blank: bool, h: Hunk, r: seq<string>)
    requires !IsNewFile(h) && 1 <= h.oldStart <= |file| + 1
    ensures Apply(file, blank, [h]) == Ok(r)
            <==> exists a, b :: Stands(file, h.oldStart - 1, OldSide(h.lines), a, b) && r == a + NewSide(h.lines) + b
  {
    OneHunkResult(file, blank, h);
    StandsIsSlices(file, h.oldStart - 1, OldSide(h.lines));
  }

  lemma {:induction false} AddedMeaning(lines: seq<Line>)
    requires forall k :: 0 <= k < |lines| ==> lines[k].Add?
    ensures |Added(lines)| == |lines| && forall k :: 0 <= k < |lines| ==> Added(lines)[k] == lines[k].text
  {
    if lines != [] {
      AddedMeaning(lines[1..]);
    }
  }

  /** A hunk that starts at line zero is accepted exactly when it declares no old line, only
      adds, and the file is blank; its lines then stand in front of the file. */
  lemma {:induction false} NewFileIff(file: seq<string>, blank: bool, h: Hunk)
    requires h.oldStart == 0
    ensures Apply(file, blank, [h]).Ok?
            <==> h.oldCount == 0 && blank && forall k :: 0 <= k < |h.lines| ==> h.lines[k].Add?
    ensures Apply(file, blank, [h]).Ok?
            ==> var r := Apply(file, blank, [h]).value;
                |r| == |h.lines| + |file| && r[|h.lines|..] == file
                && forall k :: 0 <= k < |h.lines| ==> r[k] == h.lines[k].text
  {
    assert [h][1..] == [];
    assert ApplyHunks(file, blank, [h], Progress(0, [])) == ApplyHunk(file, blank, h, Progress(0, []));
    assert Slice(file, 0, |file|) == file;
    if forall k :: 0 <= k < |h.lines| ==> h.lines[k].Add? {
      AddedMeaning(h.lines);
    }
  }

  // ----- length -----

  /** Additions minus removals over all hunks. */
  function NetGrowth(hunks: seq<Hunk>): int {
    if hunks == [] then 0
    else |NewSide(hunks[0].lines)| - |OldSide(hunks[0].lines)| + NetGrowth(hunks[1..])
  }

  lemma {:induction false} GrowthAsEdits(hunks: seq<Hunk>)
    ensures Splicing.TotalGrowth(Edits(hunks)) == NetGrowth(hunks)
    decreases |hunks|
  {
    if hunks != [] {
      assert Edits(hunks)[1..] == Edits(hunks[1..]);
      GrowthAsEdits(hunks[1..]);
    }
  }

  lemma {:induction false} ResultLength(file: seq<string>, blank: bool, hunks: seq<Hunk>)
    requires NoNewFile(hunks) && Apply(file, blank, hunks).Ok?
    ensures |Apply(file, blank, hunks).value| == |file| + NetGrowth(hunks)
  {
    AcceptedIffFits(file, blank, hunks);
    Splicing.SpliceLength(file, 0, Edits(hunks));
    GrowthAsEdits(hunks);
  }

  // ----- the reverse patch -----

  function FlipLine(line: Line): Line {
    match line
    case Context(t) => Context(t)
    case Add(t) => Remove(t)
    case Remove(t) => Add(t)
  }

  function Flip(lines: seq<Line>): seq<Line> {
    seq(|lines|, i requires 0 <= i < |lines| => FlipLine(lines[i]))
  }

  /** Swap additions and removals, and start each hunk where the earlier ones moved it. */
  function Reverse(hunks: seq<Hunk>, shift: int): seq<Hunk>
    decreases |hunks|
  {
    if hunks == [] then []
    else
      var h := hunks[0];
      [Hunk(h.oldStart + shift, h.newCount, h.oldStart, h.oldCount, Flip(h.lines))]
      + Reverse(hunks[1..], shift + |NewSide(h.lines)| - |OldSide(h.lines)|)
  }

  lemma {:induction false} FlipSwapsSides(lines: seq<Line>)
    ensures OldSide(Flip(lines)) == NewSide(lines) && NewSide(Flip(lines)) == OldSide(lines)
  {
    if lines != [] {
      assert Flip(lines)[1..] == Flip(lines[1..]);
      FlipSwapsSides(lines[1..]);
    }
  }

  lemma {:induction false} ReverseAsEdits(hunks: seq<Hunk>, shift: int)
    ensures Edits(Reverse(hunks, shift)) == Splicing.Reverse(Edits(hunks), shift)
    decreases |hunks|
  {
    if hunks != [] {
      var h, e := hunks[0], EditOf(hunks[0]);
      var back := Reverse(hunks, shift);
      FlipSwapsSides(h.lines);
      ReverseAsEdits(hunks[1..], shift + Splicing.Growth(e));
      assert Edits(hunks)[0] == e && Edits(hunks)[1..] == Edits(hunks[1..]);
      assert Edits(back) == [EditOf(back[0])] + Edits(back[1..]);
    }
  }

  /** Nothing was added past the end of the file. */
  predicate StaysInside(file: seq<string>, hunks: seq<Hunk>) {
    forall i :: 0 <= i < |hunks| ==> Pos(hunks[i]) <= |file| || NewSide(hunks[i].lines) == []
  }

  /** A reversed hunk never starts before line one, so it never reads as a new file. */
  lemma {:induction false} ReversedStarts(rest: seq<string>, base: int, hunks: seq<Hunk>, shift: int)
    requires Splicing.FitsFrom(rest, base, Edits(hunks)) && base + shift >= 0
    ensures forall k :: 0 <= k < |Reverse(hunks, shift)| ==> Pos(Reverse(hunks, shift)[k]) >= 0
    decreases |hunks|
  {
    if hunks != [] {
      var h, e := hunks[0], EditOf(hunks[0]);
      assert Edits(hunks)[0] == e && Edits(hunks)[1..] == Edits(hunks[1..]);
      ReversedStarts(Splicing.Remainder(rest, base, e), End(h), hunks[1..],
          shift + |NewSide(h.lines)| - |OldSide(h.lines)|);
    }
  }

  /** The reverse patch is accepted on the result exactly when no hunk added lines past the
      end of the file, and then it restores the file. */
  lemma {:induction false} ReversePatchUndoes(
    file: seq<string>, blank: bool, hunks: seq<Hunk>, r: seq<string>, blankResult: bool)
    requires NoNewFile(hunks) && Apply(file, blank, hunks) == Ok(r)
    ensures Apply(r, blankResult, Reverse(hunks, 0)).Ok? <==> StaysInside(file, hunks)
    ensures StaysInside(file, hunks) ==> Apply(r, blankResult, Reverse(hunks, 0)) == Ok(file)
  {
    var back := Reverse(hunks, 0);
    AcceptedIffFits(file, blank, hunks);
    FitsAsEdits(file, hunks);
    ReversedStarts(file, 0, hunks, 0);
    StartedIsNoNewFile(back);
    ReverseAsEdits(hunks, 0);
    InsideAsEdits(file, hunks);
    UndoneAsEdits(file, Edits(hunks), back, r, blankResult);
  }

  lemma {:induction false} StartedIsNoNewFile(hunks: seq<Hunk>)
    requires forall k :: 0 <= k < |hunks| ==> Pos(hunks[k]) >= 0
    ensures NoNewFile(hunks)
  {
  }

  lemma {:induction false} UndoneAsEdits(
    file: seq<string>, edits: seq<Splicing.Edit>, back: seq<Hunk>, r: seq<string>, blankResult: bool)
    requires Splicing.Fits(file, edits) && Splicing.FitsFrom(file, 0, edits) && r == Splicing.Splice(file, 0, edits)
    requires NoNewFile(back) && Edits(back) == Splicing.Reverse(edits, 0)
    ensures Apply(r, blankResult, back).Ok?
            <==> forall i :: 0 <= i < |edits| ==> !Splicing.AddsPastEnd(file, edits[i])
    ensures Apply(r, blankResult, back).Ok? ==> Apply(r, blankResult, back) == Ok(file)
  {
    AcceptedIffFits(r, blankResult, back);
    FitsAsEdits(r, back);
    Splicing.ReverseFitsIff(file, edits);
  }

  lemma {:induction false} InsideAsEdits(file: seq<string>, hunks: seq<Hunk>)
    ensures StaysInside(file, hunks) <==>
            forall i :: 0 <= i < |Edits(hunks)| ==> !Splicing.AddsPastEnd(file, Edits(hunks)[i])
  {
    assert forall i :: 0 <= i < |hunks| ==> Edits(hunks)[i] == EditOf(hunks[i]);
  }

  /** Inserting at line 5 of an empty file is accepted and cannot be taken back. */
  lemma {:induction false} InsertionPastEndIsFinal()
    ensures var h := Hunk(5, 0, 5, 1, [Add("x")]);
            && Apply([], true, [h]) == Ok(["x"])
            && Apply(["x"], false, Reverse([h], 0)).Err?
  {
    var h := Hunk(5, 0, 5, 1, [Add("x")]);
    assert h.lines[1..] == [];
    assert NewSide(h.lines) == ["x"] && OldSide(h.lines) == [];
    assert [h][1..] == [];
    var p := Progress(4, [] + Slice([], 0, 4) + ["x"]);
    assert p.out == ["x"];
    assert ApplyHunk([], true, h, Progress(0, [])) == Ok(p);
    assert ApplyHunks([], true, [h], Progress(0, [])) == Ok(p);
    ReversePatchUndoes([], true, [h], ["x"], false);
    assert !StaysInside([], [h]) by {
      assert [h][0] == h;
    }
  }
}
