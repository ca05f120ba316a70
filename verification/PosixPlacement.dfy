/** Where a hunk without old lines belongs.  POSIX numbers the line before an empty range,
    so its lines go after that line; the applier puts them before it. */
module PosixPlacement {
  import opened Common
  import opened Splicing
  import PatchApply

  /** An edit that cuts nothing, moved to the place POSIX means. */
  function Moved(e: Edit): Edit {
    if e.cut == [] then e.(pos := e.pos + 1) else e
  }

  function MovedAll(edits: seq<Edit>): seq<Edit> {
    seq(|edits|, i requires 0 <= i < |edits| => Moved(edits[i]))
  }

  lemma {:induction false} MovedTail(edits: seq<Edit>)
    requires edits != []
    ensures MovedAll(edits) != [] && MovedAll(edits)[0] == Moved(edits[0])
            && MovedAll(edits)[1..] == MovedAll(edits[1..])
  {
  }

  // ----- building a file around an edit -----

  /** `lead` lines, then what the edit cuts, then the lines for the later edits. */
  lemma {:induction false} Assembled(lead: seq<string>, e: Edit, rest: seq<string>, base: int)
    requires e.pos - base == |lead|
    ensures var file := lead + (e.cut + rest);
            FitsHere(file, base, e) && Before(file, e.pos - base) == lead && Remainder(file, base, e) == rest
  {
    var file := lead + (e.cut + rest);
    CutConcat(lead, e.cut + rest);
    AfterAfter(file, |lead|, |e.cut|);
    CutConcat(e.cut, rest);
  }

  lemma {:induction false} SplicedAround(lead: seq<string>, e: Edit, rest: seq<string>, base: int, edits: seq<Edit>)
    requires edits != [] && edits[0] == e && e.pos - base == |lead|
    ensures var file := lead + (e.cut + rest);
            && (FitsFrom(file, base, edits) <==> FitsFrom(rest, End(e), edits[1..]))
            && (FitsFrom(file, base, edits)
                ==> Splice(file, base, edits) == lead + (e.put + Splice(rest, End(e), edits[1..])))
  {
    Assembled(lead, e, rest, base);
  }

  // ----- repainting a line that no edit cuts -----

  ghost predicate CutsAt(edits: seq<Edit>, pos: int) {
    exists j :: 0 <= j < |edits| && edits[j].pos == pos && edits[j].cut != []
  }

  lemma {:induction false} AfterRepaint(rest: seq<string>, x: string, n: nat)
    requires n > 0
    ensures After([x] + After(rest, 1), n) == After(rest, n)
  {
    assert ([x] + After(rest, 1))[1..] == After(rest, 1);
    AfterAfter(rest, 1, n - 1);
  }

  lemma {:induction false} Repainted(rest: seq<string>, base: int, edits: seq<Edit>, x: string)
    requires FitsFrom(rest, base, edits) && !CutsAt(edits, base)
    ensures FitsFrom([x] + After(rest, 1), base, edits)
    decreases |edits|
  {
    if edits != [] {
      var e, more := edits[0], edits[1..];
      assert forall j :: 0 <= j < |more| ==> more[j] == edits[j + 1];
      if e.pos == base {
        assert e.cut == [];
        Repainted(rest, base, more, x);
      } else {
        AfterRepaint(rest, x, e.pos - base);
        AfterRepaint(rest, x, End(e) - base);
      }
    }
  }

  // ----- the two places disagree on some file -----

  /** Lines of exactly the given number. */
  function Padded(s: seq<string>, n: nat): (r: seq<string>)
    ensures |r| == n
  {
    seq(n, i requires 0 <= i < n => if i < |s| then s[i] else "")
  }

  /** After an insertion, a later edit that cuts the very line it stood before no longer
      fits once the insertion is moved. */
  lemma {:induction false} MovedIntoTheWay(rest: seq<string>, base: int, edits: seq<Edit>)
    requires edits != [] && edits[0].cut == [] && CutsAt(edits[1..], edits[0].pos)
    ensures !FitsFrom(rest, base, MovedAll(edits))
  {
    var moved, more := MovedAll(edits), edits[1..];
    MovedTail(edits);
    var j :| 0 <= j < |more| && more[j].pos == edits[0].pos && more[j].cut != [];
    assert moved[1..][j] == more[j];
    if FitsFrom(rest, base, moved) {
      LaterEdits(Remainder(rest, base, moved[0]), End(moved[0]), moved[1..]);
    }
  }

  lemma {:induction false} StartsWith(a: seq<string>, b: seq<string>, c: seq<string>)
    requires b != []
    ensures |a + (b + c)| > |a| && (a + (b + c))[|a|] == b[0]
  {
  }

  lemma {:induction false} InsertedFirst(lead: seq<string>, rest: seq<string>, base: int, edits: seq<Edit>)
    requires edits != [] && edits[0].cut == [] && edits[0].put != []
    requires edits[0].pos - base == |lead| && FitsFrom(rest, edits[0].pos, edits[1..])
    ensures FitsFrom(lead + rest, base, edits)
    ensures var s := Splice(lead + rest, base, edits); |s| > |lead| && s[|lead|] == edits[0].put[0]
  {
    var e := edits[0];
    assert e.cut + rest == rest;
    SplicedAround(lead, e, rest, base, edits);
    StartsWith(lead, e.put, Splice(rest, End(e), edits[1..]));
  }

  lemma {:induction false} PassedFirst(lead: seq<string>, x: string, rest: seq<string>, base: int, edits: seq<Edit>)
    requires edits != [] && edits[0].cut == [] && edits[0].pos - base == |lead| + 1
    requires FitsFrom(lead + ([x] + rest), base, edits)
    ensures var s := Splice(lead + ([x] + rest), base, edits); |s| > |lead| && s[|lead|] == x
  {
    var e, front := edits[0], lead + [x];
    assert lead + ([x] + rest) == front + (e.cut + rest);
    SplicedAround(front, e, rest, base, edits);
    assert (front + (e.put + Splice(rest, End(e), edits[1..])))[|lead|] == front[|lead|];
  }

  /** A file on which the inserted lines and the line they pass are told apart. */
  lemma {:induction false} ToldApart(lead: seq<string>, x: string, rest: seq<string>, base: int, edits: seq<Edit>)
    requires edits != [] && edits[0].cut == [] && edits[0].put != [] && edits[0].put[0] != x
    requires edits[0].pos - base == |lead| && FitsFrom([x] + rest, edits[0].pos, edits[1..])
    ensures Witness(lead + ([x] + rest), base, edits)
  {
    InsertedFirst(lead, [x] + rest, base, edits);
    MovedTail(edits);
    if FitsFrom(lead + ([x] + rest), base, MovedAll(edits)) {
      PassedFirst(lead, x, rest, base, MovedAll(edits));
    }
  }

  /** The file tells the two places apart. */
  ghost predicate Witness(file: seq<string>, base: int, edits: seq<Edit>) {
    && FitsFrom(file, base, edits)
    && (FitsFrom(file, base, MovedAll(edits)) ==> Splice(file, base, MovedAll(edits)) != Splice(file, base, edits))
  }

  lemma {:induction false} Cancels(a: seq<string>, b: seq<string>, c: seq<string>)
    requires a + b == a + c
    ensures b == c
  {
    assert b == (a + b)[|a|..] && c == (a + c)[|a|..];
  }

  lemma {:induction false} WitnessFurtherOn(lead: seq<string>, tail: seq<string>, base: int, edits: seq<Edit>)
    requires edits != [] && edits[0].cut != [] && edits[0].pos - base == |lead|
    requires Witness(tail, End(edits[0]), edits[1..])
    ensures Witness(lead + (edits[0].cut + tail), base, edits)
  {
    var file, e, moved := lead + (edits[0].cut + tail), edits[0], MovedAll(edits);
    MovedTail(edits);
    SplicedAround(lead, e, tail, base, edits);
    SplicedAround(lead, e, tail, base, moved);
    if FitsFrom(file, base, moved) && Splice(file, base, moved) == Splice(file, base, edits) {
      var here, there := Splice(tail, End(e), edits[1..]), Splice(tail, End(e), moved[1..]);
      Cancels(lead, e.put + here, e.put + there);
      Cancels(e.put, here, there);
    }
  }

  lemma {:induction false} WitnessHere(rest: seq<string>, base: int, edits: seq<Edit>) returns (file: seq<string>)
    requires FitsFrom(rest, base, edits) && edits != [] && edits[0].cut == [] && edits[0].put != []
    ensures Witness(file, base, edits)
  {
    var e, more := edits[0], edits[1..];
    if CutsAt(more, e.pos) {
      MovedIntoTheWay(rest, base, edits);
      file := rest;
    } else {
      var x := e.put[0] + "'";
      var here := After(rest, e.pos - base);
      var lead := Padded(Before(rest, e.pos - base), e.pos - base);
      Repainted(here, e.pos, more, x);
      ToldApart(lead, x, After(here, 1), base, edits);
      file := lead + ([x] + After(here, 1));
    }
  }

  /** Where one of the edits inserts without cutting, some file that the edits fit tells the
      two places apart. */
  lemma {:induction false} PlacesDiffer(rest: seq<string>, base: int, edits: seq<Edit>) returns (file: seq<string>)
    requires FitsFrom(rest, base, edits) && exists k :: 0 <= k < |edits| && edits[k].cut == []
    requires forall k :: 0 <= k < |edits| && edits[k].cut == [] ==> edits[k].put != []
    ensures Witness(file, base, edits)
    decreases |edits|
  {
    var e, more := edits[0], edits[1..];
    if e.cut == [] {
      file := WitnessHere(rest, base, edits);
    } else {
      assert forall k :: 0 < k < |edits| ==> edits[k] == more[k - 1];
      assert forall k :: 0 <= k < |more| ==> more[k] == edits[k + 1];
      var tail := PlacesDiffer(Remainder(rest, base, e), End(e), more);
      Rejoin(rest, e.pos - base);
      WitnessFurtherOn(Before(rest, e.pos - base), tail, base, edits);
      file := Before(rest, e.pos - base) + (e.cut + tail);
    }
  }

  // ----- patches -----

  /** The hunk keeps and removes nothing, so its old range is empty. */
  predicate EmptyOldRange(h: PatchApply.Hunk) {
    PatchApply.OldSide(h.lines) == []
  }

  /** The hunk with its start read as POSIX means it. */
  function Posix(h: PatchApply.Hunk): PatchApply.Hunk {
    if EmptyOldRange(h) then h.(oldStart := h.oldStart + 1) else h
  }

  function PosixAll(hunks: seq<PatchApply.Hunk>): seq<PatchApply.Hunk> {
    seq(|hunks|, i requires 0 <= i < |hunks| => Posix(hunks[i]))
  }

  lemma {:induction false} PosixAsEdits(hunks: seq<PatchApply.Hunk>)
    ensures PatchApply.Edits(PosixAll(hunks)) == MovedAll(PatchApply.Edits(hunks))
  {
  }

  lemma {:induction false} LinesHaveASide(lines: seq<PatchApply.Line>)
    requires lines != []
    ensures PatchApply.OldSide(lines) != [] || PatchApply.NewSide(lines) != []
  {
  }

  lemma {:induction false} PosixIsNoNewFile(hunks: seq<PatchApply.Hunk>)
    requires forall k :: 0 <= k < |hunks| ==> PatchApply.Pos(hunks[k]) >= 0
    ensures PatchApply.NoNewFile(PosixAll(hunks))
  {
  }

  /** What tells the edits apart tells the patches apart. */
  lemma {:induction false} WitnessForPatch(file: seq<string>, hunks: seq<PatchApply.Hunk>)
    requires PatchApply.NoNewFile(hunks) && Witness(file, 0, PatchApply.Edits(hunks))
    requires forall k :: 0 <= k < |hunks| ==> PatchApply.Pos(hunks[k]) >= 0
    ensures PatchApply.Apply(file, false, PosixAll(hunks)) != PatchApply.Apply(file, false, hunks)
  {
    var edits, moved := PatchApply.Edits(hunks), PosixAll(hunks);
    PosixAsEdits(hunks);
    PosixIsNoNewFile(hunks);
    PatchApply.FitsAsEdits(file, hunks);
    FitsFromMeansFits(file, edits, 0);
    PatchApply.AcceptedIffFits(file, false, hunks);
    PatchApply.AcceptedIffFits(file, false, moved);
  }

  /** Some file is treated differently. */
  lemma {:induction false} EmptyRangeIsMisplaced(
    file: seq<string>, hunks: seq<PatchApply.Hunk>, i: nat) returns (other: seq<string>)
    requires PatchApply.NoNewFile(hunks) && PatchApply.Fits(file, hunks)
    requires forall h :: h in hunks ==> h.lines != []
    requires i < |hunks| && EmptyOldRange(hunks[i])
    ensures PatchApply.Apply(other, false, PosixAll(hunks)) != PatchApply.Apply(other, false, hunks)
  {
    var edits := PatchApply.Edits(hunks);
    PatchApply.AcceptedIffFits(file, false, hunks);
    forall k | 0 <= k < |edits| && edits[k].cut == [] ensures edits[k].put != [] {
      assert hunks[k] in hunks;
      LinesHaveASide(hunks[k].lines);
    }
    assert edits[i].cut == [];
    other := PlacesDiffer(file, 0, edits);
    WitnessForPatch(other, hunks);
  }

  // ----- hunks for a new file -----

  lemma {:induction false} NewFileNeedsBlank(
    file: seq<string>, hunks: seq<PatchApply.Hunk>, p: PatchApply.Progress, i: nat)
    requires i < |hunks| && PatchApply.IsNewFile(hunks[i])
    ensures PatchApply.ApplyHunks(file, false, hunks, p).Err?
    decreases |hunks|
  {
    var one := PatchApply.ApplyHunk(file, false, hunks[0], p);
    if i > 0 && one.Ok? {
      NewFileNeedsBlank(file, hunks[1..], one.value, i - 1);
    }
  }

  /** What was applied either starts inside the file or makes a new one by adding lines. */
  lemma {:induction false} AppliedStarts(
    file: seq<string>, blank: bool, hunks: seq<PatchApply.Hunk>, p: PatchApply.Progress, i: nat)
    requires i < |hunks| && PatchApply.ApplyHunks(file, blank, hunks, p).Ok?
    ensures !PatchApply.IsNewFile(hunks[i]) ==> PatchApply.Pos(hunks[i]) >= 0
    ensures PatchApply.IsNewFile(hunks[i]) ==> forall k :: 0 <= k < |hunks[i].lines| ==> hunks[i].lines[k].Add?
    decreases |hunks|
  {
    var one := PatchApply.ApplyHunk(file, blank, hunks[0], p);
    if i > 0 {
      AppliedStarts(file, blank, hunks[1..], one.value, i - 1);
    }
  }

  lemma {:induction false} AddsHaveNoOldSide(lines: seq<PatchApply.Line>)
    requires forall k :: 0 <= k < |lines| ==> lines[k].Add?
    ensures PatchApply.OldSide(lines) == []
  {
    if lines != [] {
      AddsHaveNoOldSide(lines[1..]);
    }
  }

  /** Read as POSIX means them, the hunks of an applied patch make no new file. */
  lemma {:induction false} PosixMakesNoNewFile(file: seq<string>, blank: bool, hunks: seq<PatchApply.Hunk>)
    requires PatchApply.Apply(file, blank, hunks).Ok?
    ensures PatchApply.NoNewFile(PosixAll(hunks))
  {
    var posix := PosixAll(hunks);
    forall i | 0 <= i < |posix| ensures !PatchApply.IsNewFile(posix[i]) {
      AppliedStarts(file, blank, hunks, PatchApply.Progress(0, []), i);
      if PatchApply.IsNewFile(hunks[i]) {
        AddsHaveNoOldSide(hunks[i].lines);
      }
    }
  }

  lemma {:induction false} BlankIsIrrelevant(file: seq<string>, hunks: seq<PatchApply.Hunk>)
    requires PatchApply.NoNewFile(hunks)
    ensures PatchApply.Apply(file, true, hunks) == PatchApply.Apply(file, false, hunks)
  {
    HunksIgnoreBlank(file, hunks, PatchApply.Progress(0, []));
  }

  lemma {:induction false} HunksIgnoreBlank(file: seq<string>, hunks: seq<PatchApply.Hunk>, p: PatchApply.Progress)
    requires PatchApply.NoNewFile(hunks)
    ensures PatchApply.ApplyHunks(file, true, hunks, p) == PatchApply.ApplyHunks(file, false, hunks, p)
    decreases |hunks|
  {
    if hunks != [] {
      var one := PatchApply.ApplyHunk(file, true, hunks[0], p);
      assert one == PatchApply.ApplyHunk(file, false, hunks[0], p);
      if one.Ok? {
        HunksIgnoreBlank(file, hunks[1..], one.value);
      }
    }
  }

  /** A patch that makes a new file is refused on every file with content, where POSIX would
      put the lines before line one; or POSIX refuses it where it is accepted. */
  lemma {:induction false} NewFileDisagrees(file: seq<string>, blank: bool, hunks: seq<PatchApply.Hunk>, i: nat)
    requires i < |hunks| && PatchApply.IsNewFile(hunks[i]) && PatchApply.Apply(file, blank, hunks).Ok?
    ensures exists b :: PatchApply.Apply(file, b, PosixAll(hunks)) != PatchApply.Apply(file, b, hunks)
  {
    var posix := PosixAll(hunks);
    NewFileNeedsBlank(file, hunks, PatchApply.Progress(0, []), i);
    PosixMakesNoNewFile(file, blank, hunks);
    BlankIsIrrelevant(file, posix);
    assert PatchApply.Apply(file, false, hunks).Err? && blank;
    if PatchApply.Apply(file, true, posix).Err? {
      assert PatchApply.Apply(file, true, posix) != PatchApply.Apply(file, true, hunks);
    } else {
      assert PatchApply.Apply(file, false, posix) != PatchApply.Apply(file, false, hunks);
    }
  }

  /** The applier and POSIX agree on every file exactly when no hunk has an empty old
      range, for every patch that applies to some file and whose hunks have lines. */
  lemma {:induction false} AgreesWithPosixIff(hunks: seq<PatchApply.Hunk>)
    requires exists file, blank :: PatchApply.Apply(file, blank, hunks).Ok?
    requires forall h :: h in hunks ==> h.lines != []
    ensures (forall file, blank :: PatchApply.Apply(file, blank, PosixAll(hunks))
                                   == PatchApply.Apply(file, blank, hunks))
            <==> (forall h :: h in hunks ==> !EmptyOldRange(h))
  {
    var file, blank :| PatchApply.Apply(file, blank, hunks).Ok?;
    if i :| 0 <= i < |hunks| && PatchApply.IsNewFile(hunks[i]) {
      AppliedStarts(file, blank, hunks, PatchApply.Progress(0, []), i);
      AddsHaveNoOldSide(hunks[i].lines);
      assert hunks[i] in hunks && EmptyOldRange(hunks[i]);
      NewFileDisagrees(file, blank, hunks, i);
    } else if h :| h in hunks && EmptyOldRange(h) {
      var i :| 0 <= i < |hunks| && hunks[i] == h;
      PatchApply.AcceptedIffFits(file, blank, hunks);
      var other := EmptyRangeIsMisplaced(file, hunks, i);
      assert PatchApply.Apply(other, false, PosixAll(hunks)) != PatchApply.Apply(other, false, hunks);
    } else {
      assert forall i :: 0 <= i < |hunks| ==> hunks[i] in hunks;
      assert PosixAll(hunks) == hunks;
    }
  }

  lemma {:induction false} ApplyOne(file: seq<string>, h: PatchApply.Hunk, p: PatchApply.Progress)
    requires PatchApply.ApplyHunk(file, false, h, PatchApply.Progress(0, [])) == Ok(p)
    ensures PatchApply.Apply(file, false, [h]) == Ok(p.out + PatchApply.Slice(file, p.cursor, p.cursor + |file|))
  {
    assert [h][1..] == [];
    assert PatchApply.ApplyHunks(file, false, [], p) == Ok(p);
    assert PatchApply.ApplyHunks(file, false, [h], PatchApply.Progress(0, [])) == Ok(p);
  }

  /** One line added with range `1,0` to a file of one line: it should follow that line. */
  lemma {:induction false} EmptyRangeInsertsOneLineEarly(a: string, x: string)
    ensures var h := PatchApply.Hunk(1, 0, 2, 1, [PatchApply.Add(x)]);
            && PatchApply.Apply([a], false, [h]) == Ok([x, a])
            && PatchApply.Apply([a], false, [Posix(h)]) == Ok([a, x])
  {
    var h := PatchApply.Hunk(1, 0, 2, 1, [PatchApply.Add(x)]);
    assert h.lines[1..] == [];
    assert PatchApply.NewSide(h.lines) == [x] && PatchApply.OldSide(h.lines) == [];
    var early := PatchApply.Progress(0, [] + PatchApply.Slice([a], 0, 0) + [x]);
    var late := PatchApply.Progress(1, [] + PatchApply.Slice([a], 0, 1) + [x]);
    ApplyOne([a], h, early);
    ApplyOne([a], Posix(h), late);
    assert early.out == [x] && late.out == [a, x];
    assert early.out + PatchApply.Slice([a], 0, 0 + |[a]|) == [x, a];
    assert late.out + PatchApply.Slice([a], 1, 1 + |[a]|) == [a, x];
  }
}
