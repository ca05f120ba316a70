/** Edits of a line sequence by absolute position: when they fit, what they produce, and
    how to undo them. */
module Splicing {
  /** At index `pos`, the lines `cut` give way to the lines `put`. */
  datatype Edit = Edit(pos: int, cut: seq<string>, put: seq<string>)

  function End(e: Edit): int {
    e.pos + |e.cut|
  }

  function Growth(e: Edit): int {
    |e.put| - |e.cut|
  }

  /** Python's `s[:n]`. */
  function Before(s: seq<string>, n: nat): seq<string>
    decreases n
  {
    if n == 0 || s == [] then [] else [s[0]] + Before(s[1..], n - 1)
  }

  /** Python's `s[n:]`. */
  function After(s: seq<string>, n: nat): seq<string>
    decreases n
  {
    if n == 0 then s else if s == [] then [] else After(s[1..], n - 1)
  }

  lemma {:induction false} CutsAreSlices(s: seq<string>, n: nat)
    ensures Before(s, n) == if n <= |s| then s[..n] else s
    ensures After(s, n) == if n <= |s| then s[n..] else []
    decreases n
  {
    if n > 0 && s != [] {
      CutsAreSlices(s[1..], n - 1);
      assert s == [s[0]] + s[1..];
    }
  }

  lemma {:induction false} CutConcat(a: seq<string>, b: seq<string>)
    ensures Before(a + b, |a|) == a && After(a + b, |a|) == b
  {
    CutsAreSlices(a + b, |a|);
  }

  lemma {:induction false} Rejoin(s: seq<string>, n: nat)
    ensures Before(s, n) + After(s, n) == s
    ensures n <= |s| ==> |Before(s, n)| == n
    ensures |After(s, n)| == if n <= |s| then |s| - n else 0
  {
    CutsAreSlices(s, n);
  }

  lemma {:induction false} AfterAfter(s: seq<string>, a: nat, b: nat)
    ensures After(After(s, a), b) == After(s, a + b)
  {
    CutsAreSlices(s, a);
    CutsAreSlices(s, a + b);
    CutsAreSlices(After(s, a), b);
  }

  lemma {:induction false} AfterStep(s: seq<string>, at: nat)
    requires at < |s|
    ensures After(s, at) == [s[at]] + After(s, at + 1)
  {
    CutsAreSlices(s, at);
    CutsAreSlices(s, at + 1);
  }

  lemma {:induction false} PrefixSplit(s: seq<string>, at: nat, side: seq<string>)
    ensures side <= After(s, at) ==> After(s, at) == side + After(s, at + |side|)
  {
    if side <= After(s, at) {
      AfterAfter(s, at, |side|);
      CutsAreSlices(After(s, at), |side|);
    }
  }

  /** In order, without overlap, and what they cut is found where they say. */
  ghost predicate Fits(file: seq<string>, edits: seq<Edit>) {
    && (forall i :: 0 <= i < |edits| ==> edits[i].pos >= 0 && edits[i].cut <= After(file, edits[i].pos))
    && (forall i, j :: 0 <= i < j < |edits| ==> End(edits[i]) <= edits[j].pos)
  }

  /** The lines left over after an edit, when `rest` starts at index `base`. */
  function Remainder(rest: seq<string>, base: int, e: Edit): seq<string>
    requires e.pos >= base
  {
    After(rest, End(e) - base)
  }

  /** The edit fits the lines `rest` of the file from index `base` on. */
  ghost predicate FitsHere(rest: seq<string>, base: int, e: Edit) {
    e.pos >= base && e.cut <= After(rest, e.pos - base)
  }

  ghost predicate FitsFrom(rest: seq<string>, base: int, edits: seq<Edit>)
    decreases |edits|
  {
    edits == []
    || (FitsHere(rest, base, edits[0]) && FitsFrom(Remainder(rest, base, edits[0]), End(edits[0]), edits[1..]))
  }

  /** The lines between edits, with each `cut` replaced by its `put`. */
  ghost function Splice(rest: seq<string>, base: int, edits: seq<Edit>): seq<string>
    requires FitsFrom(rest, base, edits)
    decreases |edits|
  {
    if edits == [] then rest
    else
      var e := edits[0];
      Before(rest, e.pos - base) + (e.put + Splice(Remainder(rest, base, e), End(e), edits[1..]))
  }

  function TotalGrowth(edits: seq<Edit>): int {
    if edits == [] then 0 else Growth(edits[0]) + TotalGrowth(edits[1..])
  }

  /** The result is as long as the file plus additions minus removals. */
  lemma {:induction false} SpliceLength(rest: seq<string>, base: int, edits: seq<Edit>)
    requires FitsFrom(rest, base, edits)
    ensures |Splice(rest, base, edits)| == |rest| + TotalGrowth(edits)
    decreases |edits|
  {
    if edits != [] {
      var e := edits[0];
      SpliceLength(Remainder(rest, base, e), End(e), edits[1..]);
      Rejoin(rest, e.pos - base);
      PrefixSplit(rest, e.pos - base, e.cut);
    }
  }

  lemma {:induction false} RemainderOfFile(file: seq<string>, cursor: nat, e: Edit)
    requires e.pos >= cursor
    ensures FitsHere(After(file, cursor), cursor, e) <==> e.cut <= After(file, e.pos)
    ensures FitsHere(After(file, cursor), cursor, e)
            ==> Remainder(After(file, cursor), cursor, e) == After(file, End(e))
  {
    AfterAfter(file, cursor, e.pos - cursor);
    AfterAfter(file, cursor, End(e) - cursor);
  }

  /** Looking ahead edit by edit amounts to the conditions on all edits at once. */
  lemma {:induction false} FitsFromMeansFits(file: seq<string>, edits: seq<Edit>, cursor: nat)
    ensures FitsFrom(After(file, cursor), cursor, edits) <==>
            Fits(file, edits) && forall i :: 0 <= i < |edits| ==> edits[i].pos >= cursor
    decreases |edits|
  {
    if edits != [] && edits[0].pos >= cursor {
      var e, rest := edits[0], edits[1..];
      RemainderOfFile(file, cursor, e);
      if e.cut <= After(file, e.pos) {
        FitsFromMeansFits(file, rest, End(e));
        FitsSplit(file, edits);
      }
    }
  }

  lemma {:induction false} FitsSplit(file: seq<string>, edits: seq<Edit>)
    requires edits != [] && edits[0].pos >= 0 && edits[0].cut <= After(file, edits[0].pos)
    ensures Fits(file, edits) <==>
            Fits(file, edits[1..]) && forall i :: 0 <= i < |edits[1..]| ==> edits[1..][i].pos >= End(edits[0])
  {
    var rest := edits[1..];
    assert forall i :: 0 < i < |edits| ==> edits[i] == rest[i - 1];
    assert forall i :: 0 <= i < |rest| ==> rest[i] == edits[i + 1];
  }

  // ----- undoing -----

  /** Swap what is cut and what is put, and move each edit to where the earlier ones left it. */
  function Reverse(edits: seq<Edit>, shift: int): seq<Edit>
    decreases |edits|
  {
    if edits == [] then []
    else [Edit(edits[0].pos + shift, edits[0].put, edits[0].cut)] + Reverse(edits[1..], shift + Growth(edits[0]))
  }

  /** No edit puts lines past the end of the lines that remain. */
  ghost predicate Harmless(rest: seq<string>, base: int, edits: seq<Edit>) {
    forall k :: 0 <= k < |edits| ==> edits[k].pos <= base + |rest| || edits[k].put == []
  }

  // ----- layouts: a file cut up along its edits -----

  /** Untouched lines, a replaced stretch, and so on; `strays` are edits past the end, which
      neither cut nor put anything. */
  datatype Layout =
    | Last(lines: seq<string>, strays: seq<Edit>)
    | Stretch(gap: seq<string>, cut: seq<string>, put: seq<string>, more: Layout)

  ghost function OldText(l: Layout): seq<string> {
    match l
    case Last(lines, _) => lines
    case Stretch(gap, cut, _, more) => gap + (cut + OldText(more))
  }

  ghost function NewText(l: Layout): seq<string> {
    match l
    case Last(lines, _) => lines
    case Stretch(gap, _, put, more) => gap + (put + NewText(more))
  }

  ghost function EditsOf(l: Layout, base: int): seq<Edit> {
    match l
    case Last(_, strays) => strays
    case Stretch(gap, cut, put, more) =>
      [Edit(base + |gap|, cut, put)] + EditsOf(more, base + |gap| + |cut|)
  }

  ghost predicate Strays(base: int, edits: seq<Edit>) {
    && (forall k :: 0 <= k < |edits| ==> edits[k].pos > base && edits[k].cut == edits[k].put == [])
    && (forall i, j :: 0 <= i < j < |edits| ==> edits[i].pos <= edits[j].pos)
  }

  ghost predicate Proper(l: Layout, base: int) {
    match l
    case Last(lines, strays) => Strays(base + |lines|, strays)
    case Stretch(gap, cut, _, more) => Proper(more, base + |gap| + |cut|)
  }

  /** Old and new exchanged; `shift` is how far the new text is ahead of the old. */
  ghost function Flip(l: Layout, shift: int): Layout {
    match l
    case Last(lines, strays) => Last(lines, Reverse(strays, shift))
    case Stretch(gap, cut, put, more) => Stretch(gap, put, cut, Flip(more, shift + |put| - |cut|))
  }

  lemma {:induction false} StraysReverse(base: int, edits: seq<Edit>, shift: int)
    requires Strays(base, edits)
    ensures |Reverse(edits, shift)| == |edits|
    ensures forall k :: 0 <= k < |edits| ==> Reverse(edits, shift)[k] == Edit(edits[k].pos + shift, [], [])
    decreases |edits|
  {
    if edits != [] {
      var rest := edits[1..];
      assert forall k :: 0 <= k < |rest| ==> rest[k] == edits[k + 1];
      StraysReverse(base, rest, shift);
      assert forall k :: 0 < k < |edits| ==> Reverse(edits, shift)[k] == Reverse(rest, shift)[k - 1];
    }
  }

  lemma {:induction false} FlipExchanges(l: Layout, base: int, shift: int)
    requires Proper(l, base)
    ensures OldText(Flip(l, shift)) == NewText(l) && NewText(Flip(l, shift)) == OldText(l)
    ensures EditsOf(Flip(l, shift), base + shift) == Reverse(EditsOf(l, base), shift)
    ensures Proper(Flip(l, shift), base + shift)
  {
    match l
    case Last(lines, strays) =>
      StraysReverse(base + |lines|, strays, shift);
    case Stretch(gap, cut, put, more) =>
      var rest := EditsOf(more, base + |gap| + |cut|);
      FlipExchanges(more, base + |gap| + |cut|, shift + |put| - |cut|);
      assert EditsOf(l, base)[1..] == rest;
      assert base + |gap| + |cut| + (shift + |put| - |cut|) == base + shift + |gap| + |put|;
  }

  lemma {:induction false} StraysFit(rest: seq<string>, base: int, edits: seq<Edit>)
    requires Strays(base + |rest|, edits)
    ensures FitsFrom(rest, base, edits) && Splice(rest, base, edits) == rest
    decreases |edits|
  {
    if edits != [] {
      Rejoin(rest, edits[0].pos - base);
      StrayTail(base + |rest|, edits);
    }
  }

  lemma {:induction false} StrayTail(base: int, edits: seq<Edit>)
    requires edits != [] && Strays(base, edits)
    ensures FitsFrom([], End(edits[0]), edits[1..]) && Splice([], End(edits[0]), edits[1..]) == []
    decreases |edits|
  {
    var more := edits[1..];
    assert forall k :: 0 <= k < |more| ==> more[k] == edits[k + 1];
    if more != [] {
      StrayTail(base, more);
      assert Remainder([], End(edits[0]), more[0]) == [];
    }
  }

  /** A layout's edits fit its old text and produce its new text. */
  lemma {:induction false} LayoutSplices(l: Layout, base: int)
    requires Proper(l, base)
    ensures FitsFrom(OldText(l), base, EditsOf(l, base))
    ensures Splice(OldText(l), base, EditsOf(l, base)) == NewText(l)
  {
    match l
    case Last(lines, strays) =>
      StraysFit(lines, base, strays);
    case Stretch(gap, cut, put, more) =>
      var e := Edit(base + |gap|, cut, put);
      LayoutSplices(more, base + |gap| + |cut|);
      CutConcat(gap, cut + OldText(more));
      CutConcat(cut, OldText(more));
      AfterAfter(OldText(l), |gap|, |cut|);
      assert EditsOf(l, base)[1..] == EditsOf(more, base + |gap| + |cut|);
  }

  /** The lines up to and including one edit, split off the rest. */
  lemma {:induction false} StretchOf(rest: seq<string>, base: int, e: Edit)
    requires FitsHere(rest, base, e) && e.pos - base <= |rest|
    ensures |Before(rest, e.pos - base)| == e.pos - base
    ensures rest == Before(rest, e.pos - base) + (e.cut + Remainder(rest, base, e))
  {
    Rejoin(rest, e.pos - base);
    PrefixSplit(rest, e.pos - base, e.cut);
  }

  /** Fitting edits that add nothing past the end come from a layout. */
  lemma {:induction false} LayoutOf(rest: seq<string>, base: int, edits: seq<Edit>) returns (l: Layout)
    requires FitsFrom(rest, base, edits) && Harmless(rest, base, edits)
    ensures Proper(l, base) && OldText(l) == rest && EditsOf(l, base) == edits
    decreases |edits|
  {
    if edits == [] {
      return Last(rest, []);
    }
    var e := edits[0];
    if e.pos - base > |rest| {
      PastTheEnd(rest, base, edits);
      return Last(rest, edits);
    }
    HarmlessTail(rest, base, edits);
    StretchOf(rest, base, e);
    var more := LayoutOf(Remainder(rest, base, e), End(e), edits[1..]);
    l := Stretch(Before(rest, e.pos - base), e.cut, e.put, more);
    assert edits == [e] + edits[1..];
  }

  lemma {:induction false} HarmlessTail(rest: seq<string>, base: int, edits: seq<Edit>)
    requires edits != [] && FitsFrom(rest, base, edits) && Harmless(rest, base, edits) && edits[0].pos <= base + |rest|
    ensures Harmless(Remainder(rest, base, edits[0]), End(edits[0]), edits[1..])
  {
    var e := edits[0];
    Rejoin(rest, e.pos - base);
    Rejoin(rest, End(e) - base);
    assert |e.cut| <= |After(rest, e.pos - base)|;
  }

  lemma {:induction false} PastTheEnd(rest: seq<string>, base: int, edits: seq<Edit>)
    requires edits != [] && FitsFrom(rest, base, edits) && Harmless(rest, base, edits) && edits[0].pos > base + |rest|
    ensures Strays(base + |rest|, edits)
  {
    var e, more := edits[0], edits[1..];
    Rejoin(rest, e.pos - base);
    Rejoin(rest, End(e) - base);
    LaterEdits(rest, base, edits);
    OrderedFromNothing(End(e), more);
    assert forall k :: 0 < k < |edits| ==> edits[k] == more[k - 1];
  }

  lemma {:induction false} LaterEdits(rest: seq<string>, base: int, edits: seq<Edit>)
    requires FitsFrom(rest, base, edits)
    ensures forall k :: 0 <= k < |edits| ==> edits[k].pos >= base
    decreases |edits|
  {
    if edits != [] {
      LaterEdits(Remainder(rest, base, edits[0]), End(edits[0]), edits[1..]);
      assert forall k :: 0 < k < |edits| ==> edits[k] == edits[1..][k - 1];
    }
  }

  /** Where no lines are left, edits can only be ordered and cut nothing. */
  lemma {:induction false} OrderedFromNothing(base: int, edits: seq<Edit>)
    requires FitsFrom([], base, edits)
    ensures forall k :: 0 <= k < |edits| ==> edits[k].pos >= base && edits[k].cut == []
    ensures forall i, j :: 0 <= i < j < |edits| ==> edits[i].pos <= edits[j].pos
    decreases |edits|
  {
    if edits != [] {
      var e, more := edits[0], edits[1..];
      Rejoin([], e.pos - base);
      OrderedFromNothing(End(e), more);
      assert forall k :: 0 < k < |edits| ==> edits[k] == more[k - 1];
    }
  }

  /** The reversed edits fit the result and splice the lines back. */
  lemma {:induction false} ReverseRestores(rest: seq<string>, base: int, edits: seq<Edit>, shift: int)
    requires FitsFrom(rest, base, edits) && Harmless(rest, base, edits)
    ensures var t, back := Splice(rest, base, edits), Reverse(edits, shift);
            FitsFrom(t, base + shift, back) && Splice(t, base + shift, back) == rest
  {
    var l := LayoutOf(rest, base, edits);
    LayoutSplices(l, base);
    FlipExchanges(l, base, shift);
    LayoutSplices(Flip(l, shift), base + shift);
  }

  // ----- when undoing is impossible -----

  predicate AddsPastEnd(file: seq<string>, e: Edit) {
    e.pos > |file| && e.put != []
  }

  lemma {:induction false} ReversedEdit(edits: seq<Edit>, shift: int, k: nat)
    requires k < |edits|
    ensures |Reverse(edits, shift)| == |edits|
    ensures Reverse(edits, shift)[k] ==
            Edit(edits[k].pos + shift + TotalGrowth(edits[..k]), edits[k].put, edits[k].cut)
    decreases |edits|
  {
    var rest := edits[1..];
    if rest != [] {
      ReversedEdit(rest, shift + Growth(edits[0]), if k == 0 then 0 else k - 1);
    }
    if k > 0 {
      assert edits[..k][1..] == rest[..k - 1];
    }
  }

  lemma {:induction false} GrowthSplits(a: seq<Edit>, b: seq<Edit>)
    ensures TotalGrowth(a + b) == TotalGrowth(a) + TotalGrowth(b)
  {
    if a == [] {
      assert a + b == b;
    } else {
      assert (a + b)[0] == a[0] && (a + b)[1..] == a[1..] + b;
      GrowthSplits(a[1..], b);
    }
  }

  lemma {:induction false} NoGrowth(edits: seq<Edit>)
    requires forall k :: 0 <= k < |edits| ==> edits[k].cut == edits[k].put == []
    ensures TotalGrowth(edits) == 0
  {
    if edits != [] {
      NoGrowth(edits[1..]);
    }
  }

  lemma {:induction false} LastAddingPastEnd(file: seq<string>, edits: seq<Edit>) returns (k: nat)
    requires exists i :: 0 <= i < |edits| && AddsPastEnd(file, edits[i])
    ensures k < |edits| && AddsPastEnd(file, edits[k])
    ensures forall j :: k < j < |edits| ==> !AddsPastEnd(file, edits[j])
  {
    var i :| 0 <= i < |edits| && AddsPastEnd(file, edits[i]);
    k := |edits| - 1;
    while !AddsPastEnd(file, edits[k])
      invariant i <= k < |edits|
      invariant forall j :: k < j < |edits| ==> !AddsPastEnd(file, edits[j])
      decreases k
    {
      k := k - 1;
    }
  }

  /** If some edit added lines past the end, the last such edit, reversed, looks for its
      lines beyond the end of the result. */
  lemma {:induction false} ReverseCannotFit(file: seq<string>, edits: seq<Edit>, t: seq<string>)
    requires Fits(file, edits) && |t| == |file| + TotalGrowth(edits)
    requires exists i :: 0 <= i < |edits| && AddsPastEnd(file, edits[i])
    ensures !Fits(t, Reverse(edits, 0))
  {
    var k := LastAddingPastEnd(file, edits);
    GrowthUpTo(file, edits, k);
    ReversedEdit(edits, 0, k);
    var back := Reverse(edits, 0)[k];
    if back.pos >= 0 {
      Rejoin(t, back.pos);
    }
  }

  /** Nothing grows after the last edit that added lines past the end. */
  lemma {:induction false} GrowthUpTo(file: seq<string>, edits: seq<Edit>, k: nat)
    requires Fits(file, edits) && k < |edits| && AddsPastEnd(file, edits[k])
    requires forall j :: k < j < |edits| ==> !AddsPastEnd(file, edits[j])
    ensures TotalGrowth(edits) == TotalGrowth(edits[..k]) + |edits[k].put|
  {
    var e, later := edits[k], edits[k + 1..];
    CutNothing(file, e);
    forall j | 0 <= j < |later|
      ensures later[j].cut == later[j].put == []
    {
      assert later[j] == edits[k + 1 + j];
      CutNothing(file, edits[k + 1 + j]);
    }
    NoGrowth(later);
    assert edits == edits[..k] + ([e] + later);
    GrowthSplits(edits[..k], [e] + later);
    assert ([e] + later)[1..] == later;
  }

  lemma {:induction false} CutNothing(file: seq<string>, e: Edit)
    requires e.pos > |file| && e.cut <= After(file, e.pos)
    ensures e.cut == []
  {
    Rejoin(file, e.pos);
  }

  /** The reverse edits fit the result exactly when no edit added lines past the end, and
      then they restore the file. */
  lemma {:induction false} ReverseFitsIff(file: seq<string>, edits: seq<Edit>)
    requires Fits(file, edits)
    ensures FitsFrom(file, 0, edits)
    ensures var t, back := Splice(file, 0, edits), Reverse(edits, 0);
            && (Fits(t, back) <==> forall i :: 0 <= i < |edits| ==> !AddsPastEnd(file, edits[i]))
            && (Fits(t, back) ==> FitsFrom(t, 0, back) && Splice(t, 0, back) == file)
  {
    FitsFromMeansFits(file, edits, 0);
    var t, back := Splice(file, 0, edits), Reverse(edits, 0);
    FitsFromMeansFits(t, back, 0);
    if forall i :: 0 <= i < |edits| ==> !AddsPastEnd(file, edits[i]) {
      assert Harmless(file, 0, edits);
      ReverseRestores(file, 0, edits, 0);
    } else {
      SpliceLength(file, 0, edits);
      ReverseCannotFit(file, edits, t);
    }
  }
}
