/** Strings as Python orders them: lexicographically by code point. */
module Text {

  predicate Less(a: string, b: string) {
    if |b| == 0 then false
    else if |a| == 0 then true
    else if a[0] != b[0] then a[0] < b[0]
    else Less(a[1..], b[1..])
  }

  lemma {:induction false} LessIsIrreflexive(a: string)
    ensures !Less(a, a)
  {
    if |a| > 0 {
      LessIsIrreflexive(a[1..]);
    }
  }

  lemma {:induction false} LessIsTotal(a: string, b: string)
    ensures a == b || Less(a, b) || Less(b, a)
  {
    if |a| > 0 && |b| > 0 && a[0] == b[0] {
      LessIsTotal(a[1..], b[1..]);
      assert a == [a[0]] + a[1..] && b == [b[0]] + b[1..];
    }
  }

  lemma {:induction false} LessIsTransitive(a: string, b: string, c: string)
    requires Less(a, b) && Less(b, c)
    ensures Less(a, c)
  {
    if |a| > 0 && a[0] == b[0] == c[0] {
      LessIsTransitive(a[1..], b[1..], c[1..]);
    }
  }

  lemma LessIsAsymmetric(a: string, b: string)
    requires Less(a, b)
    ensures !Less(b, a) && a != b
  {
    if Less(b, a) {
      LessIsTransitive(a, b, a);
    }
    LessIsIrreflexive(a);
  }

  /** The first place where the texts part: the smaller character decides, or the text that
      ends there comes first. */
  ghost predicate PartsAt(a: string, b: string, k: nat) {
    k <= |a| && k < |b| && a[..k] == b[..k] && (k == |a| || a[k] < b[k])
  }

  lemma {:induction false} LessAtFirstDifference(a: string, b: string)
    ensures Less(a, b) <==> exists k: nat :: PartsAt(a, b, k)
  {
    if |a| == 0 || |b| == 0 {
      assert |b| > 0 ==> PartsAt(a, b, 0);
    } else if a[0] == b[0] {
      LessAtFirstDifference(a[1..], b[1..]);
      if k: nat :| PartsAt(a[1..], b[1..], k) {
        PartsOneLater(a, b, k);
      }
      if k: nat :| PartsAt(a, b, k) {
        PartsOneLater(a, b, k - 1);
      }
    } else {
      assert a[..0] == b[..0];
      assert a[0] < b[0] ==> PartsAt(a, b, 0);
      assert forall k: nat :: PartsAt(a, b, k) && k > 0 ==> a[..k][0] == b[..k][0];
    }
  }

  lemma PartsOneLater(a: string, b: string, k: nat)
    requires |a| > 0 && |b| > 0 && a[0] == b[0]
    ensures PartsAt(a[1..], b[1..], k) <==> PartsAt(a, b, k + 1)
  {
    if k + 1 <= |a| && k + 1 < |b| {
      assert a[..k + 1] == [a[0]] + a[1..][..k] && b[..k + 1] == [b[0]] + b[1..][..k];
      assert a[..k + 1][1..] == a[1..][..k] && b[..k + 1][1..] == b[1..][..k];
    }
  }

  /** `text.split(sep)` for a one-character separator. */
  function Split(text: string, sep: char): (parts: seq<string>)
    ensures |parts| > 0
  {
    if text == "" then [""]
    else
      var rest := Split(text[1..], sep);
      if text[0] == sep then [""] + rest
      else [[text[0]] + rest[0]] + rest[1..]
  }

  /** `sep.join(parts)`. */
  function Join(parts: seq<string>, sep: char): string
    requires |parts| > 0
  {
    if |parts| == 1 then parts[0] else parts[0] + [sep] + Join(parts[1..], sep)
  }

  /** No part contains the separator. */
  ghost predicate Unbroken(parts: seq<string>, sep: char) {
    forall i :: 0 <= i < |parts| ==> sep !in parts[i]
  }

  /** A character in front of a joined text is a character in front of its first part. */
  lemma JoinInFront(c: char, parts: seq<string>, sep: char)
    requires |parts| > 0
    ensures Join([[c] + parts[0]] + parts[1..], sep) == [c] + Join(parts, sep)
  {
    var longer := [[c] + parts[0]] + parts[1..];
    if |parts| > 1 {
      assert longer[1..] == parts[1..];
      var tail := [sep] + Join(parts[1..], sep);
      assert Join(longer, sep) == ([c] + parts[0]) + tail;
      assert Join(parts, sep) == parts[0] + tail;
    }
  }

  /** Splitting cuts at every separator and joining puts the text together again. */
  lemma {:induction false} SplitJoins(text: string, sep: char)
    ensures Join(Split(text, sep), sep) == text && Unbroken(Split(text, sep), sep)
  {
    if text != "" {
      var rest := Split(text[1..], sep);
      SplitJoins(text[1..], sep);
      assert text == [text[0]] + text[1..];
      if text[0] == sep {
        assert ([""] + rest)[1..] == rest;
      } else {
        JoinInFront(text[0], rest, sep);
      }
    }
  }

  /** There is only one way to cut a text at its separators. */
  lemma {:induction false} SplitOfJoin(parts: seq<string>, sep: char)
    requires |parts| > 0 && Unbroken(parts, sep)
    ensures Split(Join(parts, sep), sep) == parts
    decreases |parts|, |parts[0]|
  {
    var text := Join(parts, sep);
    if parts[0] == "" {
      if |parts| == 1 {
        assert parts == [""];
      } else {
        SplitOfJoin(parts[1..], sep);
        assert text == [sep] + Join(parts[1..], sep);
        assert parts == [""] + parts[1..];
      }
    } else {
      var c, shorter := parts[0][0], [parts[0][1..]] + parts[1..];
      assert [c] + shorter[0] == parts[0] && shorter[1..] == parts[1..];
      assert parts == [[c] + shorter[0]] + shorter[1..];
      JoinInFront(c, shorter, sep);
      assert c in parts[0];
      SplitOfJoin(shorter, sep);
    }
  }

  predicate OccursAt(s: string, t: string, i: int) {
    0 <= i <= |t| - |s| && t[i..i + |s|] == s
  }

  /** `s in t`. */
  predicate IsSubstring(s: string, t: string) {
    exists i :: 0 <= i <= |t| && OccursAt(s, t, i)
  }

  lemma SubstringMeaning(s: string, t: string)
    ensures IsSubstring(s, t) <==> exists before, after :: t == before + s + after
  {
    if i :| 0 <= i <= |t| && OccursAt(s, t, i) {
      assert t == t[..i] + s + t[i + |s|..];
    }
    if before, after :| t == before + s + after {
      assert OccursAt(s, t, |before|);
    }
  }
}
