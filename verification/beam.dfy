/** Decomposition of a beam (one candidate solution) into its prompt and its
    stripped steps, and the text that is scored for each step. */
module Beam {

  /** The separator between the prompt and the steps, and between steps. */
  const Delim: string := "\n\n"

  /** Python's `Delim in t`. */
  predicate HasDelim(t: string)
    decreases |t|
  {
    |t| >= 2 && (t[..2] == Delim || HasDelim(t[1..]))
  }

  /** Python's `s.split("\n\n")`: cut at every occurrence of the delimiter,
      scanning left to right, occurrences not overlapping. */
  function Split(s: string): (parts: seq<string>)
    ensures |parts| >= 1
    decreases |s|
  {
    if |s| < 2 then [s]
    else if s[..2] == Delim then [""] + Split(s[2..])
    else
      var rest := Split(s[1..]);
      [[s[0]] + rest[0]] + rest[1..]
  }

  /** Python's `"\n\n".join(parts)`, a left inverse of Split: re-joining a
      split gives back the text (JoinSplit). It is not a right inverse:
      `Join([])` splits to `[""]`, and `["a\n", "b"]` joins to a text that
      splits to `["a", "\nb"]`. */
  function Join(parts: seq<string>): (s: string)
    decreases |parts|
  {
    if |parts| == 0 then ""
    else if |parts| == 1 then parts[0]
    else parts[0] + Delim + Join(parts[1..])
  }

  lemma {:induction false} JoinStartsWithFirst(parts: seq<string>)
    requires |parts| >= 1
    ensures |parts[0]| <= |Join(parts)| && Join(parts)[..|parts[0]|] == parts[0]
  {
  }

  /** One unfolding of `Join` on two or more segments. */
  lemma JoinUnfold(parts: seq<string>)
    requires |parts| > 1
    ensures Join(parts) == parts[0] + Delim + Join(parts[1..])
  {
  }

  lemma ConcatAssoc(a: string, b: string, d: string, e: string)
    ensures (a + b) + d + e == a + (b + d + e)
  {
  }

  /** Prepending a character to the first segment prepends it to the join. */
  lemma JoinExtendFirst(c: char, parts: seq<string>)
    requires |parts| >= 1
    ensures Join([[c] + parts[0]] + parts[1..]) == [c] + Join(parts)
  {
    var extended := [[c] + parts[0]] + parts[1..];
    assert extended[0] == [c] + parts[0];
    assert extended[1..] == parts[1..];
    if |parts| > 1 {
      JoinUnfold(extended);
      JoinUnfold(parts);
      ConcatAssoc([c], parts[0], Delim, Join(parts[1..]));
    }
  }

  /** Re-joining the segments of a split gives back the beam. */
  lemma {:induction false} JoinSplit(s: string)
    ensures Join(Split(s)) == s
    decreases |s|
  {
    if |s| < 2 {
    } else if s[..2] == Delim {
      JoinSplit(s[2..]);
      assert s == Delim + s[2..];
    } else {
      JoinSplit(s[1..]);
      JoinExtendFirst(s[0], Split(s[1..]));
      assert s == [s[0]] + s[1..];
    }
  }

  /** No segment of a split contains the delimiter. */
  lemma {:induction false} SplitSegmentsHaveNoDelim(s: string)
    ensures forall i :: 0 <= i < |Split(s)| ==> !HasDelim(Split(s)[i])
    decreases |s|
  {
    if |s| < 2 {
      assert !HasDelim(s);
    } else if s[..2] == Delim {
      SplitSegmentsHaveNoDelim(s[2..]);
      assert !HasDelim("");
      assert forall i :: 1 <= i < |Split(s)| ==> Split(s)[i] == Split(s[2..])[i - 1];
    } else {
      var rest := Split(s[1..]);
      SplitSegmentsHaveNoDelim(s[1..]);
      ExtendedFirstNoDelim(s);
      assert forall i :: 1 <= i < |Split(s)| ==> Split(s)[i] == rest[i];
    }
  }

  /** Where the beam does not start with the delimiter, its first segment is
      its first character followed by the first segment of the rest, and that
      adds no delimiter. */
  lemma ExtendedFirstNoDelim(s: string)
    requires |s| >= 2 && s[..2] != Delim
    requires !HasDelim(Split(s[1..])[0])
    ensures !HasDelim([s[0]] + Split(s[1..])[0])
  {
    var rest := Split(s[1..]);
    var first := [s[0]] + rest[0];
    assert first[1..] == rest[0];
    if |rest[0]| > 0 {
      JoinSplit(s[1..]);
      JoinStartsWithFirst(rest);
      assert rest[0][0] == s[1];
      assert first[..2] == s[..2];
    }
  }

  /** No segment but the last ends in a newline: the cut is made at the
      leftmost delimiter, so a newline before it would have been part of an
      earlier delimiter. */
  lemma {:induction false} SplitInnerNoTrailingNewline(s: string)
    ensures forall i :: 0 <= i < |Split(s)| - 1 ==>
              Split(s)[i] == [] || Split(s)[i][|Split(s)[i]| - 1] != '\n'
    decreases |s|
  {
    if |s| < 2 {
    } else if s[..2] == Delim {
      var tail := Split(s[2..]);
      SplitInnerNoTrailingNewline(s[2..]);
      assert Split(s) == [""] + tail;
    } else {
      var rest := Split(s[1..]);
      SplitInnerNoTrailingNewline(s[1..]);
      var first := [s[0]] + rest[0];
      assert Split(s) == [first] + rest[1..];
      if |rest| > 1 {
        FirstOfSplitNoTrailingNewline(s);
      }
    }
  }

  /** The first-segment case of SplitInnerNoTrailingNewline, where the beam
      does not start with the delimiter and the rest splits in two or more. */
  lemma FirstOfSplitNoTrailingNewline(s: string)
    requires |s| >= 2 && s[..2] != Delim && |Split(s[1..])| > 1
    requires var r0 := Split(s[1..])[0]; r0 == [] || r0[|r0| - 1] != '\n'
    ensures var first := [s[0]] + Split(s[1..])[0]; first[|first| - 1] != '\n'
  {
    var rest := Split(s[1..]);
    if rest[0] == [] {
      JoinSplit(s[1..]);
      JoinUnfold(rest);
      assert s[1..] == Delim + Join(rest[1..]);
      assert s[1] == '\n';
      assert s[..2] == [s[0], '\n'];
    }
  }

  /** A beam splits into more than one segment exactly when it contains the
      delimiter; otherwise the only segment is the beam itself. */
  lemma {:induction false} SplitSingleIffNoDelim(s: string)
    ensures |Split(s)| == 1 <==> !HasDelim(s)
    ensures !HasDelim(s) ==> Split(s) == [s]
    decreases |s|
  {
    if |s| < 2 {
    } else if s[..2] == Delim {
    } else {
      SplitSingleIffNoDelim(s[1..]);
      if !HasDelim(s) {
        assert [s[0]] + s[1..] == s;
      }
    }
  }

  /** A text without a newline has no delimiter. */
  lemma {:induction false} NoNewlineNoDelim(t: string)
    requires forall k :: 0 <= k < |t| ==> t[k] != '\n'
    ensures !HasDelim(t)
    decreases |t|
  {
    if |t| >= 2 {
      assert t[..2] != Delim by {
        assert t[0] != '\n';
      }
      NoNewlineNoDelim(t[1..]);
    }
  }

  /** A segment that holds no delimiter and does not end in a newline is cut
      off whole at the delimiter that follows it. */
  lemma {:induction false} SplitAfterSegment(a: string, rest: string)
    requires !HasDelim(a) && (a == [] || a[|a| - 1] != '\n')
    ensures Split(a + Delim + rest) == [a] + Split(rest)
    decreases |a|
  {
    var s := a + Delim + rest;
    if a == [] {
      assert s == Delim + rest;
      assert s[2..] == rest;
    } else {
      var tail := a[1..];
      assert s[1..] == tail + Delim + rest;
      assert s[..2] != Delim by {
        if |a| == 1 {
          assert s[..2] == [a[0], '\n'];
        } else {
          assert s[..2] == a[..2];
        }
      }
      assert !HasDelim(tail);
      SplitAfterSegment(tail, rest);
      assert [a[0]] + tail == a;
    }
  }

  /** Python's `str.isspace()` for one character: the ASCII controls tab to
      carriage return, the four information separators, space, and the Unicode
      space, line and paragraph separators. */
  predicate IsSpace(c: char)
  {
    || c == ' '
    || ('\t' <= c <= '\r')
    || ('\U{1C}' <= c <= '\U{1F}')
    || c == '\U{85}' || c == '\U{A0}' || c == '\U{1680}'
    || ('\U{2000}' <= c <= '\U{200A}')
    || c == '\U{2028}' || c == '\U{2029}' || c == '\U{202F}'
    || c == '\U{205F}' || c == '\U{3000}'
  }

  /** The first index at or after i that holds no whitespace, or |t|. */
  function SkipSpace(t: string, i: nat): (a: nat)
    requires i <= |t|
    ensures i <= a <= |t|
    ensures forall k :: i <= k < a ==> IsSpace(t[k])
    ensures a == |t| || !IsSpace(t[a])
    decreases |t| - i
  {
    if i < |t| && IsSpace(t[i]) then SkipSpace(t, i + 1) else i
  }

  /** The end of t[lo..j] once its trailing whitespace is dropped. */
  function SkipSpaceBack(t: string, lo: nat, j: nat): (b: nat)
    requires lo <= j <= |t|
    ensures lo <= b <= j
    ensures forall k :: b <= k < j ==> IsSpace(t[k])
    ensures b == lo || !IsSpace(t[b - 1])
    decreases j
  {
    if j > lo && IsSpace(t[j - 1]) then SkipSpaceBack(t, lo, j - 1) else j
  }

  /** `t.strip()`: scans for the first character that is not whitespace,
      then back from the end for the last one, and keeps what lies between. */
  function Strip(t: string): string
  {
    var a := SkipSpace(t, 0);
    t[a..SkipSpaceBack(t, a, |t|)]
  }

  /** A stripped text neither starts nor ends with whitespace. */
  lemma StripEnds(t: string)
    ensures var r := Strip(t);
            r == [] || (!IsSpace(r[0]) && !IsSpace(r[|r| - 1]))
  {
    var a := SkipSpace(t, 0);
    var b := SkipSpaceBack(t, a, |t|);
    assert Strip(t) == t[a..b];
  }

  /** A stripped text is a contiguous piece of the input, and all that comes
      before and after it is whitespace. */
  lemma StripPiece(t: string)
    ensures var r := Strip(t);
            exists i :: 0 <= i <= |t| - |r| && t == t[..i] + r + t[i + |r|..]
                        && (forall k :: 0 <= k < i ==> IsSpace(t[k]))
                        && (forall k :: i + |r| <= k < |t| ==> IsSpace(t[k]))
  {
    var a := SkipSpace(t, 0);
    var b := SkipSpaceBack(t, a, |t|);
    var r := Strip(t);
    assert r == t[a..b];
    assert t == t[..a] + r + t[a + |r|..];
  }

  /** Stripping twice is stripping once. */
  lemma StripIdempotent(t: string)
    ensures Strip(Strip(t)) == Strip(t)
  {
    var r := Strip(t);
    StripEnds(t);
    assert SkipSpace(r, 0) == 0;
    assert SkipSpaceBack(r, 0, |r|) == |r|;
    assert r[0..|r|] == r;
  }

  /** `[j.strip() for j in segments]`. */
  function StripAll(segments: seq<string>): (steps: seq<string>)
    ensures |steps| == |segments|
    ensures forall k :: 0 <= k < |steps| ==> steps[k] == Strip(segments[k])
  {
    seq(|segments|, k requires 0 <= k < |segments| => Strip(segments[k]))
  }

  /** The prompt of a beam: the text before the first delimiter. */
  function Prompt(beam: string): string
  {
    Split(beam)[0]
  }

  /** The prompt is the beginning of the beam up to (not including) its
      first delimiter: it holds no delimiter, is followed by one when the
      beam has one, and does not end in a newline that would make an earlier
      delimiter; without a delimiter it is the whole beam. */
  lemma PromptIsPrefix(beam: string)
    ensures Prompt(beam) <= beam && !HasDelim(Prompt(beam))
    ensures HasDelim(beam) ==> Prompt(beam) + Delim <= beam
    ensures var p := Prompt(beam);
            HasDelim(beam) ==> p == [] || p[|p| - 1] != '\n'
    ensures !HasDelim(beam) ==> Prompt(beam) == beam
  {
    var parts := Split(beam);
    JoinSplit(beam);
    JoinStartsWithFirst(parts);
    SplitSegmentsHaveNoDelim(beam);
    SplitSingleIffNoDelim(beam);
    if HasDelim(beam) {
      JoinUnfold(parts);
      assert beam == (parts[0] + Delim) + Join(parts[1..]);
      SplitInnerNoTrailingNewline(beam);
    }
  }

  /** The steps of a beam: the remaining segments, stripped. */
  function Steps(beam: string): (steps: seq<string>)
    ensures |steps| == |Split(beam)| - 1
  {
    StripAll(Split(beam)[1..])
  }

  /** The text scored for step k: the prompt, a space and the first step for
      k == 0, the step alone afterwards. */
  function ScoredText(prompt: string, steps: seq<string>, k: nat): string
    requires k < |steps|
  {
    if k == 0 then prompt + " " + steps[0] else steps[k]
  }

  function ScoredTexts(prompt: string, steps: seq<string>): (texts: seq<string>)
    ensures |texts| == |steps|
  {
    seq(|steps|, k requires 0 <= k < |steps| => ScoredText(prompt, steps, k))
  }

  /** The texts a beam contributes, one per step, in step order: the first
      is the prompt, a space and the first stripped step; every later one is
      its stripped step alone. */
  lemma BeamTexts(beam: string)
    ensures var texts := ScoredTexts(Prompt(beam), Steps(beam));
            && |texts| == |Split(beam)| - 1
            && (|texts| > 0 ==> texts[0] == Split(beam)[0] + " " + Strip(Split(beam)[1]))
            && (forall k :: 1 <= k < |texts| ==> texts[k] == Strip(Split(beam)[k + 1]))
  {
  }

  /** A beam without the delimiter has no steps and so no scored texts. */
  lemma NoDelimNoSteps(beam: string)
    requires !HasDelim(beam)
    ensures Prompt(beam) == beam && Steps(beam) == []
    ensures ScoredTexts(Prompt(beam), Steps(beam)) == []
  {
  }
}
