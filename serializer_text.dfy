/**
 * The text clean-up of HtmlSerializer: the serializer first writes marker
 * tokens (`§bs§` block separator, `§nl§` new line, `§blank§` hard blank,
 * `§tab§` tab) and then trims, drops white space around block separators,
 * collapses runs of white space and finally replaces the markers.
 */
module SerializerText {
  import opened Strings
  import opened Wrappers

  const BlockSeparator: string := "\U{A7}bs\U{A7}"
  const NewLine: string := "\U{A7}nl\U{A7}"
  const Blank: string := "\U{A7}blank\U{A7}"
  const Tab: string := "\U{A7}tab\U{A7}"

  /** The non-breaking space, character 160. */
  const Nbsp: char := '\U{A0}'

  /** `isSpace`: space, tab, line feed, form feed and carriage return; NBSP is not one. */
  predicate IsSpace(c: char) {
    c == ' ' || c == '\t' || c == '\n' || c == '\U{C}' || c == '\r'
  }

  // ---------------------------------------------------------------- trim

  /** The number of `isSpace` characters at the front of s. */
  function LeadingSpaces(s: string): (n: nat)
    ensures n <= |s|
    ensures forall i :: 0 <= i < n ==> IsSpace(s[i])
    ensures n < |s| ==> !IsSpace(s[n])
    decreases |s|
  {
    if s != [] && IsSpace(s[0]) then 1 + LeadingSpaces(s[1..]) else 0
  }

  /** The number of `isSpace` characters at the end of s. */
  function TrailingSpaces(s: string): (n: nat)
    ensures n <= |s|
    ensures forall i :: |s| - n <= i < |s| ==> IsSpace(s[i])
    ensures n < |s| ==> !IsSpace(s[|s| - n - 1])
    decreases |s|
  {
    if s != [] && IsSpace(s[|s| - 1]) then 1 + TrailingSpaces(s[..|s| - 1]) else 0
  }

  /** What `trim` returns: s without its leading, then its trailing, `isSpace` characters. */
  function Trimmed(s: string): string {
    var t := s[LeadingSpaces(s)..];
    t[..|t| - TrailingSpaces(t)]
  }

  /**
   * The trimmed string is the contiguous piece s[i..j] with only spaces
   * before and after it, and it neither starts nor ends with a space.
   */
  lemma TrimmedShape(s: string)
    ensures exists i, j ::
      && 0 <= i <= j <= |s| && Trimmed(s) == s[i..j]
      && (forall k :: 0 <= k < i ==> IsSpace(s[k]))
      && (forall k :: j <= k < |s| ==> IsSpace(s[k]))
    ensures Trimmed(s) != [] ==> !IsSpace(Trimmed(s)[0]) && !IsSpace(Trimmed(s)[|Trimmed(s)| - 1])
  {
    var i := LeadingSpaces(s);
    var t := s[i..];
    var j := i + |t| - TrailingSpaces(t);
    assert Trimmed(s) == s[i..j];
    assert forall k :: j <= k < |s| ==> s[k] == t[k - i];
  }

  /** Trimming twice gives what trimming once gave. */
  lemma TrimIdempotent(s: string)
    ensures Trimmed(Trimmed(s)) == Trimmed(s)
  {
    TrimmedShape(s);
    var r := Trimmed(s);
    assert LeadingSpaces(r) == 0;
    assert TrailingSpaces(r) == 0;
    assert r[0..] == r;
    assert r[..|r|] == r;
  }

  /** `trim(string)`. */
  method Trim(s: string) returns (r: string)
    ensures r == Trimmed(s)
  {
    r := s;
    var length := |r|;
    var start := 0;
    while start != length && IsSpace(r[start])
      invariant 0 <= start <= length && r == s && length == |s|
      invariant forall k :: 0 <= k < start ==> IsSpace(s[k])
    {
      start := start + 1;
    }
    assert start == LeadingSpaces(s);
    if start != 0 {
      r := r[start..];
      length := |r|;
    }
    assert r == s[LeadingSpaces(s)..];
    if length != 0 {
      var end := length;
      while end != 0 && IsSpace(r[end - 1])
        invariant 0 <= end <= length == |r|
        invariant forall k :: end <= k < length ==> IsSpace(r[k])
      {
        end := end - 1;
      }
      assert length - end == TrailingSpaces(r);
      if end != length {
        r := r[..end];
      }
    }
  }

  // ------------------------------------ white space around block separators

  /** Lines 177-179: step back over spaces, never past `start`. */
  function SkipSpacesBack(text: string, start: nat, p: nat): (q: nat)
    requires start <= p <= |text|
    ensures start <= q <= p
    ensures forall k :: q <= k < p ==> IsSpace(text[k])
    ensures q == start || !IsSpace(text[q - 1])
    decreases p
  {
    if p != start && IsSpace(text[p - 1]) then SkipSpacesBack(text, start, p - 1) else p
  }

  /** Lines 185-187: step forward over spaces. */
  function SkipSpacesForward(text: string, p: nat): (q: nat)
    requires p <= |text|
    ensures p <= q <= |text|
    ensures forall k :: p <= k < q ==> IsSpace(text[k])
    ensures q == |text| || !IsSpace(text[q])
    decreases |text| - p
  {
    if p < |text| && IsSpace(text[p]) then SkipSpacesForward(text, p + 1) else p
  }

  /**
   * Lines 191-195: skip the separators that follow right at `start`; the
   * new start, and the next separator after it or -1.
   */
  function SkipDuplicates(text: string, start: nat): (r: (nat, int))
    requires start <= |text|
    ensures start <= r.0 <= |text|
    ensures r.1 == IndexOf(text, BlockSeparator, r.0)
    ensures r.1 != r.0
    decreases |text| - start
  {
    var p0 := IndexOf(text, BlockSeparator, start);
    if p0 != -1 && p0 == start then SkipDuplicates(text, start + |BlockSeparator|) else (start, p0)
  }

  /**
   * Lines 180-182: a new-line marker just before the separator goes with it. As
   * written (`bounded` false) the marker may reach back before `start`; the
   * corrected rule (`bounded` true) only takes it when it lies after `start`.
   */
  function DropNewLine(text: string, start: nat, p: nat, bounded: bool): int {
    if p >= |NewLine| && OccursAt(text, NewLine, p - |NewLine|) && (!bounded || p - |NewLine| >= start)
    then p - |NewLine| else p
  }

  /**
   * One round of the outer loop of `reduceWhiteSpaceAroundBlockSeparator`
   * and the rounds after it: `start` is where the text not yet copied
   * begins and `p0` the separator found at or after it.
   */
  function AroundFrom(text: string, start: nat, p0: nat, bounded: bool): Result<string>
    requires start <= p0 && OccursAt(text, BlockSeparator, p0)
    decreases |text| - start
  {
    var back := SkipSpacesBack(text, start, p0);
    var cut := DropNewLine(text, start, back, bounded);
    if cut < start then Err(IndexOutOfBounds("begin " + IntToString(start) + ", end " + IntToString(cut)))
    else
      var piece := text[start..cut] + BlockSeparator;
      var p1 := SkipSpacesForward(text, p0 + |BlockSeparator|);
      var next := SkipDuplicates(text, p1);
      if next.1 == -1 then Ok(piece + text[next.0..])
      else
        match AroundFrom(text, next.0, next.1, bounded)
        case Ok(rest) => Ok(piece + rest)
        case Err(e) => Err(e)
  }

  /** `reduceWhiteSpaceAroundBlockSeparator(text)`, as written or corrected. */
  function ReduceAroundSeparators(text: string, bounded: bool): Result<string> {
    var p0 := IndexOf(text, BlockSeparator, 0);
    if p0 == -1 then Ok(text)
    else if |text| <= |BlockSeparator| then Ok(text)
    else AroundFrom(text, 0, p0, bounded)
  }

  /** A text without a separator, or no longer than one, is returned unchanged. */
  lemma ReduceAroundUnchanged(text: string, bounded: bool)
    requires IndexOf(text, BlockSeparator, 0) == -1 || |text| <= |BlockSeparator|
    ensures ReduceAroundSeparators(text, bounded) == Ok(text)
  {
  }

  /** The corrected rule never fails, and never lengthens the text it has still to copy. */
  lemma {:induction false} BoundedAroundIsOk(text: string, start: nat, p0: nat)
    requires start <= p0 && OccursAt(text, BlockSeparator, p0)
    ensures AroundFrom(text, start, p0, true).Ok?
    ensures |AroundFrom(text, start, p0, true).value| <= |text| - start
    decreases |text| - start
  {
    var back := SkipSpacesBack(text, start, p0);
    var cut := DropNewLine(text, start, back, true);
    var p1 := SkipSpacesForward(text, p0 + |BlockSeparator|);
    var next := SkipDuplicates(text, p1);
    if next.1 != -1 {
      BoundedAroundIsOk(text, next.0, next.1);
    }
  }

  /** Where the code as written succeeds, it agrees with the corrected rule. */
  lemma {:induction false} AsWrittenAgreesWhenOk(text: string, start: nat, p0: nat)
    requires start <= p0 && OccursAt(text, BlockSeparator, p0)
    requires AroundFrom(text, start, p0, false).Ok?
    ensures AroundFrom(text, start, p0, false) == AroundFrom(text, start, p0, true)
    decreases |text| - start
  {
    var back := SkipSpacesBack(text, start, p0);
    var cut := DropNewLine(text, start, back, false);
    assert cut >= start;
    assert DropNewLine(text, start, back, true) == cut;
    var piece := text[start..cut] + BlockSeparator;
    var next := SkipDuplicates(text, SkipSpacesForward(text, p0 + |BlockSeparator|));
    if next.1 == -1 {
      assert AroundFrom(text, start, p0, true) == Ok(piece + text[next.0..]);
    } else {
      var sub := AroundFrom(text, next.0, next.1, false);
      assert AroundFrom(text, start, p0, false) == (match sub case Ok(rest) => Ok(piece + rest) case Err(e) => Err(e));
      AsWrittenAgreesWhenOk(text, next.0, next.1);
    }
  }

  /**
   * The code as written fails on `§bs§nl§§bs§`: in the second round the
   * new-line marker that shares its last `§` with the first separator
   * pulls p0 back to 3, before start 4, and `substring(4, 3)` throws.
   */
  lemma AsWrittenFailsOnSharedMarker()
    ensures ReduceAroundSeparators("\U{A7}bs\U{A7}nl\U{A7}\U{A7}bs\U{A7}", false).Err?
  {
    var t := "\U{A7}bs\U{A7}nl\U{A7}\U{A7}bs\U{A7}";
    assert t == ['\U{A7}', 'b', 's', '\U{A7}', 'n', 'l', '\U{A7}', '\U{A7}', 'b', 's', '\U{A7}'];
    assert BlockSeparator == ['\U{A7}', 'b', 's', '\U{A7}'];
    assert NewLine == ['\U{A7}', 'n', 'l', '\U{A7}'];
    assert OccursAt(t, BlockSeparator, 0);
    assert IndexOf(t, BlockSeparator, 0) == 0;
    assert SkipSpacesForward(t, 4) == 4;
    assert t[4..8][0] != BlockSeparator[0];
    assert t[5..9][0] != BlockSeparator[0];
    assert t[6..10][1] != BlockSeparator[1];
    assert t[7..11] == BlockSeparator;
    assert OccursAt(t, BlockSeparator, 7);
    assert IndexOf(t, BlockSeparator, 4) == 7;
    assert SkipDuplicates(t, 4) == (4, 7);
    assert SkipSpacesBack(t, 4, 7) == 7;
    assert t[3..7] == NewLine;
    assert DropNewLine(t, 4, 7, false) == 3;
    assert AroundFrom(t, 4, 7, false).Err?;
  }

  /** The corrected rule on the same input: one separator, the new line dropped with it. */
  lemma CorrectedHandlesSharedMarker()
    ensures ReduceAroundSeparators("\U{A7}bs\U{A7}nl\U{A7}\U{A7}bs\U{A7}", true)
         == Ok("\U{A7}bs\U{A7}nl\U{A7}\U{A7}bs\U{A7}")
  {
    var t := "\U{A7}bs\U{A7}nl\U{A7}\U{A7}bs\U{A7}";
    assert t == ['\U{A7}', 'b', 's', '\U{A7}', 'n', 'l', '\U{A7}', '\U{A7}', 'b', 's', '\U{A7}'];
    assert BlockSeparator == ['\U{A7}', 'b', 's', '\U{A7}'];
    assert NewLine == ['\U{A7}', 'n', 'l', '\U{A7}'];
    assert OccursAt(t, BlockSeparator, 0);
    assert IndexOf(t, BlockSeparator, 0) == 0;
    assert SkipSpacesForward(t, 4) == 4;
    assert t[4..8][0] != BlockSeparator[0];
    assert t[5..9][0] != BlockSeparator[0];
    assert t[6..10][1] != BlockSeparator[1];
    assert t[7..11] == BlockSeparator;
    assert OccursAt(t, BlockSeparator, 7);
    assert IndexOf(t, BlockSeparator, 4) == 7;
    assert SkipDuplicates(t, 4) == (4, 7);
    assert SkipSpacesBack(t, 4, 7) == 7;
    assert DropNewLine(t, 4, 7, true) == 7;
    assert SkipSpacesForward(t, 11) == 11;
    assert IndexOf(t, BlockSeparator, 11) == -1;
    assert SkipDuplicates(t, 11) == (11, -1);
    assert AroundFrom(t, 4, 7, true) == Ok(t[4..7] + BlockSeparator + t[11..]);
    assert SkipSpacesBack(t, 0, 0) == 0;
    assert DropNewLine(t, 0, 0, true) == 0;
    assert AroundFrom(t, 0, 0, true) == Ok(t[0..0] + BlockSeparator + (t[4..7] + BlockSeparator + t[11..]));
    assert t[0..0] + BlockSeparator + (t[4..7] + BlockSeparator + t[11..]) == t;
  }

  /** The corrected `reduceWhiteSpaceAroundBlockSeparator`, which the rest of the model uses. */
  function ReducedAround(text: string): (r: string)
    ensures ReduceAroundSeparators(text, true) == Ok(r)
    ensures |r| <= |text|
  {
    var p0 := IndexOf(text, BlockSeparator, 0);
    if p0 == -1 || |text| <= |BlockSeparator| then text
    else
      BoundedAroundIsOk(text, 0, p0);
      AroundFrom(text, 0, p0, true).value
  }

  /** Lines 177-179: the loop that steps back over the spaces before a separator. */
  method StepBackOverSpaces(text: string, start: nat, p: nat) returns (q: nat)
    requires start <= p <= |text|
    ensures q == SkipSpacesBack(text, start, p)
  {
    q := p;
    while q != start && IsSpace(text[q - 1])
      invariant start <= q <= p
      invariant SkipSpacesBack(text, start, q) == SkipSpacesBack(text, start, p)
    {
      q := q - 1;
    }
  }

  /** Lines 185-187: the loop that steps over the spaces after a separator. */
  method StepOverSpaces(text: string, p: nat) returns (q: nat)
    requires p <= |text|
    ensures q == SkipSpacesForward(text, p)
  {
    q := p;
    while q < |text| && IsSpace(text[q])
      invariant p <= q <= |text|
      invariant SkipSpacesForward(text, q) == SkipSpacesForward(text, p)
    {
      q := q + 1;
    }
  }

  /** Lines 191-195: the loop that skips separators following at `start`. */
  method StepOverSeparators(text: string, p: nat) returns (start: nat, p0: int)
    requires p <= |text|
    ensures (start, p0) == SkipDuplicates(text, p)
  {
    start := p;
    p0 := IndexOf(text, BlockSeparator, start);
    while p0 != -1 && p0 == start
      invariant p <= start <= |text|
      invariant p0 == IndexOf(text, BlockSeparator, start)
      invariant SkipDuplicates(text, start) == SkipDuplicates(text, p)
      decreases |text| - start
    {
      start := start + |BlockSeparator|;
      p0 := IndexOf(text, BlockSeparator, start);
    }
  }

  /**
   * The rest of the text from `start` as the corrected rule leaves it: all of
   * it when no separator follows, the outcome of the next round otherwise.
   */
  function Remaining(text: string, start: nat, p0: int): string
    requires start <= |text|
    requires p0 != -1 ==> start <= p0 && OccursAt(text, BlockSeparator, p0)
  {
    if p0 == -1 then text[start..]
    else
      BoundedAroundIsOk(text, start, p0);
      AroundFrom(text, start, p0, true).value
  }

  /**
   * One round of the corrected rule: the piece it copies ends at `cut`, and
   * the next round resumes at `next0` with the separator at `next1`, if any.
   */
  lemma RoundStep(text: string, start: nat, p0: nat, cut: int, next0: nat, next1: int)
    requires start <= p0 && OccursAt(text, BlockSeparator, p0)
    requires cut == DropNewLine(text, start, SkipSpacesBack(text, start, p0), true)
    requires p0 + |BlockSeparator| <= |text|
    requires (next0, next1) == SkipDuplicates(text, SkipSpacesForward(text, p0 + |BlockSeparator|))
    ensures start <= cut <= p0 < next0
    ensures next1 != -1 ==> next0 <= next1 && OccursAt(text, BlockSeparator, next1)
    ensures Remaining(text, start, p0) == text[start..cut] + BlockSeparator + Remaining(text, next0, next1)
  {
    BoundedAroundIsOk(text, start, p0);
    if next1 != -1 {
      BoundedAroundIsOk(text, next0, next1);
    }
  }

  /** Lines 180-182, corrected: the new-line marker is taken only when it lies after `start`. */
  method StepBackOverNewLine(text: string, start: nat, p: nat) returns (q: nat)
    requires start <= p <= |text|
    ensures q == DropNewLine(text, start, p, true)
  {
    q := p;
    if q >= |NewLine| && q - |NewLine| >= start && OccursAt(text, NewLine, q - |NewLine|) {
      q := q - |NewLine|;
    }
  }

  /**
   * Lines 176-195, one round of the outer loop: the piece appended for the
   * separator at p0, and where the next round resumes.
   */
  method SeparatorRound(text: string, start: nat, p0: nat) returns (piece: string, next0: nat, next1: int)
    requires start <= p0 && OccursAt(text, BlockSeparator, p0)
    ensures start < next0 <= |text|
    ensures next1 != -1 ==> next0 <= next1 && OccursAt(text, BlockSeparator, next1)
    ensures Remaining(text, start, p0) == piece + Remaining(text, next0, next1)
  {
    var back := StepBackOverSpaces(text, start, p0);
    var cut := StepBackOverNewLine(text, start, back);
    var p1 := StepOverSpaces(text, p0 + |BlockSeparator|);
    next0, next1 := StepOverSeparators(text, p1);
    RoundStep(text, start, p0, cut, next0, next1);
    piece := text[start..cut] + BlockSeparator;
  }

  /**
   * `reduceWhiteSpaceAroundBlockSeparator(text)` with the new-line step kept
   * after `start`: spaces before and after each separator are dropped, and
   * so is a new-line marker just before it and any separator that follows
   * it directly.
   */
  method ReduceWhiteSpaceAroundBlockSeparator(text: string) returns (r: string)
    ensures ReduceAroundSeparators(text, true) == Ok(r)
    ensures |r| <= |text|
  {
    var p0 := IndexOf(text, BlockSeparator, 0);
    if p0 == -1 {
      return text;
    }
    var length := |text|;
    if length <= |BlockSeparator| {
      return text;
    }
    ghost var goal := ReducedAround(text);
    assert goal == Remaining(text, 0, p0);
    var result := "";
    var start := 0;
    while p0 != -1
      invariant 0 <= start <= length == |text|
      invariant p0 != -1 ==> start <= p0 && OccursAt(text, BlockSeparator, p0)
      invariant goal == result + Remaining(text, start, p0)
      decreases length - start
    {
      var piece;
      piece, start, p0 := SeparatorRound(text, start, p0);
      result := result + piece;
    }
    if start < length {
      result := result + text[start..];
    } else {
      assert result + text[start..] == result;
    }
    r := result;
  }

  // ------------------------------------------- leading and trailing separators

  /** w is a run of whole block separators. */
  predicate Separators(w: string)
    decreases |w|
  {
    w == [] || (StartsWith(w, BlockSeparator) && Separators(w[|BlockSeparator|..]))
  }

  /** Lines 92-94: the text after its leading block separators. */
  function WithoutLeadingSeparators(s: string): (r: string)
    ensures |r| <= |s| && r == s[|s| - |r|..]
    ensures Separators(s[..|s| - |r|])
    ensures !StartsWith(r, BlockSeparator)
    decreases |s|
  {
    if StartsWith(s, BlockSeparator) then
      var r := WithoutLeadingSeparators(s[|BlockSeparator|..]);
      assert s[..|s| - |r|][|BlockSeparator|..] == s[|BlockSeparator|..][..|s| - |BlockSeparator| - |r|];
      r
    else
      assert s[..0] == [];
      s
  }

  /** Lines 97-99: the text before its trailing block separators. */
  function WithoutTrailingSeparators(s: string): (r: string)
    ensures |r| <= |s| && r == s[..|r|]
    ensures Separators(s[|r|..])
    ensures !EndsWith(r, BlockSeparator)
    decreases |s|
  {
    if EndsWith(s, BlockSeparator) then
      var init := s[..|s| - |BlockSeparator|];
      var r := WithoutTrailingSeparators(init);
      SeparatorsAppend(init[|r|..]);
      assert s[|r|..] == init[|r|..] + BlockSeparator;
      r
    else
      assert s[|s|..] == [];
      s
  }

  /** A separator run followed by one more separator is a separator run. */
  lemma {:induction false} SeparatorsAppend(w: string)
    requires Separators(w)
    ensures Separators(w + BlockSeparator)
    decreases |w|
  {
    if w == [] {
      assert ([] + BlockSeparator)[|BlockSeparator|..] == [];
    } else {
      SeparatorsAppend(w[|BlockSeparator|..]);
      assert (w + BlockSeparator)[|BlockSeparator|..] == w[|BlockSeparator|..] + BlockSeparator;
    }
  }

  /** The loop at lines 92-94. */
  method StripLeadingSeparators(s: string) returns (r: string)
    ensures r == WithoutLeadingSeparators(s)
  {
    r := s;
    while StartsWith(r, BlockSeparator)
      invariant WithoutLeadingSeparators(r) == WithoutLeadingSeparators(s)
      decreases |r|
    {
      r := r[|BlockSeparator|..];
    }
  }

  /** The loop at lines 97-99. */
  method StripTrailingSeparators(s: string) returns (r: string)
    ensures r == WithoutTrailingSeparators(s)
  {
    r := s;
    while EndsWith(r, BlockSeparator)
      invariant WithoutTrailingSeparators(r) == WithoutTrailingSeparators(s)
      decreases |r|
    {
      r := r[..|r| - |BlockSeparator|];
    }
  }

  // --------------------------------------------------- collapsing white space

  /**
   * What one character of the loop of `reduceWhitespace` (lines 105-129)
   * appends, given the `whitespace` flag: NBSP becomes ' ', the first space
   * of a run becomes ' ', later spaces of the run nothing, and any other
   * character itself.
   */
  function CollapseHead(c: char, whitespace: bool): string {
    if c == Nbsp then " "
    else if IsSpace(c) then (if whitespace then "" else " ")
    else [c]
  }

  /**
   * The loop of `reduceWhitespace` from a given flag; after each character
   * the flag says whether it was a space.
   */
  function CollapseFrom(s: string, whitespace: bool): string
    decreases |s|
  {
    if s == [] then [] else CollapseHead(s[0], whitespace) + CollapseFrom(s[1..], IsSpace(s[0]))
  }

  /**
   * The collapsed text is no longer than the original, and holds no tab,
   * line feed, form feed, carriage return or NBSP: only ' ' and characters
   * that are not spaces.
   */
  lemma {:induction false} CollapseOutput(s: string, whitespace: bool)
    ensures |CollapseFrom(s, whitespace)| <= |s|
    ensures forall i :: 0 <= i < |CollapseFrom(s, whitespace)| ==>
      CollapseFrom(s, whitespace)[i] == ' ' || (!IsSpace(CollapseFrom(s, whitespace)[i]) && CollapseFrom(s, whitespace)[i] != Nbsp)
    decreases |s|
  {
    if s != [] {
      CollapseOutput(s[1..], IsSpace(s[0]));
    }
  }

  /** The flag after reading s: whether its last character was a space. */
  function FlagAfter(s: string, whitespace: bool): bool {
    if s == [] then whitespace else IsSpace(s[|s| - 1])
  }

  /** Collapsing a concatenation collapses the second part from the flag the first leaves. */
  lemma {:induction false} CollapseAppend(a: string, b: string, whitespace: bool)
    ensures CollapseFrom(a + b, whitespace) == CollapseFrom(a, whitespace) + CollapseFrom(b, FlagAfter(a, whitespace))
    decreases |a|
  {
    if a == [] {
      assert a + b == b;
    } else {
      var head := CollapseHead(a[0], whitespace);
      var flag := IsSpace(a[0]);
      assert (a + b)[0] == a[0];
      assert (a + b)[1..] == a[1..] + b;
      var tail := CollapseFrom(b, FlagAfter(a, whitespace));
      assert FlagAfter(a[1..], flag) == FlagAfter(a, whitespace);
      calc {
        CollapseFrom(a + b, whitespace);
        head + CollapseFrom(a[1..] + b, flag);
        { CollapseAppend(a[1..], b, flag); }
        head + (CollapseFrom(a[1..], flag) + tail);
        (head + CollapseFrom(a[1..], flag)) + tail;
        CollapseFrom(a, whitespace) + tail;
      }
    }
  }

  /** Spaces read while the flag is set produce nothing. */
  lemma {:induction false} CollapseAbsorbsSpaces(run: string, b: string)
    requires forall i :: 0 <= i < |run| ==> IsSpace(run[i])
    ensures CollapseFrom(run + b, true) == CollapseFrom(b, true)
    decreases |run|
  {
    if run == [] {
      assert run + b == b;
    } else {
      assert (run + b)[0] == run[0];
      assert (run + b)[1..] == run[1..] + b;
      CollapseAbsorbsSpaces(run[1..], b);
    }
  }

  /** A run of spaces read with the flag clear gives one ' ', and then the flag no longer matters. */
  lemma RunStart(run: string, b: string)
    requires |run| > 0 && forall i :: 0 <= i < |run| ==> IsSpace(run[i])
    requires b == [] || !IsSpace(b[0])
    ensures CollapseFrom(run + b, false) == " " + CollapseFrom(b, false)
  {
    var rb := run + b;
    assert rb[0] == run[0];
    assert rb[1..] == run[1..] + b;
    assert CollapseFrom(rb, false) == " " + CollapseFrom(rb[1..], true);
    CollapseAbsorbsSpaces(run[1..], b);
    assert CollapseFrom(b, true) == CollapseFrom(b, false);
  }

  /**
   * Each maximal run of `isSpace` characters, between two characters that
   * are not spaces, becomes exactly one ' '.
   */
  lemma RunBecomesOneSpace(a: string, run: string, b: string)
    requires |run| > 0 && forall i :: 0 <= i < |run| ==> IsSpace(run[i])
    requires a == [] || !IsSpace(a[|a| - 1])
    requires b == [] || !IsSpace(b[0])
    ensures CollapseFrom(a + run + b, false) == CollapseFrom(a, false) + " " + CollapseFrom(b, false)
  {
    calc {
      CollapseFrom(a + run + b, false);
      { assert a + run + b == a + (run + b); }
      CollapseFrom(a + (run + b), false);
      { CollapseAppend(a, run + b, false); }
      CollapseFrom(a, false) + CollapseFrom(run + b, FlagAfter(a, false));
      { RunStart(run, b); }
      CollapseFrom(a, false) + (" " + CollapseFrom(b, false));
    }
  }

  /** Reading one more character appends what that character gives. */
  lemma CollapseSnoc(s: string, c: char)
    ensures CollapseFrom(s + [c], false) == CollapseFrom(s, false) + CollapseHead(c, FlagAfter(s, false))
    ensures FlagAfter(s + [c], false) == IsSpace(c)
  {
    CollapseAppend(s, [c], false);
    assert CollapseFrom([c], FlagAfter(s, false)) == CollapseHead(c, FlagAfter(s, false)) + CollapseFrom([], IsSpace(c));
  }

  /** The loop of `reduceWhitespace` over the characters of its text (lines 104-129). */
  method Collapse(text: string) returns (r: string)
    ensures r == CollapseFrom(text, false)
  {
    var builder := "";
    var whitespace := false;
    for i := 0 to |text|
      invariant builder == CollapseFrom(text[..i], false)
      invariant whitespace == FlagAfter(text[..i], false)
    {
      var ch := text[i];
      ghost var before := builder;
      ghost var flag := whitespace;
      if ch == Nbsp {
        builder := builder + [' '];
        whitespace := false;
      } else {
        if whitespace {
          if !IsSpace(ch) {
            builder := builder + [ch];
            whitespace := false;
          }
        } else {
          if IsSpace(ch) {
            whitespace := true;
            builder := builder + [' '];
          } else {
            builder := builder + [ch];
          }
        }
      }
      assert builder == before + CollapseHead(ch, flag) && whitespace == IsSpace(ch);
      assert text[..i + 1] == text[..i] + [ch];
      CollapseSnoc(text[..i], ch);
    }
    assert text[..|text|] == text;
    r := builder;
  }

  // ------------------------------------------------------- reduceWhitespace

  /** What `reduceWhitespace(text)` returns, with the corrected separator rule. */
  function ReducedWhitespace(text: string): (r: string)
    ensures |r| <= |text|
    ensures forall i :: 0 <= i < |r| ==> r[i] == ' ' || (!IsSpace(r[i]) && r[i] != Nbsp)
  {
    var u := Trimmed(WithoutTrailingSeparators(WithoutLeadingSeparators(ReducedAround(Trimmed(text)))));
    CollapseOutput(u, false);
    CollapseFrom(u, false)
  }

  /** `reduceWhitespace(text)`. */
  method ReduceWhitespace(text: string) returns (r: string)
    ensures r == ReducedWhitespace(text)
  {
    var t := Trim(text);
    var u := ReduceWhiteSpaceAroundBlockSeparator(t);
    u := StripLeadingSeparators(u);
    u := StripTrailingSeparators(u);
    u := Trim(u);
    r := Collapse(u);
  }

  // ------------------------------------------------------------- cleanUp

  /** `StringUtils.replace(s, pat, rep)`: every occurrence, found left to right, replaced. */
  function Replace(s: string, pat: string, rep: string): string
    requires |pat| > 0
    decreases |s|
  {
    if |s| < |pat| then s
    else if StartsWith(s, pat) then rep + Replace(s[|pat|..], pat, rep)
    else [s[0]] + Replace(s[1..], pat, rep)
  }

  /** No character of a is a character of b. */
  predicate Disjoint(a: string, b: string) {
    forall i, j :: 0 <= i < |a| && 0 <= j < |b| ==> a[i] != b[j]
  }

  /** The pattern occurs nowhere in t. */
  ghost predicate Absent(t: string, p: string) {
    forall i :: !OccursAt(t, p, i)
  }

  /**
   * A prefix of the replaced text made of characters not in the
   * replacement was already a prefix of the original.
   */
  lemma {:induction false} ReplacePrefix(t: string, pat: string, rep: string, w: string)
    requires |pat| > 0 && |rep| > 0
    requires Disjoint(w, rep)
    requires StartsWith(Replace(t, pat, rep), w)
    ensures StartsWith(t, w)
    decreases |t|
  {
    if w != [] && |t| >= |pat| {
      assert Replace(t, pat, rep)[0] == w[0];
      if StartsWith(t, pat) {
        assert false;
      } else {
        var rest := Replace(t[1..], pat, rep);
        assert Replace(t, pat, rep) == [t[0]] + rest;
        assert rest[..|w| - 1] == w[1..];
        ReplacePrefix(t[1..], pat, rep, w[1..]);
        assert t[..|w|] == [t[0]] + t[1..][..|w| - 1];
      }
    }
  }

  lemma AbsentInSuffix(s: string, k: nat, other: string)
    requires k <= |s| && Absent(s, other)
    ensures Absent(s[k..], other)
  {
    forall i
      ensures !OccursAt(s[k..], other, i)
    {
      if 0 <= i && i + |other| <= |s| - k {
        assert s[k..][i..i + |other|] == s[i + k..i + k + |other|];
        assert !OccursAt(s, other, i + k);
      }
    }
  }

  /** Nothing that shares no character with the replacement can start inside it. */
  lemma AbsentAfterReplacement(rep: string, rest: string, other: string)
    requires |other| > 0 && Disjoint(other, rep) && Absent(rest, other)
    ensures Absent(rep + rest, other)
  {
    var r := rep + rest;
    forall i
      ensures !OccursAt(r, other, i)
    {
      if 0 <= i && i + |other| <= |r| {
        if i < |rep| {
          assert r[i..i + |other|][0] == rep[i];
        } else {
          assert r[i..i + |other|] == rest[i - |rep|..i - |rep| + |other|];
          assert !OccursAt(rest, other, i - |rep|);
        }
      }
    }
  }

  /** An occurrence after a copied first character is an occurrence in the rest. */
  lemma AbsentAfterCopy(c: char, rest: string, other: string)
    requires Absent(rest, other) && !OccursAt([c] + rest, other, 0)
    ensures Absent([c] + rest, other)
  {
    var r := [c] + rest;
    forall i
      ensures !OccursAt(r, other, i)
    {
      if 1 <= i && i + |other| <= |r| {
        assert r[i..i + |other|] == rest[i - 1..i - 1 + |other|];
        assert !OccursAt(rest, other, i - 1);
      }
    }
  }

  /**
   * A text of characters not in the replacement that starts at the copied
   * first character of the replaced text already started s.
   */
  lemma OccurrenceAtCopiedChar(s: string, pat: string, rep: string, other: string, rest: string)
    requires |pat| > 0 && |rep| > 0 && |other| > 0 && |s| >= 1
    requires Disjoint(other, rep)
    requires rest == Replace(s[1..], pat, rep)
    ensures OccursAt([s[0]] + rest, other, 0) ==> OccursAt(s, other, 0)
  {
    var r := [s[0]] + rest;
    if OccursAt(r, other, 0) {
      var w := other[1..];
      assert Disjoint(w, rep) by {
        forall i, j | 0 <= i < |w| && 0 <= j < |rep|
          ensures w[i] != rep[j]
        {
          assert w[i] == other[i + 1];
        }
      }
      assert rest[..|w|] == r[1..|other|] == w;
      ReplacePrefix(s[1..], pat, rep, w);
      assert s[..|other|] == [s[0]] + s[1..][..|w|];
    }
  }

  /**
   * After a replacement whose text shares no character with `other` and is
   * not empty, `other` is absent: either it is the replaced pattern, or it
   * was absent before.
   */
  lemma {:induction false} ReplaceLeavesAbsent(s: string, pat: string, rep: string, other: string)
    requires |pat| > 0 && |rep| > 0 && |other| > 0
    requires Disjoint(other, rep)
    requires other == pat || Absent(s, other)
    ensures Absent(Replace(s, pat, rep), other)
    decreases |s|
  {
    if |s| < |pat| {
      if other == pat {
        assert forall i :: !OccursAt(s, other, i);
      }
    } else if StartsWith(s, pat) {
      var tail := s[|pat|..];
      if other != pat {
        AbsentInSuffix(s, |pat|, other);
      }
      ReplaceLeavesAbsent(tail, pat, rep, other);
      AbsentAfterReplacement(rep, Replace(tail, pat, rep), other);
    } else {
      var tail := s[1..];
      if other != pat {
        AbsentInSuffix(s, 1, other);
      }
      ReplaceLeavesAbsent(tail, pat, rep, other);
      OccurrenceAtCopiedChar(s, pat, rep, other, Replace(tail, pat, rep));
      assert OccursAt(s, pat, 0) ==> StartsWith(s, pat);
      AbsentAfterCopy(s[0], Replace(tail, pat, rep), other);
    }
  }

  /** The replacement chain of `cleanUp`, after `reduceWhitespace`; ls is the line separator. */
  function ReplaceMarkers(text: string, ls: string): string {
    var t1 := Replace(text, Blank, " ");
    var t2 := Replace(t1, NewLine, ls);
    var t3 := Replace(t2, BlockSeparator, ls);
    Replace(t3, Tab, "\t")
  }

  /** No marker token occurs in t. */
  ghost predicate NoMarker(t: string) {
    Absent(t, Blank) && Absent(t, NewLine) && Absent(t, BlockSeparator) && Absent(t, Tab)
  }

  /** A line separator made of carriage returns and line feeds only. */
  predicate LineSeparator(ls: string) {
    |ls| > 0 && forall i :: 0 <= i < |ls| ==> ls[i] == '\r' || ls[i] == '\n'
  }

  lemma MarkersDisjoint(ls: string)
    requires LineSeparator(ls)
    ensures Disjoint(Blank, " ") && Disjoint(Blank, ls)
    ensures Disjoint(NewLine, ls) && Disjoint(BlockSeparator, ls)
    ensures Disjoint(NewLine, "\t") && Disjoint(BlockSeparator, "\t") && Disjoint(Blank, "\t") && Disjoint(Tab, "\t")
  {
    assert Blank == ['\U{A7}', 'b', 'l', 'a', 'n', 'k', '\U{A7}'];
    assert NewLine == ['\U{A7}', 'n', 'l', '\U{A7}'];
    assert BlockSeparator == ['\U{A7}', 'b', 's', '\U{A7}'];
    assert Tab == ['\U{A7}', 't', 'a', 'b', '\U{A7}'];
  }

  /** With a line separator of CR and LF characters, no marker survives `cleanUp`. */
  lemma NoMarkerSurvives(text: string, ls: string)
    requires LineSeparator(ls)
    ensures NoMarker(ReplaceMarkers(text, ls))
  {
    MarkersDisjoint(ls);
    var t1 := Replace(text, Blank, " ");
    ReplaceLeavesAbsent(text, Blank, " ", Blank);
    var t2 := Replace(t1, NewLine, ls);
    ReplaceLeavesAbsent(t1, NewLine, ls, Blank);
    ReplaceLeavesAbsent(t1, NewLine, ls, NewLine);
    var t3 := Replace(t2, BlockSeparator, ls);
    ReplaceLeavesAbsent(t2, BlockSeparator, ls, Blank);
    ReplaceLeavesAbsent(t2, BlockSeparator, ls, NewLine);
    ReplaceLeavesAbsent(t2, BlockSeparator, ls, BlockSeparator);
    var t4 := Replace(t3, Tab, "\t");
    ReplaceLeavesAbsent(t3, Tab, "\t", Blank);
    ReplaceLeavesAbsent(t3, Tab, "\t", NewLine);
    ReplaceLeavesAbsent(t3, Tab, "\t", BlockSeparator);
    ReplaceLeavesAbsent(t3, Tab, "\t", Tab);
  }

  /** `cleanUp(text)` with the line separator as a parameter. */
  method CleanUp(text: string, ls: string) returns (r: string)
    ensures r == ReplaceMarkers(ReducedWhitespace(text), ls)
    ensures LineSeparator(ls) ==> NoMarker(r)
  {
    var t := ReduceWhitespace(text);
    t := Replace(t, Blank, " ");
    t := Replace(t, NewLine, ls);
    t := Replace(t, BlockSeparator, ls);
    t := Replace(t, Tab, "\t");
    r := t;
    if LineSeparator(ls) {
      NoMarkerSurvives(ReducedWhitespace(text), ls);
    }
  }
}
