/**
 * SvgScript: the `<script>` element of SVG documents. Its `src` attribute is
 * read with every line break removed, and it records whether it has run.
 */
module SvgScripts {
  import opened DomAttributes

  predicate IsLineBreak(c: char) {
    c == '\r' || c == '\n'
  }

  /**
   * `StringUtils.replaceChars(s, "\r\n", "")`: every CR and LF dropped, all
   * other characters kept, in order.
   */
  function RemoveLineBreaks(s: string): (r: string)
    ensures |r| <= |s|
    ensures forall i :: 0 <= i < |r| ==> !IsLineBreak(r[i])
    decreases |s|
  {
    if s == [] then ""
    else (if IsLineBreak(s[0]) then "" else [s[0]]) + RemoveLineBreaks(s[1..])
  }

  /** Removal works piece by piece: the pieces of a concatenation stay in order. */
  lemma {:induction false} RemoveLineBreaksAppend(a: string, b: string)
    ensures RemoveLineBreaks(a + b) == RemoveLineBreaks(a) + RemoveLineBreaks(b)
    decreases |a|
  {
    if a == [] {
      assert a + b == b;
    } else {
      assert (a + b)[1..] == a[1..] + b;
      RemoveLineBreaksAppend(a[1..], b);
    }
  }

  /** Every character other than CR and LF is kept as often as it occurs. */
  lemma {:induction false} RemoveLineBreaksKeepsCounts(s: string, c: char)
    requires !IsLineBreak(c)
    ensures multiset(RemoveLineBreaks(s))[c] == multiset(s)[c]
    decreases |s|
  {
    if s != [] {
      RemoveLineBreaksKeepsCounts(s[1..], c);
      assert s == [s[0]] + s[1..];
    }
  }

  /** A text without line breaks is returned unchanged. */
  lemma {:induction false} NoLineBreaksUnchanged(s: string)
    requires forall i :: 0 <= i < |s| ==> !IsLineBreak(s[i])
    ensures RemoveLineBreaks(s) == s
    decreases |s|
  {
    if s != [] {
      NoLineBreaksUnchanged(s[1..]);
    }
  }

  /** Normalising twice is normalising once. */
  lemma RemoveLineBreaksIdempotent(s: string)
    ensures RemoveLineBreaks(RemoveLineBreaks(s)) == RemoveLineBreaks(s)
  {
    NoLineBreaksUnchanged(RemoveLineBreaks(s));
  }

  class SvgScript {
    /** The element's attribute table. */
    var attributes: map<string, string>
    /** `executed_`. */
    var executed: bool

    constructor(attributes: map<string, string>)
      ensures this.attributes == attributes && !executed
    {
      this.attributes := attributes;
      executed := false;
    }

    /** `isExecuted`. */
    function IsExecuted(): (r: bool)
      reads this
      ensures r == executed
    {
      executed
    }

    /** `setExecuted(b)`: `isExecuted` then reports b; the attributes are untouched. */
    method SetExecuted(b: bool)
      modifies this
      ensures IsExecuted() == b
      ensures attributes == old(attributes)
    {
      executed := b;
    }

    /**
     * `getSrcAttributeNormalized` (and `getSrcAttribute`): the sentinel when
     * `src` is not set; otherwise the `src` value with its line breaks removed.
     * A `src` set to "" is not the sentinel and reads back as "".
     */
    function SrcAttribute(): (r: AttrValue)
      reads this
      ensures r.NotDefined? <==> "src" !in attributes
      ensures r.Value? ==> r.text == RemoveLineBreaks(attributes["src"])
      ensures r.Value? ==> forall i :: 0 <= i < |r.text| ==> !IsLineBreak(r.text[i])
    {
      match GetAttribute(attributes, "src")
      case NotDefined => NotDefined
      case Value(src) => Value(RemoveLineBreaks(src))
    }
  }
}
