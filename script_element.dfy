/**
 * The script-element decisions of ScriptElementSupport: whether the type
 * and language attributes name JavaScript (content types compare without
 * regard to case, section 6.7 of HTML 4.0), whether an inline script is to
 * run at all, the `()` stripped from an `event` attribute, and the code
 * gathered from the element's text children.
 */
module ScriptElement {
  import opened Strings

  // ------------------------------------------------------ Java string helpers

  /** Character.toLowerCase restricted to ASCII letters. */
  function LowerAscii(c: char): char {
    if 'A' <= c <= 'Z' then (c as int + 32) as char else c
  }

  /** `a.equalsIgnoreCase(b)`, folding ASCII letters. */
  predicate EqualsIgnoreCase(a: string, b: string) {
    |a| == |b| && forall i :: 0 <= i < |a| ==> LowerAscii(a[i]) == LowerAscii(b[i])
  }

  /** `StringUtils.startsWithIgnoreCase(s, prefix)`. */
  predicate StartsWithIgnoreCase(s: string, prefix: string) {
    |prefix| <= |s| && EqualsIgnoreCase(s[..|prefix|], prefix)
  }

  /** What String.trim removes: every character up to and including the space. */
  predicate TrimmedByJava(c: char) {
    c <= ' '
  }

  /** The text after its leading characters at or below the space. */
  function DropLeading(s: string): (r: string)
    ensures |r| <= |s| && r == s[|s| - |r|..]
    ensures forall i :: 0 <= i < |s| - |r| ==> TrimmedByJava(s[i])
    ensures r == [] || !TrimmedByJava(r[0])
    decreases |s|
  {
    if s != [] && TrimmedByJava(s[0]) then DropLeading(s[1..]) else s
  }

  /** The text before its trailing characters at or below the space. */
  function DropTrailing(s: string): (r: string)
    ensures |r| <= |s| && r == s[..|r|]
    ensures forall i :: |r| <= i < |s| ==> TrimmedByJava(s[i])
    ensures r == [] || !TrimmedByJava(r[|r| - 1])
    decreases |s|
  {
    if s != [] && TrimmedByJava(s[|s| - 1]) then DropTrailing(s[..|s| - 1]) else s
  }

  /** `s.trim()`. */
  function JavaTrim(s: string): (r: string)
    ensures |r| <= |s|
    ensures r == [] || (!TrimmedByJava(r[0]) && !TrimmedByJava(r[|r| - 1]))
  {
    var d := DropLeading(s);
    var r := DropTrailing(d);
    assert r != [] ==> r[0] == d[0];
    r
  }

  /** A text of characters at or below the space trims to nothing. */
  lemma BlankTrimsToEmpty(s: string)
    requires forall i :: 0 <= i < |s| ==> TrimmedByJava(s[i])
    ensures JavaTrim(s) == ""
  {
  }

  // ------------------------------------------------------------ isJavaScript

  /** The type values that name JavaScript. */
  const JavaScriptTypes: seq<string> := [
    "text/javascript", "text/ecmascript",
    "application/javascript", "application/ecmascript", "application/x-javascript"
  ]

  /** One of the listed type values, ignoring case. */
  predicate IsJavaScriptType(t: string) {
    exists k :: 0 <= k < |JavaScriptTypes| && EqualsIgnoreCase(JavaScriptTypes[k], t)
  }

  /**
   * `isJavaScript(element, type, language)`; trimType is HTMLSCRIPT_TRIM_TYPE.
   * A missing attribute reads as the empty string.
   */
  function IsJavaScript(typeAttribute: string, languageAttribute: string, trimType: bool): (r: bool)
    ensures var t := if trimType then JavaTrim(typeAttribute) else typeAttribute;
      && (t != "" ==> (r <==> IsJavaScriptType(t)))
      && (t == "" && languageAttribute != "" ==> (r <==> StartsWithIgnoreCase(languageAttribute, "javascript")))
      && (t == "" && languageAttribute == "" ==> r)
  {
    var t := if trimType then JavaTrim(typeAttribute) else typeAttribute;
    if t != "" then
      if EqualsIgnoreCase("text/javascript", t) || EqualsIgnoreCase("text/ecmascript", t) then
        assert EqualsIgnoreCase(JavaScriptTypes[0], t) || EqualsIgnoreCase(JavaScriptTypes[1], t);
        true
      else if EqualsIgnoreCase("application/javascript", t)
           || EqualsIgnoreCase("application/ecmascript", t)
           || EqualsIgnoreCase("application/x-javascript", t) then
        assert EqualsIgnoreCase(JavaScriptTypes[2], t) || EqualsIgnoreCase(JavaScriptTypes[3], t)
            || EqualsIgnoreCase(JavaScriptTypes[4], t);
        true
      else
        false
    else if languageAttribute != "" then StartsWithIgnoreCase(languageAttribute, "javascript")
    else true
  }

  /** A non-empty type decides alone: the language attribute is then ignored. */
  lemma TypeDecidesAlone(typeAttribute: string, language1: string, language2: string, trimType: bool)
    requires (if trimType then JavaTrim(typeAttribute) else typeAttribute) != ""
    ensures IsJavaScript(typeAttribute, language1, trimType) == IsJavaScript(typeAttribute, language2, trimType)
  {
  }

  /**
   * Without HTMLSCRIPT_TRIM_TYPE a type made only of spaces is a non-empty
   * type and names no script language; with it, the type counts as absent.
   */
  lemma BlankType(typeAttribute: string, languageAttribute: string)
    requires typeAttribute != []
    requires forall i :: 0 <= i < |typeAttribute| ==> TrimmedByJava(typeAttribute[i])
    ensures !IsJavaScript(typeAttribute, languageAttribute, false)
    ensures IsJavaScript(typeAttribute, languageAttribute, true) == IsJavaScript("", languageAttribute, false)
  {
    BlankTrimsToEmpty(typeAttribute);
    forall k | 0 <= k < |JavaScriptTypes|
      ensures !EqualsIgnoreCase(JavaScriptTypes[k], typeAttribute)
    {
      assert JavaScriptTypes[k][0] == 't' || JavaScriptTypes[k][0] == 'a';
      assert LowerAscii(JavaScriptTypes[k][0]) != LowerAscii(typeAttribute[0]);
    }
  }

  /** Case does not matter: an upper-case form of a listed type is JavaScript too. */
  lemma UpperCaseTypeIsJavaScript()
    ensures IsJavaScript("TEXT/JavaScript", "", false)
  {
    assert EqualsIgnoreCase(JavaScriptTypes[0], "TEXT/JavaScript");
  }

  /** Without a type, a language that starts with `javascript` in any case is JavaScript. */
  lemma VersionedLanguageIsJavaScript()
    ensures IsJavaScript("", "JavaScript1.2", false)
  {
    assert "JavaScript1.2"[..10] == "JavaScript";
  }

  /** A type outside the list is not JavaScript, whatever the language says. */
  lemma OtherTypeIsNotJavaScript()
    ensures !IsJavaScript("text/vbscript", "javascript", false)
  {
    var t := "text/vbscript";
    forall k | 0 <= k < |JavaScriptTypes|
      ensures !EqualsIgnoreCase(JavaScriptTypes[k], t)
    {
      if k == 0 {
        assert LowerAscii(JavaScriptTypes[0][5]) != LowerAscii(t[5]);
      } else if k == 1 {
        assert LowerAscii(JavaScriptTypes[1][5]) != LowerAscii(t[5]);
      }
    }
  }

  // ------------------------------------------------ event-name stripping

  /** Lines 279-281: one trailing `()` is stripped from the `event` attribute. */
  function StripCallParens(event: string): (r: string)
    ensures EndsWith(event, "()") ==> r + "()" == event
    ensures !EndsWith(event, "()") ==> r == event
  {
    if EndsWith(event, "()") then event[..|event| - 2] else event
  }

  /** Stripping undoes one appended `()`, and only one. */
  lemma StripCallParensOnce(name: string)
    ensures StripCallParens(name + "()") == name
    ensures StripCallParens(name + "()()") == name + "()"
  {
    assert (name + "()")[|name + "()"| - 2..] == "()";
    assert (name + "()()")[|name + "()()"| - 2..] == "()";
    assert (name + "()")[..|name|] == name;
    assert (name + "()()")[..|name| + 2] == name + "()";
  }

  // -------------------------------------------------------- getScriptCode

  /** A child of the script element: a text node with its data, or any other node. */
  datatype ScriptChild = DomText(data: string) | OtherChild

  /** The data of the text children, in order. */
  function TextContent(children: seq<ScriptChild>): string
    decreases |children|
  {
    if children == [] then ""
    else TextContent(children[..|children| - 1])
         + (match children[|children| - 1] case DomText(data) => data case OtherChild => "")
  }

  /** Script code splits where the children split. */
  lemma {:induction false} TextContentAppend(a: seq<ScriptChild>, b: seq<ScriptChild>)
    ensures TextContent(a + b) == TextContent(a) + TextContent(b)
    decreases |b|
  {
    if b == [] {
      assert a + b == a;
    } else {
      var last := b[|b| - 1];
      assert (a + b)[..|a + b| - 1] == a + b[..|b| - 1];
      TextContentAppend(a, b[..|b| - 1]);
    }
  }

  /** Nodes other than text contribute nothing. */
  lemma {:induction false} OtherChildrenContributeNothing(children: seq<ScriptChild>)
    requires forall i :: 0 <= i < |children| ==> children[i].OtherChild?
    ensures TextContent(children) == ""
    decreases |children|
  {
    if children != [] {
      OtherChildrenContributeNothing(children[..|children| - 1]);
    }
  }

  /** `getScriptCode(element)`. */
  method ScriptCode(children: seq<ScriptChild>) returns (code: string)
    ensures code == TextContent(children)
  {
    code := "";
    for i := 0 to |children|
      invariant code == TextContent(children[..i])
    {
      assert children[..i + 1][..i] == children[..i];
      match children[i] {
        case DomText(data) => code := code + data;
        case OtherChild =>
      }
    }
    assert children[..|children|] == children;
  }

  // ------------------------------------------------------ isExecutionNeeded

  /** The kind of a node on the way from the script element up to the root. */
  datatype AncestorKind = InlineFrame | NoFrames | OtherAncestor

  /**
   * The facts isExecutionNeeded consults, in the order it consults them.
   * `ancestors` lists the element itself first, then its parents up to the
   * root; `windowHoldsPage` is false when the page's window has moved on
   * to another page.
   */
  datatype ScriptFacts = ScriptFacts(
    executed: bool,
    attached: bool,
    javaScriptEnabled: bool,
    parsingSnippet: bool,
    ancestors: seq<AncestorKind>,
    windowHoldsPage: bool,
    typeAttribute: string,
    languageAttribute: string,
    trimType: bool,
    pageIsAncestor: bool)

  /** Lines 193-197: the walk up the ancestor chain that looks for a frame. */
  method InsideFrame(ancestors: seq<AncestorKind>) returns (r: bool)
    ensures r <==> exists i :: 0 <= i < |ancestors| && ancestors[i] != OtherAncestor
  {
    for i := 0 to |ancestors|
      invariant forall j :: 0 <= j < i ==> ancestors[j] == OtherAncestor
    {
      if ancestors[i] == InlineFrame || ancestors[i] == NoFrames {
        return true;
      }
    }
    return false;
  }

  /**
   * `isExecutionNeeded(element)`: a script runs only if it has not run yet,
   * is attached, JavaScript is on, no snippet is being parsed, it lies in
   * no iframe or noframes, its window still holds its page, it is
   * JavaScript, and the page is its ancestor.
   */
  method IsExecutionNeeded(f: ScriptFacts) returns (r: bool)
    ensures f.executed ==> !r
    ensures (exists i :: 0 <= i < |f.ancestors| && f.ancestors[i] != OtherAncestor) ==> !r
    ensures r <==> !f.executed && f.attached && f.javaScriptEnabled && !f.parsingSnippet
                   && (forall i :: 0 <= i < |f.ancestors| ==> f.ancestors[i] == OtherAncestor)
                   && f.windowHoldsPage
                   && IsJavaScript(f.typeAttribute, f.languageAttribute, f.trimType)
                   && f.pageIsAncestor
  {
    if f.executed {
      return false;
    }
    if !f.attached {
      return false;
    }
    if !f.javaScriptEnabled {
      return false;
    }
    if f.parsingSnippet {
      return false;
    }
    var framed := InsideFrame(f.ancestors);
    if framed {
      return false;
    }
    if !f.windowHoldsPage {
      return false;
    }
    if !IsJavaScript(f.typeAttribute, f.languageAttribute, f.trimType) {
      return false;
    }
    return f.pageIsAncestor;
  }
}
