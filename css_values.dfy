/**
 * The pure value rules of ComputedCSSStyleDeclaration: default substitution,
 * `px` formatting, the display rewrite of detached elements, and the
 * resolution of `inherit` up the chain of parent elements.
 */
module CssValues {
  import opened Strings
  import opened Wrappers

  /**
   * A computed style string. `EmptyFinal` is the class's EMPTY_FINAL marker:
   * it reads as "" but, being compared by identity, tells pixelString to
   * return it untouched.
   */
  datatype CssString = EmptyFinal | Plain(s: string) {
    function Text(): string {
      if EmptyFinal? then "" else s
    }
  }

  /**
   * The browser-dependent facts the computed style consults: whether the
   * element is attached to its page, and the two feature flags
   * CSS_COMPUTED_NO_Z_INDEX and CSS_COMPUTED_BLOCK_IF_NOT_ATTACHED.
   */
  datatype StyleEnv = StyleEnv(attached: bool, noZIndex: bool, blockIfNotAttached: bool)

  /** A detached element under CSS_COMPUTED_NO_Z_INDEX has no computed values at all. */
  predicate Suppressed(env: StyleEnv) {
    !env.attached && env.noZIndex
  }

  /**
   * `pixelString(String)`: a value already in pixels (or EMPTY_FINAL) is kept,
   * anything else is converted by `pixelValue` (a parameter here) and given
   * the `px` unit.
   */
  function PixelString(v: CssString, pixelValue: string -> int): (r: CssString)
    ensures r.EmptyFinal? <==> v.EmptyFinal?
    ensures r.Plain? ==> EndsWith(r.s, "px")
    ensures v.Plain? && EndsWith(v.s, "px") ==> r == v
    ensures v.Plain? && !EndsWith(v.s, "px") ==> r.s == IntToString(pixelValue(v.s)) + "px"
  {
    if v.EmptyFinal? || EndsWith(v.s, "px") then v
    else
      var digits := IntToString(pixelValue(v.s));
      assert (digits + "px")[|digits + "px"| - 2..] == "px";
      Plain(digits + "px")
  }

  /** Converting to pixels twice gives what converting once gave. */
  lemma PixelStringIdempotent(v: CssString, pixelValue: string -> int)
    ensures PixelString(PixelString(v, pixelValue), pixelValue) == PixelString(v, pixelValue)
  {
  }

  /**
   * `defaultIfEmpty(str, definition, isPixel)`: an empty value becomes the
   * definition's default computed value; a non-empty one is kept, converted
   * to pixels when isPixel.
   */
  function DefaultIfEmpty(env: StyleEnv, str: string, defaultComputed: string, isPixel: bool,
                          pixelValue: string -> int): (r: CssString)
    ensures Suppressed(env) ==> r == EmptyFinal
    ensures !Suppressed(env) && str == "" ==> r == Plain(defaultComputed)
    ensures !Suppressed(env) && str != "" && !isPixel ==> r == Plain(str)
    ensures !Suppressed(env) && str != "" && isPixel && EndsWith(str, "px") ==> r == Plain(str)
    ensures !Suppressed(env) && str != "" && isPixel && !EndsWith(str, "px") ==>
      r == Plain(IntToString(pixelValue(str)) + "px")
  {
    if Suppressed(env) then EmptyFinal
    else if str == "" then Plain(defaultComputed)
    else if isPixel then PixelString(Plain(str), pixelValue)
    else Plain(str)
  }

  /**
   * `defaultIfEmpty(str, toReturnIfEmptyOrDefault, defaultValue)`: an empty
   * value, or one equal to defaultValue (None stands for Java's null, which
   * no string equals), is replaced by toReturnIfEmptyOrDefault.
   */
  function DefaultIfEmptyOr(env: StyleEnv, str: string, toReturn: string, defaultValue: Option<string>): (r: CssString)
    ensures Suppressed(env) ==> r == EmptyFinal
    ensures !Suppressed(env) ==> (r == Plain(toReturn) <==> str == "" || Some(str) == defaultValue || str == toReturn)
    ensures !Suppressed(env) && str != "" && Some(str) != defaultValue ==> r == Plain(str)
  {
    if Suppressed(env) then EmptyFinal
    else if str == "" || Some(str) == defaultValue then Plain(toReturn)
    else Plain(str)
  }

  /** The default display values that a detached element reports as `block`. */
  const BlockWhenDetached: set<string> := {
    "inline", "inline-block", "table-caption", "table-cell", "table-column",
    "table-column-group", "table-footer-group", "table-header-group",
    "table-row", "table-row-group", "list-item", "ruby"
  }

  /**
   * The element as getDisplay sees it: whether it is an HtmlElement, and if
   * so its default display (HtmlElement.getDefaultStyleDisplay).
   */
  datatype DisplayTarget = DisplayTarget(isHtmlElement: bool, defaultDisplay: string)

  /**
   * `getDisplay(ignoreBlockIfNotAttached)`; `value` is the element's own
   * display value (empty when none is set).
   */
  function GetDisplay(env: StyleEnv, target: DisplayTarget, value: string, ignoreBlockIfNotAttached: bool): string {
    if Suppressed(env) then ""
    else if value != "" then value
    else if !target.isHtmlElement then ""
    else if !env.attached && !ignoreBlockIfNotAttached && env.blockIfNotAttached
         && target.defaultDisplay in BlockWhenDetached then "block"
    else target.defaultDisplay
  }

  /**
   * The three behaviours of getDisplay: an explicit value is returned as it
   * is; an empty one yields the default display, rewritten to `block` exactly
   * when a detached element's default is one of the twelve listed and the
   * feature is on and not ignored; a detached element under
   * CSS_COMPUTED_NO_Z_INDEX yields "".
   */
  lemma DisplayBehaviour(env: StyleEnv, target: DisplayTarget, value: string, ignore: bool)
    ensures Suppressed(env) ==> GetDisplay(env, target, value, ignore) == ""
    ensures !Suppressed(env) && value != "" ==> GetDisplay(env, target, value, ignore) == value
    ensures !Suppressed(env) && value == "" && target.isHtmlElement ==>
      (GetDisplay(env, target, value, ignore) == "block" <==>
         target.defaultDisplay == "block"
         || (!env.attached && env.blockIfNotAttached && !ignore && target.defaultDisplay in BlockWhenDetached))
    ensures !Suppressed(env) && value == "" && target.isHtmlElement
            && (env.attached || ignore || !env.blockIfNotAttached) ==>
      GetDisplay(env, target, value, ignore) == target.defaultDisplay
  {
  }

  /**
   * What lies above the last element of a chain: no parent element (the
   * walk stops at the root default), or a parent element that is not an
   * HTMLElement, such as an SVG element, on which the cast fails.
   */
  datatype ChainTop = NoParent | ForeignParent

  /** Every value of the chain is `inherit`. */
  predicate AllInherit(chain: seq<string>) {
    forall j :: 0 <= j < |chain| ==> chain[j] == "inherit"
  }

  /**
   * The walk of `getPositionWithInheritance` and its siblings: `chain[0]` is
   * the element's own value and `chain[k]` that of its k-th ancestor. An
   * `inherit` is replaced by the parent's resolved value; at the top it is
   * `rootDefault` when there is no parent, and a ClassCastException when the
   * parent is not an HTMLElement.
   */
  function WithInheritance(chain: seq<string>, rootDefault: string, top: ChainTop): Result<string>
    requires |chain| > 0
    decreases |chain|
  {
    if chain[0] != "inherit" then Ok(chain[0])
    else if |chain| == 1 then (if top == NoParent then Ok(rootDefault) else Err(ClassCast))
    else WithInheritance(chain[1..], rootDefault, top)
  }

  /** The result is the first value up the chain that is not `inherit`, or what the top gives. */
  lemma {:induction false} WithInheritanceFirstDefinite(chain: seq<string>, rootDefault: string, top: ChainTop, k: nat)
    requires k < |chain|
    requires forall j :: 0 <= j < k ==> chain[j] == "inherit"
    ensures chain[k] != "inherit" ==> WithInheritance(chain, rootDefault, top) == Ok(chain[k])
    ensures chain[k] == "inherit" && k == |chain| - 1 ==>
      WithInheritance(chain, rootDefault, top) == if top == NoParent then Ok(rootDefault) else Err(ClassCast)
    decreases k
  {
    if k > 0 {
      assert chain[0] == "inherit";
      WithInheritanceFirstDefinite(chain[1..], rootDefault, top, k - 1);
    }
  }

  /**
   * The walk fails exactly when the whole chain is `inherit` below a parent
   * that is not an HTMLElement; otherwise, with a definite root default, the
   * resolved value is never `inherit`.
   */
  lemma {:induction false} WithInheritanceNeverInherit(chain: seq<string>, rootDefault: string, top: ChainTop)
    requires |chain| > 0
    requires rootDefault != "inherit"
    ensures WithInheritance(chain, rootDefault, top).Err? <==> top == ForeignParent && AllInherit(chain)
    ensures WithInheritance(chain, rootDefault, top).Err? ==> WithInheritance(chain, rootDefault, top).error == ClassCast
    ensures WithInheritance(chain, rootDefault, top).Ok? ==>
      var v := WithInheritance(chain, rootDefault, top).value;
      v != "inherit" && (v == rootDefault || v in chain)
    decreases |chain|
  {
    if chain[0] == "inherit" && |chain| > 1 {
      WithInheritanceNeverInherit(chain[1..], rootDefault, top);
      assert AllInherit(chain) <==> AllInherit(chain[1..]) by {
        assert forall j :: 1 <= j < |chain| ==> chain[j] == chain[1..][j - 1];
      }
    }
  }

  /** `getPositionWithInheritance`: an `inherit` reaching the root is `static`. */
  function PositionWithInheritance(chain: seq<string>, top: ChainTop): (r: Result<string>)
    requires |chain| > 0
    ensures r.Err? <==> top == ForeignParent && AllInherit(chain)
    ensures r.Err? ==> r.error == ClassCast
    ensures r.Ok? ==> r.value != "inherit" && (r.value == "static" || r.value in chain)
  {
    WithInheritanceNeverInherit(chain, "static", top);
    WithInheritance(chain, "static", top)
  }

  /** `get{Left,Right,Top,Bottom}WithInheritance`: an `inherit` reaching the root is `auto`. */
  function OffsetWithInheritance(chain: seq<string>, top: ChainTop): (r: Result<string>)
    requires |chain| > 0
    ensures r.Err? <==> top == ForeignParent && AllInherit(chain)
    ensures r.Err? ==> r.error == ClassCast
    ensures r.Ok? ==> r.value != "inherit" && (r.value == "auto" || r.value in chain)
  {
    WithInheritanceNeverInherit(chain, "auto", top);
    WithInheritance(chain, "auto", top)
  }

  /**
   * getPositionWithInheritance and its offset siblings disagree exactly when
   * every value up the chain is `inherit` and the root is reached, so that
   * only the root default speaks.
   */
  lemma {:induction false} PositionAndOffsetDifferOnlyAtRoot(chain: seq<string>, top: ChainTop)
    requires |chain| > 0
    ensures PositionWithInheritance(chain, top) != OffsetWithInheritance(chain, top)
        <==> top == NoParent && AllInherit(chain)
    decreases |chain|
  {
    if chain[0] == "inherit" && |chain| > 1 {
      PositionAndOffsetDifferOnlyAtRoot(chain[1..], top);
      assert forall j :: 1 <= j < |chain| ==> chain[j] == chain[1..][j - 1];
    }
  }

  /**
   * One element of the parent chain as `getStyleAttribute(style, d)` sees it:
   * whether it is attached, and the value its declared style gives
   * (`super.getStyleAttribute`, empty when none).
   */
  datatype StyleLevel = StyleLevel(attached: bool, declared: string)

  /**
   * `getStyleAttribute(style, getDefaultValueIfEmpty)`: an empty declared
   * value of an inheritable property is taken from the parent's computed
   * style; otherwise it falls back to the default computed value when asked.
   */
  function StyleAttribute(levels: seq<StyleLevel>, noZIndex: bool, inheritable: bool,
                          useDefault: bool, defaultComputed: string): CssString
    requires |levels| > 0
    decreases |levels|
  {
    if !levels[0].attached && noZIndex then EmptyFinal
    else if levels[0].declared != "" then Plain(levels[0].declared)
    else if inheritable && |levels| > 1 then
      StyleAttribute(levels[1..], noZIndex, inheritable, useDefault, defaultComputed)
    else if useDefault then Plain(defaultComputed)
    else Plain("")
  }

  /**
   * For an inheritable property on attached elements, the computed value is
   * the nearest declared value up the chain, and the default (or "") only
   * when no element of the chain declares one.
   */
  lemma {:induction false} InheritedValueIsNearest(levels: seq<StyleLevel>, noZIndex: bool, useDefault: bool,
                                                   defaultComputed: string, k: nat)
    requires k < |levels|
    requires forall j :: 0 <= j < |levels| ==> levels[j].attached
    requires forall j :: 0 <= j < k ==> levels[j].declared == ""
    ensures levels[k].declared != "" ==>
      StyleAttribute(levels, noZIndex, true, useDefault, defaultComputed) == Plain(levels[k].declared)
    ensures levels[k].declared == "" && k == |levels| - 1 ==>
      StyleAttribute(levels, noZIndex, true, useDefault, defaultComputed)
        == Plain(if useDefault then defaultComputed else "")
    decreases k
  {
    if k > 0 {
      InheritedValueIsNearest(levels[1..], noZIndex, useDefault, defaultComputed, k - 1);
    }
  }

  /** A property that is not inheritable looks at the element alone. */
  lemma NotInheritedIsLocal(levels: seq<StyleLevel>, noZIndex: bool, useDefault: bool, defaultComputed: string)
    requires |levels| > 0
    ensures StyleAttribute(levels, noZIndex, false, useDefault, defaultComputed)
         == StyleAttribute(levels[..1], noZIndex, false, useDefault, defaultComputed)
  {
  }
}
