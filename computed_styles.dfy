/**
 * The state of one ComputedCSSStyleDeclaration: its cascade of local
 * modifications, the values read through it, and the memoised integer box
 * arithmetic (widths, heights, padding and border sums) built on them.
 */
module ComputedStyles {
  import opened Wrappers
  import opened CssValues
  import opened CssCascade

  /** The width of a scroll bar, subtracted from a scrollable element's size. */
  const ScrollbarWidth: int := 17

  /**
   * `super.getStyleAttribute(name, false)`: the value of the entry the
   * cascade selects for `name`, or "" when there is none.
   */
  function DeclaredValue(inline: map<string, StyleElement>, local: Modifications, name: string): (r: string)
    ensures name !in inline && name !in local ==> r == ""
    ensures name in local && name !in inline ==> r == local[name].value
  {
    match GetStyleElement(inline, local, name)
    case Some(e) => e.value
    case None => ""
  }

  /**
   * `getPaddingHorizontal`, `getPaddingVertical`, `getBorderHorizontal` and
   * `getBorderVertical` before memoisation: the two edges added up, or 0
   * when the element is not displayed.
   */
  function EdgeSum(display: string, first: int, second: int): int {
    if display == "none" then 0 else first + second
  }

  /**
   * `getCalculatedWidth(includeBorder, includePadding)` and its height twin,
   * from the element's core size and its border and padding sums.
   * `scrollbar` is "scrollable in this direction and not the body".
   */
  function BoxSize(attached: bool, borderBox: bool, core: int, border: int, padding: int,
                   scrollbar: bool, includeBorder: bool, includePadding: bool): int {
    if !attached then 0
    else if borderBox then core
    else
      var withBorder := if includeBorder then core + border
                        else if scrollbar then core - ScrollbarWidth
                        else core;
      if includePadding then withBorder + padding else withBorder
  }

  /** A detached element has no size; under `border-box` the flags make no difference. */
  lemma BoxSizeDetachedOrBorderBox(attached: bool, borderBox: bool, core: int, border: int, padding: int,
                                   scrollbar: bool, includeBorder: bool, includePadding: bool)
    ensures !attached ==> BoxSize(attached, borderBox, core, border, padding, scrollbar, includeBorder, includePadding) == 0
    ensures attached && borderBox ==>
      BoxSize(attached, borderBox, core, border, padding, scrollbar, includeBorder, includePadding) == core
  {
  }

  /**
   * Outside `border-box`, asking for the padding adds exactly the padding
   * sum; asking for the border adds the border sum and gives back the scroll
   * bar that is otherwise subtracted.
   */
  lemma BoxSizeLayers(core: int, border: int, padding: int, scrollbar: bool, includeBorder: bool, includePadding: bool)
    ensures BoxSize(true, false, core, border, padding, scrollbar, includeBorder, true)
         == BoxSize(true, false, core, border, padding, scrollbar, includeBorder, false) + padding
    ensures BoxSize(true, false, core, border, padding, scrollbar, true, includePadding)
         == BoxSize(true, false, core, border, padding, scrollbar, false, includePadding) + border
            + (if scrollbar then ScrollbarWidth else 0)
    ensures BoxSize(true, false, core, border, padding, scrollbar, false, false)
         == core - (if scrollbar then ScrollbarWidth else 0)
  {
  }

  /** With non-negative sums, the outer box is never smaller than any other. */
  lemma BoxSizeOuterIsLargest(attached: bool, borderBox: bool, core: int, border: int, padding: int,
                              scrollbar: bool, includeBorder: bool, includePadding: bool)
    requires border >= 0 && padding >= 0
    ensures BoxSize(attached, borderBox, core, border, padding, scrollbar, includeBorder, includePadding)
         <= BoxSize(attached, borderBox, core, border, padding, scrollbar, true, true)
  {
  }

  /** An element with display `none` has zero sums, so its outer box is its core size. */
  lemma NotDisplayedHasBareBox(core: int, attached: bool, borderBox: bool, scrollbar: bool,
                               l: int, r: int, t: int, b: int)
    ensures BoxSize(attached, borderBox, core, EdgeSum("none", l, r), EdgeSum("none", t, b), scrollbar, true, true)
         == if attached then core else 0
  {
  }

  /**
   * `getCalculatedHeight()` once the empty height (`getEmptyHeight`) and the
   * content height (`getContentHeight`) are known.
   */
  function CoreHeight(emptyHeight: int, contentHeight: int, explicitHeight: bool): int {
    if emptyHeight == 0 then 0
    else if contentHeight > 0 && !explicitHeight then contentHeight
    else emptyHeight
  }

  /**
   * The core height is zero exactly when the empty height is; an explicit
   * height keeps the empty height, and otherwise positive content wins.
   */
  lemma CoreHeightChoice(emptyHeight: int, contentHeight: int, explicitHeight: bool)
    requires contentHeight >= 0
    ensures CoreHeight(emptyHeight, contentHeight, explicitHeight) == 0 <==> emptyHeight == 0
    ensures explicitHeight ==> CoreHeight(emptyHeight, contentHeight, explicitHeight) == emptyHeight
    ensures emptyHeight != 0 && !explicitHeight && contentHeight > 0 ==>
      CoreHeight(emptyHeight, contentHeight, explicitHeight) == contentHeight
  {
  }

  /**
   * `getEmptyHeight()` once the element is known to be displayed and not the
   * body: the height from the style (`styled`, what pixelValue gives), unless
   * that is 0 without an explicit height, when the tag's default is used.
   */
  function EmptyHeightOf(mayBeDisplayed: bool, display: string, isBody: bool, windowHeight: int,
                         styled: int, defaultHeight: int, explicitHeight: bool): (r: int)
    ensures !mayBeDisplayed || display == "none" ==> r == 0
    ensures mayBeDisplayed && display != "none" && isBody ==> r == windowHeight
    ensures mayBeDisplayed && display != "none" && !isBody && (styled != 0 || explicitHeight) ==> r == styled
    ensures mayBeDisplayed && display != "none" && !isBody && styled == 0 && !explicitHeight ==> r == defaultHeight
  {
    if !mayBeDisplayed || display == "none" then 0
    else if isBody then windowHeight
    else if styled == 0 && !explicitHeight then defaultHeight
    else styled
  }

  /**
   * A child as getContentHeight sees it: whether it may be displayed, whether
   * it is an HTML element, its position with inheritance, and the extent it
   * reaches (`getTop(true, false, false) + getCalculatedHeight(true, true)`).
   */
  datatype ChildBox = ChildBox(mayBeDisplayed: bool, isHtmlElement: bool, position: string, extent: int)

  predicate Counted(c: ChildBox) {
    c.mayBeDisplayed && c.isHtmlElement
  }

  predicate Flowing(c: ChildBox) {
    Counted(c) && (c.position == "static" || c.position == "relative")
  }

  predicate Absolute(c: ChildBox) {
    Counted(c) && c.position == "absolute"
  }

  /**
   * The children whose extent getContentHeight weighs: every absolutely
   * positioned one, and the last flowing one.
   */
  ghost predicate Candidate(children: seq<ChildBox>, i: int) {
    0 <= i < |children|
    && (Absolute(children[i])
        || (Flowing(children[i]) && forall j :: i < j < |children| ==> !Flowing(children[j])))
  }

  /**
   * What `getContentHeight()` returns: 0 when the element may not be
   * displayed; otherwise a value that is at least 0 and at least every
   * candidate's extent, and that is 0 or some candidate's extent.
   */
  ghost predicate IsContentHeight(mayBeDisplayed: bool, children: seq<ChildBox>, max: int) {
    && max >= 0
    && (!mayBeDisplayed ==> max == 0)
    && (mayBeDisplayed ==> forall i :: Candidate(children, i) ==> children[i].extent <= max)
    && (mayBeDisplayed && max != 0 ==> exists i :: Candidate(children, i) && children[i].extent == max)
  }

  /** At most one value is the content height: it is determined by the children. */
  lemma ContentHeightUnique(mayBeDisplayed: bool, children: seq<ChildBox>, a: int, b: int)
    requires IsContentHeight(mayBeDisplayed, children, a) && IsContentHeight(mayBeDisplayed, children, b)
    ensures a == b
  {
  }

  /** The largest extent among the candidates of `children[..n]`, or 0 when none is larger. */
  ghost function CandidateMax(children: seq<ChildBox>, n: nat): int
    requires n <= |children|
  {
    if n == 0 then 0
    else
      var m := CandidateMax(children, n - 1);
      if Candidate(children, n - 1) && children[n - 1].extent > m then children[n - 1].extent else m
  }

  /** CandidateMax bounds every candidate below `n` and is 0 or one of their extents. */
  lemma {:induction false} CandidateMaxBounds(children: seq<ChildBox>, n: nat)
    requires n <= |children|
    ensures CandidateMax(children, n) >= 0
    ensures forall i :: 0 <= i < n && Candidate(children, i) ==> children[i].extent <= CandidateMax(children, n)
    ensures CandidateMax(children, n) != 0 ==>
      exists i :: 0 <= i < n && Candidate(children, i) && children[i].extent == CandidateMax(children, n)
  {
    if n > 0 {
      CandidateMaxBounds(children, n - 1);
    }
  }

  /**
   * The content height as a value: 0 when the element may not be displayed,
   * otherwise the largest candidate extent (0 when there is none or all are negative).
   */
  ghost function ContentHeightOf(mayBeDisplayed: bool, children: seq<ChildBox>): (r: int)
    ensures IsContentHeight(mayBeDisplayed, children, r)
  {
    CandidateMaxBounds(children, |children|);
    if mayBeDisplayed then CandidateMax(children, |children|) else 0
  }

  /** `getContentHeight()`. */
  method ContentHeight(mayBeDisplayed: bool, children: seq<ChildBox>) returns (max: int)
    ensures IsContentHeight(mayBeDisplayed, children, max)
    ensures max == ContentHeightOf(mayBeDisplayed, children)
  {
    if !mayBeDisplayed {
      return 0;
    }
    var lastFlowing := -1;
    var styles: seq<nat> := [];
    var k := 0;
    while k < |children|
      invariant 0 <= k <= |children|
      invariant -1 <= lastFlowing < k
      invariant lastFlowing >= 0 ==> Flowing(children[lastFlowing])
      invariant forall j :: lastFlowing < j < k ==> !Flowing(children[j])
      invariant forall j :: 0 <= j < |styles| ==> styles[j] < k && Absolute(children[styles[j]])
      invariant forall i :: 0 <= i < k && Absolute(children[i]) ==> i in styles
    {
      var c := children[k];
      if c.mayBeDisplayed && c.isHtmlElement {
        if c.position == "static" || c.position == "relative" {
          lastFlowing := k;
        } else if c.position == "absolute" {
          styles := styles + [k];
        }
      }
      k := k + 1;
    }
    if lastFlowing >= 0 {
      styles := styles + [lastFlowing];
    }
    assert forall j :: 0 <= j < |styles| ==> Candidate(children, styles[j]);
    assert forall i :: Candidate(children, i) ==> i in styles;
    max := 0;
    var n := 0;
    while n < |styles|
      invariant 0 <= n <= |styles|
      invariant max >= 0
      invariant forall j :: 0 <= j < n ==> children[styles[j]].extent <= max
      invariant max != 0 ==> exists j :: 0 <= j < n && children[styles[j]].extent == max
    {
      var h := children[styles[n]].extent;
      if h > max {
        max := h;
      }
      n := n + 1;
    }
    ContentHeightUnique(mayBeDisplayed, children, max, ContentHeightOf(mayBeDisplayed, children));
  }

  /**
   * The memo fields `width_`, `height_`, `height2_`, `paddingHorizontal_`,
   * `paddingVertical_`, `borderHorizontal_` and `borderVertical_`, each
   * absent until first computed.
   */
  datatype Memo = Memo(width: Option<int>, height: Option<int>, height2: Option<int>,
                       paddingHorizontal: Option<int>, paddingVertical: Option<int>,
                       borderHorizontal: Option<int>, borderVertical: Option<int>)

  const NoMemo: Memo := Memo(None, None, None, None, None, None, None)

  /**
   * The result of the width heuristics of `getCalculatedWidth()` for a
   * displayed element, and whether it is memoised: the canvas and text-input
   * branches return without storing `width_`. On the block branch of an
   * element that is not the body (`subtractsEdges`), `value` is the parent's
   * width, from which the element's own horizontal border and padding sums,
   * read through their memoising getters, are subtracted.
   */
  datatype WidthEstimate = WidthEstimate(value: int, memoised: bool, subtractsEdges: bool)

  /**
   * What the box arithmetic reads about the element and its window without
   * computing it: `pixelValue` of each edge, `isScrollable`, the tag
   * heuristics, the window height and the element's children.
   */
  datatype BoxFacts = BoxFacts(
    mayBeDisplayed: bool, isBody: bool, borderBox: bool,
    scrollableX: bool, scrollableY: bool,
    paddingLeft: int, paddingRight: int, paddingTop: int, paddingBottom: int,
    borderLeft: int, borderRight: int, borderTop: int, borderBottom: int,
    widthEstimate: WidthEstimate,
    windowHeight: int, styledHeight: int, defaultHeight: int, explicitHeight: bool,
    children: seq<ChildBox>)

  class ComputedStyle {
    /** The entries of the element's own `style` attribute. */
    const inline: map<string, StyleElement>
    const env: StyleEnv
    const target: DisplayTarget
    const box: BoxFacts
    /** `localModifications_`. */
    var localModifications: Modifications
    var memo: Memo

    constructor (inline: map<string, StyleElement>, env: StyleEnv, target: DisplayTarget, box: BoxFacts)
      ensures this.inline == inline && this.env == env && this.target == target && this.box == box
      ensures localModifications == map[] && memo == NoMemo
    {
      this.inline := inline;
      this.env := env;
      this.target := target;
      this.box := box;
      localModifications := map[];
      memo := NoMemo;
    }

    /** `getStyleElement(name)`. */
    function StyleElementFor(name: string): Option<StyleElement>
      reads this
    {
      GetStyleElement(inline, localModifications, name)
    }

    /** `getDisplay(ignoreBlockIfNotAttached)`. */
    function Display(ignoreBlockIfNotAttached: bool): string
      reads this
    {
      GetDisplay(env, target, DeclaredValue(inline, localModifications, "display"), ignoreBlockIfNotAttached)
    }

    /** `applyLocalStyleAttribute(name, newValue, priority, specificity)`. */
    method ApplyLocalStyleAttribute(name: string, newValue: string, priority: string, specificity: Specificity)
      modifies this
      ensures localModifications == ApplyRule(old(localModifications), name, newValue, priority, specificity)
      ensures memo == old(memo)
    {
      if priority != Important {
        if name in localModifications {
          var existing := localModifications[name];
          if existing.priority == Important {
            return;
          } else if Precedes(specificity, existing.specificity) {
            return;
          }
        }
      }
      localModifications := localModifications[name := StyleElement(name, newValue, priority, specificity)];
    }

    /** `applyStyleFromSelector(declaration, selector)`. */
    method ApplyStyleFromSelector(decls: seq<Declaration>, specificity: Specificity)
      modifies this
      ensures localModifications == ApplyDeclarations(old(localModifications), decls, specificity, env.noZIndex)
      ensures memo == old(memo)
    {
      var k := 0;
      while k < |decls|
        invariant 0 <= k <= |decls|
        invariant localModifications == ApplyDeclarations(old(localModifications), decls[..k], specificity, env.noZIndex)
        invariant memo == old(memo)
      {
        assert decls[..k + 1][..k] == decls[..k];
        var d := decls[k];
        if d.name != "z-index" || !env.noZIndex {
          ApplyLocalStyleAttribute(d.name, d.value, d.priority, specificity);
        }
        k := k + 1;
      }
      assert decls[..k] == decls;
    }

    /**
     * `setDefaultLocalStyleAttribute(name, newValue)`: stored whatever the
     * entry it replaces, with the two-argument StyleElement's priority and
     * specificity.
     */
    method SetDefaultLocalStyleAttribute(name: string, newValue: string)
      modifies this
      ensures localModifications == old(localModifications)[name := StyleElement(name, newValue, "", DefaultSpecificity)]
      ensures memo == old(memo)
    {
      localModifications := localModifications[name := StyleElement(name, newValue, "", DefaultSpecificity)];
    }

    /** `getPaddingHorizontal()`. */
    method PaddingHorizontal() returns (r: int)
      modifies this
      ensures r == PaddingHorizontalFrom(old(memo))
      ensures memo == old(memo).(paddingHorizontal := Some(r))
      ensures localModifications == old(localModifications)
    {
      if memo.paddingHorizontal.None? {
        var sum := if Display(false) == "none" then 0 else box.paddingLeft + box.paddingRight;
        memo := memo.(paddingHorizontal := Some(sum));
      }
      r := memo.paddingHorizontal.value;
    }

    /** `getPaddingVertical()`. */
    method PaddingVertical() returns (r: int)
      modifies this
      ensures r == old(memo.paddingVertical).GetOr(EdgeSum(Display(false), box.paddingTop, box.paddingBottom))
      ensures memo == old(memo).(paddingVertical := Some(r))
      ensures localModifications == old(localModifications)
    {
      if memo.paddingVertical.None? {
        var sum := if Display(false) == "none" then 0 else box.paddingTop + box.paddingBottom;
        memo := memo.(paddingVertical := Some(sum));
      }
      r := memo.paddingVertical.value;
    }

    /** `getBorderHorizontal()`. */
    method BorderHorizontal() returns (r: int)
      modifies this
      ensures r == BorderHorizontalFrom(old(memo))
      ensures memo == old(memo).(borderHorizontal := Some(r))
      ensures localModifications == old(localModifications)
    {
      if memo.borderHorizontal.None? {
        var sum := if Display(false) == "none" then 0 else box.borderLeft + box.borderRight;
        memo := memo.(borderHorizontal := Some(sum));
      }
      r := memo.borderHorizontal.value;
    }

    /** `getBorderVertical()`. */
    method BorderVertical() returns (r: int)
      modifies this
      ensures r == old(memo.borderVertical).GetOr(EdgeSum(Display(false), box.borderTop, box.borderBottom))
      ensures memo == old(memo).(borderVertical := Some(r))
      ensures localModifications == old(localModifications)
    {
      if memo.borderVertical.None? {
        var sum := if Display(false) == "none" then 0 else box.borderTop + box.borderBottom;
        memo := memo.(borderVertical := Some(sum));
      }
      r := memo.borderVertical.value;
    }

    /** The horizontal border sum `getBorderHorizontal()` returns when it starts from the memo `m`. */
    function BorderHorizontalFrom(m: Memo): int
      reads this
    {
      m.borderHorizontal.GetOr(EdgeSum(Display(false), box.borderLeft, box.borderRight))
    }

    /** The horizontal padding sum `getPaddingHorizontal()` returns when it starts from the memo `m`. */
    function PaddingHorizontalFrom(m: Memo): int
      reads this
    {
      m.paddingHorizontal.GetOr(EdgeSum(Display(false), box.paddingLeft, box.paddingRight))
    }

    /**
     * The core width `getCalculatedWidth()` returns when it starts from the
     * memo `m`: the memoised width, else 0 for an element that is not
     * displayed, else the width heuristics, less the edge sums on the block branch.
     */
    function CoreWidthFrom(m: Memo): int
      reads this
    {
      if m.width.Some? then m.width.value
      else if !box.mayBeDisplayed || Display(false) == "none" then 0
      else if box.widthEstimate.subtractsEdges
      then box.widthEstimate.value - (BorderHorizontalFrom(m) + PaddingHorizontalFrom(m))
      else box.widthEstimate.value
    }

    /**
     * The memo `getCalculatedWidth()` leaves when it starts from `m`: `width_`
     * unless an unmemoised branch was taken, and the horizontal edge sums
     * when the block branch read them.
     */
    function MemoAfterCoreWidth(m: Memo): (r: Memo)
      reads this
      ensures r.width.Some? ==> r.width == Some(CoreWidthFrom(m))
      ensures r.width.None? <==> m.width.None? && box.mayBeDisplayed && Display(false) != "none"
                                 && !box.widthEstimate.memoised
      ensures BorderHorizontalFrom(r) == BorderHorizontalFrom(m) && PaddingHorizontalFrom(r) == PaddingHorizontalFrom(m)
      ensures r.borderHorizontal.Some? <==>
        m.borderHorizontal.Some? || (m.width.None? && box.mayBeDisplayed && Display(false) != "none"
                                     && box.widthEstimate.subtractsEdges)
      ensures r.paddingHorizontal.Some? <==>
        m.paddingHorizontal.Some? || (m.width.None? && box.mayBeDisplayed && Display(false) != "none"
                                      && box.widthEstimate.subtractsEdges)
      ensures r.(width := m.width, borderHorizontal := m.borderHorizontal, paddingHorizontal := m.paddingHorizontal) == m
    {
      if m.width.Some? then m
      else if !box.mayBeDisplayed || Display(false) == "none" then m.(width := Some(0))
      else
        var read := if box.widthEstimate.subtractsEdges
                    then m.(borderHorizontal := Some(BorderHorizontalFrom(m)),
                            paddingHorizontal := Some(PaddingHorizontalFrom(m)))
                    else m;
        if box.widthEstimate.memoised then read.(width := Some(CoreWidthFrom(m))) else read
    }

    /** `getCalculatedWidth()`. */
    method CoreWidth() returns (w: int)
      modifies this
      ensures w == CoreWidthFrom(old(memo))
      ensures memo == MemoAfterCoreWidth(old(memo))
      ensures localModifications == old(localModifications)
    {
      if memo.width.Some? {
        return memo.width.value;
      }
      if !box.mayBeDisplayed || Display(false) == "none" {
        memo := memo.(width := Some(0));
        return 0;
      }
      w := box.widthEstimate.value;
      if box.widthEstimate.subtractsEdges {
        var b := BorderHorizontal();
        var p := PaddingHorizontal();
        w := w - (b + p);
      }
      if box.widthEstimate.memoised {
        memo := memo.(width := Some(w));
      }
    }

    /** `getEmptyHeight()`. */
    method EmptyHeight() returns (h: int)
      modifies this
      ensures h == old(memo.height2).GetOr(FreshEmptyHeight())
      ensures memo == old(memo).(height2 := Some(h))
      ensures localModifications == old(localModifications)
    {
      if memo.height2.Some? {
        return memo.height2.value;
      }
      if !box.mayBeDisplayed {
        memo := memo.(height2 := Some(0));
        return 0;
      }
      if Display(false) == "none" {
        memo := memo.(height2 := Some(0));
        return 0;
      }
      if box.isBody {
        memo := memo.(height2 := Some(box.windowHeight));
        return box.windowHeight;
      }
      h := box.styledHeight;
      if h == 0 && !box.explicitHeight {
        h := box.defaultHeight;
      }
      memo := memo.(height2 := Some(h));
    }

    /** The empty height a first call to `getEmptyHeight()` finds. */
    function FreshEmptyHeight(): int
      reads this
    {
      EmptyHeightOf(box.mayBeDisplayed, Display(false), box.isBody,
                    box.windowHeight, box.styledHeight, box.defaultHeight, box.explicitHeight)
    }

    /**
     * The core height `getCalculatedHeight()` returns when it starts from
     * the memo `m`: the memoised height, or else the choice between the
     * (memoised or fresh) empty height and the content height.
     */
    ghost function CoreHeightFrom(m: Memo): int
      reads this
    {
      m.height.GetOr(CoreHeight(m.height2.GetOr(FreshEmptyHeight()),
                                ContentHeightOf(box.mayBeDisplayed, box.children), box.explicitHeight))
    }

    /** The memo `getCalculatedHeight()` leaves when it starts from `m`: `height_` and `height2_` set. */
    ghost function MemoAfterCoreHeight(m: Memo): (r: Memo)
      reads this
      ensures r.height == Some(CoreHeightFrom(m))
      ensures r.height2.Some? || m.height.Some?
      ensures r.(height := m.height, height2 := m.height2) == m
    {
      if m.height.Some? then m
      else m.(height := Some(CoreHeightFrom(m)), height2 := Some(m.height2.GetOr(FreshEmptyHeight())))
    }

    /**
     * `getCalculatedHeight()`: the memoised value, or the empty height when
     * that is 0, or the content height when positive and no height is set.
     */
    method CoreHeightNow() returns (h: int)
      modifies this
      ensures h == CoreHeightFrom(old(memo))
      ensures memo == MemoAfterCoreHeight(old(memo))
      ensures localModifications == old(localModifications)
    {
      if memo.height.Some? {
        return memo.height.value;
      }
      var elementHeight := EmptyHeight();
      if elementHeight == 0 {
        memo := memo.(height := Some(elementHeight));
        return elementHeight;
      }
      var contentHeight := ContentHeight(box.mayBeDisplayed, box.children);
      if contentHeight > 0 && !box.explicitHeight {
        h := contentHeight;
      } else {
        h := elementHeight;
      }
      memo := memo.(height := Some(h));
    }

    /**
     * `getCalculatedWidth(includeBorder, includePadding)`: the core width
     * with the border and padding sums around it; the core width and the
     * sums it reads are memoised as their getters do.
     */
    method CalculatedWidth(includeBorder: bool, includePadding: bool) returns (width: int)
      modifies this
      ensures !env.attached ==> width == 0 && memo == old(memo)
      ensures env.attached ==>
        var after := MemoAfterCoreWidth(old(memo));
        && width == BoxSize(true, box.borderBox, CoreWidthFrom(old(memo)),
                            BorderHorizontalFrom(old(memo)), PaddingHorizontalFrom(old(memo)),
                            box.scrollableX && !box.isBody, includeBorder, includePadding)
        && memo == after.(
             borderHorizontal := if !box.borderBox && includeBorder
                                 then Some(BorderHorizontalFrom(old(memo))) else after.borderHorizontal,
             paddingHorizontal := if !box.borderBox && includePadding
                                  then Some(PaddingHorizontalFrom(old(memo))) else after.paddingHorizontal)
      ensures localModifications == old(localModifications)
    {
      if !env.attached {
        return 0;
      }
      width := CoreWidth();
      if !box.borderBox {
        if includeBorder {
          var b := BorderHorizontal();
          width := width + b;
        } else if box.scrollableX && !box.isBody {
          width := width - ScrollbarWidth;
        }
        if includePadding {
          var p := PaddingHorizontal();
          width := width + p;
        }
      }
    }

    /**
     * `getCalculatedHeight(includeBorder, includePadding)`: the core height
     * with the border and padding sums around it; the core height, the
     * empty height and the sums it reads are memoised as their getters do.
     */
    method CalculatedHeight(includeBorder: bool, includePadding: bool) returns (height: int)
      modifies this
      ensures !env.attached ==> height == 0 && memo == old(memo)
      ensures env.attached ==>
        var border := old(memo.borderVertical).GetOr(EdgeSum(Display(false), box.borderTop, box.borderBottom));
        var padding := old(memo.paddingVertical).GetOr(EdgeSum(Display(false), box.paddingTop, box.paddingBottom));
        && height == BoxSize(true, box.borderBox, CoreHeightFrom(old(memo)), border, padding,
                             box.scrollableY && !box.isBody, includeBorder, includePadding)
        && memo == MemoAfterCoreHeight(old(memo)).(
             borderVertical := if !box.borderBox && includeBorder then Some(border) else old(memo.borderVertical),
             paddingVertical := if !box.borderBox && includePadding then Some(padding) else old(memo.paddingVertical))
      ensures localModifications == old(localModifications)
    {
      if !env.attached {
        return 0;
      }
      var core := CoreHeightNow();
      height := core;
      if !box.borderBox {
        if includeBorder {
          var b := BorderVertical();
          height := height + b;
        } else if box.scrollableY && !box.isBody {
          height := height - ScrollbarWidth;
        }
        if includePadding {
          var p := PaddingVertical();
          height := height + p;
        }
      }
    }
  }

  /**
   * A default set by setDefaultLocalStyleAttribute is what the cascade
   * returns for its name when the element's own style does not set it.
   */
  lemma DefaultIsSeenWithoutInline(inline: map<string, StyleElement>, local: Modifications, name: string, value: string)
    requires name !in inline
    ensures DeclaredValue(inline, local[name := StyleElement(name, value, "", DefaultSpecificity)], name) == value
  {
  }

  /**
   * The display a selector rule sets is the display the element reports,
   * when the rule is stored, the element's own style sets none, and the
   * element is not suppressed.
   */
  lemma StoredDisplayIsReported(env: StyleEnv, target: DisplayTarget, inline: map<string, StyleElement>,
                                local: Modifications, value: string, priority: string, specificity: Specificity,
                                ignore: bool)
    requires "display" !in inline && value != "" && !Suppressed(env)
    requires Overrides(local, "display", priority, specificity)
    ensures GetDisplay(env, target, DeclaredValue(inline, ApplyRule(local, "display", value, priority, specificity), "display"), ignore)
         == value
  {
  }
}
