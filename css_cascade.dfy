/**
 * The cascade kept by ComputedCSSStyleDeclaration: a map from property
 * name to the winning style element, updated by rules in the order of the
 * "Cascading order" of section 6.4.1 of CSS 2.1 (`!important` first, then
 * specificity, then order of appearance), and merged with the element's
 * own `style` attribute when a value is read.
 */
module CssCascade {
  import opened Wrappers

  const Important: string := "important"

  /**
   * A selector specificity, represented by its place in the total preorder
   * of SelectorSpecificity.compareTo: a.compareTo(b) < 0 exactly when
   * a.rank < b.rank.
   */
  datatype Specificity = Specificity(rank: int)

  /** `a.compareTo(b) < 0`. */
  predicate Precedes(a: Specificity, b: Specificity) {
    a.rank < b.rank
  }

  /** The specificity given to elements built by the two-argument StyleElement constructor. */
  const DefaultSpecificity: Specificity := Specificity(0)

  datatype StyleElement = StyleElement(name: string, value: string, priority: string, specificity: Specificity)

  predicate IsImportant(e: StyleElement) {
    e.priority == Important
  }

  /** `localModifications_`. */
  type Modifications = map<string, StyleElement>

  /** Whether a rule for `name` with this priority and specificity may replace what m holds. */
  predicate Overrides(m: Modifications, name: string, priority: string, specificity: Specificity) {
    priority == Important
    || name !in m
    || (!IsImportant(m[name]) && !Precedes(specificity, m[name].specificity))
  }

  /** `applyLocalStyleAttribute(name, newValue, priority, specificity)`. */
  function ApplyRule(m: Modifications, name: string, value: string, priority: string, specificity: Specificity): Modifications {
    if Overrides(m, name, priority, specificity)
    then m[name := StyleElement(name, value, priority, specificity)]
    else m
  }

  /**
   * A rule is stored exactly when it is `!important`, when nothing is stored
   * for its name, or when the stored entry is normal and not more specific;
   * every other property keeps its entry.
   */
  lemma ApplyRuleEffect(m: Modifications, name: string, value: string, priority: string, specificity: Specificity)
    ensures var r := ApplyRule(m, name, value, priority, specificity);
      && name in r
      && (r[name] == StyleElement(name, value, priority, specificity) <==>
            Overrides(m, name, priority, specificity) || m[name] == StyleElement(name, value, priority, specificity))
      && (!Overrides(m, name, priority, specificity) ==> r[name] == m[name])
      && (forall k :: k != name ==> (k in r <==> k in m) && (k in r ==> r[k] == m[k]))
  {
  }

  /** A normal rule never replaces a stored `!important` entry. */
  lemma NormalRuleKeepsImportant(m: Modifications, name: string, value: string, priority: string, specificity: Specificity)
    requires priority != Important
    requires name in m && IsImportant(m[name])
    ensures ApplyRule(m, name, value, priority, specificity) == m
  {
  }

  /** One declaration of a CSS style declaration block: name, value and priority. */
  datatype Declaration = Declaration(name: string, value: string, priority: string)

  /** applyStyleFromSelector hands a declaration on unless it is `z-index` under CSS_COMPUTED_NO_Z_INDEX. */
  predicate Forwarded(d: Declaration, noZIndex: bool) {
    d.name != "z-index" || !noZIndex
  }

  /** `applyStyleFromSelector`: the declarations, in order, applied with the selector's specificity. */
  function ApplyDeclarations(m: Modifications, decls: seq<Declaration>, specificity: Specificity, noZIndex: bool): Modifications
    decreases |decls|
  {
    if decls == [] then m
    else
      var before := ApplyDeclarations(m, decls[..|decls| - 1], specificity, noZIndex);
      var d := decls[|decls| - 1];
      if Forwarded(d, noZIndex) then ApplyRule(before, d.name, d.value, d.priority, specificity) else before
  }

  /** The declarations that are forwarded, in their order. */
  function ForwardedOnly(decls: seq<Declaration>, noZIndex: bool): (r: seq<Declaration>)
    ensures |r| <= |decls|
    ensures forall i :: 0 <= i < |r| ==> r[i] in decls && Forwarded(r[i], noZIndex)
    decreases |decls|
  {
    if decls == [] then []
    else
      var rest := ForwardedOnly(decls[..|decls| - 1], noZIndex);
      var d := decls[|decls| - 1];
      if Forwarded(d, noZIndex) then rest + [d] else rest
  }

  /** One more declaration at the end is applied after the others, when it is forwarded. */
  lemma ApplyDeclarationsSnoc(m: Modifications, init: seq<Declaration>, d: Declaration,
                              specificity: Specificity, noZIndex: bool)
    ensures ApplyDeclarations(m, init + [d], specificity, noZIndex)
         == var before := ApplyDeclarations(m, init, specificity, noZIndex);
            if Forwarded(d, noZIndex) then ApplyRule(before, d.name, d.value, d.priority, specificity) else before
  {
    assert (init + [d])[..|init + [d]| - 1] == init;
  }

  /**
   * applyStyleFromSelector behaves as applying the forwarded declarations
   * one by one with nothing filtered.
   */
  lemma {:induction false} ApplyDeclarationsFilters(m: Modifications, decls: seq<Declaration>, specificity: Specificity, noZIndex: bool)
    ensures ApplyDeclarations(m, decls, specificity, noZIndex)
         == ApplyDeclarations(m, ForwardedOnly(decls, noZIndex), specificity, false)
    decreases |decls|
  {
    if decls != [] {
      var init := decls[..|decls| - 1];
      var d := decls[|decls| - 1];
      assert decls == init + [d];
      ApplyDeclarationsFilters(m, init, specificity, noZIndex);
      var rest := ForwardedOnly(init, noZIndex);
      ApplyDeclarationsSnoc(m, init, d, specificity, noZIndex);
      if Forwarded(d, noZIndex) {
        assert ForwardedOnly(decls, noZIndex) == rest + [d];
        ApplyDeclarationsSnoc(m, rest, d, specificity, false);
      } else {
        assert ForwardedOnly(decls, noZIndex) == rest;
      }
    }
  }

  /** With CSS_COMPUTED_NO_Z_INDEX off, every declaration is forwarded. */
  lemma {:induction false} AllForwardedWithoutFlag(decls: seq<Declaration>)
    ensures ForwardedOnly(decls, false) == decls
    decreases |decls|
  {
    if decls != [] {
      AllForwardedWithoutFlag(decls[..|decls| - 1]);
      assert decls[..|decls| - 1] + [decls[|decls| - 1]] == decls;
    }
  }

  /** Under CSS_COMPUTED_NO_Z_INDEX the `z-index` entry is left exactly as it was. */
  lemma {:induction false} ZIndexUntouched(m: Modifications, decls: seq<Declaration>, specificity: Specificity)
    ensures var r := ApplyDeclarations(m, decls, specificity, true);
      && ("z-index" in r <==> "z-index" in m)
      && ("z-index" in m ==> r["z-index"] == m["z-index"])
    decreases |decls|
  {
    if decls != [] {
      ZIndexUntouched(m, decls[..|decls| - 1], specificity);
    }
  }

  /**
   * A stored `!important` entry survives any sequence of declarations that
   * holds no `!important` declaration for its name; and a property no
   * declaration names keeps its entry.
   */
  lemma {:induction false} ImportantSurvivesNormalRules(m: Modifications, decls: seq<Declaration>, specificity: Specificity,
                                                       noZIndex: bool, name: string)
    requires forall i :: 0 <= i < |decls| && decls[i].name == name ==> decls[i].priority != Important
    requires name in m && IsImportant(m[name])
    ensures var r := ApplyDeclarations(m, decls, specificity, noZIndex);
      name in r && r[name] == m[name]
    decreases |decls|
  {
    if decls != [] {
      ImportantSurvivesNormalRules(m, decls[..|decls| - 1], specificity, noZIndex, name);
    }
  }

  /** A property that no declaration names keeps its entry, or its absence. */
  lemma {:induction false} UnnamedPropertyUntouched(m: Modifications, decls: seq<Declaration>, specificity: Specificity,
                                                    noZIndex: bool, name: string)
    requires forall i :: 0 <= i < |decls| ==> decls[i].name != name
    ensures var r := ApplyDeclarations(m, decls, specificity, noZIndex);
      && (name in r <==> name in m)
      && (name in m ==> r[name] == m[name])
    decreases |decls|
  {
    if decls != [] {
      UnnamedPropertyUntouched(m, decls[..|decls| - 1], specificity, noZIndex, name);
    }
  }

  /**
   * Whether the local (stylesheet or default) entry beats the entry of the
   * element's own `style` attribute: only a local `!important` entry does,
   * and over an inline `!important` one only with strictly higher specificity.
   */
  predicate LocalWins(local: StyleElement, inline: StyleElement) {
    IsImportant(local) && (!IsImportant(inline) || Precedes(inline.specificity, local.specificity))
  }

  /**
   * `getStyleElement(name)`: `inline` holds the entries of the element's own
   * `style` attribute (what the superclass returns).
   */
  function GetStyleElement(inline: map<string, StyleElement>, local: Modifications, name: string): Option<StyleElement> {
    var existent := if name in inline then Some(inline[name]) else None;
    if name !in local then existent
    else if existent.None? then Some(local[name])
    else if LocalWins(local[name], existent.value) then Some(local[name])
    else existent
  }

  /**
   * The merge rule in both directions: the local entry is returned when
   * there is no inline one or when it wins, the inline entry otherwise;
   * nothing is returned only when neither exists.
   */
  lemma GetStyleElementChoice(inline: map<string, StyleElement>, local: Modifications, name: string)
    ensures var r := GetStyleElement(inline, local, name);
      && (r.None? <==> name !in inline && name !in local)
      && (name in local && (name !in inline || LocalWins(local[name], inline[name])) ==> r == Some(local[name]))
      && (name in inline && (name !in local || !LocalWins(local[name], inline[name])) ==> r == Some(inline[name]))
  {
  }

  /** An inline `!important` entry is never displaced by a normal local entry or one of no higher specificity. */
  lemma InlineImportantHolds(inline: map<string, StyleElement>, local: Modifications, name: string)
    requires name in inline && IsImportant(inline[name])
    requires name in local ==> !IsImportant(local[name]) || !Precedes(inline[name].specificity, local[name].specificity)
    ensures GetStyleElement(inline, local, name) == Some(inline[name])
  {
  }
}
