# HtmlUnit core behaviours in Dafny

This project models the core of HtmlUnit, a headless browser written in Java, and proves properties of that model. It covers these parts:

- **Computed CSS styles** (`ComputedCSSStyleDeclaration`):
  - the cascade of local style modifications, ordered by `!important`, then specificity, then order of appearance (section 6.4.1 of CSS 2.1);
  - how that cascade merges with the element's own `style` attribute;
  - default substitution, the `px` conversion, and the `display` rewrite of detached elements;
  - `inherit` resolution up the parent chain;
  - the memoised integer box arithmetic: widths, heights, and padding and border sums.
- **Plain-text serialisation** (`HtmlSerializer`):
  - the marker tokens `§bs§`, `§nl§`, `§blank§` and `§tab§`;
  - trimming, dropping white space around block separators, collapsing white-space runs, and replacing the markers;
  - the list and table-row emitters.
- **Events** (`Event`, `UIEvent`): the event state of section 1.4 of DOM Level 2 Events, that is, the type, flags, phase, propagation and default-action flags, and the stack of events being fired.
- **Script elements** (`ScriptElementSupport`, `SvgScript`):
  - the JavaScript type and language test (content types compare without regard to case, section 6.7 of HTML 4.0);
  - whether an inline script is executed;
  - how the code is gathered;
  - the SVG `src` normalisation and the executed flag.
- **Promise** (`Promise`): the value-selecting constructor, `resolve`, `reject`, `all`, and the recursive settlement performed by `isResolved`.
- **Small host objects**: `ClientRectList`, a bounds-checked list, and `HTMLPreElement`, whose `clear` and `width` properties are modelled.

Each Java file maps to one Dafny module. ComputedCSSStyleDeclaration is split into CssValues, CssCascade and ComputedStyles. Classes whose fields Java updates in place are Dafny classes with `modifies` clauses. Every method's ensures states its result and its new state. Where a method computes a value with a loop, that value is given by a specification function, and the lemmas state the properties of those functions.

Browser feature flags (`hasFeature(...)`) are boolean parameters. Values computed by code outside the model are also parameters. These are `pixelValue`, `HTMLCanvasElement.getValue`, `ClientRect.getDefaultValue`, the line separator, the width heuristics and the rendering of a child node.

## Model

| member | source | states |
|---|---|---|
| CssValues.PixelString | src/main/java/com/gargoylesoftware/htmlunit/javascript/host/css/ComputedCSSStyleDeclaration.java:1844-1849 | A value already ending in `px` and the EMPTY_FINAL marker come back unchanged. Any other value becomes the digits of its pixel value followed by `px`. The result always ends in `px` unless it is EMPTY_FINAL. |
| CssValues.PixelStringIdempotent | src/main/java/com/gargoylesoftware/htmlunit/javascript/host/css/ComputedCSSStyleDeclaration.java:1844-1849 | Converting to pixels twice gives what converting once gave. |
| CssValues.DefaultIfEmpty | src/main/java/com/gargoylesoftware/htmlunit/javascript/host/css/ComputedCSSStyleDeclaration.java:342-359 | A detached element under CSS_COMPUTED_NO_Z_INDEX yields EMPTY_FINAL. Otherwise an empty value becomes the definition's default, and a non-empty one is kept. For a pixel definition, a value already ending in `px` is kept and any other becomes its `pixelValue` digits followed by `px`. |
| CssValues.DefaultIfEmptyOr | src/main/java/com/gargoylesoftware/htmlunit/javascript/host/css/ComputedCSSStyleDeclaration.java:366-375 | The substitute is returned exactly when the value is empty, equals the given default, or already equals the substitute. Otherwise the value is kept. The suppressed case yields EMPTY_FINAL. |
| CssValues.DisplayBehaviour | src/main/java/com/gargoylesoftware/htmlunit/javascript/host/css/ComputedCSSStyleDeclaration.java:555-608 | An explicit display is returned as is. An empty one gives the default display, and it is `block` exactly when the default is `block` or when a detached element with the feature on and not ignored has one of the twelve listed defaults. A suppressed element gives "". |
| CssValues.WithInheritanceFirstDefinite | src/main/java/com/gargoylesoftware/htmlunit/javascript/host/css/ComputedCSSStyleDeclaration.java:1561-1650 | The resolved value is the first value up the parent chain that is not `inherit`. An `inherit` that reaches the top gives the root default when there is no parent, and ClassCast when the parent is not an HTMLElement. |
| CssValues.WithInheritanceNeverInherit | src/main/java/com/gargoylesoftware/htmlunit/javascript/host/css/ComputedCSSStyleDeclaration.java:1561-1650 | The walk fails with ClassCast exactly when the whole chain is `inherit` below a parent that is not an HTMLElement. Otherwise, with a definite root default, the result is never `inherit`: it is a value from the chain or the root default. |
| CssValues.PositionWithInheritance | src/main/java/com/gargoylesoftware/htmlunit/javascript/host/css/ComputedCSSStyleDeclaration.java:1561-1578 | `getPositionWithInheritance` throws ClassCast exactly when every value up the chain is `inherit` and the topmost parent is not an HTMLElement. Otherwise it never yields `inherit`: it yields `static` or a value from the chain. |
| CssValues.OffsetWithInheritance | src/main/java/com/gargoylesoftware/htmlunit/javascript/host/css/ComputedCSSStyleDeclaration.java:1580-1650 | The left, right, top and bottom variants throw ClassCast in the same case. Otherwise they never yield `inherit`: they yield `auto` or a value from the chain. |
| CssValues.PositionAndOffsetDifferOnlyAtRoot | src/main/java/com/gargoylesoftware/htmlunit/javascript/host/css/ComputedCSSStyleDeclaration.java:1561-1650 | The position walk and the offset walks give different results exactly when every value up the chain is `inherit` and the root is reached without a failing cast. |
| CssValues.InheritedValueIsNearest | src/main/java/com/gargoylesoftware/htmlunit/javascript/host/css/ComputedCSSStyleDeclaration.java:1792-1809 | For an inheritable property, the computed value is the nearest declared value up the chain. The default, or "", is used only when no element declares one. |
| CssValues.NotInheritedIsLocal | src/main/java/com/gargoylesoftware/htmlunit/javascript/host/css/ComputedCSSStyleDeclaration.java:1792-1809 | A property that is not inheritable looks at the element alone. |
| CssCascade.ApplyRuleEffect | src/main/java/com/gargoylesoftware/htmlunit/javascript/host/css/ComputedCSSStyleDeclaration.java:280-295 | A rule is stored exactly when it is `!important`, when nothing is stored for its name, or when the stored entry is normal and not more specific. Every other property keeps its entry. |
| CssCascade.NormalRuleKeepsImportant | src/main/java/com/gargoylesoftware/htmlunit/javascript/host/css/ComputedCSSStyleDeclaration.java:280-295 | A normal rule never replaces a stored `!important` entry. |
| CssCascade.ApplyDeclarationsFilters | src/main/java/com/gargoylesoftware/htmlunit/javascript/host/css/ComputedCSSStyleDeclaration.java:267-278 | Applying a selector's declarations equals applying, in order, only those that are forwarded, with nothing filtered. |
| CssCascade.AllForwardedWithoutFlag | src/main/java/com/gargoylesoftware/htmlunit/javascript/host/css/ComputedCSSStyleDeclaration.java:267-278 | With CSS_COMPUTED_NO_Z_INDEX off, every declaration is forwarded. |
| CssCascade.ZIndexUntouched | src/main/java/com/gargoylesoftware/htmlunit/javascript/host/css/ComputedCSSStyleDeclaration.java:267-278 | Under CSS_COMPUTED_NO_Z_INDEX, the `z-index` entry (or its absence) is left exactly as it was. |
| CssCascade.ImportantSurvivesNormalRules | src/main/java/com/gargoylesoftware/htmlunit/javascript/host/css/ComputedCSSStyleDeclaration.java:267-295 | A stored `!important` entry survives any run of declarations that has no `!important` declaration for its name. |
| CssCascade.UnnamedPropertyUntouched | src/main/java/com/gargoylesoftware/htmlunit/javascript/host/css/ComputedCSSStyleDeclaration.java:267-295 | A property that no declaration names keeps its entry, or its absence. |
| CssCascade.GetStyleElementChoice | src/main/java/com/gargoylesoftware/htmlunit/javascript/host/css/ComputedCSSStyleDeclaration.java:310-340 | Both directions of the merge rule. The local entry is returned when there is no inline entry or when the local one wins (it is `!important`, over a normal or strictly less specific inline entry). The inline entry is returned otherwise. Nothing is returned only when neither exists. |
| CssCascade.InlineImportantHolds | src/main/java/com/gargoylesoftware/htmlunit/javascript/host/css/ComputedCSSStyleDeclaration.java:310-340 | An inline `!important` entry is never displaced by a normal local entry or by one of no higher specificity. |
| ComputedStyles.BoxSizeDetachedOrBorderBox | src/main/java/com/gargoylesoftware/htmlunit/javascript/host/css/ComputedCSSStyleDeclaration.java:989-1008 | A detached element has size 0. Under `border-box`, the border and padding flags make no difference. |
| ComputedStyles.BoxSizeLayers | src/main/java/com/gargoylesoftware/htmlunit/javascript/host/css/ComputedCSSStyleDeclaration.java:989-1008 | Asking for the padding adds exactly the padding sum. Asking for the border adds the border sum and gives back the 17-pixel scroll bar that is otherwise subtracted. |
| ComputedStyles.BoxSizeOuterIsLargest | src/main/java/com/gargoylesoftware/htmlunit/javascript/host/css/ComputedCSSStyleDeclaration.java:1150-1169 | With non-negative sums, the box with border and padding is never smaller than any other. |
| ComputedStyles.NotDisplayedHasBareBox | src/main/java/com/gargoylesoftware/htmlunit/javascript/host/css/ComputedCSSStyleDeclaration.java:1716-1778 | An element with display `none` has zero padding and border sums, so its outer box is its core size. |
| ComputedStyles.CoreHeightChoice | src/main/java/com/gargoylesoftware/htmlunit/javascript/host/css/ComputedCSSStyleDeclaration.java:1175-1199 | The calculated height is zero exactly when the empty height is. An explicit height keeps the empty height, and otherwise positive content height wins. |
| ComputedStyles.EmptyHeightOf | src/main/java/com/gargoylesoftware/htmlunit/javascript/host/css/ComputedCSSStyleDeclaration.java:1208-1291 | It is 0 for an element that is not displayed, and the window height for the body. Otherwise it is the styled height, or the tag default when the styled height is 0 and no height is set. |
| ComputedStyles.ContentHeightUnique | src/main/java/com/gargoylesoftware/htmlunit/javascript/host/css/ComputedCSSStyleDeclaration.java:1297-1338 | The content height is determined by the children. |
| ComputedStyles.ContentHeightOf | src/main/java/com/gargoylesoftware/htmlunit/javascript/host/css/ComputedCSSStyleDeclaration.java:1297-1338 | A value that meets the content-height relation exists for every element and list of children. It is 0 when the element is not displayed, otherwise the largest candidate extent or 0. |
| ComputedStyles.ContentHeight | src/main/java/com/gargoylesoftware/htmlunit/javascript/host/css/ComputedCSSStyleDeclaration.java:1297-1338 | The result is 0 for an element that is not displayed. Otherwise it is the largest of 0, every absolutely positioned child's extent and the last flowing child's extent. It equals ContentHeightOf. |
| ComputedStyles.ComputedStyle.constructor | src/main/java/com/gargoylesoftware/htmlunit/javascript/host/css/ComputedCSSStyleDeclaration.java:203-233 | The style starts with no local modifications and nothing memoised. |
| ComputedStyles.ComputedStyle.ApplyLocalStyleAttribute | src/main/java/com/gargoylesoftware/htmlunit/javascript/host/css/ComputedCSSStyleDeclaration.java:280-295 | The new modifications are the cascade rule (CssCascade.ApplyRule) applied to the old ones. The memo is untouched. |
| ComputedStyles.ComputedStyle.ApplyStyleFromSelector | src/main/java/com/gargoylesoftware/htmlunit/javascript/host/css/ComputedCSSStyleDeclaration.java:267-278 | The loop applies the forwarded declarations in order (CssCascade.ApplyDeclarations). |
| ComputedStyles.ComputedStyle.SetDefaultLocalStyleAttribute | src/main/java/com/gargoylesoftware/htmlunit/javascript/host/css/ComputedCSSStyleDeclaration.java:305-308 | The entry is stored whatever it replaces, with the default priority and specificity. |
| ComputedStyles.ComputedStyle.PaddingHorizontal | src/main/java/com/gargoylesoftware/htmlunit/javascript/host/css/ComputedCSSStyleDeclaration.java:1716-1722 | The memoised sum if there is one, else left plus right padding (0 when not displayed), which is then memoised. |
| ComputedStyles.ComputedStyle.PaddingVertical | src/main/java/com/gargoylesoftware/htmlunit/javascript/host/css/ComputedCSSStyleDeclaration.java:1724-1730 | As above, with the top and bottom padding. |
| ComputedStyles.ComputedStyle.BorderHorizontal | src/main/java/com/gargoylesoftware/htmlunit/javascript/host/css/ComputedCSSStyleDeclaration.java:1764-1770 | As above, with the left and right border. |
| ComputedStyles.ComputedStyle.BorderVertical | src/main/java/com/gargoylesoftware/htmlunit/javascript/host/css/ComputedCSSStyleDeclaration.java:1772-1778 | As above, with the top and bottom border. |
| ComputedStyles.ComputedStyle.CoreWidth | src/main/java/com/gargoylesoftware/htmlunit/javascript/host/css/ComputedCSSStyleDeclaration.java:1010-1104 | The result is the memoised width, or 0 when not displayed, or the width heuristics. On the block branch of a non-body element, the heuristics are the parent's width less the horizontal border and padding sums. The width is stored except on the unmemoised branches. The block branch also memoises both sums, and no other memo field changes. |
| ComputedStyles.ComputedStyle.EmptyHeight | src/main/java/com/gargoylesoftware/htmlunit/javascript/host/css/ComputedCSSStyleDeclaration.java:1208-1291 | The memoised empty height, or EmptyHeightOf, which is then memoised. |
| ComputedStyles.ComputedStyle.CoreHeightNow | src/main/java/com/gargoylesoftware/htmlunit/javascript/host/css/ComputedCSSStyleDeclaration.java:1175-1199 | The result is the memoised height. Without one, it is the CoreHeight choice between the memoised or fresh empty height and ContentHeightOf the children. Afterwards `height_` holds the result and `height2_` the empty height, and no other memo field changes. |
| ComputedStyles.ComputedStyle.CalculatedWidth | src/main/java/com/gargoylesoftware/htmlunit/javascript/host/css/ComputedCSSStyleDeclaration.java:989-1008 | 0 when detached, with the memo untouched. Otherwise the result is BoxSize over the memoised or fresh core width, border sum and padding sum. The new memo is the one CoreWidth leaves. The border and padding sums are also stored when outside `border-box` and asked for. |
| ComputedStyles.ComputedStyle.CalculatedHeight | src/main/java/com/gargoylesoftware/htmlunit/javascript/host/css/ComputedCSSStyleDeclaration.java:1150-1169 | 0 when detached, with the memo untouched. Otherwise the result is BoxSize over the core height (the memoised one, or the fresh choice of CoreHeightNow) and the vertical border and padding sums. The new memo is the one CoreHeightNow leaves. The border and padding sums are added to it exactly when outside `border-box` and asked for. |
| ComputedStyles.DefaultIsSeenWithoutInline | src/main/java/com/gargoylesoftware/htmlunit/javascript/host/css/ComputedCSSStyleDeclaration.java:305-340 | A default set by setDefaultLocalStyleAttribute is what the cascade gives for its name when the element's own style does not set it. |
| ComputedStyles.StoredDisplayIsReported | src/main/java/com/gargoylesoftware/htmlunit/javascript/host/css/ComputedCSSStyleDeclaration.java:555-608 | A `display` rule that the cascade stores is the display the element reports, when its own style sets none and it is not suppressed. |
| SerializerText.TrimmedShape | src/main/java/com/gargoylesoftware/htmlunit/html/HtmlSerializer.java:137-160 | The trimmed text is a contiguous piece of the input with only spaces around it. It neither starts nor ends with a space. |
| SerializerText.TrimIdempotent | src/main/java/com/gargoylesoftware/htmlunit/html/HtmlSerializer.java:137-160 | Trimming twice gives what trimming once gave. |
| SerializerText.LeadingSpaces | src/main/java/com/gargoylesoftware/htmlunit/html/HtmlSerializer.java:137-160 | The number of leading white-space characters: all of them are white space, and the next character is not. |
| SerializerText.TrailingSpaces | src/main/java/com/gargoylesoftware/htmlunit/html/HtmlSerializer.java:137-160 | The number of trailing white-space characters: all of them are white space, and the character before them is not. |
| SerializerText.Trim | src/main/java/com/gargoylesoftware/htmlunit/html/HtmlSerializer.java:137-160 | The two loops compute Trimmed. |
| SerializerText.BoundedAroundIsOk | src/main/java/com/gargoylesoftware/htmlunit/html/HtmlSerializer.java:162-201 | With the new-line step kept after `start`, the rule never fails and never lengthens the text. |
| SerializerText.ReduceAroundUnchanged | src/main/java/com/gargoylesoftware/htmlunit/html/HtmlSerializer.java:162-171 | A text with no separator, or one no longer than a separator, is returned unchanged. |
| SerializerText.SkipSpacesBack | src/main/java/com/gargoylesoftware/htmlunit/html/HtmlSerializer.java:177-179 | The position reached going back from p: never before `start`, only white space between it and p, and a non-space character just before it unless it is `start`. |
| SerializerText.SkipSpacesForward | src/main/java/com/gargoylesoftware/htmlunit/html/HtmlSerializer.java:185-187 | The position reached going forward: only white space before it, and a non-space character at it unless it is the end. |
| SerializerText.SkipDuplicates | src/main/java/com/gargoylesoftware/htmlunit/html/HtmlSerializer.java:191-195 | The next round's start lies after every separator that directly follows. The next separator is the first one from that start, or -1. |
| SerializerText.AsWrittenAgreesWhenOk | src/main/java/com/gargoylesoftware/htmlunit/html/HtmlSerializer.java:162-201 | Wherever the code as written does not throw, it gives the same text as the corrected rule. |
| SerializerText.AsWrittenFailsOnSharedMarker | src/main/java/com/gargoylesoftware/htmlunit/html/HtmlSerializer.java:180-183 | The code as written throws on `§bs§nl§§bs§`. |
| SerializerText.CorrectedHandlesSharedMarker | src/main/java/com/gargoylesoftware/htmlunit/html/HtmlSerializer.java:180-183 | The corrected rule returns that input unchanged. |
| SerializerText.ReducedAround | src/main/java/com/gargoylesoftware/htmlunit/html/HtmlSerializer.java:162-201 | The corrected result is defined (never an error) and no longer than the input. |
| SerializerText.StepBackOverSpaces | src/main/java/com/gargoylesoftware/htmlunit/html/HtmlSerializer.java:177-179 | The loop stops at `start` or at the first character that is not a space. |
| SerializerText.StepOverSpaces | src/main/java/com/gargoylesoftware/htmlunit/html/HtmlSerializer.java:185-187 | The loop stops at the end or at the first character that is not a space. |
| SerializerText.StepOverSeparators | src/main/java/com/gargoylesoftware/htmlunit/html/HtmlSerializer.java:191-195 | The loop skips the separators that follow directly and finds the next one. |
| SerializerText.StepBackOverNewLine | src/main/java/com/gargoylesoftware/htmlunit/html/HtmlSerializer.java:180-182 | A new-line marker just before the separator is taken with it, but only when it lies after `start`. |
| SerializerText.RoundStep | src/main/java/com/gargoylesoftware/htmlunit/html/HtmlSerializer.java:176-195 | One round copies the text up to the cut and one separator, then continues where the next round starts. |
| SerializerText.SeparatorRound | src/main/java/com/gargoylesoftware/htmlunit/html/HtmlSerializer.java:176-195 | The piece of one round plus what remains from the next start equals what remained before the round. |
| SerializerText.ReduceWhiteSpaceAroundBlockSeparator | src/main/java/com/gargoylesoftware/htmlunit/html/HtmlSerializer.java:162-201 | The method returns the corrected result and never lengthens the text. |
| SerializerText.WithoutLeadingSeparators | src/main/java/com/gargoylesoftware/htmlunit/html/HtmlSerializer.java:92-94 | The result is a suffix of the input. What was removed is whole separators, and the result does not start with one. |
| SerializerText.WithoutTrailingSeparators | src/main/java/com/gargoylesoftware/htmlunit/html/HtmlSerializer.java:97-99 | The result is a prefix of the input. What was removed is whole separators, and the result does not end with one. |
| SerializerText.StripLeadingSeparators | src/main/java/com/gargoylesoftware/htmlunit/html/HtmlSerializer.java:92-94 | The loop computes WithoutLeadingSeparators. |
| SerializerText.StripTrailingSeparators | src/main/java/com/gargoylesoftware/htmlunit/html/HtmlSerializer.java:97-99 | The loop computes WithoutTrailingSeparators. |
| SerializerText.CollapseOutput | src/main/java/com/gargoylesoftware/htmlunit/html/HtmlSerializer.java:104-129 | The collapsed text is no longer than the input. It holds no tab, line feed, form feed, carriage return or NBSP. |
| SerializerText.CollapseAppend | src/main/java/com/gargoylesoftware/htmlunit/html/HtmlSerializer.java:104-129 | Collapsing a concatenation collapses the second part starting from the flag the first part leaves. |
| SerializerText.CollapseAbsorbsSpaces | src/main/java/com/gargoylesoftware/htmlunit/html/HtmlSerializer.java:113-118 | After white space, a further run of white space adds nothing to the output. |
| SerializerText.RunStart | src/main/java/com/gargoylesoftware/htmlunit/html/HtmlSerializer.java:104-129 | A white-space run after a non-space character becomes a single space. |
| SerializerText.CollapseSnoc | src/main/java/com/gargoylesoftware/htmlunit/html/HtmlSerializer.java:104-129 | One more character adds what the loop body appends for it, and the white-space flag becomes whether it is white space. |
| SerializerText.RunBecomesOneSpace | src/main/java/com/gargoylesoftware/htmlunit/html/HtmlSerializer.java:104-129 | Each maximal run of spaces between non-space characters becomes exactly one space. |
| SerializerText.Collapse | src/main/java/com/gargoylesoftware/htmlunit/html/HtmlSerializer.java:104-129 | The character loop computes CollapseFrom. |
| SerializerText.ReducedWhitespace | src/main/java/com/gargoylesoftware/htmlunit/html/HtmlSerializer.java:85-131 | The result is no longer than the input. Every character is a plain space or not white space at all (NBSP included). |
| SerializerText.ReduceWhitespace | src/main/java/com/gargoylesoftware/htmlunit/html/HtmlSerializer.java:85-131 | The method computes ReducedWhitespace. |
| SerializerText.ReplaceLeavesAbsent | src/main/java/com/gargoylesoftware/htmlunit/html/HtmlSerializer.java:75-80 | After a replacement with a non-empty text that shares no character with a pattern, that pattern is absent if it was absent before or was the replaced one. |
| SerializerText.NoMarkerSurvives | src/main/java/com/gargoylesoftware/htmlunit/html/HtmlSerializer.java:72-83 | With a line separator made of CR and LF, no marker occurs in the result of the replacement chain. |
| SerializerText.CleanUp | src/main/java/com/gargoylesoftware/htmlunit/html/HtmlSerializer.java:72-83 | The method computes the replacement chain over ReducedWhitespace, and no marker survives when the line separator is CR/LF. |
| SerializerLists.JoinLength | src/main/java/com/gargoylesoftware/htmlunit/html/HtmlSerializer.java:319-330 | Exactly one separator lies between consecutive entries. |
| SerializerLists.JoinEnds | src/main/java/com/gargoylesoftware/htmlunit/html/HtmlSerializer.java:319-330 | The joined text starts with the first entry and ends with the last. |
| SerializerLists.NumberSteps | src/main/java/com/gargoylesoftware/htmlunit/html/HtmlSerializer.java:448-467 | The counter starts at 1 and grows by one after each `<li>`, and only then. |
| SerializerLists.NumbersIncrease | src/main/java/com/gargoylesoftware/htmlunit/html/HtmlSerializer.java:448-467 | A later `<li>` has a strictly larger number, so no two share one. |
| SerializerLists.OrderedWithoutItemsIsUnordered | src/main/java/com/gargoylesoftware/htmlunit/html/HtmlSerializer.java:448-467 | An ordered list without `<li>` children renders like an unordered one. |
| SerializerLists.Serializer.AppendHtmlUnorderedList | src/main/java/com/gargoylesoftware/htmlunit/html/HtmlSerializer.java:319-330 | The builder grows by a separator, the children's renderings joined by separators, and a closing separator. |
| SerializerLists.Serializer.AppendOrderedEntry | src/main/java/com/gargoylesoftware/htmlunit/html/HtmlSerializer.java:458-464 | An `<li>` child appends its number, ". " and its text, and the counter moves on. Any other child appends its rendering. |
| SerializerLists.Serializer.AppendHtmlOrderedList | src/main/java/com/gargoylesoftware/htmlunit/html/HtmlSerializer.java:448-467 | The builder grows by the separator-framed, separator-joined numbered entries. |
| SerializerLists.Serializer.AppendHtmlTableRow | src/main/java/com/gargoylesoftware/htmlunit/html/HtmlSerializer.java:351-362 | The builder grows by the cells joined with tab markers, with none before the first. |
| Events.Event.constructor | src/main/java/com/gargoylesoftware/htmlunit/javascript/host/event/Event.java:228-245 | Every event bubbles except `load`. Every event is cancelable except `change`, and except `load` under EVENT_ONLOAD_CANCELABLE_FALSE. Nothing is stopped or prevented and the phase is 0. |
| Events.Event.Prototype | src/main/java/com/gargoylesoftware/htmlunit/javascript/host/event/Event.java:262-263 | The prototype event has the field initialisers: empty type, bubbles and cancelable set. |
| Events.Event.EventCreated | src/main/java/com/gargoylesoftware/htmlunit/javascript/host/event/Event.java:269-272 | An event made by `createEvent` neither bubbles nor is cancelable, and nothing else changes. |
| Events.Event.InitEvent | src/main/java/com/gargoylesoftware/htmlunit/javascript/host/event/Event.java:618-636 | Type, bubbles and cancelable become exactly the arguments. The phase, the key code and the stop and prevent flags stay as they were. |
| Events.Event.JsConstructor | src/main/java/com/gargoylesoftware/htmlunit/javascript/host/event/Event.java:281-297 | The call fails with ClassCast exactly when the dictionary is present and either entry is neither absent nor a boolean. It then changes nothing. Otherwise each flag is true exactly when the dictionary is present and its entry is `true`. |
| Events.Event.SetType | src/main/java/com/gargoylesoftware/htmlunit/javascript/host/event/Event.java:388-390 | Only the type changes. |
| Events.Event.SetKeyCode | src/main/java/com/gargoylesoftware/htmlunit/javascript/host/event/Event.java:413-415 | Only the key code changes. |
| Events.Event.KeyCode | src/main/java/com/gargoylesoftware/htmlunit/javascript/host/event/Event.java:421-426 | The key code that was set, or 0 when none was. |
| Events.Event.SetEventPhase | src/main/java/com/gargoylesoftware/htmlunit/javascript/host/event/Event.java:491-496 | The call succeeds exactly for the phases 1, 2 and 3 and stores the phase. Any other value raises IllegalArgument and keeps the old phase. |
| Events.Event.DefaultPrevented | src/main/java/com/gargoylesoftware/htmlunit/javascript/host/event/Event.java:534-536 | A default counts as prevented exactly when the event is cancelable and preventDefault was called. On an event that is not cancelable it never does. |
| Events.Event.SetCancelBubble | src/main/java/com/gargoylesoftware/htmlunit/javascript/host/event/Event.java:550-552 | The propagation flag becomes the given value, and nothing else changes. |
| Events.Event.StopPropagation | src/main/java/com/gargoylesoftware/htmlunit/javascript/host/event/Event.java:558-560 | The propagation flag alone is set. |
| Events.Event.StopImmediatePropagation | src/main/java/com/gargoylesoftware/htmlunit/javascript/host/event/Event.java:574-577 | Both propagation flags are set. |
| Events.Event.PreventDefault | src/main/java/com/gargoylesoftware/htmlunit/javascript/host/event/Event.java:644-646 | The flag is set whatever the event. It shows as prevented exactly when the event is cancelable. |
| Events.Event.IsAborted | src/main/java/com/gargoylesoftware/htmlunit/javascript/host/event/Event.java:656-658 | Aborted exactly when the handler returned false or the default was prevented, whether or not the event is cancelable. |
| Events.Event.StartFire | src/main/java/com/gargoylesoftware/htmlunit/javascript/host/event/Event.java:303-311 | The event is pushed on the current list, which is created when missing. |
| Events.Event.EndFire | src/main/java/com/gargoylesoftware/htmlunit/javascript/host/event/Event.java:317-319 | The last event is popped. With no list the call fails with a null dereference, and with an empty list with NoSuchElementException. |
| Events.NestedFiring | src/main/java/com/gargoylesoftware/htmlunit/javascript/host/event/Event.java:303-319 | Nested firing is last in, first out: after both events end, the list is as it was. |
| Events.UIEvent.constructor | src/main/java/com/gargoylesoftware/htmlunit/javascript/host/event/UIEvent.java:82-84 | Detail 0, meta key false. |
| Events.UIEvent.SetDetail | src/main/java/com/gargoylesoftware/htmlunit/javascript/host/event/UIEvent.java:94-105 | Only the detail changes. |
| Events.UIEvent.SetMetaKey | src/main/java/com/gargoylesoftware/htmlunit/javascript/host/event/UIEvent.java:165-174 | Only the meta key changes. |
| Events.UIEvent.CancelBubble | src/main/java/com/gargoylesoftware/htmlunit/javascript/host/event/UIEvent.java:112-117 | Under EVENT_CANCEL_BUBBLE the event's own flag, otherwise the inherited propagation flag. |
| Events.UIEvent.SetCancelBubble | src/main/java/com/gargoylesoftware/htmlunit/javascript/host/event/UIEvent.java:124-127 | Both flags become the value, so the getter returns it under either setting. |
| Events.UIEvent.InitUIEvent | src/main/java/com/gargoylesoftware/htmlunit/javascript/host/event/UIEvent.java:149-158 | initEvent with the first three arguments, then the detail. |
| ScriptElement.JavaTrim | src/main/java/com/gargoylesoftware/htmlunit/html/ScriptElementSupport.java:233-235 | The result neither starts nor ends with a character at or below the space. |
| ScriptElement.BlankTrimsToEmpty | src/main/java/com/gargoylesoftware/htmlunit/html/ScriptElementSupport.java:233-235 | A type made only of such characters trims to "". |
| ScriptElement.IsJavaScript | src/main/java/com/gargoylesoftware/htmlunit/html/ScriptElementSupport.java:230-255 | A non-empty type is JavaScript exactly when it equals one of the five listed types, ignoring case. Otherwise a non-empty language is JavaScript exactly when it starts with `javascript`, ignoring case. With neither, the script is JavaScript. |
| ScriptElement.TypeDecidesAlone | src/main/java/com/gargoylesoftware/htmlunit/html/ScriptElementSupport.java:230-255 | A non-empty type decides alone, and the language is ignored. |
| ScriptElement.BlankType | src/main/java/com/gargoylesoftware/htmlunit/html/ScriptElementSupport.java:230-255 | A blank type is no script type without HTMLSCRIPT_TRIM_TYPE, and counts as absent with it. |
| ScriptElement.UpperCaseTypeIsJavaScript | src/main/java/com/gargoylesoftware/htmlunit/html/ScriptElementSupport.java:230-255 | `TEXT/JavaScript` is JavaScript, because the type comparison ignores case. |
| ScriptElement.VersionedLanguageIsJavaScript | src/main/java/com/gargoylesoftware/htmlunit/html/ScriptElementSupport.java:230-255 | Without a type, the language `JavaScript1.2` is JavaScript: only its prefix is compared, ignoring case. |
| ScriptElement.OtherTypeIsNotJavaScript | src/main/java/com/gargoylesoftware/htmlunit/html/ScriptElementSupport.java:230-255 | `text/vbscript` is not JavaScript, even with the language `javascript`. |
| ScriptElement.StripCallParens | src/main/java/com/gargoylesoftware/htmlunit/html/ScriptElementSupport.java:279-281 | One trailing `()` is removed, and only when present. |
| ScriptElement.StripCallParensOnce | src/main/java/com/gargoylesoftware/htmlunit/html/ScriptElementSupport.java:279-281 | Stripping undoes exactly one appended `()`. |
| ScriptElement.TextContentAppend | src/main/java/com/gargoylesoftware/htmlunit/html/ScriptElementSupport.java:309-319 | The script code of concatenated children is the concatenation of their codes. |
| ScriptElement.OtherChildrenContributeNothing | src/main/java/com/gargoylesoftware/htmlunit/html/ScriptElementSupport.java:309-319 | Children other than text contribute nothing. |
| ScriptElement.ScriptCode | src/main/java/com/gargoylesoftware/htmlunit/html/ScriptElementSupport.java:309-319 | The loop yields the data of the text children, in order. |
| ScriptElement.InsideFrame | src/main/java/com/gargoylesoftware/htmlunit/html/ScriptElementSupport.java:193-197 | The ancestor walk finds a frame exactly when some ancestor-or-self is an iframe or noframes. |
| ScriptElement.IsExecutionNeeded | src/main/java/com/gargoylesoftware/htmlunit/html/ScriptElementSupport.java:171-217 | A script runs exactly when it has not run yet, is attached, JavaScript is enabled, no snippet is being parsed, it lies in no frame, its window holds its page, it is JavaScript and its page is an ancestor. |
| Promises.SettledIgnoresStoredValues | src/main/java/com/gargoylesoftware/htmlunit/javascript/host/Promise.java:135-157 | Settlement never reads the value stored in an all-promise, so storing such values cannot change any settlement. |
| Promises.MembersAgree | src/main/java/com/gargoylesoftware/htmlunit/javascript/host/Promise.java:138-150 | Heaps that differ only in the values stored in all-promises agree on the first unsettled member and on the array slots. |
| Promises.SettledOrKeptChains | src/main/java/com/gargoylesoftware/htmlunit/javascript/host/Promise.java:135-157 | Two runs of isResolved in a row still leave every all-promise holding its old value or its settled value. |
| Promises.EmptyAllSettles | src/main/java/com/gargoylesoftware/htmlunit/javascript/host/Promise.java:170-194 | `all()` with no argument settles as resolved with an empty array. |
| Promises.FirstUnsettledMemberDecides | src/main/java/com/gargoylesoftware/htmlunit/javascript/host/Promise.java:138-143 | An all-promise settles as unresolved at its first unresolved member and takes that member's value. |
| Promises.MemberStep | src/main/java/com/gargoylesoftware/htmlunit/javascript/host/Promise.java:138-150 | A member that settles moves the search on and contributes its slot. One that does not is the first unsettled member. |
| Promises.AllMembersSettled | src/main/java/com/gargoylesoftware/htmlunit/javascript/host/Promise.java:144-156 | When all members resolve, the value is the array of their values in order, with function values left null. The result is the promise's own resolve flag. |
| Promises.SlotsAt | src/main/java/com/gargoylesoftware/htmlunit/javascript/host/Promise.java:145-150 | Slot j of the collected array is member j's settled value, with a function value replaced by null. |
| Promises.StoreSettled | src/main/java/com/gargoylesoftware/htmlunit/javascript/host/Promise.java:135-157 | Storing an all-promise's settled value keeps the heap well formed, keeps its structure, and keeps every all-promise at its old or its settled value. |
| Promises.Realm.Construct | src/main/java/com/gargoylesoftware/htmlunit/javascript/host/Promise.java:77-88 | A resolved promise whose value is the argument promise's value, the native object's `then` property, or the object itself. |
| Promises.Realm.Resolve | src/main/java/com/gargoylesoftware/htmlunit/javascript/host/Promise.java:100-107 | A new resolved promise holding the first argument's value, or undefined. Older promises are untouched. |
| Promises.Realm.Reject | src/main/java/com/gargoylesoftware/htmlunit/javascript/host/Promise.java:119-126 | A new rejected promise holding the first argument's value, or undefined. Older promises are untouched. |
| Promises.Realm.All | src/main/java/com/gargoylesoftware/htmlunit/javascript/host/Promise.java:170-194 | The members are, position by position, the argument promises or new resolved wrappers. The all-promise is resolved and holds null. |
| Promises.Realm.IsResolved | src/main/java/com/gargoylesoftware/htmlunit/javascript/host/Promise.java:135-157 | The result is the settlement of the heap as it stood on entry. The promise then holds its settled value. Other all-promises keep their value or hold theirs, and nothing else changes. |
| Promises.Realm.SettleMembers | src/main/java/com/gargoylesoftware/htmlunit/javascript/host/Promise.java:138-152 | The loop stops at the first member that does not settle, or runs to the end (-1). The value it yields is the all-promise's settled value: that member's value, or the array of slots. |
| ClientRects.ClientRectList.Add | src/main/java/com/gargoylesoftware/htmlunit/javascript/host/ClientRectList.java:98-100 | The rect is appended, the length grows by one, and every earlier index finds what it found before. |
| ClientRects.ClientRectList.Length | src/main/java/com/gargoylesoftware/htmlunit/javascript/host/ClientRectList.java:62-64 | The number of rects held. |
| ClientRects.ClientRectList.Get | src/main/java/com/gargoylesoftware/htmlunit/javascript/host/ClientRectList.java:71-76 | A rect is found exactly when 0 <= index < length, and it is the rect at that index. Otherwise the result is NOT_FOUND. |
| ClientRects.ClientRectList.Item | src/main/java/com/gargoylesoftware/htmlunit/javascript/host/ClientRectList.java:84-92 | Item agrees with Get in range. Out of range it throws under JS_CLIENTRECTLIST_THROWS_IF_ITEM_NOT_FOUND and returns null otherwise. |
| ClientRects.ClientRectList.GetDefaultValue | src/main/java/com/gargoylesoftware/htmlunit/javascript/host/ClientRectList.java:103-112 | For the string hint under JS_CLIENTRECTLIST_DEFAUL_VALUE_FROM_FIRST, the first rect's default value, or "" when the list is empty. Otherwise the inherited conversion. |
| PreElement.HtmlPreElement.Clear | src/main/java/com/gargoylesoftware/htmlunit/javascript/host/html/HTMLPreElement.java:112-118 | The `clear` attribute exactly when it is one of `left`, `right`, `all`, `none` (case-sensitive), and "" otherwise. |
| PreElement.HtmlPreElement.SetClear | src/main/java/com/gargoylesoftware/htmlunit/javascript/host/html/HTMLPreElement.java:125-130 | A keyword is stored and read back by `getClear`. Any other value raises a runtime error and leaves the attributes unchanged. |
| PreElement.HtmlPreElement.WidthJs | src/main/java/com/gargoylesoftware/htmlunit/javascript/host/html/HTMLPreElement.java:81-91 | Under JS_PRE_WIDTH_STRING, the shared width getter's string. Otherwise the parsed `width` attribute, or 0 when it does not parse. |
| SvgScripts.RemoveLineBreaks | src/main/java/com/gargoylesoftware/htmlunit/svg/SvgScript.java:91 | The result holds no CR or LF and is no longer than the input. |
| SvgScripts.RemoveLineBreaksAppend | src/main/java/com/gargoylesoftware/htmlunit/svg/SvgScript.java:91 | Removal works piece by piece, so the order of the kept characters is preserved. |
| SvgScripts.RemoveLineBreaksKeepsCounts | src/main/java/com/gargoylesoftware/htmlunit/svg/SvgScript.java:91 | Every character other than CR and LF is kept as often as it occurs. |
| SvgScripts.NoLineBreaksUnchanged | src/main/java/com/gargoylesoftware/htmlunit/svg/SvgScript.java:91 | A text without line breaks is returned unchanged. |
| SvgScripts.RemoveLineBreaksIdempotent | src/main/java/com/gargoylesoftware/htmlunit/svg/SvgScript.java:91 | Normalising twice is normalising once. |
| SvgScripts.SvgScript.SetExecuted | src/main/java/com/gargoylesoftware/htmlunit/svg/SvgScript.java:56-66 | `isExecuted` then reports the value set, and the attributes are untouched. |
| SvgScripts.SvgScript.IsExecuted | src/main/java/com/gargoylesoftware/htmlunit/svg/SvgScript.java:56-58 | Whether the script has run: false for a new element, then the last value set. |
| SvgScripts.SvgScript.SrcAttribute | src/main/java/com/gargoylesoftware/htmlunit/svg/SvgScript.java:82-92 | The undefined sentinel when `src` is not set. Otherwise the value with every line break removed, so it holds none. |

## Left out

- **I/O and the script engine:** the page, the window, Rhino scope and prototype wiring, and the JavaScript calls on the Java classes are not modelled. The thread-local event list is an explicit `CurrentEvents` object.
- **Code outside the model:** the functions listed below are parameters or fields of the model.
  - `pixelValue`, the CSS parser, `SelectorSpecificity` (an integer rank whose order is that of `compareTo`) and `StyleElement`.
  - `isScrollable`, the per-tag width heuristics of `getCalculatedWidth()` (the `WidthEstimate` value; on the block branch it is the parent's width, and the model subtracts the element's own edge sums) and the window height.
  - `HTMLCanvasElement.getValue`, `ClientRect.getDefaultValue`, the inherited `getDefaultValue` and `getWidthOrHeight`.
  - `System.lineSeparator` and `appendNode`: a child's rendering is taken as given text.
- **`getTop`, `getLeft` and `getContentWidth`:** these position walks over the page are not modelled. A child's extent is an input of ContentHeight.
- **Memo fields:** they are assigned on first use and never cleared. The class itself never clears them either.
- **Case folding:** `equalsIgnoreCase` and `startsWithIgnoreCase` fold ASCII letters only. Java also folds other Unicode letters.
- **Integer widths:** Java's `int`, `short` and `long` values are unbounded integers here, so overflow of the box sums, the key code or the event phase is not modelled.
- **Promise:**
  - `then` and `catch` are left out, because they schedule jobs on the window's event loop.
  - The `onRejected` argument of `isResolved` is ignored, as in the source.
  - A non-array argument to `all` (a ClassCastException in Java) is not modelled.
  - Promises live in a heap indexed by id, and every member of an all-promise has a smaller id than the all-promise. The model therefore allocates `all`'s wrappers before the all-promise, while Java creates the all-promise first. Nothing else can refer to the new all-promise before `all` returns, so the member relation is the same in both.
- **Events:** the `timeStamp`, `target`, `currentTarget` and `srcElement` fields are left out. So are `returnValue_`, `shiftKey_`, `ctrlKey_`, `altKey_` and `propertyName_`, with their getters and setters.
- Events.Event.InitEvent: models only the three attributes it sets. For a `beforeunload` event under EVENT_FOCUS_FOCUS_IN_BLUR_OUT, Java also defines a `returnValue` script property through reflection. When the object's class is exactly Event, it also sets `returnValue_` to true. Neither effect is modelled, because `returnValue_` and script properties are not part of the model.
- Events.Event.JsConstructor: a dictionary entry that is `undefined` or `null` is read as absent, as the dictionary's map view returns them.
- **HTMLPreElement:** `cite` and `setWidth` are plain attribute pass-throughs and are not modelled.
- **Applet and thin host objects:** the applet setup of `HtmlObject`, `AppletClassLoader` and `MimeTypeArray` are not part of this model. They load classes over the network or only forward configuration.
- **ScriptElementSupport:** the execution paths themselves are not modelled; only the decisions they take are. This covers `executeScriptIfNeeded`, the `for`/`event` dispatch to window listeners and the download of external scripts.
- SerializerText.ReduceWhiteSpaceAroundBlockSeparator: models the corrected rule, not the code as written, which throws on some inputs (see Findings). The code as written is the function `ReduceAroundSeparators(text, false)`.
- SerializerText.ReducedWhitespace, SerializerText.ReduceWhitespace and SerializerText.CleanUp: these are built on the corrected separator rule too, so they are defined for inputs where the code as written throws. SerializerText.AsWrittenAgreesWhenOk shows that the two rules give the same result whenever the code as written succeeds.
- CssCascade.DefaultSpecificity: StyleElement and SelectorSpecificity are not part of this model. The two-argument StyleElement constructor used by `setDefaultLocalStyleAttribute` is assumed to give rank 0. A later normal rule then replaces such a default exactly when its own rank is 0 or more.

## Findings

| source | as written | input that shows it | evidently intended | confidence | as-written member | corrected member |
|---|---|---|---|---|---|---|
| src/main/java/com/gargoylesoftware/htmlunit/html/HtmlSerializer.java:180-183 | The new-line marker check before a separator may reach back before `start`, so `substring(start, p0)` is called with `p0 < start` and throws StringIndexOutOfBoundsException. | `§bs§nl§§bs§`: the `§nl§` shares its last `§` with the first separator. In the second round `start` is 4 and `p0` is pulled back to 3. | The marker is dropped only when it lies inside the uncopied text (`p0 - 4 >= start`), so the method never throws. | not executed | SerializerText.AsWrittenFailsOnSharedMarker | SerializerText.BoundedAroundIsOk |
