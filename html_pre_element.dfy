/**
 * HTMLPreElement: the `clear` property, which only ever exposes one of four
 * keywords, and the `width` property's integer fallback.
 */
module PreElement {
  import opened Wrappers
  import opened DomAttributes

  /** `VALID_CLEAR_VALUES`, compared case-sensitively. */
  const ValidClearValues: seq<string> := ["left", "right", "all", "none"]

  /** The error `setClear` raises for a value outside the four keywords. */
  function InvalidClear(clear: string): Error {
    RuntimeError("Invalid clear property value: '" + clear + "'.")
  }

  /** What the `width` getter yields: an integer, or the string form on browsers with JS_PRE_WIDTH_STRING. */
  datatype Width = IntWidth(n: int) | StringWidth(s: string)

  class HtmlPreElement {
    /** The attribute table of the underlying `<pre>` DOM node. */
    var attributes: map<string, string>

    constructor(attributes: map<string, string>)
      ensures this.attributes == attributes
    {
      this.attributes := attributes;
    }

    /**
     * `getClear`: the `clear` attribute when it is one of the four keywords,
     * and "" when it is anything else or not set.
     */
    function Clear(): (r: string)
      reads this
      ensures r == "" || r in ValidClearValues
      ensures r != "" <==> "clear" in attributes && attributes["clear"] in ValidClearValues
      ensures r != "" ==> r == attributes["clear"]
    {
      match GetAttribute(attributes, "clear")
      case Value(clear) => if clear in ValidClearValues then clear else ""
      case NotDefined => ""
    }

    /**
     * `setClear`: a keyword is stored and read back by `getClear`; any other
     * value raises a runtime error and leaves every attribute as it was.
     */
    method SetClear(clear: string) returns (o: Outcome)
      modifies this
      ensures clear in ValidClearValues ==> o == Pass && attributes == old(attributes)["clear" := clear]
      ensures clear !in ValidClearValues ==> o == Fail(InvalidClear(clear)) && attributes == old(attributes)
      ensures o == Pass ==> Clear() == clear
      ensures o != Pass ==> Clear() == old(Clear())
    {
      if clear !in ValidClearValues {
        return Fail(InvalidClear(clear));
      }
      attributes := attributes["clear" := clear];
      return Pass;
    }

    /**
     * `getWidth_js`: with JS_PRE_WIDTH_STRING, what the shared width/height
     * getter yields (widthOrHeight); otherwise the `width` attribute parsed
     * as an integer (parse stands for HTMLCanvasElement.getValue), or 0 when
     * it does not parse.
     */
    function WidthJs(preWidthString: bool, widthOrHeight: string, parse: AttrValue -> Option<int>): (r: Width)
      reads this
      ensures preWidthString ==> r == StringWidth(widthOrHeight)
      ensures !preWidthString ==> r.IntWidth?
      ensures !preWidthString && parse(GetAttribute(attributes, "width")).Some? ==>
        r.n == parse(GetAttribute(attributes, "width")).value
      ensures !preWidthString && parse(GetAttribute(attributes, "width")).None? ==> r.n == 0
    {
      if preWidthString then StringWidth(widthOrHeight)
      else
        match parse(GetAttribute(attributes, "width"))
        case Some(n) => IntWidth(n)
        case None => IntWidth(0)
    }
  }
}
