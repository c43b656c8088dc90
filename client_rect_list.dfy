/**
 * ClientRectList: the list of rectangles returned by `getClientRects()`.
 * Rectangles are only ever appended; reads are bounds-checked, and what an
 * out-of-range read yields depends on the simulated browser.
 */
module ClientRects {
  import opened Wrappers
  import opened Strings

  /** A rectangle, given by its four edges (the ClientRect host object). */
  datatype ClientRect = ClientRect(left: int, top: int, right: int, bottom: int)

  /** What the indexed property getter yields: a rectangle, or Rhino's `NOT_FOUND`. */
  datatype Lookup = Found(rect: ClientRect) | NotFound

  /** The conversion hint of `getDefaultValue`. */
  datatype Hint = StringHint | OtherHint

  /** The error `item` raises for an index outside the list. */
  function InvalidIndex(index: int): Error {
    RuntimeError("Invalid index '" + IntToString(index) + "'")
  }

  class ClientRectList {
    /** `clientRects_`, in insertion order. */
    var rects: seq<ClientRect>

    constructor()
      ensures rects == []
    {
      rects := [];
    }

    /** `getLength`: the number of rectangles added so far. */
    function Length(): (n: nat)
      reads this
      ensures n == |rects|
    {
      |rects|
    }

    /**
     * `add`: the rectangle goes to the end; every earlier index still finds
     * what it found before, and the list is one longer.
     */
    method Add(rect: ClientRect)
      modifies this
      ensures rects == old(rects) + [rect]
      ensures Length() == old(Length()) + 1
      ensures Get(old(Length())) == Found(rect)
      ensures forall i :: 0 <= i < old(Length()) ==> Get(i) == old(Get(i))
    {
      rects := rects + [rect];
    }

    /** `get(index, start)`: the rectangle at index when it lies inside the list, `NOT_FOUND` otherwise. */
    function Get(index: int): (r: Lookup)
      reads this
      ensures r.Found? <==> 0 <= index < |rects|
      ensures r.Found? ==> r.rect == rects[index]
    {
      if 0 <= index < |rects| then Found(rects[index]) else NotFound
    }

    /**
     * `item(index)`: the same rectangle `get` finds; outside the list a
     * runtime error when the browser has JS_CLIENTRECTLIST_THROWS_IF_ITEM_NOT_FOUND,
     * and null otherwise.
     */
    method Item(index: int, throwsIfNotFound: bool) returns (r: Result<Option<ClientRect>>)
      ensures r.Ok? && r.value.Some? <==> Get(index).Found?
      ensures Get(index).Found? ==> r.value.value == Get(index).rect
      ensures Get(index).NotFound? && throwsIfNotFound ==> r == Err(InvalidIndex(index))
      ensures Get(index).NotFound? && !throwsIfNotFound ==> r == Ok(None)
    {
      if 0 <= index < |rects| {
        return Ok(Some(rects[index]));
      }
      if throwsIfNotFound {
        return Err(InvalidIndex(index));
      }
      return Ok(None);
    }

    /**
     * `getDefaultValue(hint)`: for the string hint on a browser with
     * JS_CLIENTRECTLIST_DEFAUL_VALUE_FROM_FIRST, the first rectangle's own
     * default value (rectDefault), or "" for an empty list; in every other
     * case what the inherited conversion yields (inherited).
     */
    method GetDefaultValue(hint: Hint, valueFromFirst: bool, rectDefault: ClientRect -> string, inherited: string)
      returns (r: string)
      ensures hint == StringHint && valueFromFirst && |rects| > 0 ==> r == rectDefault(rects[0])
      ensures hint == StringHint && valueFromFirst && |rects| == 0 ==> r == ""
      ensures !(hint == StringHint && valueFromFirst) ==> r == inherited
    {
      if hint == StringHint && valueFromFirst {
        if |rects| > 0 {
          return rectDefault(rects[0]);
        }
        return "";
      }
      return inherited;
    }
  }
}
