/**
 * The attribute table of a DOM element. Reading an attribute that is not
 * set yields the `ATTRIBUTE_NOT_DEFINED` sentinel, which callers tell apart
 * from every real value (including the empty string) by identity.
 */
module DomAttributes {

  datatype AttrValue = NotDefined | Value(text: string)

  /** `getAttribute(name)`: the stored value, or the sentinel when the element has no such attribute. */
  function GetAttribute(attributes: map<string, string>, name: string): (r: AttrValue)
    ensures r.NotDefined? <==> name !in attributes
    ensures r.Value? ==> r.text == attributes[name]
  {
    if name in attributes then Value(attributes[name]) else NotDefined
  }
}
