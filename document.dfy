/** The parsed document, as far as the sensor looks at it.  HTML/XML parsing
    and CSS-selector evaluation are not modelled: a document is the value the
    parser oracle returns, holding its forms in document order and, for each
    selector string, the ordered sequence of elements it matches. */
module Document {
  import opened Wrappers

  /** A value extracted from an element: `tag.string` can be Python's None. */
  type Value = Option<string>

  /** One element: its tag name, its attributes, its `text` (all descendant
      text) and its `string` (the single child string, or None). */
  datatype Element = Element(
    tag: string,
    attrs: map<string, string>,
    text: string,
    str: Value)

  /** A `<form>` element with the `<input>` elements below it, in order. */
  datatype Form = Form(attrs: map<string, string>, inputs: seq<Element>)

  datatype Doc = Doc(forms: seq<Form>, matches: map<string, seq<Element>>)

  /** `select(selector)`: the ordered matches; a selector the document has no
      entry for matches nothing. */
  function Select(d: Doc, selector: string): (r: seq<Element>)
    ensures selector !in d.matches ==> r == []
  {
    if selector in d.matches then d.matches[selector] else []
  }

  /** `element.get(key)`: the attribute, or None when it is absent. */
  function Get(attrs: map<string, string>, key: string): (r: Value)
    ensures r.Some? <==> key in attrs
    ensures r.Some? ==> r.value == attrs[key]
  {
    if key in attrs then Some(attrs[key]) else None
  }
}
