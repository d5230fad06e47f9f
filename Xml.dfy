/** An already-parsed XML document: elements with a name, attributes and
    child elements in document order, and the LINQ-to-XML lookups the
    parsers use on them. Parsing the text itself is not part of this model. */
module Xml {
  import opened Wrappers

  datatype Element = Element(name: string, attributes: map<string, string>, children: seq<Element>)

  /** The result of `XDocument.Parse`: a document whose root may be missing. */
  datatype Document = Document(root: Option<Element>)

  /** `e.Attribute(key)?.Value`. */
  function Attribute(e: Element, key: string): Option<string> {
    if key in e.attributes then Some(e.attributes[key]) else None
  }

  /** The elements of `s` called `name`, in their order in `s`. */
  function Named(s: seq<Element>, name: string): (r: seq<Element>)
    ensures |r| <= |s|
  {
    if |s| == 0 then []
    else Named(s[..|s| - 1], name) + (if s[|s| - 1].name == name then [s[|s| - 1]] else [])
  }

  /** `Named` keeps exactly the elements called `name`. */
  lemma {:induction false} NamedMembers(s: seq<Element>, name: string)
    ensures forall x :: x in Named(s, name) <==> x in s && x.name == name
  {
    if |s| > 0 {
      var init := s[..|s| - 1];
      assert s == init + [s[|s| - 1]];
      NamedMembers(init, name);
    }
  }

  /** `e.Elements(name)`: the child elements called `name`, in document order. */
  function ElementsNamed(e: Element, name: string): seq<Element> {
    Named(e.children, name)
  }

  /** `e.Element(name)`: the first child element called `name`, if there is one. */
  function ElementNamed(e: Element, name: string): (r: Option<Element>)
    ensures r.Some? <==> |ElementsNamed(e, name)| > 0
    ensures r.Some? ==> r.value == ElementsNamed(e, name)[0]
  {
    var all := ElementsNamed(e, name);
    if |all| == 0 then None else Some(all[0])
  }
}
