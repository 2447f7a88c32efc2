/** The document tree: element and text nodes, with ordered children. */
module Dom {
  import opened Wrappers
  import Chars

  type AttrMap = map<string, string>

  datatype ElementData = ElementData(tagName: string, attrs: AttrMap)
  {
    /** The value of the `id` attribute, if there is one. */
    function Id(): (r: Option<string>)
      ensures r.Some? <==> "id" in attrs
      ensures r.Some? ==> r.value == attrs["id"]
    {
      if "id" in attrs then Some(attrs["id"]) else None
    }

    /** The pieces of the `class` attribute split at every single space
        (so two spaces in a row contribute the empty class name ""). */
    function Classes(): (r: set<string>)
      ensures "class" !in attrs ==> r == {}
      ensures "class" in attrs ==> forall c :: c in r <==> c in Split(attrs["class"], ' ')
      ensures forall c :: c in r ==> ' ' !in c
    {
      if "class" in attrs then set c | c in Split(attrs["class"], ' ') else {}
    }
  }

  datatype NodeType = Element(elem: ElementData) | Text(text: string)

  datatype Node = Node(data: NodeType, children: seq<Node>)
  {
    /** A text leaf. */
    static function Text(data: string): (n: Node)
      ensures n.data.Text? && n.data.text == data
      ensures n.children == []
    {
      Node(NodeType.Text(data), [])
    }

    /** An element with the given name, attributes and children, kept as given. */
    static function Elem(name: string, attrs: AttrMap, children: seq<Node>): (n: Node)
      ensures n.data.Element? && n.data.elem.tagName == name && n.data.elem.attrs == attrs
      ensures n.children == children
    {
      Node(Element(ElementData(name, attrs)), children)
    }
  }

  /** Joins non-empty `pieces` with `sep` between consecutive ones. */
  function Join(pieces: seq<string>, sep: char): string
    requires |pieces| >= 1
  {
    if |pieces| == 1 then pieces[0] else pieces[0] + [sep] + Join(pieces[1..], sep)
  }

  /** Rust's `str::split` on one character: the pieces between separators,
      empty pieces included. Joining them back gives `s`. */
  function Split(s: string, sep: char): (pieces: seq<string>)
    ensures |pieces| >= 1
    ensures forall p :: p in pieces ==> sep !in p
    ensures Join(pieces, sep) == s
    decreases |s|
  {
    var e := Chars.SpanEnd(s, 0, Chars.Not(sep));
    Chars.SpanEndRun(s, 0, Chars.Not(sep));
    if e == |s| then
      assert s[..e] == s;
      [s]
    else
      var rest := Split(s[e + 1..], sep);
      assert s == s[..e] + [sep] + s[e + 1..];
      [s[..e]] + rest
  }
}
