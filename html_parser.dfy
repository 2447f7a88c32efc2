/** The HTML parser: a recursive-descent parser over a cursor, building
    the document tree.

    As for the stylesheet parser, the functions ending in `At`/`From`
    give the meaning of each parsing step as a pure function of the input
    and the starting position, and the methods of `Parser` advance the
    cursor field as the source does and are proved to agree with them. A
    panic of the source is a `Failed` outcome. */
module HtmlParser {
  import opened Wrappers
  import opened Chars
  import opened Dom

  /** Void elements: they take no children and no closing tag. Each of
      their names is a tag name the parser can read, of two to eight
      characters. */
  predicate IsSelfClosingTag(name: string): (b: bool)
    ensures b ==> IsName(name) && 2 <= |name| <= 8
  {
    name in {"area", "base", "br", "col", "embed", "hr", "img", "input", "link", "meta",
             "param", "source", "track", "wbr", "command", "keygen", "menuitem"}
  }

  /** Tag and attribute names consist of alphanumerics only. */
  predicate IsName(t: string)
  {
    forall i :: 0 <= i < |t| ==> IsAlphanumeric(t[i])
  }

  /** End of a tag or attribute name: a maximal run of alphanumerics. */
  function NameEnd(s: string, pos: nat): (e: nat)
    requires pos <= |s|
    ensures pos <= e <= |s|
  {
    SpanEnd(s, pos, Alphanumeric)
  }

  // ---------------------------------------------------------------------------
  // Attributes

  /** `parse_attr_value`: a quote, every character up to the same quote,
      and that quote. */
  function AttrValueAt(s: string, pos: nat): (r: Parsed<string>)
    requires pos <= |s|
    ensures r.Parsed? ==> pos < r.next <= |s|
  {
    if pos == |s| || (s[pos] != '"' && s[pos] != '\'') then Failed
    else
      var e := SpanEnd(s, pos + 1, Not(s[pos]));
      if e == |s| then Failed else Parsed(s[pos + 1..e], e + 1)
  }

  /** `parse_attr`: `name = value`, with optional whitespace around `=`. */
  function AttrAt(s: string, pos: nat): (r: Parsed<(string, string)>)
    requires pos <= |s|
    ensures r.Parsed? ==> pos < r.next <= |s|
  {
    var e := NameEnd(s, pos);
    var eq := SkipWs(s, e);
    if eq == |s| || s[eq] != '=' then Failed
    else match AttrValueAt(s, SkipWs(s, eq + 1))
      case Failed => Failed
      case Parsed(v, q) => Parsed((s[pos..e], v), q)
  }

  /** The loop of `parse_attributes`, after the attributes in `acc`, in
      source order, up to the `>` (which it does not consume). */
  function AttrListFrom(s: string, pos: nat, acc: seq<(string, string)>): (r: Parsed<seq<(string, string)>>)
    requires pos <= |s|
    ensures r.Parsed? ==> pos <= r.next < |s|
    decreases |s| - pos
  {
    var p := SkipWs(s, pos);
    if p == |s| then Failed
    else if s[p] == '>' then Parsed(acc, p)
    else match AttrAt(s, p)
      case Failed => Failed
      case Parsed(a, q) => AttrListFrom(s, q, acc + [a])
  }

  /** The map built by inserting the pairs in order: a later pair replaces
      an earlier one with the same name. */
  function AttrMapOf(pairs: seq<(string, string)>): (m: AttrMap)
    ensures m.Keys == set i | 0 <= i < |pairs| :: pairs[i].0
  {
    if pairs == [] then map[]
    else
      var init := pairs[..|pairs| - 1];
      var m := AttrMapOf(init);
      assert forall i :: 0 <= i < |init| ==> init[i] == pairs[i];
      m[pairs[|pairs| - 1].0 := pairs[|pairs| - 1].1]
  }

  /** `parse_attributes`: the attribute map, ending at the `>`. */
  function AttrsAt(s: string, pos: nat): (r: Parsed<AttrMap>)
    requires pos <= |s|
    ensures r.Parsed? ==> pos <= r.next < |s|
  {
    match AttrListFrom(s, pos, [])
    case Failed => Failed
    case Parsed(pairs, p) => Parsed(AttrMapOf(pairs), p)
  }

  // ---------------------------------------------------------------------------
  // Nodes

  /** `parse_text`: every character up to the next `<` or the end. */
  function TextAt(s: string, pos: nat): (r: Parsed<Node>)
    requires pos <= |s|
    ensures r.Parsed? && pos <= r.next <= |s|
  {
    var e := SpanEnd(s, pos, Not('<'));
    Parsed(Node.Text(s[pos..e]), e)
  }

  /** The open tag `<name attrs>` of `parse_element`, with optional
      whitespace after `<`. */
  function OpenTagAt(s: string, pos: nat): (r: Parsed<(string, AttrMap)>)
    requires pos <= |s|
    ensures r.Parsed? ==> pos < r.next <= |s|
  {
    if pos == |s| || s[pos] != '<' then Failed
    else
      var start := SkipWs(s, pos + 1);
      var e := NameEnd(s, start);
      match AttrsAt(s, e)
      case Failed => Failed
      case Parsed(attrs, p) => if s[p] != '>' then Failed else Parsed((s[start..e], attrs), p + 1)
  }

  /** The closing tag `</name>` at `pos`: the position just after it. */
  function CloseTagEnd(s: string, pos: nat, name: string): (r: Option<nat>)
    requires pos <= |s|
    ensures r.Some? ==> pos < r.value <= |s|
  {
    if pos + 2 > |s| || s[pos] != '<' || s[pos + 1] != '/' then None
    else
      var e := NameEnd(s, pos + 2);
      if s[pos + 2..e] != name || e == |s| || s[e] != '>' then None
      else Some(e + 1)
  }

  /** The loop of `parse_nodes`, after the nodes in `acc`: it skips
      whitespace and stops at the end of the input or at `</`. */
  function NodesFrom(s: string, pos: nat, acc: seq<Node>): (r: Parsed<seq<Node>>)
    requires pos <= |s|
    ensures r.Parsed? ==> pos <= r.next <= |s|
    decreases |s| - pos, 2
  {
    var p := SkipWs(s, pos);
    if p == |s| || (p + 1 < |s| && s[p] == '<' && s[p + 1] == '/') then Parsed(acc, p)
    else match NodeAt(s, p)
      case Failed => Failed
      case Parsed(n, q) => NodesFrom(s, q, acc + [n])
  }

  /** `parse_node`: an element at `<`, a text node otherwise. */
  function NodeAt(s: string, pos: nat): (r: Parsed<Node>)
    requires pos < |s|
    ensures r.Parsed? ==> pos < r.next <= |s|
    decreases |s| - pos, 1
  {
    if s[pos] == '<' then ElementAt(s, pos) else TextAt(s, pos)
  }

  /** `parse_element`: the open tag, then what follows it. */
  function ElementAt(s: string, pos: nat): (r: Parsed<Node>)
    requires pos <= |s|
    ensures r.Parsed? ==> pos < r.next <= |s| && r.value.data.Element?
    decreases |s| - pos, 0
  {
    match OpenTagAt(s, pos)
    case Failed => Failed
    case Parsed((name, attrs), p) => ContentAt(s, p, name, attrs)
  }

  /** The rest of element `name` after its open tag, which ends just before
      `pos`: nothing for a void element, otherwise the children and
      `</name>`. */
  function ContentAt(s: string, pos: nat, name: string, attrs: AttrMap): (r: Parsed<Node>)
    requires pos <= |s|
    ensures r.Parsed? ==> pos <= r.next <= |s| && r.value.data.Element?
    decreases |s| - pos, 3
  {
    if IsSelfClosingTag(name) then Parsed(Node.Elem(name, attrs, []), pos)
    else match NodesFrom(s, pos, [])
      case Failed => Failed
      case Parsed(children, q) =>
        match CloseTagEnd(s, q, name)
        case None => Failed
        case Some(end) => Parsed(Node.Elem(name, attrs, children), end)
  }

  /** `parse`: the single top-level node, or an `html` element without
      attributes around all of them; None where the source panics. */
  function DocumentOf(source: string): Option<Node>
  {
    match NodesFrom(source, 0, [])
    case Failed => None
    case Parsed(nodes, _) => Some(if |nodes| == 1 then nodes[0] else Node.Elem("html", map[], nodes))
  }

  // ---------------------------------------------------------------------------
  // Properties of the parsing steps

  /** A text node is the maximal run before the next `<`: it contains no
      `<` and is followed by `<` or the end of the input. */
  lemma TextShape(s: string, pos: nat)
    requires pos <= |s|
    ensures var r := TextAt(s, pos);
      r.value.data.Text? && r.value.children == [] &&
      r.value.data.text == s[pos..r.next] && '<' !in r.value.data.text &&
      (r.next == |s| || s[r.next] == '<')
  {
    SpanEndRun(s, pos, Not('<'));
  }

  /** An attribute value is enclosed in one kind of quote and never
      contains that quote. */
  lemma AttrValueShape(s: string, pos: nat)
    requires pos <= |s|
    ensures var r := AttrValueAt(s, pos);
      r.Parsed? ==>
        (s[pos] == '"' || s[pos] == '\'') && s[r.next - 1] == s[pos] &&
        r.value == s[pos + 1..r.next - 1] && s[pos] !in r.value
  {
    if pos < |s| && (s[pos] == '"' || s[pos] == '\'') {
      SpanEndRun(s, pos + 1, Not(s[pos]));
    }
  }

  /** Attribute names are alphanumeric and followed by `=`. */
  lemma AttrShape(s: string, pos: nat)
    requires pos <= |s|
    ensures var r := AttrAt(s, pos);
      r.Parsed? ==>
        IsName(r.value.0) &&
        SkipWs(s, pos + |r.value.0|) < |s| && s[SkipWs(s, pos + |r.value.0|)] == '='
  {
    SpanEndRun(s, pos, Alphanumeric);
  }

  /** The attribute loop stops at a `>`. */
  lemma {:induction false} AttrListShape(s: string, pos: nat, acc: seq<(string, string)>)
    requires pos <= |s|
    ensures var r := AttrListFrom(s, pos, acc);
      r.Parsed? ==> s[r.next] == '>' && |r.value| >= |acc| && r.value[..|acc|] == acc
    decreases |s| - pos
  {
    var p := SkipWs(s, pos);
    if p < |s| && s[p] != '>' {
      match AttrAt(s, p)
      case Failed =>
      case Parsed(a, q) =>
        AttrListShape(s, q, acc + [a]);
        var r := AttrListFrom(s, q, acc + [a]);
        if r.Parsed? {
          assert r.value[..|acc|] == (r.value[..|acc| + 1])[..|acc|];
        }
    }
  }

  /** A repeated attribute name keeps the value of its last occurrence. */
  lemma {:induction false} LastAttributeWins(pairs: seq<(string, string)>, i: nat)
    requires i < |pairs|
    requires forall j :: i < j < |pairs| ==> pairs[j].0 != pairs[i].0
    ensures AttrMapOf(pairs)[pairs[i].0] == pairs[i].1
    decreases |pairs|
  {
    if i < |pairs| - 1 {
      var init := pairs[..|pairs| - 1];
      assert init[i] == pairs[i];
      LastAttributeWins(init, i);
    }
  }

  /** `parse_nodes` stops at the end of the input or at `</`. */
  lemma {:induction false} NodesShape(s: string, pos: nat, acc: seq<Node>)
    requires pos <= |s|
    ensures var r := NodesFrom(s, pos, acc);
      r.Parsed? ==> r.next == |s| || (r.next + 1 < |s| && s[r.next] == '<' && s[r.next + 1] == '/')
    decreases |s| - pos
  {
    var p := SkipWs(s, pos);
    if p < |s| && !(p + 1 < |s| && s[p] == '<' && s[p + 1] == '/') {
      match NodeAt(s, p)
      case Failed =>
      case Parsed(n, q) => NodesShape(s, q, acc + [n]);
    }
  }

  /** A closing tag is the text `</name>`. */
  lemma CloseTagText(s: string, pos: nat, name: string)
    requires pos <= |s|
    ensures var r := CloseTagEnd(s, pos, name);
      r.Some? ==> r.value == pos + |name| + 3 && s[pos..r.value] == "</" + name + ">"
  {
    var r := CloseTagEnd(s, pos, name);
    if r.Some? {
      var e := NameEnd(s, pos + 2);
      assert s[pos..r.value] == s[pos..pos + 2] + s[pos + 2..e] + [s[e]];
    }
  }

  /** A void element has no children; any other element ends with the
      closing tag of its own name. */
  lemma ContentShape(s: string, pos: nat, name: string, attrs: AttrMap)
    requires pos <= |s|
    ensures var r := ContentAt(s, pos, name, attrs);
      r.Parsed? ==>
        r.value == Node(Element(ElementData(name, attrs)), r.value.children) &&
        (IsSelfClosingTag(name) ==> r.value.children == [] && r.next == pos) &&
        (!IsSelfClosingTag(name) ==>
          pos + |name| + 3 <= r.next && CloseTagEnd(s, r.next - |name| - 3, name) == Some(r.next))
  {
    var r := ContentAt(s, pos, name, attrs);
    if r.Parsed? && !IsSelfClosingTag(name) {
      var q := NodesFrom(s, pos, []).next;
      var close := NameEnd(s, q + 2);
      assert r.next == close + 1 && s[q + 2..close] == name;
    }
  }

  /** An open tag starts with `<`, ends with `>` and is named by an
      alphanumeric run. */
  lemma OpenTagShape(s: string, pos: nat)
    requires pos <= |s|
    ensures var r := OpenTagAt(s, pos);
      r.Parsed? ==> s[pos] == '<' && s[r.next - 1] == '>' && IsName(r.value.0)
  {
    if pos < |s| && s[pos] == '<' {
      SpanEndRun(s, SkipWs(s, pos + 1), Alphanumeric);
    }
  }

  /** An element starts with `<` and is named by an alphanumeric run. */
  lemma ElementName(s: string, pos: nat)
    requires pos <= |s|
    ensures var r := ElementAt(s, pos);
      r.Parsed? ==> s[pos] == '<' && IsName(r.value.data.elem.tagName)
  {
    if ElementAt(s, pos).Parsed? {
      OpenTagShape(s, pos);
      var tag := OpenTagAt(s, pos);
      ContentShape(s, tag.next, tag.value.0, tag.value.1);
    }
  }

  /** A void element has no children and ends at the `>` of its open tag. */
  lemma ElementVoid(s: string, pos: nat)
    requires pos <= |s|
    ensures var r := ElementAt(s, pos);
      r.Parsed? && IsSelfClosingTag(r.value.data.elem.tagName) ==>
        r.value.children == [] && OpenTagAt(s, pos).Parsed? && r.next == OpenTagAt(s, pos).next &&
        s[r.next - 1] == '>'
  {
    if ElementAt(s, pos).Parsed? {
      OpenTagShape(s, pos);
      var tag := OpenTagAt(s, pos);
      ContentShape(s, tag.next, tag.value.0, tag.value.1);
    }
  }

  /** Any other element ends with the closing tag of its own name. */
  lemma ElementClosed(s: string, pos: nat)
    requires pos <= |s|
    ensures var r := ElementAt(s, pos);
      r.Parsed? && !IsSelfClosingTag(r.value.data.elem.tagName) ==>
        var name := r.value.data.elem.tagName;
        |name| + 3 <= r.next && CloseTagEnd(s, r.next - |name| - 3, name) == Some(r.next)
  {
    if ElementAt(s, pos).Parsed? {
      var tag := OpenTagAt(s, pos);
      ContentShape(s, tag.next, tag.value.0, tag.value.1);
    }
  }

  /** With one top-level node the document is that node; otherwise an
      `html` element without attributes holds all of them, in order. */
  lemma DocumentShape(source: string)
    ensures var d := DocumentOf(source);
      var r := NodesFrom(source, 0, []);
      (d.Some? <==> r.Parsed?) &&
      (r.Parsed? && |r.value| == 1 ==> d.value == r.value[0]) &&
      (r.Parsed? && |r.value| != 1 ==>
        d.value.data == Element(ElementData("html", map[])) && d.value.children == r.value)
  {
  }

  /** The turn of the node loop that stops. */
  lemma NodesStop(s: string, pos: nat, acc: seq<Node>, p: nat)
    requires pos <= |s| && p == SkipWs(s, pos)
    requires p == |s| || (p + 1 < |s| && s[p] == '<' && s[p + 1] == '/')
    ensures NodesFrom(s, pos, acc) == Parsed(acc, p)
  {
  }

  /** A turn of the node loop that parses one more node. */
  lemma NodesStep(s: string, pos: nat, acc: seq<Node>, p: nat)
    requires pos <= |s| && p == SkipWs(s, pos) < |s|
    requires !(p + 1 < |s| && s[p] == '<' && s[p + 1] == '/')
    ensures NodeAt(s, p).Failed? ==> NodesFrom(s, pos, acc).Failed?
    ensures NodeAt(s, p).Parsed? ==>
      NodesFrom(s, pos, acc) == NodesFrom(s, NodeAt(s, p).next, acc + [NodeAt(s, p).value])
  {
  }

  /** The input at `pos` starts with `</`. */
  lemma CloseTagStart(s: string, pos: nat)
    requires pos <= |s|
    ensures (pos + 2 <= |s| && s[pos..pos + 2] == "</") <==> (pos + 1 < |s| && s[pos] == '<' && s[pos + 1] == '/')
  {
    if pos + 1 < |s| && s[pos] == '<' && s[pos + 1] == '/' {
      assert s[pos..pos + 2] == "</";
    }
  }

  /** The content of a non-void element: its children, then `</name>`. */
  lemma ContentStep(s: string, pos: nat, name: string, attrs: AttrMap)
    requires pos <= |s|
    ensures !IsSelfClosingTag(name) ==>
      var children := NodesFrom(s, pos, []);
      (children.Failed? ==> ContentAt(s, pos, name, attrs).Failed?) &&
      (children.Parsed? && CloseTagEnd(s, children.next, name).None? ==> ContentAt(s, pos, name, attrs).Failed?) &&
      (children.Parsed? && CloseTagEnd(s, children.next, name).Some? ==>
        ContentAt(s, pos, name, attrs) ==
          Parsed(Node.Elem(name, attrs, children.value), CloseTagEnd(s, children.next, name).value))
  {
  }

  // ---------------------------------------------------------------------------
  // The parser, advancing its cursor in place

  class Parser {
    const input: string
    var pos: nat

    ghost predicate Valid()
      reads this
    {
      pos <= |input|
    }

    constructor (input: string)
      ensures this.input == input && pos == 0 && Valid()
    {
      this.input := input;
      pos := 0;
    }

    function Eof(): (b: bool)
      reads this
      ensures b <==> pos >= |input|
    {
      pos >= |input|
    }

    /** The current character; the source panics at the end of input,
        where this is not defined. It decides whether the whitespace and
        name runs starting here are empty. */
    function NextChar(): (c: char)
      reads this
      requires pos < |input|
      ensures c == input[pos]
      ensures IsWhitespace(c) <==> SkipWs(input, pos) > pos
      ensures IsAlphanumeric(c) <==> NameEnd(input, pos) > pos
    {
      input[pos]
    }

    /** Whether the rest of the input begins with `t`. */
    function StartsWith(t: string): (b: bool)
      reads this
      requires Valid()
      ensures b <==> pos + |t| <= |input| && input[pos..pos + |t|] == t
    {
      pos + |t| <= |input| && input[pos..pos + |t|] == t
    }

    method ConsumeChar() returns (c: char)
      requires pos < |input|
      modifies this
      ensures pos == old(pos) + 1 && c == input[old(pos)]
    {
      c := input[pos];
      pos := pos + 1;
    }

    /** Consumes and returns the maximal run of characters satisfying `test`. */
    method ConsumeWhile(test: CharClass) returns (r: string)
      requires Valid()
      modifies this
      ensures Valid() && pos == SpanEnd(input, old(pos), test)
      ensures r == input[old(pos)..pos]
    {
      r := [];
      while !Eof() && In(NextChar(), test)
        invariant old(pos) <= pos <= |input|
        invariant r == input[old(pos)..pos]
        invariant SpanEnd(input, pos, test) == SpanEnd(input, old(pos), test)
        decreases |input| - pos
      {
        var c := ConsumeChar();
        r := r + [c];
      }
    }

    method ConsumeWhitespace()
      requires Valid()
      modifies this
      ensures Valid() && pos == SkipWs(input, old(pos))
    {
      var _ := ConsumeWhile(Whitespace);
    }

    method ParseTagAttrName() returns (r: string)
      requires Valid()
      modifies this
      ensures Valid() && pos == NameEnd(input, old(pos)) && r == input[old(pos)..pos]
    {
      r := ConsumeWhile(Alphanumeric);
    }

    method ParseAttrValue() returns (r: Option<string>)
      requires Valid()
      modifies this
      ensures Valid() && Outcome(r, pos) == AttrValueAt(input, old(pos))
    {
      if Eof() {
        return None;
      }
      var openQuote := ConsumeChar();
      if openQuote != '"' && openQuote != '\'' {
        return None;
      }
      ghost var start := pos;
      var value := ConsumeWhile(Not(openQuote));
      SpanEndRun(input, start, Not(openQuote));
      if Eof() {
        return None;
      }
      var c := ConsumeChar();
      if c != openQuote {
        return None;
      }
      r := Some(value);
    }

    method ParseAttr() returns (r: Option<(string, string)>)
      requires Valid()
      modifies this
      ensures Valid() && Outcome(r, pos) == AttrAt(input, old(pos))
    {
      var name := ParseTagAttrName();
      ConsumeWhitespace();
      if Eof() {
        return None;
      }
      var c := ConsumeChar();
      if c != '=' {
        return None;
      }
      ConsumeWhitespace();
      var value := ParseAttrValue();
      if value.None? {
        return None;
      }
      r := Some((name, value.value));
    }

    method ParseAttributes() returns (r: Option<AttrMap>)
      requires Valid()
      modifies this
      ensures Valid() && Outcome(r, pos) == AttrsAt(input, old(pos))
    {
      var attrs := map[];
      ghost var pairs := [];
      while true
        invariant Valid() && attrs == AttrMapOf(pairs)
        invariant AttrListFrom(input, pos, pairs) == AttrListFrom(input, old(pos), [])
        decreases |input| - pos
      {
        ConsumeWhitespace();
        if Eof() {
          return None;
        }
        if NextChar() == '>' {
          return Some(attrs);
        }
        var attr := ParseAttr();
        if attr.None? {
          return None;
        }
        var (name, value) := attr.value;
        attrs := attrs[name := value];
        assert (pairs + [attr.value])[..|pairs|] == pairs;
        pairs := pairs + [attr.value];
      }
    }

    method ParseText() returns (r: Node)
      requires Valid()
      modifies this
      ensures Valid() && Parsed(r, pos) == TextAt(input, old(pos))
    {
      var text := ConsumeWhile(Not('<'));
      r := Node.Text(text);
    }

    method ParseNodes() returns (r: Option<seq<Node>>)
      requires Valid()
      modifies this
      ensures Valid() && Outcome(r, pos) == NodesFrom(input, old(pos), [])
      decreases |input| - pos, 2
    {
      var nodes := [];
      while true
        invariant Valid() && old(pos) <= pos
        invariant NodesFrom(input, pos, nodes) == NodesFrom(input, old(pos), [])
        decreases |input| - pos
      {
        ghost var start := pos;
        ConsumeWhitespace();
        CloseTagStart(input, pos);
        if Eof() || StartsWith("</") {
          NodesStop(input, start, nodes, pos);
          return Some(nodes);
        }
        NodesStep(input, start, nodes, pos);
        var node := ParseNode();
        if node.None? {
          return None;
        }
        nodes := nodes + [node.value];
      }
    }

    method ParseNode() returns (r: Option<Node>)
      requires Valid() && pos < |input|
      modifies this
      ensures Valid() && Outcome(r, pos) == NodeAt(input, old(pos))
      decreases |input| - pos, 1
    {
      if NextChar() == '<' {
        r := ParseElement();
      } else {
        var text := ParseText();
        r := Some(text);
      }
    }

    method ParseElement() returns (r: Option<Node>)
      requires Valid()
      modifies this
      ensures Valid() && Outcome(r, pos) == ElementAt(input, old(pos))
      decreases |input| - pos, 0
    {
      var tag := ParseOpenTag();
      if tag.None? {
        return None;
      }
      var (name, attrs) := tag.value;
      r := ParseContent(name, attrs);
    }

    /** The open tag: the first assertions of `parse_element`, the name and
        the attributes. */
    method ParseOpenTag() returns (r: Option<(string, AttrMap)>)
      requires Valid()
      modifies this
      ensures Valid() && Outcome(r, pos) == OpenTagAt(input, old(pos))
    {
      if Eof() {
        return None;
      }
      var c := ConsumeChar();
      if c != '<' {
        return None;
      }
      ConsumeWhitespace();
      var name := ParseTagAttrName();
      var attrs := ParseAttributes();
      if attrs.None? {
        return None;
      }
      c := ConsumeChar();
      if c != '>' {
        return None;
      }
      r := Some((name, attrs.value));
    }

    /** The rest of `parse_element` after the open tag of `name`. */
    method ParseContent(name: string, attrs: AttrMap) returns (r: Option<Node>)
      requires Valid()
      modifies this
      ensures Valid() && Outcome(r, pos) == ContentAt(input, old(pos), name, attrs)
      decreases |input| - pos, 3
    {
      ContentStep(input, pos, name, attrs);
      if IsSelfClosingTag(name) {
        return Some(Node.Elem(name, attrs, []));
      }
      var children := ParseNodes();
      if children.None? {
        return None;
      }
      var closed := ParseCloseTag(name);
      if !closed {
        return None;
      }
      r := Some(Node.Elem(name, attrs, children.value));
    }

    /** The four checks after the children: `<`, `/`, the same name, `>`. */
    method ParseCloseTag(name: string) returns (closed: bool)
      requires Valid()
      modifies this
      ensures Valid() && closed == CloseTagEnd(input, old(pos), name).Some?
      ensures closed ==> pos == CloseTagEnd(input, old(pos), name).value
    {
      if Eof() {
        return false;
      }
      var c := ConsumeChar();
      if c != '<' || Eof() {
        return false;
      }
      c := ConsumeChar();
      if c != '/' {
        return false;
      }
      var closeName := ParseTagAttrName();
      if closeName != name || Eof() {
        return false;
      }
      c := ConsumeChar();
      closed := c == '>';
    }
  }

  /** `parse`: the document tree of `source`, or None where the source panics. */
  method Parse(source: string) returns (r: Option<Node>)
    ensures r == DocumentOf(source)
  {
    var parser := new Parser(source);
    var nodes := parser.ParseNodes();
    if nodes.None? {
      return None;
    }
    if |nodes.value| == 1 {
      r := Some(nodes.value[0]);
    } else {
      r := Some(Node.Elem("html", map[], nodes.value));
    }
  }
}
