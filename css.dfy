/** The stylesheet data model: rules, selectors, declarations and values. */
module Css {
  import opened Wrappers

  newtype Byte = x: int | 0 <= x < 256

  datatype Color = Color(r: Byte, g: Byte, b: Byte, a: Byte)

  datatype Unit = Px

  datatype Value = Keyword(keyword: string) | Length(num: real, unit: Unit) | Color(color: Color)
  {
    /** The length in pixels; every keyword and colour counts as 0. */
    function ToPx(): (r: real)
      ensures Length? ==> r == num
      ensures !Length? ==> r == 0.0
    {
      match this
      case Length(f, Px) => f
      case _ => 0.0
    }
  }

  datatype SimpleSelector = SimpleSelector(tagName: Option<string>, id: Option<string>, classes: seq<string>)

  /** (ids, classes, tags), compared lexicographically; see the section
      "Calculating a selector's specificity" of Selectors Level 3. */
  type Specificity = (nat, nat, nat)

  datatype Selector = Simple(simple: SimpleSelector)
  {
    function Specificity(): (r: Specificity)
      ensures r.0 == (if simple.id.Some? then 1 else 0)
      ensures r.1 == |simple.classes|
      ensures r.2 == (if simple.tagName.Some? then 1 else 0)
    {
      var s := simple;
      (if s.id.Some? then 1 else 0, |s.classes|, if s.tagName.Some? then 1 else 0)
    }
  }

  datatype Declaration = Declaration(name: string, value: Value)

  datatype Rule = Rule(selectors: seq<Selector>, declarations: seq<Declaration>)

  datatype Stylesheet = Stylesheet(rules: seq<Rule>)

  /** Rust's `Ord` on tuples: lexicographic. */
  predicate SpecLe(a: Specificity, b: Specificity)
  {
    a.0 < b.0 || (a.0 == b.0 && (a.1 < b.1 || (a.1 == b.1 && a.2 <= b.2)))
  }

  predicate SpecLt(a: Specificity, b: Specificity)
  {
    SpecLe(a, b) && a != b
  }
}
