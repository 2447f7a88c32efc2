/** Style resolution: matching selectors against elements and cascading the
    declarations of the matching rules into one property map per node. */
module Style {
  import opened Wrappers
  import opened Css
  import opened Dom

  type PropertyMap = map<string, Value>

  /** How a node takes part in layout (`display: none` is `DisplayNone`). */
  datatype Display = Inline | Block | DisplayNone

  /** A document node with its resolved properties and its styled children. */
  datatype StyledNode = StyledNode(node: Node, specifiedValues: PropertyMap, children: seq<StyledNode>)
  {
    /** The specified value of `name`, if the cascade produced one. */
    function Value(name: string): (r: Option<Css.Value>)
      ensures r.Some? <==> name in specifiedValues
      ensures r.Some? ==> r.value == specifiedValues[name]
    {
      if name in specifiedValues then Some(specifiedValues[name]) else None
    }

    /** `block` and `none` are recognised; everything else is inline. */
    function Display(): (d: Display)
      ensures d == Block <==> Value("display") == Some(Keyword("block"))
      ensures d == DisplayNone <==> Value("display") == Some(Keyword("none"))
      ensures d == Inline <==> Value("display") != Some(Keyword("block")) && Value("display") != Some(Keyword("none"))
    {
      match Value("display")
      case Some(Keyword(k)) => if k == "block" then Block else if k == "none" then DisplayNone else Inline
      case _ => Inline
    }

    /** The value of `name`, else that of `fallback`, else `default`. */
    function Lookup(name: string, fallback: string, default: Css.Value): (r: Css.Value)
      ensures name in specifiedValues ==> r == specifiedValues[name]
      ensures name !in specifiedValues && fallback in specifiedValues ==> r == specifiedValues[fallback]
      ensures name !in specifiedValues && fallback !in specifiedValues ==> r == default
    {
      match Value(name)
      case Some(v) => v
      case None =>
        match Value(fallback)
        case Some(v) => v
        case None => default
    }

    function HasTextNode(): (b: bool)
      ensures b <==> node.data.Text?
    {
      match node.data
      case Text(_) => true
      case _ => false
    }

    /** The colour held by `name`; none when it is absent or not a colour. */
    function GetColor(name: string): (r: Option<Color>)
      ensures r.Some? <==> name in specifiedValues && specifiedValues[name].Color?
      ensures r.Some? ==> specifiedValues[name] == Css.Value.Color(r.value)
    {
      match Value(name)
      case Some(Color(c)) => Some(c)
      case _ => None
    }
  }

  // ---------------------------------------------------------------------------
  // Selector matching

  /** Whether every class of the selector is in the element's class set. */
  function HasAllClasses(classes: seq<string>, present: set<string>): (b: bool)
    ensures b <==> forall i :: 0 <= i < |classes| ==> classes[i] in present
  {
    if classes == [] then true else classes[0] in present && HasAllClasses(classes[1..], present)
  }

  function MatchSimpleSelector(elem: ElementData, sel: SimpleSelector): (b: bool)
    ensures b <==>
      (sel.tagName.Some? ==> sel.tagName.value == elem.tagName) &&
      (sel.id.Some? ==> "id" in elem.attrs && elem.attrs["id"] == sel.id.value) &&
      (forall c :: c in sel.classes ==> c in elem.Classes())
    ensures sel.tagName.None? && sel.id.None? && sel.classes == [] ==> b
  {
    if sel.tagName.Some? && elem.tagName != sel.tagName.value then false
    else if sel.id.Some? && elem.Id() != Some(sel.id.value) then false
    else HasAllClasses(sel.classes, elem.Classes())
  }

  function Matches(elem: ElementData, selector: Selector): (b: bool)
    ensures b <==>
      (selector.simple.tagName.Some? ==> selector.simple.tagName.value == elem.tagName) &&
      (selector.simple.id.Some? ==> elem.Id() == Some(selector.simple.id.value)) &&
      (forall c :: c in selector.simple.classes ==> c in elem.Classes())
  {
    match selector
    case Simple(s) => MatchSimpleSelector(elem, s)
  }

  /** The position of the first selector from `from` on that matches. */
  function FirstMatch(elem: ElementData, sels: seq<Selector>, from: nat): (r: Option<nat>)
    requires from <= |sels|
    ensures r.Some? ==> from <= r.value < |sels| && Matches(elem, sels[r.value])
    ensures r.Some? ==> forall j :: from <= j < r.value ==> !Matches(elem, sels[j])
    ensures r.None? ==> forall j :: from <= j < |sels| ==> !Matches(elem, sels[j])
    decreases |sels| - from
  {
    if from == |sels| then None
    else if Matches(elem, sels[from]) then Some(from)
    else FirstMatch(elem, sels, from + 1)
  }

  /** A rule that matched, ranked by the specificity of its first matching
      selector; `index` is the rule's position in the stylesheet and stands
      for the reference to the rule that the ranking carries. */
  datatype MatchedRule = MatchedRule(spec: Specificity, index: nat, rule: Rule)

  /** `k` is the position of the first selector of `sels` that matches. */
  predicate IsFirstMatch(elem: ElementData, sels: seq<Selector>, k: nat)
  {
    k < |sels| && Matches(elem, sels[k]) && forall j :: 0 <= j < k ==> !Matches(elem, sels[j])
  }

  /** `match_rule`: the rule ranked by its first matching selector, or
      nothing when no selector matches. */
  function MatchRule(elem: ElementData, rule: Rule, index: nat): (r: Option<MatchedRule>)
    ensures r.Some? <==> exists i :: 0 <= i < |rule.selectors| && Matches(elem, rule.selectors[i])
    ensures r.Some? ==> r.value.rule == rule && r.value.index == index
    ensures r.Some? ==> exists k: nat :: IsFirstMatch(elem, rule.selectors, k) && r.value.spec == rule.selectors[k].Specificity()
  {
    match FirstMatch(elem, rule.selectors, 0)
    case Some(k) => Some(MatchedRule(rule.selectors[k].Specificity(), index, rule))
    case None => None
  }

  predicate IndicesIncreasing(ms: seq<MatchedRule>)
  {
    forall a, b :: 0 <= a < b < |ms| ==> ms[a].index < ms[b].index
  }

  /** Entry `m` is what `match_rule` gives for the rule at its own index. */
  predicate MatchedAt(elem: ElementData, rules: seq<Rule>, m: MatchedRule)
  {
    m.index < |rules| && MatchRule(elem, rules[m.index], m.index) == Some(m)
  }

  /** The rules from position `from` on that match, in stylesheet order. */
  function MatchingFrom(elem: ElementData, rules: seq<Rule>, from: nat): (r: seq<MatchedRule>)
    requires from <= |rules|
    ensures forall k :: 0 <= k < |r| ==> from <= r[k].index && MatchedAt(elem, rules, r[k])
    ensures IndicesIncreasing(r)
    decreases |rules| - from
  {
    if from == |rules| then []
    else
      var rest := MatchingFrom(elem, rules, from + 1);
      match MatchRule(elem, rules[from], from)
      case Some(m) =>
        assert forall k :: 0 < k < |[m] + rest| ==> ([m] + rest)[k] == rest[k - 1];
        [m] + rest
      case None => rest
  }

  /** The stylesheet positions of the entries, in order. */
  function Indices(ms: seq<MatchedRule>): (r: seq<nat>)
    ensures |r| == |ms| && forall k :: 0 <= k < |ms| ==> r[k] == ms[k].index
  {
    if ms == [] then [] else [ms[0].index] + Indices(ms[1..])
  }

  /** No matching rule is dropped. */
  lemma {:induction false} MatchingFromComplete(elem: ElementData, rules: seq<Rule>, from: nat, j: nat)
    requires from <= j < |rules| && MatchRule(elem, rules[j], j).Some?
    ensures j in Indices(MatchingFrom(elem, rules, from))
    decreases |rules| - from
  {
    var rest := MatchingFrom(elem, rules, from + 1);
    var head := MatchRule(elem, rules[from], from);
    if head.Some? {
      assert MatchingFrom(elem, rules, from) == [head.value] + rest;
      assert Indices([head.value] + rest) == [from] + Indices(rest) by {
        assert ([head.value] + rest)[1..] == rest;
      }
    } else {
      assert MatchingFrom(elem, rules, from) == rest;
    }
    if j > from {
      MatchingFromComplete(elem, rules, from + 1, j);
    }
  }

  /** `matching_rules`: every rule that matches, in stylesheet order, each
      ranked by its first matching selector. */
  function MatchingRules(elem: ElementData, sheet: Stylesheet): (r: seq<MatchedRule>)
    ensures forall k :: 0 <= k < |r| ==> MatchedAt(elem, sheet.rules, r[k])
    ensures IndicesIncreasing(r)
  {
    MatchingFrom(elem, sheet.rules, 0)
  }

  /** A rule is among the matching rules exactly when one of its selectors
      matches the element. */
  lemma MatchingRulesExact(elem: ElementData, sheet: Stylesheet, j: nat)
    requires j < |sheet.rules|
    ensures j in Indices(MatchingRules(elem, sheet)) <==>
      exists i :: 0 <= i < |sheet.rules[j].selectors| && Matches(elem, sheet.rules[j].selectors[i])
  {
    if MatchRule(elem, sheet.rules[j], j).Some? {
      MatchingFromComplete(elem, sheet.rules, 0, j);
    }
  }

  // ---------------------------------------------------------------------------
  // Sorting the matched rules by ascending specificity (Rust's stable `sort_by`)

  predicate Ascending(ms: seq<MatchedRule>)
  {
    forall a, b :: 0 <= a < b < |ms| ==> SpecLe(ms[a].spec, ms[b].spec)
  }

  /** The order of a stable sort: by specificity, then by stylesheet position. */
  predicate KeyLt(x: MatchedRule, y: MatchedRule)
  {
    SpecLt(x.spec, y.spec) || (x.spec == y.spec && x.index < y.index)
  }

  predicate StrictlyAscending(ms: seq<MatchedRule>)
  {
    forall a, b :: 0 <= a < b < |ms| ==> KeyLt(ms[a], ms[b])
  }

  /** Inserts `x` before the first entry of strictly greater specificity,
      hence after every entry of equal specificity. */
  function InsertAscending(x: MatchedRule, ms: seq<MatchedRule>): (r: seq<MatchedRule>)
    requires Ascending(ms)
    ensures Ascending(r)
    ensures multiset(r) == multiset(ms) + multiset{x}
    ensures forall y :: y in r ==> y == x || y in ms
  {
    if ms == [] then [x]
    else if SpecLt(x.spec, ms[0].spec) then [x] + ms
    else
      var rest := InsertAscending(x, ms[1..]);
      assert ms == [ms[0]] + ms[1..];
      assert forall k :: 0 <= k < |rest| ==> SpecLe(ms[0].spec, rest[k].spec) by {
        forall k | 0 <= k < |rest| ensures SpecLe(ms[0].spec, rest[k].spec) {
          if rest[k] != x {
            assert rest[k] in rest;
            var j :| 0 <= j < |ms[1..]| && ms[1..][j] == rest[k];
            assert ms[j + 1] == rest[k];
          }
        }
      }
      AscendingCons(ms[0], rest);
      [ms[0]] + rest
  }

  lemma AscendingCons(m: MatchedRule, ms: seq<MatchedRule>)
    requires Ascending(ms) && forall k :: 0 <= k < |ms| ==> SpecLe(m.spec, ms[k].spec)
    ensures Ascending([m] + ms)
  {
    forall a, b | 0 <= a < b < |ms| + 1 ensures SpecLe(([m] + ms)[a].spec, ([m] + ms)[b].spec) {
      if a > 0 {
        assert ([m] + ms)[a] == ms[a - 1];
      }
    }
  }

  /** Sorts by ascending specificity, keeping entries of equal specificity
      in their original order. */
  function SortAscending(ms: seq<MatchedRule>): (r: seq<MatchedRule>)
    ensures Ascending(r)
    ensures multiset(r) == multiset(ms)
  {
    if ms == [] then []
    else
      assert ms == ms[..|ms| - 1] + [ms[|ms| - 1]];
      InsertAscending(ms[|ms| - 1], SortAscending(ms[..|ms| - 1]))
  }

  lemma {:induction false} InsertKeepsKeyOrder(x: MatchedRule, ms: seq<MatchedRule>)
    requires StrictlyAscending(ms)
    requires forall k :: 0 <= k < |ms| ==> ms[k].index < x.index
    ensures Ascending(ms)
    ensures StrictlyAscending(InsertAscending(x, ms))
  {
    if ms == [] {
    } else if SpecLt(x.spec, ms[0].spec) {
      forall k | 0 <= k < |ms| ensures KeyLt(x, ms[k]) {
        if k > 0 {
          assert KeyLt(ms[0], ms[k]);
        }
      }
      StrictCons(x, ms);
    } else {
      assert StrictlyAscending(ms[1..]);
      InsertKeepsKeyOrder(x, ms[1..]);
      var rest := InsertAscending(x, ms[1..]);
      forall k | 0 <= k < |rest|
        ensures KeyLt(ms[0], rest[k])
      {
        assert rest[k] in rest;
        if rest[k] != x {
          var j :| 0 <= j < |ms[1..]| && ms[1..][j] == rest[k];
          assert KeyLt(ms[0], ms[j + 1]);
        }
      }
      StrictCons(ms[0], rest);
    }
  }

  lemma StrictCons(m: MatchedRule, ms: seq<MatchedRule>)
    requires StrictlyAscending(ms) && forall k :: 0 <= k < |ms| ==> KeyLt(m, ms[k])
    ensures StrictlyAscending([m] + ms)
  {
    forall a, b | 0 <= a < b < |ms| + 1 ensures KeyLt(([m] + ms)[a], ([m] + ms)[b]) {
      if a > 0 {
        assert ([m] + ms)[a] == ms[a - 1];
      }
    }
  }

  /** Two sequences with the same multiset hold the same elements. */
  lemma SameElements(a: seq<MatchedRule>, b: seq<MatchedRule>)
    requires multiset(a) == multiset(b)
    ensures forall m :: m in a <==> m in b
  {
    forall m ensures m in a <==> m in b {
      assert m in a <==> m in multiset(a);
      assert m in b <==> m in multiset(b);
    }
  }

  /** On entries in stylesheet order the sort is strict in (specificity,
      position): entries of equal specificity keep their stylesheet order. */
  lemma {:induction false} SortIsStable(ms: seq<MatchedRule>)
    requires IndicesIncreasing(ms)
    ensures StrictlyAscending(SortAscending(ms))
  {
    if ms != [] {
      var init := ms[..|ms| - 1];
      SortIsStable(init);
      var sorted := SortAscending(init);
      forall k | 0 <= k < |sorted|
        ensures sorted[k].index < ms[|ms| - 1].index
      {
        assert sorted[k] in multiset(sorted);
      }
      InsertKeepsKeyOrder(ms[|ms| - 1], sorted);
    }
  }

  // ---------------------------------------------------------------------------
  // The cascade: declarations inserted in order, the last insert winning

  /** The value of the last declaration of `name`. */
  function LastDeclared(decls: seq<Declaration>, name: string): (r: Option<Value>)
    ensures r.None? <==> forall i :: 0 <= i < |decls| ==> decls[i].name != name
    ensures r.Some? ==> exists i :: 0 <= i < |decls| && decls[i].name == name && decls[i].value == r.value &&
                                    forall j :: i < j < |decls| ==> decls[j].name != name
  {
    if decls == [] then None
    else if decls[|decls| - 1].name == name then Some(decls[|decls| - 1].value)
    else LastDeclared(decls[..|decls| - 1], name)
  }

  predicate Declares(m: MatchedRule, name: string)
  {
    LastDeclared(m.rule.declarations, name).Some?
  }

  /** Inserts the declarations into `values` one after the other. */
  function Apply(values: PropertyMap, decls: seq<Declaration>): (r: PropertyMap)
    ensures values.Keys <= r.Keys
  {
    if decls == [] then values
    else
      var d := decls[|decls| - 1];
      Apply(values, decls[..|decls| - 1])[d.name := d.value]
  }

  /** The declarations of every entry, applied in list order. */
  function Cascade(ms: seq<MatchedRule>): (r: PropertyMap)
  {
    if ms == [] then map[]
    else Apply(Cascade(ms[..|ms| - 1]), ms[|ms| - 1].rule.declarations)
  }

  /** The last entry that declares `name`. */
  function Winner(ms: seq<MatchedRule>, name: string): (r: Option<nat>)
    ensures r.Some? ==> r.value < |ms| && Declares(ms[r.value], name)
    ensures r.Some? ==> forall j :: r.value < j < |ms| ==> !Declares(ms[j], name)
    ensures r.None? ==> forall j :: 0 <= j < |ms| ==> !Declares(ms[j], name)
  {
    if ms == [] then None
    else if Declares(ms[|ms| - 1], name) then Some(|ms| - 1)
    else Winner(ms[..|ms| - 1], name)
  }

  /** Every entry that declares `name` is at or before the winner. */
  lemma WinnerIsLast(ms: seq<MatchedRule>, name: string, p: nat)
    requires p < |ms| && Declares(ms[p], name)
    ensures Winner(ms, name).Some? && p <= Winner(ms, name).value
  {
  }

  lemma {:induction false} ApplyLookup(values: PropertyMap, decls: seq<Declaration>, name: string)
    ensures LastDeclared(decls, name).Some? ==>
      name in Apply(values, decls) && Apply(values, decls)[name] == LastDeclared(decls, name).value
    ensures LastDeclared(decls, name).None? ==>
      (name in Apply(values, decls) <==> name in values) &&
      (name in values ==> Apply(values, decls)[name] == values[name])
  {
    if decls != [] {
      ApplyLookup(values, decls[..|decls| - 1], name);
    }
  }

  lemma {:induction false} CascadeLookup(ms: seq<MatchedRule>, name: string)
    ensures name in Cascade(ms) <==> Winner(ms, name).Some?
    ensures Winner(ms, name).Some? ==>
      Cascade(ms)[name] == LastDeclared(ms[Winner(ms, name).value].rule.declarations, name).value
  {
    if ms != [] {
      var init := ms[..|ms| - 1];
      CascadeLookup(init, name);
      ApplyLookup(Cascade(init), ms[|ms| - 1].rule.declarations, name);
      if !Declares(ms[|ms| - 1], name) {
        assert Winner(ms, name) == Winner(init, name);
        if Winner(init, name).Some? {
          assert ms[Winner(init, name).value] == init[Winner(init, name).value];
        }
      }
    }
  }

  /** `specified_values`: the cascade of the matching rules, sorted. */
  function SpecifiedValuesOf(elem: ElementData, sheet: Stylesheet): PropertyMap
  {
    Cascade(SortAscending(MatchingRules(elem, sheet)))
  }

  /** The cascade's outcome for one property: it is set exactly when some
      matching rule declares it, and then it holds that rule's last
      declaration of it, from the rule that is greatest by specificity and,
      among equal specificities, latest in the stylesheet. */
  lemma CascadeWinner(elem: ElementData, sheet: Stylesheet, name: string)
    ensures var ms := MatchingRules(elem, sheet);
      name in SpecifiedValuesOf(elem, sheet) <==> exists m :: m in ms && Declares(m, name)
    ensures var ms := MatchingRules(elem, sheet);
      name in SpecifiedValuesOf(elem, sheet) ==>
        exists m :: m in ms && Declares(m, name) &&
          SpecifiedValuesOf(elem, sheet)[name] == LastDeclared(m.rule.declarations, name).value &&
          forall m' :: m' in ms && m' != m && Declares(m', name) ==> KeyLt(m', m)
  {
    var ms := MatchingRules(elem, sheet);
    var sorted := SortAscending(ms);
    SortIsStable(ms);
    CascadeLookup(sorted, name);
    SameElements(sorted, ms);
    match Winner(sorted, name)
    case None =>
      forall m | m in ms ensures !Declares(m, name) {
        assert m in sorted;
        var p :| 0 <= p < |sorted| && sorted[p] == m;
      }
    case Some(w) =>
      var m := sorted[w];
      assert m in sorted;
      forall m' | m' in ms && m' != m && Declares(m', name)
        ensures KeyLt(m', m)
      {
        assert m' in sorted;
        var p :| 0 <= p < |sorted| && sorted[p] == m';
        WinnerIsLast(sorted, name, p);
        assert p != w;
        assert KeyLt(sorted[p], sorted[w]);
      }
      assert m in ms && Declares(m, name) &&
        SpecifiedValuesOf(elem, sheet)[name] == LastDeclared(m.rule.declarations, name).value;
  }

  /** `specified_values`: sorts the matching rules, then inserts their
      declarations one by one into a fresh map. */
  method SpecifiedValues(elem: ElementData, sheet: Stylesheet) returns (values: PropertyMap)
    ensures values == SpecifiedValuesOf(elem, sheet)
  {
    values := map[];
    var rules := MatchingRules(elem, sheet);
    rules := SortAscending(rules);
    for i := 0 to |rules|
      invariant values == Cascade(rules[..i])
    {
      assert rules[..i + 1][..i] == rules[..i];
      var decls := rules[i].rule.declarations;
      for j := 0 to |decls|
        invariant values == Apply(Cascade(rules[..i]), decls[..j])
      {
        assert decls[..j + 1][..j] == decls[..j];
        values := values[decls[j].name := decls[j].value];
      }
      assert decls[..|decls|] == decls;
    }
    assert rules[..|rules|] == rules;
  }

  // ---------------------------------------------------------------------------
  // The style tree

  /** `style_tree`: one styled node per document node, children in order. */
  function StyleTree(root: Node, sheet: Stylesheet): (r: StyledNode)
    ensures r.node == root && |r.children| == |root.children|
    decreases root
  {
    StyledNode(
      root,
      match root.data
      case Element(e) => SpecifiedValuesOf(e, sheet)
      case Text(_) => map[],
      seq(|root.children|, i requires 0 <= i < |root.children| => StyleTree(root.children[i], sheet)))
  }

  /** `sn` has the shape of `n` node for node: same children in the same
      order, text nodes without properties, elements with their cascade. */
  predicate Mirrors(sn: StyledNode, n: Node, sheet: Stylesheet)
    decreases n
  {
    sn.node == n && |sn.children| == |n.children| &&
    (n.data.Text? ==> sn.specifiedValues == map[]) &&
    (n.data.Element? ==> sn.specifiedValues == SpecifiedValuesOf(n.data.elem, sheet)) &&
    forall i :: 0 <= i < |n.children| ==> Mirrors(sn.children[i], n.children[i], sheet)
  }

  lemma {:induction false} StyleTreeMirrors(root: Node, sheet: Stylesheet)
    ensures Mirrors(StyleTree(root, sheet), root, sheet)
    decreases root
  {
    forall i | 0 <= i < |root.children|
      ensures Mirrors(StyleTree(root, sheet).children[i], root.children[i], sheet)
    {
      StyleTreeMirrors(root.children[i], sheet);
    }
  }
}
