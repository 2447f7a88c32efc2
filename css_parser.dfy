/** The stylesheet parser: a recursive-descent parser over a cursor.

    The functions ending in `At`/`From` give the meaning of each parsing
    step as a pure function of the input and the starting position; the
    methods of `Parser` advance the cursor field step by step, as the
    source does, and are proved to agree with them. A panic of the source
    (a failed assertion, an unwrap of nothing) is a `Failed` outcome. */
module CssParser {
  import opened Wrappers
  import opened Chars
  import opened Css

  // ---------------------------------------------------------------------------
  // Numbers

  function DigitValue(c: char): (d: nat)
    requires IsAsciiDigit(c)
    ensures d < 10
  {
    c as int - '0' as int
  }

  /** The natural number written in decimal by `ds`. */
  function Natural(ds: string): nat
    requires forall i :: 0 <= i < |ds| ==> IsAsciiDigit(ds[i])
  {
    if ds == [] then 0 else 10 * Natural(ds[..|ds| - 1]) + DigitValue(ds[|ds| - 1])
  }

  function Pow10(n: nat): (r: real)
    ensures r >= 1.0
  {
    if n == 0 then 1.0 else 10.0 * Pow10(n - 1)
  }

  /** Rust's `str::parse::<f64>` on a string of digits and dots, exactly:
      an integer part, then at most one `.` and a fraction; "." alone and a
      second `.` are errors. Rounding to binary64 is not modelled. */
  function DecimalValue(t: string): (r: Option<real>)
    requires forall i :: 0 <= i < |t| ==> IsFloatChar(t[i])
    ensures r.Some? ==> r.value >= 0.0
  {
    var k := SpanEnd(t, 0, Digit);
    SpanEndRun(t, 0, Digit);
    if t == [] then None
    else if k == |t| then Some(Natural(t) as real)
    else
      var frac := t[k + 1..];
      SpanEndRun(frac, 0, Digit);
      if SpanEnd(frac, 0, Digit) < |frac| || (k == 0 && frac == []) then None
      else Some(Natural(t[..k]) as real + Natural(frac) as real / Pow10(|frac|))
  }

  /** A string of digits and dots has a value exactly when it is neither
      empty nor "." and holds at most one dot. */
  lemma DecimalValueDefined(t: string)
    requires forall i :: 0 <= i < |t| ==> IsFloatChar(t[i])
    ensures DecimalValue(t).Some? <==>
              |t| > 0 && t != "." && (forall i, j :: 0 <= i < j < |t| && t[i] == '.' ==> t[j] != '.')
  {
    var k := SpanEnd(t, 0, Digit);
    SpanEndRun(t, 0, Digit);
    if t != [] && k < |t| {
      assert IsFloatChar(t[k]) && !IsAsciiDigit(t[k]);
      var frac := t[k + 1..];
      var second := SpanEnd(frac, 0, Digit);
      SpanEndRun(frac, 0, Digit);
      if second < |frac| {
        assert IsFloatChar(frac[second]) && !IsAsciiDigit(frac[second]);
        assert t[k + 1 + second] == frac[second] == '.';
      } else if k == 0 && frac == [] {
        assert t == ".";
      } else {
        forall i | 0 <= i < |t| && i != k ensures t[i] != '.' {
          if i > k { assert t[i] == frac[i - k - 1]; }
        }
      }
    }
  }

  /** The value of a hexadecimal digit of either case. */
  function HexDigit(c: char): (r: Option<nat>)
    ensures r.Some? ==> r.value < 16
  {
    if '0' <= c <= '9' then Some(c as int - '0' as int)
    else if 'a' <= c <= 'f' then Some(c as int - 'a' as int + 10)
    else if 'A' <= c <= 'F' then Some(c as int - 'A' as int + 10)
    else None
  }

  /** Rust's `u8::from_str_radix(s, 16)` on a two-character string: two hex
      digits, or a `+` sign followed by one hex digit. */
  function HexByte(c0: char, c1: char): (r: Option<Byte>)
    ensures HexDigit(c0).Some? && HexDigit(c1).Some? ==>
              r == Some((16 * HexDigit(c0).value + HexDigit(c1).value) as Byte)
    ensures c0 == '+' ==> r == (if HexDigit(c1).Some? then Some(HexDigit(c1).value as Byte) else None)
    ensures c0 != '+' && HexDigit(c0).None? ==> r.None?
    ensures c0 != '+' && HexDigit(c1).None? ==> r.None?
  {
    if c0 == '+' then
      (match HexDigit(c1)
       case Some(d) => Some(d as Byte)
       case None => None)
    else
      match (HexDigit(c0), HexDigit(c1))
      case (Some(d0), Some(d1)) => Some((16 * d0 + d1) as Byte)
      case _ => None
  }

  // ---------------------------------------------------------------------------
  // Specification of each parsing step

  function IdentEnd(s: string, pos: nat): (e: nat)
    requires pos <= |s|
    ensures pos <= e <= |s|
  {
    SpanEnd(s, pos, IdentChar)
  }

  const NoSelector := SimpleSelector(None, None, [])

  /** One turn of the loop of `parse_simple_selector` at `pos`: `#` reads
      an id, `.` appends a class, `*` is skipped, an identifier sets the
      tag; None for any other character, where the loop stops. */
  function SimpleSelectorStep(s: string, pos: nat, acc: SimpleSelector): (r: Option<(SimpleSelector, nat)>)
    requires pos < |s|
    ensures r.Some? ==> pos < r.value.1 <= |s|
  {
    if s[pos] == '#' then
      var e := IdentEnd(s, pos + 1);
      Some((acc.(id := Some(s[pos + 1..e])), e))
    else if s[pos] == '.' then
      var e := IdentEnd(s, pos + 1);
      Some((acc.(classes := acc.classes + [s[pos + 1..e]]), e))
    else if s[pos] == '*' then
      Some((acc, pos + 1))
    else if ValidIdentChar(s[pos]) then
      var e := IdentEnd(s, pos);
      Some((acc.(tagName := Some(s[pos..e])), e))
    else None
  }

  /** `parse_simple_selector`, continuing from the partial selector `acc`. */
  function SimpleSelectorFrom(s: string, pos: nat, acc: SimpleSelector): (r: (SimpleSelector, nat))
    requires pos <= |s|
    ensures pos <= r.1 <= |s|
    decreases |s| - pos
  {
    if pos == |s| then (acc, pos)
    else match SimpleSelectorStep(s, pos, acc)
      case None => (acc, pos)
      case Some((acc', next)) => SimpleSelectorFrom(s, next, acc')
  }

  /** The loop of `parse_selectors`, continuing after the selectors in
      `acc`: simple selectors separated by commas, up to a `{`. */
  function SelectorListFrom(s: string, pos: nat, acc: seq<Selector>): (r: Parsed<seq<Selector>>)
    requires pos <= |s|
    ensures r.Parsed? ==> pos <= r.next < |s|
    decreases |s| - pos
  {
    var sel := SimpleSelectorFrom(s, pos, NoSelector).0;
    var p2 := SkipWs(s, SimpleSelectorFrom(s, pos, NoSelector).1);
    if p2 == |s| then Failed
    else if s[p2] == ',' then SelectorListFrom(s, SkipWs(s, p2 + 1), acc + [Simple(sel)])
    else if s[p2] == '{' then Parsed(acc + [Simple(sel)], p2)
    else Failed
  }

  /** `parse_selectors`: the selector list, sorted by decreasing specificity. */
  function SelectorsAt(s: string, pos: nat): (r: Parsed<seq<Selector>>)
    requires pos <= |s|
    ensures r.Parsed? ==> pos <= r.next < |s|
  {
    match SelectorListFrom(s, pos, [])
    case Failed => Failed
    case Parsed(sels, p) => Parsed(SortBySpecificity(sels), p)
  }

  function FloatAt(s: string, pos: nat): (r: Parsed<real>)
    requires pos <= |s|
    ensures r.Parsed? ==> pos < r.next <= |s| && r.value >= 0.0
  {
    var e := SpanEnd(s, pos, FloatChar);
    SpanEndRun(s, pos, FloatChar);
    match DecimalValue(s[pos..e])
    case Some(f) => Parsed(f, e)
    case None => Failed
  }

  function UnitAt(s: string, pos: nat): (r: Parsed<Unit>)
    requires pos <= |s|
    ensures r.Parsed? ==> pos < r.next <= |s|
  {
    var e := IdentEnd(s, pos);
    if AsciiLowercase(s[pos..e]) == "px" then Parsed(Px, e) else Failed
  }

  function LengthAt(s: string, pos: nat): (r: Parsed<Value>)
    requires pos <= |s|
    ensures r.Parsed? ==> pos < r.next <= |s| && r.value.Length? && r.value.num >= 0.0
  {
    match FloatAt(s, pos)
    case Failed => Failed
    case Parsed(f, p) =>
      match UnitAt(s, p)
      case Failed => Failed
      case Parsed(u, q) => Parsed(Length(f, u), q)
  }

  function HexPairAt(s: string, pos: nat): (r: Parsed<Byte>)
    requires pos <= |s|
    ensures r.Parsed? ==> r.next == pos + 2 <= |s|
  {
    if pos + 2 > |s| then Failed
    else match HexByte(s[pos], s[pos + 1])
      case Some(b) => Parsed(b, pos + 2)
      case None => Failed
  }

  function ColorAt(s: string, pos: nat): (r: Parsed<Value>)
    requires pos <= |s|
    ensures r.Parsed? ==> r.next == pos + 7 <= |s| && r.value.Color? && r.value.color.a == 255
  {
    if pos == |s| || s[pos] != '#' then Failed
    else match HexPairAt(s, pos + 1)
      case Failed => Failed
      case Parsed(r, p1) =>
        match HexPairAt(s, p1)
        case Failed => Failed
        case Parsed(g, p2) =>
          match HexPairAt(s, p2)
          case Failed => Failed
          case Parsed(b, p3) => Parsed(Value.Color(Color.Color(r, g, b, 255)), p3)
  }

  /** `parse_value`: a length after a digit, a colour after `#`, otherwise
      a keyword (which never fails). */
  function ValueAt(s: string, pos: nat): (r: Parsed<Value>)
    requires pos <= |s|
    ensures r.Parsed? ==> pos <= r.next <= |s|
  {
    if pos == |s| then Failed
    else if IsAsciiDigit(s[pos]) then LengthAt(s, pos)
    else if s[pos] == '#' then ColorAt(s, pos)
    else
      var e := IdentEnd(s, pos);
      Parsed(Keyword(s[pos..e]), e)
  }

  /** `parse_declaration`: `name : value ;` with optional whitespace
      around the colon and before the semicolon. */
  function DeclarationAt(s: string, pos: nat): (r: Parsed<Declaration>)
    requires pos <= |s|
    ensures r.Parsed? ==> pos < r.next <= |s|
  {
    var e := IdentEnd(s, pos);
    var p := SkipWs(s, e);
    if p == |s| || s[p] != ':' then Failed
    else match ValueAt(s, SkipWs(s, p + 1))
      case Failed => Failed
      case Parsed(v, q) =>
        var q2 := SkipWs(s, q);
        if q2 == |s| || s[q2] != ';' then Failed
        else Parsed(Declaration(s[pos..e], v), q2 + 1)
  }

  /** The loop of `parse_declarations`, after the declarations in `acc`. */
  function DeclarationsFrom(s: string, pos: nat, acc: seq<Declaration>): (r: Parsed<seq<Declaration>>)
    requires pos <= |s|
    ensures r.Parsed? ==> pos < r.next <= |s|
    decreases |s| - pos
  {
    var p := SkipWs(s, pos);
    if p == |s| then Failed
    else if s[p] == '}' then Parsed(acc, p + 1)
    else match DeclarationAt(s, p)
      case Failed => Failed
      case Parsed(d, q) => DeclarationsFrom(s, q, acc + [d])
  }

  /** `parse_declarations`: a `{`, then declarations up to the closing `}`. */
  function DeclarationsAt(s: string, pos: nat): (r: Parsed<seq<Declaration>>)
    requires pos <= |s|
    ensures r.Parsed? ==> pos < r.next <= |s|
  {
    if pos == |s| || s[pos] != '{' then Failed else DeclarationsFrom(s, pos + 1, [])
  }

  function RuleAt(s: string, pos: nat): (r: Parsed<Rule>)
    requires pos <= |s|
    ensures r.Parsed? ==> pos < r.next <= |s|
  {
    match SelectorsAt(s, pos)
    case Failed => Failed
    case Parsed(sels, p) =>
      match DeclarationsAt(s, p)
      case Failed => Failed
      case Parsed(decls, q) => Parsed(Rule(sels, decls), q)
  }

  /** The loop of `parse_rules`, after the rules in `acc`. */
  function RulesFrom(s: string, pos: nat, acc: seq<Rule>): (r: Parsed<seq<Rule>>)
    requires pos <= |s|
    ensures r.Parsed? ==> r.next == |s|
    decreases |s| - pos
  {
    var p := SkipWs(s, pos);
    if p == |s| then Parsed(acc, p)
    else match RuleAt(s, p)
      case Failed => Failed
      case Parsed(rule, q) => RulesFrom(s, q, acc + [rule])
  }

  /** `parse`: the whole source as a stylesheet, or None where the source panics. */
  function StylesheetOf(source: string): Option<Stylesheet>
  {
    match RulesFrom(source, 0, [])
    case Parsed(rules, _) => Some(Stylesheet(rules))
    case Failed => None
  }

  // ---------------------------------------------------------------------------
  // Properties of the parsing steps

  /** The selector list ends at a `{` and adds at least one selector. */
  lemma {:induction false} SelectorListShape(s: string, pos: nat, acc: seq<Selector>)
    requires pos <= |s|
    ensures var r := SelectorListFrom(s, pos, acc);
      r.Parsed? ==> s[r.next] == '{' && |r.value| > |acc|
    decreases |s| - pos
  {
    var p2 := SkipWs(s, SimpleSelectorFrom(s, pos, NoSelector).1);
    if p2 < |s| && s[p2] == ',' {
      SelectorListShape(s, SkipWs(s, p2 + 1), acc + [Simple(SimpleSelectorFrom(s, pos, NoSelector).0)]);
    }
  }

  /** `parse_selectors` ends at a `{` and returns a non-empty list of
      selectors sorted by decreasing specificity. */
  lemma SelectorsShape(s: string, pos: nat)
    requires pos <= |s|
    ensures var r := SelectorsAt(s, pos);
      r.Parsed? ==> s[r.next] == '{' && SortedDescending(r.value) && |r.value| > 0
  {
    SelectorListShape(s, pos, []);
    var r := SelectorListFrom(s, pos, []);
    if r.Parsed? {
      assert |SortBySpecificity(r.value)| == |multiset(SortBySpecificity(r.value))| == |r.value|;
    }
  }

  /** A declaration is an identifier, then a colon after optional whitespace,
      and it ends just after a semicolon. */
  lemma DeclarationShape(s: string, pos: nat)
    requires pos <= |s|
    ensures var r := DeclarationAt(s, pos);
      r.Parsed? ==>
        r.value.name == s[pos..IdentEnd(s, pos)] &&
        SkipWs(s, IdentEnd(s, pos)) < |s| && s[SkipWs(s, IdentEnd(s, pos))] == ':' &&
        s[r.next - 1] == ';'
  {
  }

  /** The declaration loop stops just after a `}`. */
  lemma {:induction false} DeclarationsShape(s: string, pos: nat, acc: seq<Declaration>)
    requires pos <= |s|
    ensures var r := DeclarationsFrom(s, pos, acc);
      r.Parsed? ==> s[r.next - 1] == '}'
    decreases |s| - pos
  {
    var p := SkipWs(s, pos);
    if p < |s| && s[p] != '}' {
      match DeclarationAt(s, p)
      case Failed =>
      case Parsed(d, q) => DeclarationsShape(s, q, acc + [d]);
    }
  }

  /** A declaration block is enclosed in braces. */
  lemma DeclarationsAtShape(s: string, pos: nat)
    requires pos <= |s|
    ensures var r := DeclarationsAt(s, pos);
      r.Parsed? ==> s[pos] == '{' && s[r.next - 1] == '}'
  {
    if pos < |s| && s[pos] == '{' {
      DeclarationsShape(s, pos + 1, []);
    }
  }

  /** The unit is accepted exactly when the identifier is `px` in any
      mix of cases. */
  lemma UnitPx(s: string, pos: nat)
    requires pos <= |s|
    ensures UnitAt(s, pos).Parsed? <==>
      IdentEnd(s, pos) == pos + 2 && s[pos] in "pP" && s[pos + 1] in "xX"
  {
    var t := s[pos..IdentEnd(s, pos)];
    if |t| == 2 {
      assert AsciiLowercase(t) == [AsciiLower(t[0]), AsciiLower(t[1])] by {
        assert t[1..][1..] == [];
      }
    }
  }

  /** The first character decides the kind of value: a digit gives a
      non-negative `px` length, `#` a colour with alpha 255, and anything
      else a keyword made of identifier characters, which never fails. */
  lemma ValueKinds(s: string, pos: nat)
    requires pos < |s|
    ensures var r := ValueAt(s, pos);
      (IsAsciiDigit(s[pos]) ==> r.Parsed? ==> r.value.Length? && r.value.unit == Px && r.value.num >= 0.0) &&
      (s[pos] == '#' ==> r.Parsed? ==> r.next == pos + 7 && r.value.Color? && r.value.color.a == 255) &&
      (!IsAsciiDigit(s[pos]) && s[pos] != '#' ==>
        r.Parsed? && r.value.Keyword? && r.next == pos + |r.value.keyword| &&
        forall i :: 0 <= i < |r.value.keyword| ==> ValidIdentChar(r.value.keyword[i]))
  {
    SpanEndRun(s, pos, IdentChar);
  }

  /** One turn of the selector loop: what the rest of the list parses to, by the character after the selector. */
  lemma SelectorsTurn(s: string, pos: nat, acc: seq<Selector>, sel: SimpleSelector, p: nat)
    requires pos <= |s|
    requires SimpleSelectorFrom(s, pos, NoSelector).0 == sel
    requires p == SkipWs(s, SimpleSelectorFrom(s, pos, NoSelector).1)
    ensures p < |s| && s[p] == ',' ==> SelectorListFrom(s, pos, acc) == SelectorListFrom(s, SkipWs(s, p + 1), acc + [Simple(sel)])
    ensures p < |s| && s[p] == '{' ==> SelectorListFrom(s, pos, acc) == Parsed(acc + [Simple(sel)], p)
    ensures p == |s| || (s[p] != ',' && s[p] != '{') ==> SelectorListFrom(s, pos, acc) == Failed
  {
    var (sel', e) := SimpleSelectorFrom(s, pos, NoSelector);
    assert sel' == sel && SkipWs(s, e) == p;
    var rest := acc + [Simple(sel)];
    assert SelectorListFrom(s, pos, acc) ==
      if p == |s| then Failed
      else if s[p] == ',' then SelectorListFrom(s, SkipWs(s, p + 1), rest)
      else if s[p] == '{' then Parsed(rest, p)
      else Failed;
  }

  // ---------------------------------------------------------------------------
  // Sorting selectors by decreasing specificity (Rust's stable `sort_by`)

  predicate SortedDescending(sels: seq<Selector>)
  {
    forall i, j :: 0 <= i < j < |sels| ==> SpecLe(sels[j].Specificity(), sels[i].Specificity())
  }

  /** Inserts `x` after every element whose specificity is at least its own. */
  function InsertDescending(x: Selector, sels: seq<Selector>): (r: seq<Selector>)
    requires SortedDescending(sels)
    ensures SortedDescending(r)
    ensures multiset(r) == multiset(sels) + multiset{x}
    ensures forall y :: y in r ==> y == x || y in sels
  {
    if sels == [] then [x]
    else if SpecLe(x.Specificity(), sels[0].Specificity()) then
      var rest := InsertDescending(x, sels[1..]);
      assert sels == [sels[0]] + sels[1..];
      assert forall k :: 0 <= k < |rest| ==> rest[k] == x || rest[k] in sels[1..];
      [sels[0]] + rest
    else [x] + sels
  }

  /** The selectors, stably sorted from the highest specificity down:
      `InsertDescending` puts each selector after every one of equal or
      higher specificity, so input order is kept among equal ones. */
  function SortBySpecificity(sels: seq<Selector>): (r: seq<Selector>)
    ensures SortedDescending(r)
    ensures multiset(r) == multiset(sels)
  {
    if sels == [] then []
    else
      assert sels == sels[..|sels| - 1] + [sels[|sels| - 1]];
      InsertDescending(sels[|sels| - 1], SortBySpecificity(sels[..|sels| - 1]))
  }

  // ---------------------------------------------------------------------------
  // The parser, advancing its cursor in place

  class Parser {
    const input: string
    var pos: nat

    ghost predicate Valid()
      reads this
    {
      pos <= |input|
    }

    constructor (input: string)
      ensures this.input == input && pos == 0 && Valid()
    {
      this.input := input;
      pos := 0;
    }

    function Eof(): (b: bool)
      reads this
      ensures b <==> pos >= |input|
    {
      pos >= |input|
    }

    /** The current character; the source panics at the end of input,
        where this is not defined. It decides whether the whitespace and
        identifier runs starting here are empty. */
    function NextChar(): (c: char)
      reads this
      requires pos < |input|
      ensures c == input[pos]
      ensures IsWhitespace(c) <==> SkipWs(input, pos) > pos
      ensures ValidIdentChar(c) <==> IdentEnd(input, pos) > pos
    {
      input[pos]
    }

    method ConsumeChar() returns (c: char)
      requires pos < |input|
      modifies this
      ensures pos == old(pos) + 1 && c == input[old(pos)]
    {
      c := input[pos];
      pos := pos + 1;
    }

    /** Consumes and returns the maximal run of characters satisfying `test`. */
    method ConsumeWhile(test: CharClass) returns (r: string)
      requires Valid()
      modifies this
      ensures Valid() && pos == SpanEnd(input, old(pos), test)
      ensures r == input[old(pos)..pos]
    {
      r := [];
      while !Eof() && In(NextChar(), test)
        invariant old(pos) <= pos <= |input|
        invariant r == input[old(pos)..pos]
        invariant SpanEnd(input, pos, test) == SpanEnd(input, old(pos), test)
        decreases |input| - pos
      {
        var c := ConsumeChar();
        r := r + [c];
      }
    }

    method ConsumeWhitespace()
      requires Valid()
      modifies this
      ensures Valid() && pos == SkipWs(input, old(pos))
    {
      var _ := ConsumeWhile(Whitespace);
    }

    method ParseIdentifier() returns (r: string)
      requires Valid()
      modifies this
      ensures Valid() && pos == IdentEnd(input, old(pos)) && r == input[old(pos)..pos]
    {
      r := ConsumeWhile(IdentChar);
    }

    method ParseRules() returns (r: Option<seq<Rule>>)
      requires Valid()
      modifies this
      ensures Valid() && Outcome(r, pos) == RulesFrom(input, old(pos), [])
    {
      var rules := [];
      while true
        invariant Valid() && RulesFrom(input, pos, rules) == RulesFrom(input, old(pos), [])
        decreases |input| - pos
      {
        ConsumeWhitespace();
        if Eof() {
          return Some(rules);
        }
        var rule := ParseRule();
        if rule.None? {
          return None;
        }
        rules := rules + [rule.value];
      }
    }

    method ParseRule() returns (r: Option<Rule>)
      requires Valid()
      modifies this
      ensures Valid() && Outcome(r, pos) == RuleAt(input, old(pos))
    {
      var selectors := ParseSelectors();
      if selectors.None? {
        return None;
      }
      var declarations := ParseDeclarations();
      if declarations.None? {
        return None;
      }
      r := Some(Rule(selectors.value, declarations.value));
    }

    method ParseSelectors() returns (r: Option<seq<Selector>>)
      requires Valid()
      modifies this
      ensures Valid() && Outcome(r, pos) == SelectorsAt(input, old(pos))
    {
      var selectors := [];
      while true
        invariant Valid() && SelectorListFrom(input, pos, selectors) == SelectorListFrom(input, old(pos), [])
        decreases |input| - pos
      {
        ghost var start, before := pos, selectors;
        var selector := ParseSimpleSelector();
        ConsumeWhitespace();
        SelectorsTurn(input, start, before, selector, pos);
        selectors := selectors + [Simple(selector)];
        if Eof() {
          return None;
        }
        var c := NextChar();
        if c == ',' {
          c := ConsumeChar();
          ConsumeWhitespace();
        } else if c == '{' {
          break;
        } else {
          return None;
        }
      }
      return Some(SortBySpecificity(selectors));
    }

    method ParseSimpleSelector() returns (selector: SimpleSelector)
      requires Valid()
      modifies this
      ensures Valid() && (selector, pos) == SimpleSelectorFrom(input, old(pos), NoSelector)
    {
      selector := NoSelector;
      while !Eof()
        invariant Valid() && old(pos) <= pos
        invariant SimpleSelectorFrom(input, pos, selector) == SimpleSelectorFrom(input, old(pos), NoSelector)
        decreases |input| - pos
      {
        var c := NextChar();
        if c == '#' {
          c := ConsumeChar();
          var id := ParseIdentifier();
          selector := selector.(id := Some(id));
        } else if c == '.' {
          c := ConsumeChar();
          var className := ParseIdentifier();
          selector := selector.(classes := selector.classes + [className]);
        } else if c == '*' {
          c := ConsumeChar();
        } else if ValidIdentChar(c) {
          var tag := ParseIdentifier();
          selector := selector.(tagName := Some(tag));
        } else {
          break;
        }
      }
    }

    method ParseDeclarations() returns (r: Option<seq<Declaration>>)
      requires Valid()
      modifies this
      ensures Valid() && Outcome(r, pos) == DeclarationsAt(input, old(pos))
    {
      if Eof() {
        return None;
      }
      var c := ConsumeChar();
      if c != '{' {
        return None;
      }
      var declarations := [];
      while true
        invariant Valid()
        invariant DeclarationsFrom(input, pos, declarations) == DeclarationsAt(input, old(pos))
        decreases |input| - pos
      {
        ConsumeWhitespace();
        if Eof() {
          return None;
        }
        if NextChar() == '}' {
          c := ConsumeChar();
          return Some(declarations);
        }
        var declaration := ParseDeclaration();
        if declaration.None? {
          return None;
        }
        declarations := declarations + [declaration.value];
      }
    }

    method ParseDeclaration() returns (r: Option<Declaration>)
      requires Valid()
      modifies this
      ensures Valid() && Outcome(r, pos) == DeclarationAt(input, old(pos))
    {
      ghost var start := pos;
      var name := ParseIdentifier();
      ConsumeWhitespace();
      if Eof() {
        return None;
      }
      var c := ConsumeChar();
      if c != ':' {
        return None;
      }
      ConsumeWhitespace();
      ghost var valueStart := pos;
      var value := ParseValue();
      if value.None? {
        assert ValueAt(input, valueStart).Failed?;
        return None;
      }
      ConsumeWhitespace();
      if Eof() {
        return None;
      }
      c := ConsumeChar();
      if c != ';' {
        return None;
      }
      r := Some(Declaration(name, value.value));
      assert DeclarationAt(input, start) == Parsed(Declaration(name, value.value), pos);
    }

    method ParseValue() returns (r: Option<Value>)
      requires Valid()
      modifies this
      ensures Valid() && Outcome(r, pos) == ValueAt(input, old(pos))
    {
      if Eof() {
        return None;
      }
      var c := NextChar();
      if IsAsciiDigit(c) {
        r := ParseLength();
      } else if c == '#' {
        r := ParseColor();
      } else {
        var keyword := ParseIdentifier();
        r := Some(Keyword(keyword));
      }
    }

    method ParseLength() returns (r: Option<Value>)
      requires Valid()
      modifies this
      ensures Valid() && Outcome(r, pos) == LengthAt(input, old(pos))
    {
      var f := ParseFloat();
      if f.None? {
        return None;
      }
      var unit := ParseUnit();
      if unit.None? {
        return None;
      }
      r := Some(Length(f.value, unit.value));
    }

    method ParseFloat() returns (r: Option<real>)
      requires Valid()
      modifies this
      ensures Valid() && Outcome(r, pos) == FloatAt(input, old(pos))
    {
      ghost var start := pos;
      var digits := ConsumeWhile(FloatChar);
      SpanEndRun(input, start, FloatChar);
      r := DecimalValue(digits);
    }

    method ParseUnit() returns (r: Option<Unit>)
      requires Valid()
      modifies this
      ensures Valid() && Outcome(r, pos) == UnitAt(input, old(pos))
    {
      var name := ParseIdentifier();
      if AsciiLowercase(name) == "px" {
        r := Some(Px);
      } else {
        r := None;
      }
    }

    method ParseColor() returns (r: Option<Value>)
      requires Valid()
      modifies this
      ensures Valid() && Outcome(r, pos) == ColorAt(input, old(pos))
    {
      if Eof() {
        return None;
      }
      var c := ConsumeChar();
      if c != '#' {
        return None;
      }
      var red := ParseHexPair();
      if red.None? {
        return None;
      }
      var green := ParseHexPair();
      if green.None? {
        return None;
      }
      var blue := ParseHexPair();
      if blue.None? {
        return None;
      }
      r := Some(Value.Color(Color.Color(red.value, green.value, blue.value, 255)));
    }

    method ParseHexPair() returns (r: Option<Byte>)
      requires Valid()
      modifies this
      ensures Valid() && Outcome(r, pos) == HexPairAt(input, old(pos))
    {
      if pos + 2 > |input| {
        return None;
      }
      var c0, c1 := input[pos], input[pos + 1];
      pos := pos + 2;
      r := HexByte(c0, c1);
    }
  }

  /** `parse`: the stylesheet written in `source`, or None where the source panics. */
  method Parse(source: string) returns (r: Option<Stylesheet>)
    ensures r == StylesheetOf(source)
  {
    var parser := new Parser(source);
    var rules := parser.ParseRules();
    r := if rules.Some? then Some(Stylesheet(rules.value)) else None;
  }
}
