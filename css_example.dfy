/** The stylesheet of the parser's unit test, parsed step by step. */
module CssExample {
  import opened Wrappers
  import opened Chars
  import opened Css
  import opened CssParser

  /** The source text of the test, character by character, in six parts
      of thirteen characters. */
  predicate Text0(s: string)
  {
    |s| == 78
    && s[0] == 'd' && s[1] == 'i' && s[2] == 'v' && s[3] == ' ' && s[4] == '{' && s[5] == ' ' && s[6] == 'w'
    && s[7] == 'i' && s[8] == 'd' && s[9] == 't' && s[10] == 'h' && s[11] == ':' && s[12] == ' '
  }

  predicate Text1(s: string)
  {
    |s| == 78
    && s[13] == '1' && s[14] == '0' && s[15] == '0' && s[16] == 'p' && s[17] == 'x' && s[18] == ';' && s[19] == ' '
    && s[20] == 'h' && s[21] == 'e' && s[22] == 'i' && s[23] == 'g' && s[24] == 'h' && s[25] == 't'
  }

  predicate Text2(s: string)
  {
    |s| == 78
    && s[26] == ':' && s[27] == ' ' && s[28] == '5' && s[29] == '0' && s[30] == 'p' && s[31] == 'x' && s[32] == ';'
    && s[33] == ' ' && s[34] == 'c' && s[35] == 'o' && s[36] == 'l' && s[37] == 'o' && s[38] == 'r'
  }

  predicate Text3(s: string)
  {
    |s| == 78
    && s[39] == ':' && s[40] == ' ' && s[41] == '#' && s[42] == 'f' && s[43] == 'f' && s[44] == 'f' && s[45] == 'f'
    && s[46] == 'f' && s[47] == 'f' && s[48] == ';' && s[49] == ' ' && s[50] == 'b' && s[51] == 'a'
  }

  predicate Text4(s: string)
  {
    |s| == 78
    && s[52] == 'c' && s[53] == 'k' && s[54] == 'g' && s[55] == 'r' && s[56] == 'o' && s[57] == 'u' && s[58] == 'n'
    && s[59] == 'd' && s[60] == '-' && s[61] == 'c' && s[62] == 'o' && s[63] == 'l' && s[64] == 'o'
  }

  predicate Text5(s: string)
  {
    |s| == 78
    && s[65] == 'r' && s[66] == ':' && s[67] == ' ' && s[68] == '#' && s[69] == '0' && s[70] == '0' && s[71] == '3'
    && s[72] == '3' && s[73] == '0' && s[74] == '0' && s[75] == ';' && s[76] == ' ' && s[77] == '}'
  }

  predicate IsExample(s: string)
  {
    Text0(s) && Text1(s) && Text2(s) && Text3(s) && Text4(s) && Text5(s)
  }

  const Div := SimpleSelector(Some("div"), None, [])

  const W := Declaration("width", Length(100.0, Px))
  const H := Declaration("height", Length(50.0, Px))
  const C := Declaration("color", Value.Color(Color.Color(255, 255, 255, 255)))
  const B := Declaration("background-color", Value.Color(Color.Color(0, 0x33, 0, 255)))

  /** The stylesheet the test expects. */
  const Expected := Stylesheet([Rule([Simple(Div)], [W, H, C, B])])

  /** One declaration, given the positions of its tokens. */
  lemma DeclarationStep(s: string, pos: nat, e: nat, colon: nat, v: Value, q: nat)
    requires pos <= |s| && IdentEnd(s, pos) == e
    requires SkipWs(s, e) == colon < |s| && s[colon] == ':'
    requires ValueAt(s, SkipWs(s, colon + 1)) == Parsed(v, q)
    requires SkipWs(s, q) == q < |s| && s[q] == ';'
    ensures DeclarationAt(s, pos) == Parsed(Declaration(s[pos..e], v), q + 1)
  {
  }

  /** A `px` length, given the end of its number and of its unit. */
  lemma LengthStep(s: string, pos: nat, e: nat, f: real, u: nat)
    requires pos < |s| && IsAsciiDigit(s[pos])
    requires FloatAt(s, pos) == Parsed(f, e)
    requires IdentEnd(s, e) == u && AsciiLowercase(s[e..u]) == "px"
    ensures ValueAt(s, pos) == Parsed(Length(f, Px), u)
  {
  }

  /** A `#rrggbb` colour. */
  lemma ColorStep(s: string, pos: nat, r: Byte, g: Byte, b: Byte)
    requires pos + 7 <= |s| && s[pos] == '#'
    requires HexByte(s[pos + 1], s[pos + 2]) == Some(r)
    requires HexByte(s[pos + 3], s[pos + 4]) == Some(g)
    requires HexByte(s[pos + 5], s[pos + 6]) == Some(b)
    ensures ValueAt(s, pos) == Parsed(Value.Color(Color.Color(r, g, b, 255)), pos + 7)
  {
  }

  lemma Selectors(s: string)
    requires Text0(s)
    ensures SelectorListFrom(s, 0, []) == Parsed([Simple(Div)], 4)
  {
    assert IdentEnd(s, 0) == 3 by { SpanEndUnique(s, 0, IdentChar, 3); }
    assert s[0..3] == "div";
    assert SimpleSelectorStep(s, 0, NoSelector) == Some((Div, 3));
    assert SimpleSelectorStep(s, 3, Div) == None;
    assert SimpleSelectorFrom(s, 0, NoSelector) == SimpleSelectorFrom(s, 3, Div) == (Div, 3);
    assert SkipWs(s, 3) == 4 by { SpanEndUnique(s, 3, Whitespace, 4); }
    assert [] + [Simple(Div)] == [Simple(Div)];
  }

  lemma Numbers()
    ensures DecimalValue("100") == Some(100.0)
    ensures DecimalValue("50") == Some(50.0)
  {
    assert "100"[..2] == "10" && "10"[..1] == "1" && "1"[..0] == "";
    assert "50"[..1] == "5" && "5"[..0] == "";
    SpanEndUnique("100", 0, Digit, 3);
    SpanEndUnique("50", 0, Digit, 2);
  }

  lemma WidthValue(s: string)
    requires IsExample(s)
    ensures ValueAt(s, 13) == Parsed(Length(100.0, Px), 18)
  {
    SpanEndUnique(s, 13, FloatChar, 16);
    assert s[13..16] == "100";
    Numbers();
    SpanEndUnique(s, 16, IdentChar, 18);
    assert s[16..18] == "px";
    LengthStep(s, 13, 16, 100.0, 18);
  }

  lemma Width(s: string)
    requires IsExample(s)
    ensures DeclarationAt(s, 6) == Parsed(W, 19)
  {
    WidthValue(s);
    SpanEndUnique(s, 6, IdentChar, 11);
    SpanEndUnique(s, 11, Whitespace, 11);
    SpanEndUnique(s, 12, Whitespace, 13);
    SpanEndUnique(s, 18, Whitespace, 18);
    assert s[6..11] == "width";
    DeclarationStep(s, 6, 11, 11, Length(100.0, Px), 18);
  }

  lemma HeightValue(s: string)
    requires IsExample(s)
    ensures ValueAt(s, 28) == Parsed(Length(50.0, Px), 32)
  {
    SpanEndUnique(s, 28, FloatChar, 30);
    assert s[28..30] == "50";
    Numbers();
    SpanEndUnique(s, 30, IdentChar, 32);
    assert s[30..32] == "px";
    LengthStep(s, 28, 30, 50.0, 32);
  }

  lemma Height(s: string)
    requires IsExample(s)
    ensures DeclarationAt(s, 20) == Parsed(H, 33)
  {
    HeightValue(s);
    SpanEndUnique(s, 20, IdentChar, 26);
    SpanEndUnique(s, 26, Whitespace, 26);
    SpanEndUnique(s, 27, Whitespace, 28);
    SpanEndUnique(s, 32, Whitespace, 32);
    assert s[20..26] == "height";
    DeclarationStep(s, 20, 26, 26, Length(50.0, Px), 32);
  }

  lemma ColorDeclaration(s: string)
    requires IsExample(s)
    ensures DeclarationAt(s, 34) == Parsed(C, 49)
  {
    assert HexByte('f', 'f') == Some(255);
    ColorStep(s, 41, 255, 255, 255);
    SpanEndUnique(s, 34, IdentChar, 39);
    SpanEndUnique(s, 39, Whitespace, 39);
    SpanEndUnique(s, 40, Whitespace, 41);
    SpanEndUnique(s, 48, Whitespace, 48);
    assert s[34..39] == "color";
    DeclarationStep(s, 34, 39, 39, Value.Color(Color.Color(255, 255, 255, 255)), 48);
  }

  lemma BackgroundDeclaration(s: string)
    requires IsExample(s)
    ensures DeclarationAt(s, 50) == Parsed(B, 76)
  {
    assert HexByte('0', '0') == Some(0);
    assert HexByte('3', '3') == Some(0x33);
    ColorStep(s, 68, 0, 0x33, 0);
    SpanEndUnique(s, 50, IdentChar, 66);
    SpanEndUnique(s, 66, Whitespace, 66);
    SpanEndUnique(s, 67, Whitespace, 68);
    SpanEndUnique(s, 75, Whitespace, 75);
    assert s[50..66] == "background-color";
    DeclarationStep(s, 50, 66, 66, Value.Color(Color.Color(0, 0x33, 0, 255)), 75);
  }

  /** One turn of the declaration loop. */
  lemma DeclarationsStep(s: string, pos: nat, acc: seq<Declaration>, p: nat, d: Declaration, q: nat)
    requires pos <= |s| && SkipWs(s, pos) == p < |s| && s[p] != '}'
    requires DeclarationAt(s, p) == Parsed(d, q)
    ensures DeclarationsFrom(s, pos, acc) == DeclarationsFrom(s, q, acc + [d])
  {
  }

  /** The last turn of the declaration loop, at the closing brace. */
  lemma DeclarationsEnd(s: string, pos: nat, acc: seq<Declaration>, p: nat)
    requires pos <= |s| && SkipWs(s, pos) == p < |s| && s[p] == '}'
    ensures DeclarationsFrom(s, pos, acc) == Parsed(acc, p + 1)
  {
  }

  /** The whitespace between the tokens of the example. */
  lemma Gaps(s: string)
    requires IsExample(s)
    ensures SkipWs(s, 5) == 6 && SkipWs(s, 19) == 20 && SkipWs(s, 33) == 34
    ensures SkipWs(s, 49) == 50 && SkipWs(s, 76) == 77
  {
    SpanEndUnique(s, 5, Whitespace, 6);
    SpanEndUnique(s, 19, Whitespace, 20);
    SpanEndUnique(s, 33, Whitespace, 34);
    SpanEndUnique(s, 49, Whitespace, 50);
    SpanEndUnique(s, 76, Whitespace, 77);
  }

  /** The declaration loop of the example, from the token positions. */
  lemma DeclarationLoop(s: string)
    requires |s| == 78 && s[4] == '{' && s[77] == '}'
    requires s[6] == 'w' && s[20] == 'h' && s[34] == 'c' && s[50] == 'b'
    requires SkipWs(s, 5) == 6 && SkipWs(s, 19) == 20 && SkipWs(s, 33) == 34
    requires SkipWs(s, 49) == 50 && SkipWs(s, 76) == 77
    requires DeclarationAt(s, 6) == Parsed(W, 19) && DeclarationAt(s, 20) == Parsed(H, 33)
    requires DeclarationAt(s, 34) == Parsed(C, 49) && DeclarationAt(s, 50) == Parsed(B, 76)
    ensures DeclarationsAt(s, 4) == Parsed([W, H, C, B], 78)
  {
    DeclarationsStep(s, 5, [], 6, W, 19);
    assert [] + [W] == [W];
    DeclarationsStep(s, 19, [W], 20, H, 33);
    assert [W] + [H] == [W, H];
    DeclarationsStep(s, 33, [W, H], 34, C, 49);
    assert [W, H] + [C] == [W, H, C];
    DeclarationsStep(s, 49, [W, H, C], 50, B, 76);
    assert [W, H, C] + [B] == [W, H, C, B];
    DeclarationsEnd(s, 76, [W, H, C, B], 77);
  }

  lemma TheRule(s: string)
    requires IsExample(s)
    ensures RuleAt(s, 0) == Parsed(Rule([Simple(Div)], [W, H, C, B]), 78)
  {
    Selectors(s);
    assert SortBySpecificity([Simple(Div)]) == [Simple(Div)];
    Width(s);
    Height(s);
    ColorDeclaration(s);
    BackgroundDeclaration(s);
    Gaps(s);
    DeclarationLoop(s);
  }

  /** A source that is a single rule with no surrounding whitespace. */
  lemma SingleRule(s: string, rule: Rule)
    requires |s| > 0 && !IsWhitespace(s[0]) && RuleAt(s, 0) == Parsed(rule, |s|)
    ensures StylesheetOf(s) == Some(Stylesheet([rule]))
  {
    SpanEndUnique(s, 0, Whitespace, 0);
    assert [] + [rule] == [rule];
    assert RulesFrom(s, 0, []) == RulesFrom(s, |s|, [] + [rule]);
  }

  lemma LiteralText0(s: string)
    requires s == "div { " + "width: 100px; " + "height: 50px; " + "color: #ffffff; " + "background-color: #003300; " + "}"
    ensures Text0(s)
  {
  }

  lemma LiteralText1(s: string)
    requires s == "div { " + "width: 100px; " + "height: 50px; " + "color: #ffffff; " + "background-color: #003300; " + "}"
    ensures Text1(s)
  {
  }

  lemma LiteralText2(s: string)
    requires s == "div { " + "width: 100px; " + "height: 50px; " + "color: #ffffff; " + "background-color: #003300; " + "}"
    ensures Text2(s)
  {
  }

  lemma LiteralText3(s: string)
    requires s == "div { " + "width: 100px; " + "height: 50px; " + "color: #ffffff; " + "background-color: #003300; " + "}"
    ensures Text3(s)
  {
  }

  lemma LiteralText4(s: string)
    requires s == "div { " + "width: 100px; " + "height: 50px; " + "color: #ffffff; " + "background-color: #003300; " + "}"
    ensures Text4(s)
  {
  }

  lemma LiteralText5(s: string)
    requires s == "div { " + "width: 100px; " + "height: 50px; " + "color: #ffffff; " + "background-color: #003300; " + "}"
    ensures Text5(s)
  {
  }

  /** The unit test of the stylesheet parser: the source parses to exactly
      the expected stylesheet. */
  lemma ParseExample(s: string)
    requires s == "div { " + "width: 100px; " + "height: 50px; " + "color: #ffffff; " + "background-color: #003300; " + "}"
    ensures StylesheetOf(s) == Some(Expected)
  {
    LiteralText0(s);
    LiteralText1(s);
    LiteralText2(s);
    LiteralText3(s);
    LiteralText4(s);
    LiteralText5(s);
    TheRule(s);
    SingleRule(s, Expected.rules[0]);
  }
}
