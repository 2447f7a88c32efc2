# A toy browser engine, modelled in Dafny

This project models the rendering pipeline of a small browser engine
written in Rust. An HTML parser turns markup into a DOM tree. A CSS
parser turns a stylesheet into rules. The style pass matches the rules
against each element and cascades their declarations into a styled
tree. The layout pass builds a box tree and computes every box's
dimensions under the block and inline formatting rules. The painter
flattens the box tree into a display list and fills a pixel canvas
from it.

Each source file becomes one module:

| module | file | models |
|---|---|---|
| `Wrappers` | `wrappers.dfy` | `Option` and the parsers' `Parsed` result |
| `Chars` | `chars.dfy` | character classes and the maximal run that `consume_while` takes |
| `Css` | `css.dfy` | stylesheet data, `to_px`, specificity |
| `Dom` | `dom.dfy` | DOM nodes, `id()` and `classes()` |
| `CssParser` | `css_parser.dfy` | the CSS parser |
| `CssExample` | `css_example.dfy` | the CSS parser's unit test, proved |
| `HtmlParser` | `html_parser.dfy` | the HTML parser |
| `Style` | `style.dfy` | selector matching, the cascade and the style tree |
| `Layout` | `layout.dfy` | the layout tree and the layout algorithm |
| `Painter` | `painter.dfy` | display list and canvas |
| `Seqs` | `seqs.dfy` | small facts about sequence concatenation and slicing, used by the proofs |

How the model is built:

- **Parsers.** Both parsers are classes `Parser { const input; var pos }`. Their methods move the cursor the way the Rust methods do. Each method is proved equal to a pure function of `(input, old(pos))` that gives the value and the new position, or `Failed`. The properties are lemmas about those functions. A Rust `panic!` or `assert!` on malformed input becomes `Failed`, and the parse returns `None`.
- **Style, layout and display list.** The style tree, the layout boxes and the display list are values. Each Rust function that mutates a `LayoutBox` or pushes onto the display list becomes a method. The method returns the updated box or list and is proved equal to a specification function.
- **Canvas.** The canvas is a class over a pixel `array`. It is filled in place by nested loops, proved against a per-pixel specification.
- **Split functions.** Two Rust functions are each modelled as two methods. `calculate_block_width` becomes `CalculateBlockWidth`, which does the style lookups, and `SolveBlockWidth`, which does the arithmetic on the seven values. The command loop of `paint` becomes the canvas method `PaintDisplayList`.
- **Display list.** The display list of a box tree is a pre-order walk, `Walk`, that takes the per-box commands as a function parameter. Facts about the order of the walk are proved once for any per-box commands and then used with the painter's own commands.
- **Height of an expanded box.** Every other edge expansion adds the edges, but `expanded_by` (`src/layout.rs:310`) computes the height as `height + top * bottom`. The model follows the code. `Layout.MarginBoxCanEndAboveBorderBox` shows one consequence: a margin box that ends above its border box.

## Model

| member | source | states |
|---|---|---|
| Chars.SpanEndRun | src/css.rs:279-288 | every character `consume_while` takes passes the test, and the character it stops at (if any) fails it |
| Chars.SpanEndUnique | src/html.rs:119-128 | the end of the consumed run is the only position with both properties, so the run is maximal and determined |
| Chars.Utf8Length | src/layout.rs:227 | `str::len` of a text counts UTF-8 bytes: at least one and at most four per character |
| Chars.AsciiLowercase | src/css.rs:249 | ASCII lowercasing keeps the identifier's length (used by `CssParser.UnitPx`) |
| Chars.ValidIdentChar | src/css.rs:119-121 | an identifier character (alphanumeric, `-` or `_`) is never whitespace nor one of `# . * , { } : ;`, so an identifier stops before every delimiter |
| Css.Value.ToPx | src/css.rs:52-59 | a length gives its number; every keyword and colour gives 0 |
| Css.Selector.Specificity | src/css.rs:61-72 | the triple (1 if an id is given, number of classes, 1 if a tag is given) |
| Dom.Node.Text | src/dom.rs:25-30 | a text node holds the text and has no children |
| Dom.Node.Elem | src/dom.rs:32-42 | an element node holds the tag name, the attributes and the children as given |
| Dom.ElementData.Id | src/dom.rs:48-50 | `Some` exactly when there is an `id` attribute, and then its value |
| Dom.ElementData.Classes | src/dom.rs:52-57 | empty without a `class` attribute; otherwise exactly the pieces of the attribute split at single spaces, none containing a space |
| Dom.Split | src/dom.rs:54 | at least one piece, no piece holds the separator, and joining the pieces with the separator gives back the string |
| CssParser.DecimalValue | src/css.rs:240-246 | a parsed number is never negative |
| CssParser.DecimalValueDefined | src/css.rs:240-246 | a digits-and-dots token parses exactly when it is not empty, not a lone dot, and has at most one dot |
| CssParser.HexByte | src/css.rs:265-269 | two hex digits give 16·high + low; a leading `+` and one hex digit give that digit, as `u8::from_str_radix` does; anything else fails |
| CssParser.SimpleSelectorStep | src/css.rs:174-192 | each step of the simple-selector loop consumes at least one character |
| CssParser.SelectorListShape | src/css.rs:149-162 | the selector loop stops at a `{`, having added at least one selector |
| CssParser.SelectorsShape | src/css.rs:149-166 | `parse_selectors` stops at a `{` and returns a non-empty list sorted by non-increasing specificity |
| CssParser.SelectorsTurn | src/css.rs:155-161 | after a selector, `,` continues the list, `{` ends it, and any other character or the end of input fails |
| CssParser.SortBySpecificity | src/css.rs:164 | the sorted selectors are in non-increasing specificity order and are a permutation of the input |
| CssParser.FloatAt | src/css.rs:240-246 | a number consumes at least one character and is not negative |
| CssParser.UnitPx | src/css.rs:248-253 | a unit is accepted exactly when the identifier is two characters, `p` or `P` then `x` or `X` |
| CssParser.LengthAt | src/css.rs:236-238 | a length is a non-negative `px` value that consumes at least one character |
| CssParser.HexPairAt | src/css.rs:265-269 | a hex pair consumes exactly two characters |
| CssParser.ColorAt | src/css.rs:255-263 | a colour consumes exactly seven characters and is opaque (alpha 255) |
| CssParser.ValueKinds | src/css.rs:228-234 | a digit starts a non-negative `px` length, `#` a seven-character opaque colour, and anything else a keyword of identifier characters, which never fails |
| CssParser.DeclarationShape | src/css.rs:213-226 | a declaration's name is the identifier at the start, a `:` follows after optional whitespace, and it ends just after a `;` |
| CssParser.DeclarationsShape | src/css.rs:200-210 | the declaration loop stops just after a `}` |
| CssParser.DeclarationsAtShape | src/css.rs:196-211 | a declaration block starts with `{` and ends with `}` |
| CssParser.RulesFrom | src/css.rs:130-140 | a successful rule list consumes the whole input |
| CssParser.Parser.constructor | src/css.rs:110-113 | a parser starts at position 0 of its input |
| CssParser.Parser.Eof | src/css.rs:302-304 | at the end exactly when the position has reached the input's length |
| CssParser.Parser.NextChar | src/css.rs:298-300 | the character at the position; undefined at end of input, where the source's `unwrap` panics; it is whitespace exactly when `consume_whitespace` would move, and an identifier character exactly when `parse_identifier` would read something |
| CssParser.Parser.ConsumeChar | src/css.rs:290-296 | returns the current character and advances by one |
| CssParser.Parser.ConsumeWhile | src/css.rs:279-288 | moves to the end of the maximal run of matching characters and returns exactly the characters passed |
| CssParser.Parser.ConsumeWhitespace | src/css.rs:275-277 | skips the maximal run of whitespace |
| CssParser.Parser.ParseIdentifier | src/css.rs:271-273 | returns the maximal run of identifier characters |
| CssParser.Parser.ParseRules | src/css.rs:130-140 | result and new position are those of `RulesFrom` |
| CssParser.Parser.ParseRule | src/css.rs:142-147 | result and new position are those of `RuleAt` |
| CssParser.Parser.ParseSelectors | src/css.rs:149-166 | result and new position are those of `SelectorsAt` |
| CssParser.Parser.ParseSimpleSelector | src/css.rs:168-194 | result and new position are those of `SimpleSelectorFrom` |
| CssParser.Parser.ParseDeclarations | src/css.rs:196-211 | result and new position are those of `DeclarationsAt` |
| CssParser.Parser.ParseDeclaration | src/css.rs:213-226 | result and new position are those of `DeclarationAt` |
| CssParser.Parser.ParseValue | src/css.rs:228-234 | result and new position are those of `ValueAt` |
| CssParser.Parser.ParseLength | src/css.rs:236-238 | result and new position are those of `LengthAt` |
| CssParser.Parser.ParseFloat | src/css.rs:240-246 | result and new position are those of `FloatAt` |
| CssParser.Parser.ParseUnit | src/css.rs:248-253 | result and new position are those of `UnitAt` |
| CssParser.Parser.ParseColor | src/css.rs:255-263 | result and new position are those of `ColorAt` |
| CssParser.Parser.ParseHexPair | src/css.rs:265-269 | result and new position are those of `HexPairAt` |
| CssParser.Parse | src/css.rs:109-117 | the stylesheet is the one `StylesheetOf` gives: all rules of the whole input, or none on malformed input |
| CssExample.ParseExample | src/css.rs:307-355 | the unit test's stylesheet parses to exactly the rule the test expects: its one selector `div` and its four declarations in order |
| HtmlParser.IsSelfClosingTag | src/html.rs:17-24 | the seventeen void element names; each is an alphanumeric tag name of two to eight characters, so the parser can read it |
| HtmlParser.TextShape | src/html.rs:111-113 | a text node is the maximal run of characters up to the next `<` or the end, and it has no children |
| HtmlParser.AttrValueShape | src/html.rs:102-109 | a value is enclosed in matching `"` or `'` quotes and does not contain its quote |
| HtmlParser.AttrShape | src/html.rs:93-100 | an attribute is a name and then `=` after optional whitespace |
| HtmlParser.AttrListShape | src/html.rs:77-91 | the attribute loop stops at `>` and keeps the attributes already read, in order |
| HtmlParser.AttrMapOf | src/html.rs:77-91 | the map's keys are exactly the attribute names read |
| HtmlParser.LastAttributeWins | src/html.rs:88 | a repeated attribute name keeps the value of its last occurrence |
| HtmlParser.TextAt | src/html.rs:111-113 | text parsing never fails |
| HtmlParser.OpenTagShape | src/html.rs:51-56 | an opening tag starts with `<`, ends with `>` and names the tag with name characters |
| HtmlParser.ElementAt | src/html.rs:51-70 | an element parse yields an element and consumes at least one character |
| HtmlParser.ElementName | src/html.rs:51-75 | an element starts at `<` and its tag name is made of name characters |
| HtmlParser.ElementVoid | src/html.rs:51-60 | a void element has no children and ends at its opening tag's `>` |
| HtmlParser.ElementClosed | src/html.rs:62-70 | any other element ends with the closing tag `</name>` for its own name |
| HtmlParser.CloseTagText | src/html.rs:64-67 | a closing tag is the text `</` + name + `>` |
| HtmlParser.ContentShape | src/html.rs:58-69 | the element keeps its name and attributes; a void element gets no children and consumes nothing more, and any other one ends at its closing tag |
| HtmlParser.NodesShape | src/html.rs:32-42 | the node loop stops at the end of input or at `</` |
| HtmlParser.DocumentShape | src/html.rs:4-15 | the document exists exactly when the top-level nodes parse; one node is the root itself, and any other number is wrapped in an `html` element without attributes |
| HtmlParser.Parser.constructor | src/html.rs:5-8 | a parser starts at position 0 of its input |
| HtmlParser.Parser.Eof | src/html.rs:146-148 | at the end exactly when the position has reached the input's length |
| HtmlParser.Parser.NextChar | src/html.rs:138-140 | the character at the position; undefined at end of input, where the source's `unwrap` panics; it is whitespace exactly when `consume_whitespace` would move, and alphanumeric exactly when a tag or attribute name would be read |
| HtmlParser.Parser.StartsWith | src/html.rs:142-144 | true exactly when the input at the position begins with the text |
| HtmlParser.Parser.ConsumeChar | src/html.rs:130-136 | returns the current character and advances by one |
| HtmlParser.Parser.ConsumeWhile | src/html.rs:119-128 | moves to the end of the maximal run of matching characters and returns exactly the characters passed |
| HtmlParser.Parser.ConsumeWhitespace | src/html.rs:115-117 | skips the maximal run of whitespace |
| HtmlParser.Parser.ParseTagAttrName | src/html.rs:72-75 | returns the maximal run of name characters |
| HtmlParser.Parser.ParseAttrValue | src/html.rs:102-109 | result and new position are those of `AttrValueAt` |
| HtmlParser.Parser.ParseAttr | src/html.rs:93-100 | result and new position are those of `AttrAt` |
| HtmlParser.Parser.ParseAttributes | src/html.rs:77-91 | result and new position are those of `AttrsAt` |
| HtmlParser.Parser.ParseText | src/html.rs:111-113 | result and new position are those of `TextAt` |
| HtmlParser.Parser.ParseNodes | src/html.rs:32-42 | result and new position are those of `NodesFrom` |
| HtmlParser.Parser.ParseNode | src/html.rs:44-49 | result and new position are those of `NodeAt` |
| HtmlParser.Parser.ParseElement | src/html.rs:51-70 | result and new position are those of `ElementAt` |
| HtmlParser.Parser.ParseOpenTag | src/html.rs:51-56 | result and new position are those of `OpenTagAt` |
| HtmlParser.Parser.ParseContent | src/html.rs:58-69 | result and new position are those of `ContentAt` |
| HtmlParser.Parser.ParseCloseTag | src/html.rs:64-67 | succeeds exactly when `</name>` follows, and then moves past it |
| HtmlParser.Parse | src/html.rs:4-15 | the document is the one `DocumentOf` gives |
| Style.StyledNode.Value | src/style.rs:54-56 | `Some` exactly when the property is specified, and then its value |
| Style.StyledNode.Display | src/style.rs:21-30 | `block` gives Block, `none` gives None, and anything else or nothing gives Inline |
| Style.StyledNode.Lookup | src/style.rs:32-38 | the property if specified, else the fallback property if specified, else the default |
| Style.StyledNode.HasTextNode | src/style.rs:40-45 | true exactly for text nodes |
| Style.StyledNode.GetColor | src/style.rs:47-52 | `Some` exactly when the property is specified as a colour, and then that colour |
| Style.MatchSimpleSelector | src/style.rs:103-121 | matches exactly when the tag, the id and every class that the selector gives are present on the element; the empty selector matches everything |
| Style.Matches | src/style.rs:97-101 | a selector matches by its simple selector, with the id compared through `id()` |
| Style.FirstMatch | src/style.rs:91-95 | the index of the first matching selector, or `None` when no selector matches |
| Style.MatchRule | src/style.rs:91-95 | `Some` exactly when some selector of the rule matches, carrying the rule and the specificity of the first matching selector |
| Style.MatchingRules | src/style.rs:86-89 | every entry is a matched rule of the sheet, in sheet order |
| Style.MatchingFromComplete | src/style.rs:86-89 | no matching rule is dropped |
| Style.MatchingRulesExact | src/style.rs:86-89 | rule `j` is in the list exactly when one of its selectors matches the element |
| Style.SortAscending | src/style.rs:74 | the sorted list is in ascending specificity order and is a permutation of the matched rules |
| Style.SortIsStable | src/style.rs:74 | on rules in sheet order the sort is strict in (specificity, position): equal specificities keep sheet order, as the stable `sort_by` does |
| Style.LastDeclared | src/style.rs:77-79 | a rule's value for a property is its last declaration of that name, or `None` if it has none |
| Style.ApplyLookup | src/style.rs:76-80 | inserting a rule's declarations sets each declared property to its last declaration and keeps every other property |
| Style.CascadeLookup | src/style.rs:76-80 | a property is set exactly when some sorted rule declares it, and then the last such rule's last declaration wins |
| Style.CascadeWinner | src/style.rs:71-82 | a property is specified exactly when a matching rule declares it; its value comes from the declaring rule that sorts last (higher specificity, then later in the sheet) |
| Style.SpecifiedValues | src/style.rs:71-82 | the insertion loops build exactly the cascade of the sorted matching rules |
| Style.StyleTree | src/style.rs:59-69 | a styled node wraps its own DOM node and has one styled child per DOM child |
| Style.StyleTreeMirrors | src/style.rs:59-69 | node for node, the styled tree has the DOM's shape; text gets no properties and elements get their cascade |
| Layout.BoxesNest | src/layout.rs:290-313 | each box's origin is the inner box's origin minus that edge; margin-box width adds all six horizontal edges, and its height is as `expanded_by` computes it, multiplying top by bottom |
| Layout.BoxesWiden | src/layout.rs:290-313 | with non-negative edges the padding box covers the content, the border box covers the padding box, and the margin box covers the border box |
| Layout.MarginBoxCanEndAboveBorderBox | src/layout.rs:310 | a box with a 2px top margin and no other edges has a margin box ending 2px above its border box |
| Layout.MakeLayoutTree | src/layout.rs:56-72 | the loop builds the tree that `MakeTreeOf` gives |
| Layout.TreeWithChildrenType | src/layout.rs:57-61 | the root box's type comes from its display and its dimensions start at zero |
| Layout.TreeWellFormed | src/layout.rs:63-70 | a block box has only block or anonymous children, never two anonymous blocks in a row; anonymous blocks are non-empty and hold only inline boxes; an inline box may hold block boxes as well as inline ones |
| Layout.TreeWithChildrenWellFormed | src/layout.rs:63-70 | the tree stays well formed after each child is added |
| Layout.AddChildWellFormed | src/layout.rs:272-286 | adding one child through `get_inline_container` keeps the tree well formed |
| Layout.TreeChildren | src/layout.rs:63-70 | with anonymous wrappers removed, the children are the layout trees of the displayed children, in order |
| Layout.TwoInlineRuns | src/layout.rs:272-286 | a block with inline, block and inline children gets an anonymous block, the block child and a second anonymous block |
| Layout.Horizontal | src/layout.rs:109-125 | the seven horizontal values, with the specified width last |
| Layout.ConsumeUnderflow | src/layout.rs:174-183 | the result is a non-negative `px` length; value plus underflow is conserved; either the value is used up or the underflow is |
| Layout.AbsorbConserves | src/layout.rs:138-145 | absorbing the underflow into the seven values conserves their sum, and every result is a non-negative `px` length |
| Layout.AbsorbInOrder | src/layout.rs:138-145 | for non-negative values no value grows, a value changes only once all earlier ones are zero, and the leftover is the sum's deficit or zero |
| Layout.AbsorbPixelsOnly | src/layout.rs:130-136 | absorption depends only on the pixel values, so converting to `px` first changes nothing |
| Layout.AbsorbSeven | src/layout.rs:139-145 | absorption is the seven chained `consume_underflow` calls, margin-right first |
| Layout.WidthAutoFills | src/layout.rs:147-157 | with an `auto` width and room left, the width takes the room and the seven values fill the container |
| Layout.WidthMarginRightFills | src/layout.rs:158-161 | with a fixed width and room left, margin-right takes the room and the seven values fill the container |
| Layout.WidthOverConstrainedFits | src/layout.rs:127-145 | when the values overflow, every result is non-negative, and for non-negative values in a non-negative container they fill it exactly |
| Layout.OverConstrainedExample | src/layout.rs:127-145 | 20px margin-left and 60px width in a 50px container shrink to 0px and 50px |
| Layout.UnderConstrainedExample | src/layout.rs:146-157 | an `auto` width beside a 10px margin in a 100px container gets 90px |
| Layout.CalculateBlockWidth | src/layout.rs:104-116 | the seven horizontal values are looked up in the box's style; the box gets them solved and nothing else changes |
| Layout.SolveBlockWidth | src/layout.rs:117-171 | the underflow is absorbed right to left when negative, goes to an `auto` width, or else to margin-right; the dimensions get exactly the seven values `SolveWidth` gives |
| Layout.CalculateBlockPosition | src/layout.rs:187-202 | vertical edges come from the style; the box is placed below the container's content, inside its own edges |
| Layout.CalculateInlinePosition | src/layout.rs:235-254 | as for blocks, with the horizontal margins also taken from the style |
| Layout.ExplicitHeight | src/layout.rs:213 | `Some` exactly when `height` is a `px` length, and then that length |
| Layout.CalculateBlockHeight | src/layout.rs:212-216 | an explicit `px` height replaces the content height, and nothing else changes |
| Layout.Layout | src/layout.rs:83-93 | laying out a box gives the box `LayoutOf` describes |
| Layout.LayoutBlock | src/layout.rs:95-100 | laying out a block box gives the box `LayoutOf` describes |
| Layout.LayoutInline | src/layout.rs:218-231 | laying out an inline box gives the box `LayoutOf` describes |
| Layout.LayoutChildren | src/layout.rs:204-210 | the child loop of `layout_block_children`, `layout_inline_children` and the anonymous block gives the container and children `FlowChildren` describes |
| Layout.LayoutTree | src/layout.rs:45-53 | the root is laid out in the viewport with zero height, or `None` when the root is not displayed |
| Layout.FlowChildrenSizes | src/layout.rs:256-263 | the container's height grows by the children's margin-box heights; block flow keeps its width and inline flow takes the last child's margin-box width |
| Layout.FlowChildrenStacked | src/layout.rs:204-210 | child `i` is laid out in the container as it stands after children `0..i` |
| Layout.FlowKeepsShape | src/layout.rs:204-210 | laying out the children keeps their number and each child's shape |
| Layout.LayoutPlacesBox | src/layout.rs:187-202 | a laid-out box's vertical edges are its style's, and its content sits below the container's content, inside its own edges |
| Layout.LayoutBlockWidths | src/layout.rs:164-171 | a laid-out block's horizontal edges and width are the seven solved values |
| Layout.BlockFillsContainer | src/layout.rs:127-171 | when there is room, or all values and the container are non-negative, a block's margin box is exactly as wide as its container |
| Layout.LayoutBlockHeight | src/layout.rs:204-216 | a block keeps one laid-out child per child, and its height is its explicit px height or its starting height plus the sum of its children's margin-box heights |
| Layout.LayoutBlockStacked | src/layout.rs:204-210 | child `i` of a block is laid out in the block's final box, at the block's starting height plus the heights of the earlier children |
| Layout.LayoutInlineBox | src/layout.rs:218-254 | inline margins come from the style; a text is 8px per UTF-8 byte wide and 16px high; an element is as wide as its last child's margin box and as high as its children together |
| Layout.LayoutAnonymousBlock | src/layout.rs:87-91 | an anonymous block lays its children out in its own containing block and sizes itself from them |
| Layout.LayoutKeepsShape | src/layout.rs:83-93 | layout changes dimensions only: box types, the children's number and nesting are kept |
| Layout.LayoutTreeRoot | src/layout.rs:45-61 | a tree exists exactly when the root is displayed; it is well formed, typed by the root's display, and placed at the viewport's origin inside its edges |
| Layout.LayoutTreeRootHeight | src/layout.rs:49-52 | a block root without an explicit height is exactly as high as its children |
| Painter.GetColor | src/painter.rs:154-159 | `Some` exactly when the box has a style whose property is a colour, and then that colour; anonymous blocks have none |
| Painter.RenderText | src/painter.rs:76-89 | appends one text command for a text box and nothing otherwise |
| Painter.RenderBackground | src/painter.rs:91-98 | appends the background command when a background colour is set |
| Painter.RenderBorder | src/painter.rs:100-152 | appends the four border commands when a border colour is set |
| Painter.RenderLayoutBoxTree | src/painter.rs:67-74 | appends the box's display list: its own commands, then its children's lists in order |
| Painter.OwnCommandsShape | src/painter.rs:67-70 | a box's own commands are its text (if a text box), then its background (if set), then four border rectangles in the border colour (if set) |
| Painter.AnonymousBlockPaintsNothing | src/painter.rs:154-159 | an anonymous block adds no commands of its own |
| Painter.BordersFlush | src/painter.rs:106-151 | the four border rectangles lie flush on the left, right, top and bottom edges of the border box, each as thick as its edge |
| Painter.ChildrenCommandsStep | src/painter.rs:71-73 | the lists of the first `i + 1` children are those of the first `i`, followed by child `i`'s |
| Painter.WalkAllStep | src/painter.rs:71-73 | the same one-step unfolding for a walk with any per-box commands |
| Painter.ChildrenCommandsSplit | src/painter.rs:71-73 | the children's display list is the lists of the first `n` children followed by those of the rest |
| Painter.WalkAllSplit | src/painter.rs:71-73 | the same split for a walk with any per-box commands, by induction on the number of children |
| Painter.ChildListAt | src/painter.rs:71-73 | child `i`'s display list appears intact in the parent's, after the own commands and the earlier children's lists |
| Painter.WalkChildAt | src/painter.rs:67-74 | the same placement for a pre-order walk with any per-box commands |
| Painter.BackgroundBeforeDescendants | src/painter.rs:67-74 | a box's background comes before every descendant's commands, so descendants paint over it |
| Painter.Clamp | src/painter.rs:39-42 | the clipped coordinate lies in `[0, bound]` and is the truncation of the clamped value |
| Painter.ToSize | src/painter.rs:60 | canvas sizes truncate toward zero and saturate at zero |
| Painter.NothingPaintsWhite | src/painter.rs:56-63 | a pixel that no command of the list paints stays white |
| Painter.LastPainterWins | src/painter.rs:61-63 | when command `k` paints a pixel and no later command does, the pixel ends in command `k`'s colour |
| Painter.PixelAfterAllStep | src/painter.rs:61-63 | after `k + 1` commands a pixel is what command `k` makes of its colour after the first `k` |
| Painter.Canvas.constructor | src/painter.rs:21-33 | a new canvas has `width × height` pixels, all white |
| Painter.Canvas.PaintPixelsByDisplayCommand | src/painter.rs:35-52 | a solid colour paints exactly the pixels inside the clipped rectangle and leaves all other pixels unchanged; text paints nothing |
| Painter.Canvas.PaintDisplayList | src/painter.rs:61-63 | on a white canvas, each pixel ends as applying the list's commands in order leaves it |
| Painter.Paint | src/painter.rs:56-65 | the canvas has the boundary's truncated size, and each pixel is what applying the whole display list in order gives it |

## Left out

- `main.rs` (reading files, choosing the viewport) and `renderer.rs` (writing the image) are not part of this model.
- `show_css`, the `Display` implementations and the debug `println!` in `parse_attr_value` only format text for output.
- `f64` is modelled as `real`. Rounding, NaN and infinities are not modelled. The `as usize` casts in the painter are modelled as truncation that saturates at zero (`Clamp`, `ToSize`).
- `usize` overflow of `width * height` in `Canvas::new` (`src/painter.rs:29`) is not modelled: integers are unbounded.
- The parsers step through `char`s rather than UTF-8 bytes, so positions are character indices. UTF-8 stepping is not modelled. When the last character of the input is multibyte, the source's `consume_char` moves one byte, and the next `next_char` slices inside that character and panics (`src/html.rs:130-148`, `src/css.rs:290-299`). The model does not panic there. For example, it parses the document `é` to a text node, where the source panics.
- `parse_hex_pair` slices two bytes and panics on a non-ASCII boundary. The model reads two characters. Every non-ASCII character fails the hex test, so both versions fail on the same inputs.
- `is_alphanumeric` is modelled on ASCII letters and digits only. Other Unicode letters are not identifier or name characters in the model.
- Panics become error results. A malformed stylesheet or document yields `Failed`, and `parse` returns `None`. A root with `display: none` yields `None` from `LayoutTree`.
- Layout.StyleNode: `get_style_node` panics on an anonymous block. The model makes "not an anonymous block" a precondition, which every caller meets.
- `LayoutBox` is mutated in place through `&mut` in the source. Here it is a value, and each mutating function returns the new box. The box tree is owned exclusively, so no aliasing is lost. The borrowed `&StyledNode` is embedded by value.
- The display list is passed as `&mut Vec` in the source. Here it is a sequence that each render method returns extended.
- Layout.AbsorbInOrder: the order property is stated for non-negative specified values. A negative value (which the source accepts) can grow to zero while the underflow is absorbed.
- Layout.WidthOverConstrainedFits: exact filling of the container is stated only for non-negative values and a non-negative container. With a negative value the source's result need not add up to the container.
- Painter.Canvas.PaintPixelsByDisplayCommand: nothing is stated for a zero-width canvas, which has no pixels to paint.
- Painter.Canvas.PaintDisplayList and Painter.Paint: likewise nothing is stated for a zero-width canvas.
- The HashMap iteration order of the source does not matter to any result, so it is not modelled.
