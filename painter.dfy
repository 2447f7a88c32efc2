/** The painter: turns a laid-out box tree into a display list (text,
    background and border commands, pre-order) and fills a canvas of
    pixels from it, each command clipped to the canvas.

    The display list is passed to the render functions by mutable
    reference in the source; here each render method takes the list and
    returns it extended, and is proved equal to the list followed by the
    commands a pure function gives for the box. The canvas is a class over
    a pixel array that its fill method updates in place. */
module Painter {
  import opened Wrappers
  import opened Css
  import opened Style
  import opened Layout
  import Dom
  import opened Seqs

  datatype DisplayCommand = SolidColor(color: Color, rect: Rect) | Text(text: string, rect: Rect)

  type DisplayList = seq<DisplayCommand>

  const White := Color.Color(255, 255, 255, 255)

  // ---------------------------------------------------------------------------
  // Display list

  /** `get_color`: a colour property of the box's style; anonymous blocks
      have no style and so no colour. */
  function GetColor(b: LayoutBox, name: string): (r: Option<Color>)
    ensures r.Some? <==> !b.boxType.AnonymousBlock? && name in b.boxType.node.specifiedValues &&
                         b.boxType.node.specifiedValues[name].Color?
    ensures r.Some? ==> b.boxType.node.specifiedValues[name] == Value.Color(r.value)
  {
    match b.boxType
    case BlockNode(style) => style.GetColor(name)
    case InlineNode(style) => style.GetColor(name)
    case AnonymousBlock => None
  }

  /** Whether the box stands for a text node. */
  predicate IsTextBox(b: LayoutBox)
  {
    !b.boxType.AnonymousBlock? && b.boxType.node.node.data.Text?
  }

  /** What `render_text` appends: the text at the border box, for a text box. */
  function TextCommands(b: LayoutBox): DisplayList
  {
    if IsTextBox(b) then [Text(b.boxType.node.node.data.text, BorderBox(b.dimensions))] else []
  }

  /** What `render_background` appends: the border box in the background
      colour, when there is one. */
  function BackgroundCommands(b: LayoutBox): DisplayList
  {
    match GetColor(b, "background")
    case Some(c) => [SolidColor(c, BorderBox(b.dimensions))]
    case None => []
  }

  /** What `render_border` appends: when there is a border colour, the
      left, right, top and bottom borders, each as thick as its edge and
      lying along that side of the border box. */
  function BorderCommands(b: LayoutBox): DisplayList
  {
    match GetColor(b, "border-color")
    case None => []
    case Some(c) =>
      var d := b.dimensions;
      var bb := BorderBox(d);
      [SolidColor(c, Rect(bb.x, bb.y, d.border.left, bb.height)),
       SolidColor(c, Rect(bb.x + bb.width - d.border.right, bb.y, d.border.right, bb.height)),
       SolidColor(c, Rect(bb.x, bb.y, bb.width, d.border.top)),
       SolidColor(c, Rect(bb.x, bb.y + bb.height - d.border.bottom, bb.width, d.border.bottom))]
  }

  /** The commands a box contributes itself, before its children. */
  function OwnCommands(b: LayoutBox): DisplayList
  {
    TextCommands(b) + BackgroundCommands(b) + BorderCommands(b)
  }

  /** A pre-order walk of a box tree: the commands `own` gives the box,
      then the walks of its children in order. */
  function Walk(b: LayoutBox, own: LayoutBox -> DisplayList): DisplayList
    decreases b
  {
    own(b) + WalkAll(b.children, own)
  }

  /** The walks of a run of sibling boxes, one after the other. */
  function WalkAll(kids: seq<LayoutBox>, own: LayoutBox -> DisplayList): DisplayList
    decreases kids
  {
    if kids == [] then []
    else WalkAll(kids[..|kids| - 1], own) + Walk(kids[|kids| - 1], own)
  }

  /** The display list of a box tree: the box's own commands, then the
      display lists of its children in order. */
  function DisplayListOf(b: LayoutBox): DisplayList
  {
    Walk(b, OwnCommands)
  }

  /** The display lists of a run of sibling boxes, one after the other. */
  function ChildrenCommands(kids: seq<LayoutBox>): DisplayList
  {
    WalkAll(kids, OwnCommands)
  }

  /** `render_text`. */
  method RenderText(list: DisplayList, b: LayoutBox) returns (r: DisplayList)
    ensures r == list + TextCommands(b)
  {
    r := list;
    match b.boxType
    case BlockNode(style) =>
      if style.node.data.Text? {
        r := r + [Text(style.node.data.text, BorderBox(b.dimensions))];
      }
    case InlineNode(style) =>
      if style.node.data.Text? {
        r := r + [Text(style.node.data.text, BorderBox(b.dimensions))];
      }
    case AnonymousBlock =>
  }

  /** `render_background`. */
  method RenderBackground(list: DisplayList, b: LayoutBox) returns (r: DisplayList)
    ensures r == list + BackgroundCommands(b)
  {
    r := list;
    var color := GetColor(b, "background");
    if color.Some? {
      r := r + [SolidColor(color.value, BorderBox(b.dimensions))];
    }
  }

  /** `render_border`: nothing without a border colour, else the four sides. */
  method RenderBorder(list: DisplayList, b: LayoutBox) returns (r: DisplayList)
    ensures r == list + BorderCommands(b)
  {
    r := list;
    var found := GetColor(b, "border-color");
    if found.None? {
      return;
    }
    var color := found.value;
    var d := b.dimensions;
    var borderBox := BorderBox(d);
    r := r + [SolidColor(color, Rect(borderBox.x, borderBox.y, d.border.left, borderBox.height))];
    r := r + [SolidColor(color, Rect(borderBox.x + borderBox.width - d.border.right, borderBox.y, d.border.right, borderBox.height))];
    r := r + [SolidColor(color, Rect(borderBox.x, borderBox.y, borderBox.width, d.border.top))];
    r := r + [SolidColor(color, Rect(borderBox.x, borderBox.y + borderBox.height - d.border.bottom, borderBox.width, d.border.bottom))];
  }

  /** `render_layout_box_tree`: the box's own commands, then each child's
      tree in turn. */
  method RenderLayoutBoxTree(list: DisplayList, b: LayoutBox) returns (r: DisplayList)
    ensures r == list + DisplayListOf(b)
    decreases b
  {
    r := RenderText(list, b);
    r := RenderBackground(r, b);
    r := RenderBorder(r, b);
    ghost var own := r;
    ConcatAssoc(list, TextCommands(b), BackgroundCommands(b));
    ConcatAssoc(list, TextCommands(b) + BackgroundCommands(b), BorderCommands(b));
    for i := 0 to |b.children|
      invariant r == own + ChildrenCommands(b.children[..i])
    {
      ChildrenCommandsStep(b.children, i);
      ConcatAssoc(own, ChildrenCommands(b.children[..i]), DisplayListOf(b.children[i]));
      r := RenderLayoutBoxTree(r, b.children[i]);
    }
    assert b.children[..|b.children|] == b.children;
  }

  // ---------------------------------------------------------------------------
  // What the display list promises

  /** The commands of one box: a text command first exactly when the box
      is a text box, then one background rectangle at the border box
      exactly when the background is a colour, then four border rectangles
      exactly when the border colour is a colour; nothing else. */
  lemma OwnCommandsShape(b: LayoutBox)
    ensures var own, t := OwnCommands(b), if IsTextBox(b) then 1 else 0;
      var g := if GetColor(b, "background").Some? then 1 else 0;
      var k := if GetColor(b, "border-color").Some? then 4 else 0;
      |own| == t + g + k &&
      (forall i :: 0 <= i < |own| ==> (own[i].Text? <==> i < t)) &&
      (t == 1 ==> own[0].rect == BorderBox(b.dimensions) && own[0].text == b.boxType.node.node.data.text) &&
      (g == 1 ==> own[t] == SolidColor(GetColor(b, "background").value, BorderBox(b.dimensions))) &&
      (forall i :: t + g <= i < |own| ==> own[i].color == GetColor(b, "border-color").value)
  {
  }

  /** Anonymous blocks contribute no commands of their own. */
  lemma AnonymousBlockPaintsNothing(b: LayoutBox)
    requires b.boxType.AnonymousBlock?
    ensures OwnCommands(b) == []
  {
  }

  /** The four border rectangles lie flush with the sides of the border
      box, each as thick as its edge: the left one starts at its left side,
      the right one ends at its right side, the top one starts at its top
      and the bottom one ends at its bottom; the left and right ones are as
      tall as the border box and the top and bottom ones as wide. */
  lemma BordersFlush(b: LayoutBox)
    requires GetColor(b, "border-color").Some?
    ensures var cmds, bb, e := BorderCommands(b), BorderBox(b.dimensions), b.dimensions.border;
      |cmds| == 4 &&
      (forall i :: 0 <= i < 4 ==> cmds[i].SolidColor? && cmds[i].color == GetColor(b, "border-color").value) &&
      cmds[0].rect.x == bb.x && cmds[0].rect.width == e.left &&
      cmds[1].rect.x + cmds[1].rect.width == bb.x + bb.width && cmds[1].rect.width == e.right &&
      cmds[2].rect.y == bb.y && cmds[2].rect.height == e.top &&
      cmds[3].rect.y + cmds[3].rect.height == bb.y + bb.height && cmds[3].rect.height == e.bottom &&
      (forall i :: 0 <= i < 2 ==> cmds[i].rect.y == bb.y && cmds[i].rect.height == bb.height) &&
      (forall i :: 2 <= i < 4 ==> cmds[i].rect.x == bb.x && cmds[i].rect.width == bb.width)
  {
  }

  /** Where the commands of child `i` sit in a box's display list: after
      the box's own commands and those of all earlier children. */
  lemma ChildListAt(b: LayoutBox, i: nat)
    requires i < |b.children|
    ensures var start := |OwnCommands(b)| + |ChildrenCommands(b.children[..i])|;
      var sub := DisplayListOf(b.children[i]);
      start + |sub| <= |DisplayListOf(b)| &&
      DisplayListOf(b)[start..start + |sub|] == sub
  {
    WalkChildAt(b, i, OwnCommands);
  }

  /** The same for a walk with any per-box commands. */
  lemma WalkChildAt(b: LayoutBox, i: nat, own: LayoutBox -> DisplayList)
    requires i < |b.children|
    ensures var start := |own(b)| + |WalkAll(b.children[..i], own)|;
      var sub := Walk(b.children[i], own);
      start + |sub| <= |Walk(b, own)| &&
      Walk(b, own)[start..start + |sub|] == sub
  {
    var kids := b.children;
    var before, sub, rest := WalkAll(kids[..i], own), Walk(kids[i], own), WalkAll(kids[i + 1..], own);
    assert WalkAll(kids, own) == before + sub + rest by {
      WalkAllSplit(kids, i + 1, own);
      WalkAllStep(kids, i, own);
    }
    SliceOfNested(Walk(b, own), own(b), before, sub, rest, |own(b)| + |before|);
  }

  /** The display lists of the first `i + 1` children: those of the first
      `i`, then that of child `i`. */
  lemma ChildrenCommandsStep(kids: seq<LayoutBox>, i: nat)
    requires i < |kids|
    ensures ChildrenCommands(kids[..i + 1]) == ChildrenCommands(kids[..i]) + DisplayListOf(kids[i])
  {
    WalkAllStep(kids, i, OwnCommands);
  }

  /** The walks of the first `i + 1` siblings: those of the first `i`,
      then that of sibling `i`. */
  lemma WalkAllStep(kids: seq<LayoutBox>, i: nat, own: LayoutBox -> DisplayList)
    requires i < |kids|
    ensures WalkAll(kids[..i + 1], own) == WalkAll(kids[..i], own) + Walk(kids[i], own)
  {
    assert kids[..i + 1][..i] == kids[..i];
  }

  /** The children's display list splits at any child: the lists of the
      first `n` children, then those of the rest. */
  lemma ChildrenCommandsSplit(kids: seq<LayoutBox>, n: nat)
    requires n <= |kids|
    ensures ChildrenCommands(kids) == ChildrenCommands(kids[..n]) + ChildrenCommands(kids[n..])
  {
    WalkAllSplit(kids, n, OwnCommands);
  }

  /** The same for a walk with any per-box commands, by induction on the
      number of siblings. */
  lemma {:induction false} WalkAllSplit(kids: seq<LayoutBox>, n: nat, own: LayoutBox -> DisplayList)
    requires n <= |kids|
    ensures WalkAll(kids, own) == WalkAll(kids[..n], own) + WalkAll(kids[n..], own)
    decreases |kids|
  {
    if n == |kids| {
      assert kids[..n] == kids;
      assert kids[n..] == [];
    } else {
      var m := |kids| - 1;
      var init := kids[..m];
      WalkAllSplit(init, n, own);
      assert init[..n] == kids[..n];
      assert kids[n..][..|kids[n..]| - 1] == init[n..];
      assert kids[n..][|kids[n..]| - 1] == kids[m];
      ConcatAssoc(WalkAll(kids[..n], own), WalkAll(init[n..], own), Walk(kids[m], own));
    }
  }

  /** Paint order: a box's background comes before every command of each
      of its descendants' subtrees, so descendants paint over it. */
  lemma BackgroundBeforeDescendants(b: LayoutBox, i: nat)
    requires GetColor(b, "background").Some? && i < |b.children|
    ensures var t := if IsTextBox(b) then 1 else 0;
      var start := |OwnCommands(b)| + |ChildrenCommands(b.children[..i])|;
      var sub := DisplayListOf(b.children[i]);
      t < start && start + |sub| <= |DisplayListOf(b)| &&
      DisplayListOf(b)[t] == SolidColor(GetColor(b, "background").value, BorderBox(b.dimensions)) &&
      DisplayListOf(b)[start..start + |sub|] == sub
  {
    OwnCommandsShape(b);
    ChildListAt(b, i);
  }

  // ---------------------------------------------------------------------------
  // Canvas

  /** A real clamped into [0, bound] and cast to an unsigned integer: the
      cast truncates, which for a non-negative real is its floor. */
  function Clamp(v: real, bound: nat): (r: nat)
    ensures r <= bound
    ensures v <= 0.0 ==> r == 0
    ensures v >= bound as real ==> r == bound
    ensures 0.0 <= v <= bound as real ==> r as real <= v < r as real + 1.0
  {
    var c := if v < 0.0 then 0.0 else if v > bound as real then bound as real else v;
    c.Floor
  }

  /** A float cast to an unsigned size: truncated, negatives become 0. */
  function ToSize(v: real): (r: nat)
    ensures v <= 0.0 ==> r == 0
    ensures v >= 0.0 ==> r as real <= v < r as real + 1.0
  {
    if v <= 0.0 then 0 else v.Floor
  }

  /** Whether the pixel at column `x`, row `y` lies in the rectangle once it
      is clipped to a `width` × `height` canvas. */
  predicate InClip(rect: Rect, width: nat, height: nat, x: nat, y: nat)
  {
    Clamp(rect.x, width) <= x < Clamp(rect.x + rect.width, width) &&
    Clamp(rect.y, height) <= y < Clamp(rect.y + rect.height, height)
  }

  /** The colour of pixel `i` of a `width`-wide canvas after one command,
      when it was `before`: a solid colour paints the clipped rectangle,
      text paints nothing. */
  function PixelAfter(command: DisplayCommand, width: nat, height: nat, x: nat, y: nat, before: Color): Color
  {
    match command
    case SolidColor(color, rect) => if InClip(rect, width, height, x, y) then color else before
    case Text(_, _) => before
  }

  /** The colour of pixel `i` after a whole display list on a white canvas. */
  function PixelAfterAll(list: DisplayList, width: nat, height: nat, x: nat, y: nat): Color
  {
    if list == [] then White
    else PixelAfter(list[|list| - 1], width, height, x, y, PixelAfterAll(list[..|list| - 1], width, height, x, y))
  }

  /** The first `k + 1` commands: the first `k`, then command `k` over them. */
  lemma PixelAfterAllStep(list: DisplayList, k: nat, width: nat, height: nat, x: nat, y: nat)
    requires k < |list|
    ensures PixelAfterAll(list[..k + 1], width, height, x, y)
         == PixelAfter(list[k], width, height, x, y, PixelAfterAll(list[..k], width, height, x, y))
  {
    assert list[..k + 1][..k] == list[..k];
  }

  /** Whether a command paints pixel `i`. */
  predicate Paints(command: DisplayCommand, width: nat, height: nat, x: nat, y: nat)
  {
    command.SolidColor? && InClip(command.rect, width, height, x, y)
  }

  /** No command after the `k`-th paints pixel `i`. */
  predicate LastToPaint(list: DisplayList, width: nat, height: nat, x: nat, y: nat, k: nat)
  {
    forall j :: k < j < |list| ==> !Paints(list[j], width, height, x, y)
  }

  /** A pixel that no command paints stays white. */
  lemma {:induction false} NothingPaintsWhite(list: DisplayList, width: nat, height: nat, x: nat, y: nat)
    requires forall k :: 0 <= k < |list| ==> !Paints(list[k], width, height, x, y)
    ensures PixelAfterAll(list, width, height, x, y) == White
  {
    if list != [] {
      var n := |list| - 1;
      var init := list[..n];
      assert !Paints(list[n], width, height, x, y);
      forall k | 0 <= k < n ensures !Paints(init[k], width, height, x, y) {
        assert init[k] == list[k];
      }
      NothingPaintsWhite(init, width, height, x, y);
    }
  }

  /** Later commands win: a pixel has the colour of the last command that
      paints it. */
  lemma {:induction false} LastPainterWins(list: DisplayList, width: nat, height: nat, x: nat, y: nat, k: nat)
    requires k < |list| && Paints(list[k], width, height, x, y) && LastToPaint(list, width, height, x, y, k)
    ensures PixelAfterAll(list, width, height, x, y) == list[k].color
  {
    var n := |list| - 1;
    var init := list[..n];
    if k < n {
      assert !Paints(list[n], width, height, x, y);
      assert init[k] == list[k];
      forall j | k < j < n ensures !Paints(init[j], width, height, x, y) {
        assert init[j] == list[j];
      }
      LastPainterWins(init, width, height, x, y, k);
    }
  }

  class Canvas {
    const pixels: array<Color>
    const width: nat
    const height: nat

    /** `Canvas::new`: `width` × `height` pixels, all opaque white. */
    constructor(width: nat, height: nat)
      ensures this.width == width && this.height == height
      ensures pixels.Length == width * height && fresh(pixels)
      ensures forall i :: 0 <= i < pixels.Length ==> pixels[i] == White
    {
      this.width := width;
      this.height := height;
      pixels := new Color[width * height](_ => White);
    }

    /** The loop of `paint`: the commands of the list, in order, on the
        fresh white canvas; each pixel ends as the list leaves it. */
    method PaintDisplayList(list: DisplayList)
      requires pixels.Length == width * height
      requires forall i :: 0 <= i < pixels.Length ==> pixels[i] == White
      modifies pixels
      ensures width > 0 ==> forall i :: 0 <= i < pixels.Length ==>
        pixels[i] == PixelAfterAll(list, width, height, i % width, i / width)
    {
      for k := 0 to |list|
        invariant width > 0 ==> forall i :: 0 <= i < pixels.Length ==>
          pixels[i] == PixelAfterAll(list[..k], width, height, i % width, i / width)
      {
        PaintPixelsByDisplayCommand(list[k]);
        forall i | width > 0 && 0 <= i < pixels.Length
          ensures pixels[i] == PixelAfterAll(list[..k + 1], width, height, i % width, i / width)
        {
          PixelAfterAllStep(list, k, width, height, i % width, i / width);
        }
      }
      assert list[..|list|] == list;
    }

    /** `paint_pixels_by_display_command`: a solid colour paints exactly
        the pixels of its rectangle clipped to the canvas, row by row;
        every other pixel, and every pixel under a text command, keeps its
        colour. */
    method PaintPixelsByDisplayCommand(command: DisplayCommand)
      requires pixels.Length == width * height
      modifies pixels
      ensures width > 0 ==> forall i :: 0 <= i < pixels.Length ==>
        pixels[i] == PixelAfter(command, width, height, i % width, i / width, old(pixels[i]))
    {
      match command
      case SolidColor(color, rect) =>
        var xLeft := Clamp(rect.x, width);
        var yTop := Clamp(rect.y, height);
        var xRight := Clamp(rect.x + rect.width, width);
        var yBottom := Clamp(rect.y + rect.height, height);
        var y := yTop;
        while y < yBottom
          invariant yTop <= y <= height && (y <= yBottom || y == yTop)
          invariant forall i :: 0 <= i < pixels.Length ==>
            pixels[i] == if Filled(i, width, xLeft, xRight, yTop, y) then color else old(pixels[i])
        {
          var x := xLeft;
          while x < xRight
            invariant xLeft <= x <= width && (x <= xRight || x == xLeft) && y < height
            invariant forall i :: 0 <= i < pixels.Length ==>
              pixels[i] == if Filled(i, width, xLeft, xRight, yTop, y) || FilledInRow(i, width, y, xLeft, x) then color else old(pixels[i])
          {
            IndexOf(x, y, width, height);
            ghost var j := y * width + x;
            forall i | 0 <= i < pixels.Length && i != j
              ensures FilledInRow(i, width, y, xLeft, x + 1) == FilledInRow(i, width, y, xLeft, x)
            {
              IndexUnique(i, width);
            }
            pixels[y * width + x] := color;
            x := x + 1;
          }
          assert forall i :: 0 <= i < pixels.Length ==>
            (Filled(i, width, xLeft, xRight, yTop, y + 1) <==> Filled(i, width, xLeft, xRight, yTop, y) || FilledInRow(i, width, y, xLeft, x));
          y := y + 1;
        }
        assert forall i :: 0 <= i < pixels.Length ==>
          (Filled(i, width, xLeft, xRight, yTop, y) <==> Paints(command, width, height, i % width, i / width));
      case Text(_, _) =>
    }
  }

  /** Whether element `i` of a `width`-wide pixel array lies in rows
      [yTop, y) and columns [xLeft, xRight). */
  ghost predicate Filled(i: nat, width: nat, xLeft: nat, xRight: nat, yTop: nat, y: nat)
  {
    width > 0 && yTop <= i / width < y && xLeft <= i % width < xRight
  }

  /** Whether element `i` lies in row `y`, columns [xLeft, x). */
  ghost predicate FilledInRow(i: nat, width: nat, y: nat, xLeft: nat, x: nat)
  {
    width > 0 && i / width == y && xLeft <= i % width < x
  }

  lemma MulLe(a: nat, b: nat, c: nat)
    requires a <= b
    ensures a * c <= b * c
  {
    var d := b - a;
    assert b * c == a * c + d * c;
  }

  lemma MulSmall(w: int, k: int)
    requires w > 0 && -w < w * k < w
    ensures k == 0
  {
  }

  /** Pixel (x, y) of a `width` × `height` canvas is element y * width + x. */
  lemma IndexOf(x: nat, y: nat, width: nat, height: nat)
    requires x < width && y < height
    ensures y * width + x < width * height
    ensures (y * width + x) / width == y && (y * width + x) % width == x
  {
    MulLe(y, height - 1, width);
    assert (height - 1) * width == height * width - width;
    var n := y * width + x;
    var q, r := n / width, n % width;
    assert n == width * q + r;
    assert width * (q - y) == width * q - width * y;
    MulSmall(width, q - y);
  }

  /** Each element is at its row and column. */
  lemma IndexUnique(i: nat, width: nat)
    requires width > 0
    ensures i == (i / width) * width + i % width
  {
  }

  /** `paint`: the display list of the tree, applied in order to a white
      canvas the size of the boundary. */
  method Paint(root: LayoutBox, boundary: Rect) returns (canvas: Canvas)
    ensures canvas.width == ToSize(boundary.width) && canvas.height == ToSize(boundary.height)
    ensures canvas.pixels.Length == canvas.width * canvas.height
    ensures canvas.width > 0 ==> forall i :: 0 <= i < canvas.pixels.Length ==>
      canvas.pixels[i] == PixelAfterAll(DisplayListOf(root), canvas.width, canvas.height, i % canvas.width, i / canvas.width)
  {
    var list := RenderLayoutBoxTree([], root);
    assert list == DisplayListOf(root);
    canvas := new Canvas(ToSize(boundary.width), ToSize(boundary.height));
    canvas.PaintDisplayList(list);
  }
}
