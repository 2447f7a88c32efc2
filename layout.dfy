/** The layout engine: builds the box tree from the styled tree (wrapping
    the inline children of a block in anonymous blocks) and solves each
    box's widths, position and height, top-down for the containing block
    and bottom-up for the heights.

    The box tree is exclusively owned (no box is shared), so it is modelled
    as a datatype value. Each step that the source performs by updating
    `self.dimensions` or pushing onto `children` in place is a method that
    returns the updated box; the functions ending in `Of` give the result
    of each step as a pure function, and the lemmas state what the source
    promises about them. Lengths are `real`; rounding of binary64 is not
    modelled. */
module Layout {
  import opened Wrappers
  import opened Css
  import opened Dom
  import opened Style
  import Chars
  import opened Seqs

  // ---------------------------------------------------------------------------
  // Geometry

  datatype Rect = Rect(x: real, y: real, width: real, height: real)

  datatype EdgeSizes = EdgeSizes(left: real, right: real, top: real, bottom: real)

  /** The content rectangle (relative to the document origin) and the three
      rings around it. */
  datatype Dimensions = Dimensions(content: Rect, padding: EdgeSizes, border: EdgeSizes, margin: EdgeSizes)

  const ZeroRect := Rect(0.0, 0.0, 0.0, 0.0)
  const ZeroEdges := EdgeSizes(0.0, 0.0, 0.0, 0.0)

  /** `Dimensions::default()`: everything 0. */
  const ZeroDimensions := Dimensions(ZeroRect, ZeroEdges, ZeroEdges, ZeroEdges)

  /** `Rect::expanded_by`, as written: the height grows by the PRODUCT of the
      top and bottom edges, where the widths grow by their sum. */
  function ExpandedBy(r: Rect, edge: EdgeSizes): Rect
  {
    Rect(r.x - edge.left, r.y - edge.top, r.width + edge.left + edge.right, r.height + edge.top * edge.bottom)
  }

  function PaddingBox(d: Dimensions): Rect
  {
    ExpandedBy(d.content, d.padding)
  }

  function BorderBox(d: Dimensions): Rect
  {
    ExpandedBy(PaddingBox(d), d.border)
  }

  function MarginBox(d: Dimensions): Rect
  {
    ExpandedBy(BorderBox(d), d.margin)
  }

  /** The padding, border and margin boxes grow outward ring by ring: each
      starts left of and above the previous one by that ring's left and top
      sizes, is wider by the ring's two sides and, as the source computes it,
      taller by the product of the ring's top and bottom sizes. */
  lemma BoxesNest(d: Dimensions)
    ensures var p, b, m := PaddingBox(d), BorderBox(d), MarginBox(d);
      p.x == d.content.x - d.padding.left && b.x == p.x - d.border.left && m.x == b.x - d.margin.left &&
      p.y == d.content.y - d.padding.top && b.y == p.y - d.border.top && m.y == b.y - d.margin.top &&
      m.width == d.content.width + d.padding.left + d.padding.right + d.border.left + d.border.right
                 + d.margin.left + d.margin.right &&
      m.height == d.content.height + d.padding.top * d.padding.bottom + d.border.top * d.border.bottom
                  + d.margin.top * d.margin.bottom
  {
  }

  /** With non-negative edges each box reaches at least as far left, right
      and up as the previous one. */
  lemma BoxesWiden(d: Dimensions)
    requires d.padding.left >= 0.0 && d.padding.right >= 0.0 && d.padding.top >= 0.0
    requires d.border.left >= 0.0 && d.border.right >= 0.0 && d.border.top >= 0.0
    requires d.margin.left >= 0.0 && d.margin.right >= 0.0 && d.margin.top >= 0.0
    ensures Covers(PaddingBox(d), d.content)
    ensures Covers(BorderBox(d), PaddingBox(d))
    ensures Covers(MarginBox(d), BorderBox(d))
  {
  }

  /** `outer` reaches at least as far as `inner` to the left, to the right
      and to the top. */
  predicate Covers(outer: Rect, inner: Rect)
  {
    outer.x <= inner.x && inner.x + inner.width <= outer.x + outer.width && outer.y <= inner.y
  }

  /** Downwards the boxes need not nest: with a 2px top margin and no bottom
      margin, the margin box ends 2px above the bottom of the border box,
      because the height grows by 2 * 0 while the top moves up by 2. */
  lemma MarginBoxCanEndAboveBorderBox()
    ensures var d := ZeroDimensions.(content := Rect(0.0, 10.0, 10.0, 10.0), margin := EdgeSizes(0.0, 0.0, 2.0, 0.0));
      MarginBox(d).y + MarginBox(d).height == BorderBox(d).y + BorderBox(d).height - 2.0
  {
  }

  // ---------------------------------------------------------------------------
  // The box tree

  /** A box for a styled node laid out as a block or inline, or an
      anonymous block. The styled node is embedded in the box, where the
      source holds a reference to it. */
  datatype BoxType = BlockNode(node: StyledNode) | InlineNode(node: StyledNode) | AnonymousBlock

  datatype LayoutBox = LayoutBox(dimensions: Dimensions, boxType: BoxType, children: seq<LayoutBox>)

  /** `LayoutBox::new`. */
  function NewBox(boxType: BoxType): LayoutBox
  {
    LayoutBox(ZeroDimensions, boxType, [])
  }

  /** The box type of a node that is displayed (`display` is not `none`). */
  function BoxTypeOf(node: StyledNode): BoxType
    requires node.Display() != DisplayNone
  {
    if node.Display() == Block then BlockNode(node) else InlineNode(node)
  }

  /** `get_inline_container().children.push(child)`: an inline or
      anonymous box takes the child itself; a block puts it into its last
      child when that is an anonymous block, and into a new anonymous block
      appended to its children otherwise. */
  function PushInline(b: LayoutBox, child: LayoutBox): LayoutBox
  {
    match b.boxType
    case BlockNode(_) =>
      if |b.children| > 0 && b.children[|b.children| - 1].boxType.AnonymousBlock? then
        var last := b.children[|b.children| - 1];
        b.(children := b.children[..|b.children| - 1] + [last.(children := last.children + [child])])
      else
        b.(children := b.children + [NewBox(AnonymousBlock).(children := [child])])
    case _ => b.(children := b.children + [child])
  }

  /** One turn of the loop of `make_layout_tree`: a block child is appended,
      an inline child goes to the inline container, a hidden one is left
      out together with its subtree. */
  function AddChild(b: LayoutBox, child: StyledNode, childBox: LayoutBox): LayoutBox
  {
    match child.Display()
    case Block => b.(children := b.children + [childBox])
    case Inline => PushInline(b, childBox)
    case DisplayNone => b
  }

  /** `make_layout_tree` for a displayed node. */
  function TreeOf(node: StyledNode): LayoutBox
    requires node.Display() != DisplayNone
    decreases node, |node.children| + 1
  {
    TreeWithChildren(node, |node.children|)
  }

  /** The box of `node` after the first `n` turns of the child loop. */
  function TreeWithChildren(node: StyledNode, n: nat): LayoutBox
    requires node.Display() != DisplayNone && n <= |node.children|
    decreases node, n
  {
    if n == 0 then NewBox(BoxTypeOf(node))
    else
      var child := node.children[n - 1];
      var b := TreeWithChildren(node, n - 1);
      if child.Display() == DisplayNone then b else AddChild(b, child, TreeOf(child))
  }

  /** `make_layout_tree`: the box tree of `node`, or None where the source
      panics because the root is hidden. */
  function MakeTreeOf(node: StyledNode): Option<LayoutBox>
  {
    if node.Display() == DisplayNone then None else Some(TreeOf(node))
  }

  /** `make_layout_tree`, looping over the children and pushing each box. */
  method MakeLayoutTree(node: StyledNode) returns (r: Option<LayoutBox>)
    ensures r == MakeTreeOf(node)
    decreases node
  {
    var display := node.Display();
    if display == DisplayNone {
      return None;
    }
    var root := NewBox(if display == Block then BlockNode(node) else InlineNode(node));
    for i := 0 to |node.children|
      invariant root == TreeWithChildren(node, i)
    {
      var child := node.children[i];
      match child.Display()
      case Block =>
        var childBox := MakeLayoutTree(child);
        root := root.(children := root.children + [childBox.value]);
      case Inline =>
        var childBox := MakeLayoutTree(child);
        root := PushInline(root, childBox.value);
      case DisplayNone =>
    }
    r := Some(root);
  }

  // ---------------------------------------------------------------------------
  // Properties of the box tree

  /** The box-tree invariant: a block never holds an inline box directly,
      and its anonymous children are never adjacent; an anonymous block
      holds one inline box or more and nothing else; and so on down the
      tree. */
  predicate WellFormed(b: LayoutBox)
    decreases b
  {
    ChildrenFit(b.boxType, b.children) &&
    forall i :: 0 <= i < |b.children| ==> WellFormed(b.children[i])
  }

  /** The invariant's condition on one level of the tree. */
  predicate ChildrenFit(boxType: BoxType, kids: seq<LayoutBox>)
  {
    (boxType.BlockNode? ==> forall i :: 0 <= i < |kids| ==> !kids[i].boxType.InlineNode?) &&
    (boxType.BlockNode? ==> forall i :: 0 < i < |kids| ==>
       !(kids[i - 1].boxType.AnonymousBlock? && kids[i].boxType.AnonymousBlock?)) &&
    (boxType.AnonymousBlock? ==> |kids| > 0 && forall i :: 0 <= i < |kids| ==> kids[i].boxType.InlineNode?)
  }

  /** The box of a displayed node is a block or inline box for that node. */
  lemma {:induction false} TreeWithChildrenType(node: StyledNode, n: nat)
    requires node.Display() != DisplayNone && n <= |node.children|
    ensures TreeWithChildren(node, n).boxType == BoxTypeOf(node)
    ensures TreeWithChildren(node, n).dimensions == ZeroDimensions
    decreases n
  {
    if n > 0 {
      TreeWithChildrenType(node, n - 1);
    }
  }

  /** Every box built by `make_layout_tree` satisfies the box-tree invariant. */
  lemma {:induction false} TreeWellFormed(node: StyledNode)
    requires node.Display() != DisplayNone
    ensures WellFormed(TreeOf(node))
    decreases node, |node.children| + 1
  {
    TreeWithChildrenWellFormed(node, |node.children|);
  }

  lemma {:induction false} TreeWithChildrenWellFormed(node: StyledNode, n: nat)
    requires node.Display() != DisplayNone && n <= |node.children|
    ensures WellFormed(TreeWithChildren(node, n))
    decreases node, n
  {
    if n > 0 {
      var child := node.children[n - 1];
      var b := TreeWithChildren(node, n - 1);
      assert WellFormed(b) && b.boxType == BoxTypeOf(node) by {
        TreeWithChildrenWellFormed(node, n - 1);
        TreeWithChildrenType(node, n - 1);
      }
      if child.Display() != DisplayNone {
        var t := TreeOf(child);
        assert WellFormed(t) && t.boxType == BoxTypeOf(child) by {
          TreeWellFormed(child);
          TreeWithChildrenType(child, |child.children|);
        }
        assert WellFormed(AddChild(b, child, t)) by {
          AddChildWellFormed(b, child, t);
        }
        assert TreeWithChildren(node, n) == AddChild(b, child, t);
      } else {
        assert TreeWithChildren(node, n) == b;
      }
    }
  }

  /** Adding a well-formed block or inline box keeps the invariant. */
  lemma AddChildWellFormed(b: LayoutBox, child: StyledNode, t: LayoutBox)
    requires WellFormed(b) && !b.boxType.AnonymousBlock? && WellFormed(t)
    requires child.Display() != DisplayNone && t.boxType == BoxTypeOf(child)
    ensures WellFormed(AddChild(b, child, t))
  {
    if child.Display() == Block || b.boxType.InlineNode? {
      AppendWellFormed(b, t);
    } else {
      var n := |b.children|;
      if n > 0 && b.children[n - 1].boxType.AnonymousBlock? {
        var last := b.children[n - 1];
        AppendWellFormed(last, t);
        ReplaceLastWellFormed(b, last.(children := last.children + [t]));
      } else {
        var anon := NewBox(AnonymousBlock).(children := [t]);
        assert WellFormed(anon);
        AppendWellFormed(b, anon);
      }
    }
  }

  /** Appending a child that the parent may hold keeps the invariant. */
  lemma AppendWellFormed(b: LayoutBox, t: LayoutBox)
    requires WellFormed(b) && WellFormed(t)
    requires b.boxType.BlockNode? ==> !t.boxType.InlineNode?
    requires b.boxType.BlockNode? && t.boxType.AnonymousBlock? ==>
      |b.children| == 0 || !b.children[|b.children| - 1].boxType.AnonymousBlock?
    requires b.boxType.AnonymousBlock? ==> t.boxType.InlineNode?
    ensures WellFormed(b.(children := b.children + [t]))
  {
    var kids := b.children + [t];
    assert ChildrenFit(b.boxType, kids) by {
      AppendFits(b.boxType, b.children, t);
    }
    forall i | 0 <= i < |kids|
      ensures WellFormed(kids[i])
    {
      if i < |b.children| {
        assert kids[i] == b.children[i];
      }
    }
  }

  /** Appending a box the parent type may hold keeps one level fitting. */
  lemma AppendFits(boxType: BoxType, kids: seq<LayoutBox>, t: LayoutBox)
    requires ChildrenFit(boxType, kids)
    requires boxType.BlockNode? ==> !t.boxType.InlineNode?
    requires boxType.BlockNode? && t.boxType.AnonymousBlock? ==>
      |kids| == 0 || !kids[|kids| - 1].boxType.AnonymousBlock?
    requires boxType.AnonymousBlock? ==> t.boxType.InlineNode?
    ensures ChildrenFit(boxType, kids + [t])
  {
    var all := kids + [t];
    assert forall i :: 0 <= i < |kids| ==> all[i] == kids[i];
  }

  /** Replacing the last child of a block by another anonymous block. */
  lemma ReplaceLastWellFormed(b: LayoutBox, last: LayoutBox)
    requires WellFormed(b) && WellFormed(last) && b.boxType.BlockNode?
    requires |b.children| > 0 && b.children[|b.children| - 1].boxType.AnonymousBlock? && last.boxType.AnonymousBlock?
    ensures WellFormed(b.(children := b.children[..|b.children| - 1] + [last]))
  {
    var n := |b.children|;
    var kids := b.children[..n - 1] + [last];
    assert forall i :: 0 <= i < n - 1 ==> kids[i] == b.children[i];
    assert ChildrenFit(b.boxType, kids);
    forall i | 0 <= i < |kids|
      ensures WellFormed(kids[i])
    {
      if i < n - 1 {
        assert kids[i] == b.children[i];
      }
    }
  }

  /** The boxes of a child list with each anonymous block replaced by the
      boxes it wraps. */
  function Unwrapped(kids: seq<LayoutBox>): seq<LayoutBox>
  {
    if kids == [] then []
    else
      var last := kids[|kids| - 1];
      Unwrapped(kids[..|kids| - 1]) + (if last.boxType.AnonymousBlock? then last.children else [last])
  }

  /** The boxes of the displayed nodes among `nodes`, in order: the
      reference for what a box's children are, wrappers aside. */
  function DisplayedTrees(nodes: seq<StyledNode>): seq<LayoutBox>
  {
    if nodes == [] then []
    else
      var last := nodes[|nodes| - 1];
      DisplayedTrees(nodes[..|nodes| - 1]) + (if last.Display() == DisplayNone then [] else [TreeOf(last)])
  }

  /** Once the anonymous wrappers are taken away, the children of a box are
      exactly the boxes of the node's displayed children, in document
      order: hidden children are left out with their subtrees, and nothing
      is reordered or duplicated. */
  lemma TreeChildren(node: StyledNode)
    requires node.Display() != DisplayNone
    ensures Unwrapped(TreeOf(node).children) == DisplayedTrees(node.children)
  {
    TreeWithChildrenUnwrapped(node, |node.children|);
    assert node.children[..|node.children|] == node.children;
  }

  lemma {:induction false} TreeWithChildrenUnwrapped(node: StyledNode, n: nat)
    requires node.Display() != DisplayNone && n <= |node.children|
    ensures Unwrapped(TreeWithChildren(node, n).children) == DisplayedTrees(node.children[..n])
  {
    if n > 0 {
      var child := node.children[n - 1];
      var b := TreeWithChildren(node, n - 1);
      TreeWithChildrenUnwrapped(node, n - 1);
      TreeWithChildrenType(node, n - 1);
      assert node.children[..n][..n - 1] == node.children[..n - 1];
      if child.Display() != DisplayNone {
        var t := TreeOf(child);
        TreeWithChildrenType(child, |child.children|);
        AddChildUnwrapped(b, child, t);
      }
    }
  }

  /** Adding a displayed child's box adds exactly that box, wrappers aside. */
  lemma AddChildUnwrapped(b: LayoutBox, child: StyledNode, t: LayoutBox)
    requires child.Display() != DisplayNone && !b.boxType.AnonymousBlock? && !t.boxType.AnonymousBlock?
    ensures Unwrapped(AddChild(b, child, t).children) == Unwrapped(b.children) + [t]
  {
    var r := AddChild(b, child, t);
    var kids := b.children;
    var k := |kids|;
    if child.Display() == Block || !b.boxType.BlockNode? {
      assert r.children == kids + [t];
      assert (kids + [t])[..k] == kids;
    } else if k > 0 && kids[k - 1].boxType.AnonymousBlock? {
      var last := kids[k - 1];
      var last' := last.(children := last.children + [t]);
      assert r.children == kids[..k - 1] + [last'];
      assert (kids[..k - 1] + [last'])[..k - 1] == kids[..k - 1];
    } else {
      var anon := NewBox(AnonymousBlock).(children := [t]);
      assert r.children == kids + [anon];
      assert (kids + [anon])[..k] == kids;
    }
  }

  /** A block whose children are displayed inline, block, inline gets
      exactly two anonymous blocks around its block child: consecutive
      inline runs separated by a block are never merged. */
  lemma TwoInlineRuns(node: StyledNode)
    requires node.Display() == Block && |node.children| == 3
    requires node.children[0].Display() == Inline
    requires node.children[1].Display() == Block
    requires node.children[2].Display() == Inline
    ensures var kids := TreeOf(node).children;
      |kids| == 3 && kids[0].boxType.AnonymousBlock? && kids[1].boxType.BlockNode? && kids[2].boxType.AnonymousBlock? &&
      kids[0].children == [TreeOf(node.children[0])] && kids[1] == TreeOf(node.children[1]) &&
      kids[2].children == [TreeOf(node.children[2])]
  {
    var c0, c1, c2 := node.children[0], node.children[1], node.children[2];
    TreeWithChildrenType(c1, |c1.children|);
    var b0 := TreeWithChildren(node, 0);
    assert b0 == NewBox(BlockNode(node));
    var b1 := TreeWithChildren(node, 1);
    assert b1 == PushInline(b0, TreeOf(c0));
    assert b1.children == [NewBox(AnonymousBlock).(children := [TreeOf(c0)])];
    var b2 := TreeWithChildren(node, 2);
    assert b2 == b1.(children := b1.children + [TreeOf(c1)]);
    var b3 := TreeWithChildren(node, 3);
    assert b3 == PushInline(b2, TreeOf(c2));
  }

  // ---------------------------------------------------------------------------
  // Widths

  const Auto := Keyword("auto")
  const ZeroPx := Length(0.0, Px)

  /** `get_style_node`: the styled node of a block or inline box (asking an
      anonymous block for one is a panic in the source, a precondition here). */
  function StyleNode(b: LayoutBox): StyledNode
    requires !b.boxType.AnonymousBlock?
  {
    b.boxType.node
  }

  /** The specified `width`, `auto` when there is none. */
  function SpecifiedWidth(style: StyledNode): Value
  {
    match style.Value("width")
    case Some(v) => v
    case None => Auto
  }

  /** The seven horizontal quantities of a block, in the order in which the
      source sums them and absorbs a negative underflow: margin-right,
      border-right, padding-right, padding-left, border-left, margin-left,
      width. Each edge is looked up side first, then by its shorthand, then
      defaults to 0px. */
  function Horizontal(style: StyledNode): (vs: seq<Value>)
    ensures |vs| == 7 && vs[6] == SpecifiedWidth(style)
  {
    [style.Lookup("margin-right", "margin", ZeroPx),
     style.Lookup("border-right-width", "border-width", ZeroPx),
     style.Lookup("padding-right", "padding", ZeroPx),
     style.Lookup("padding-left", "padding", ZeroPx),
     style.Lookup("border-left-width", "border-width", ZeroPx),
     style.Lookup("margin-left", "margin", ZeroPx),
     SpecifiedWidth(style)]
  }

  function Pixels(vs: seq<Value>): (r: seq<real>)
    ensures |r| == |vs| && forall i :: 0 <= i < |vs| ==> r[i] == vs[i].ToPx()
  {
    if vs == [] then [] else [vs[0].ToPx()] + Pixels(vs[1..])
  }

  function Sum(xs: seq<real>): real
  {
    if xs == [] then 0.0 else xs[0] + Sum(xs[1..])
  }

  lemma SumOfSeven(xs: seq<real>)
    requires |xs| == 7
    ensures Sum(xs) == xs[0] + xs[1] + xs[2] + xs[3] + xs[4] + xs[5] + xs[6]
  {
    assert Sum(xs[6..]) == xs[6] by { assert xs[6..][1..] == []; }
    assert Sum(xs[5..]) == xs[5] + Sum(xs[6..]) by { assert xs[5..][1..] == xs[6..]; }
    assert Sum(xs[4..]) == xs[4] + Sum(xs[5..]) by { assert xs[4..][1..] == xs[5..]; }
    assert Sum(xs[3..]) == xs[3] + Sum(xs[4..]) by { assert xs[3..][1..] == xs[4..]; }
    assert Sum(xs[2..]) == xs[2] + Sum(xs[3..]) by { assert xs[2..][1..] == xs[3..]; }
    assert Sum(xs[1..]) == xs[1] + Sum(xs[2..]) by { assert xs[1..][1..] == xs[2..]; }
  }

  /** `consume_underflow`: the value absorbs as much of the (negative)
      underflow as it can without going below 0. The new value is a px
      length, and it and the remaining underflow add up to the value plus
      the underflow; the new value is never negative, the remainder never
      positive, and at most one of them is non-zero. */
  function ConsumeUnderflow(underflow: real, value: Value): (r: (Value, real))
    ensures r.0.Length? && r.0.unit == Px
    ensures r.0.num + r.1 == value.ToPx() + underflow
    ensures r.0.num >= 0.0 && r.1 <= 0.0 && (r.0.num == 0.0 || r.1 == 0.0)
  {
    var flow := value.ToPx() + underflow;
    if flow > 0.0 then (Length(flow, Px), 0.0) else (Length(0.0, Px), flow)
  }

  /** The chain of `consume_underflow` calls: each value in turn absorbs
      what is left of the underflow. The new values, and what is left at
      the end. */
  function Absorb(underflow: real, vs: seq<Value>): (r: (seq<Value>, real))
    ensures |r.0| == |vs|
    decreases vs
  {
    if vs == [] then ([], underflow)
    else
      var (v, rest) := ConsumeUnderflow(underflow, vs[0]);
      var (ws, left) := Absorb(rest, vs[1..]);
      ([v] + ws, left)
  }

  /** Absorbing loses nothing: the new values and the remainder add up to
      the old values and the underflow; every new value is a non-negative
      px length. */
  lemma {:induction false} AbsorbConserves(underflow: real, vs: seq<Value>)
    ensures var (ws, left) := Absorb(underflow, vs);
      Sum(Pixels(ws)) + left == Sum(Pixels(vs)) + underflow &&
      forall i :: 0 <= i < |ws| ==> ws[i].Length? && ws[i].unit == Px && ws[i].num >= 0.0
    decreases vs
  {
    if vs != [] {
      var (v, rest) := ConsumeUnderflow(underflow, vs[0]);
      AbsorbConserves(rest, vs[1..]);
      var ws := Absorb(rest, vs[1..]).0;
      assert Absorb(underflow, vs).0 == [v] + ws;
      assert Pixels([v] + ws)[1..] == Pixels(ws);
      assert Pixels(vs)[1..] == Pixels(vs[1..]);
    }
  }

  lemma {:induction false} PixelsNonNegative(vs: seq<Value>)
    requires forall i :: 0 <= i < |vs| ==> vs[i].ToPx() >= 0.0
    ensures Sum(Pixels(vs)) >= 0.0
  {
    if vs != [] {
      assert Pixels(vs)[1..] == Pixels(vs[1..]);
      PixelsNonNegative(vs[1..]);
    }
  }

  /** With non-negative values and a non-positive underflow, the values are
      reduced strictly in order: no value grows, a value changes only once
      every value before it has reached 0, nothing changes when there is
      nothing to absorb; and the underflow is absorbed entirely unless the
      values cannot take all of it, in which case what is left is the
      shortfall. */
  lemma {:induction false} AbsorbInOrder(underflow: real, vs: seq<Value>)
    requires underflow <= 0.0
    requires forall i :: 0 <= i < |vs| ==> vs[i].ToPx() >= 0.0
    ensures forall k :: 0 <= k < |vs| ==> Absorb(underflow, vs).0[k].ToPx() <= vs[k].ToPx()
    ensures forall k :: 0 <= k < |vs| && Absorb(underflow, vs).0[k].ToPx() != vs[k].ToPx() ==>
      forall i :: 0 <= i < k ==> Absorb(underflow, vs).0[i].ToPx() == 0.0
    ensures underflow == 0.0 ==> forall k :: 0 <= k < |vs| ==> Absorb(underflow, vs).0[k].ToPx() == vs[k].ToPx()
    ensures Absorb(underflow, vs).1 ==
      (if Sum(Pixels(vs)) + underflow < 0.0 then Sum(Pixels(vs)) + underflow else 0.0)
    decreases vs
  {
    if vs != [] {
      var (v, rest) := ConsumeUnderflow(underflow, vs[0]);
      AbsorbInOrder(rest, vs[1..]);
      PixelsNonNegative(vs[1..]);
      var (ws', left') := Absorb(rest, vs[1..]);
      var ws := [v] + ws';
      assert Absorb(underflow, vs) == (ws, left');
      assert Sum(Pixels(vs)) == vs[0].ToPx() + Sum(Pixels(vs[1..])) by {
        assert Pixels(vs)[1..] == Pixels(vs[1..]);
      }
      assert v.ToPx() <= vs[0].ToPx();
      forall k | 0 < k < |vs|
        ensures ws[k].ToPx() <= vs[k].ToPx()
        ensures ws[k].ToPx() != vs[k].ToPx() ==> forall i :: 0 <= i < k ==> ws[i].ToPx() == 0.0
        ensures underflow == 0.0 ==> ws[k].ToPx() == vs[k].ToPx()
      {
        assert ws[k] == ws'[k - 1] && vs[k] == vs[1..][k - 1];
        if ws[k].ToPx() != vs[k].ToPx() {
          assert rest != 0.0;
          assert v.ToPx() == 0.0;
        }
      }
    }
  }

  /** The seven pixel values `calculate_block_width` settles on, in the order
      of `Horizontal`, for a containing block `containing` pixels wide. */
  function SolveWidth(vs: seq<Value>, containing: real): (r: seq<real>)
    requires |vs| == 7
    ensures |r| == 7
  {
    var underflow := containing - Sum(Pixels(vs));
    if underflow < 0.0 then Pixels(Absorb(underflow, vs).0)
    else if vs[6] == Auto then Pixels(vs[..6]) + [underflow]
    else [vs[0].ToPx() + underflow] + Pixels(vs[1..])
  }

  /** A non-negative underflow with an `auto` width is taken up entirely by
      the width, every other quantity keeping its px value; the seven
      values then add up to the containing width. */
  lemma WidthAutoFills(vs: seq<Value>, containing: real)
    requires |vs| == 7 && vs[6] == Auto && containing - Sum(Pixels(vs)) >= 0.0
    ensures var r := SolveWidth(vs, containing);
      Sum(r) == containing && r[6] == containing - Sum(Pixels(vs)) &&
      forall i :: 0 <= i < 6 ==> r[i] == vs[i].ToPx()
  {
    var r := SolveWidth(vs, containing);
    SumOfSeven(r);
    SumOfSeven(Pixels(vs));
  }

  /** A non-negative underflow with a specified width is taken up entirely by
      margin-right, every other quantity keeping its px value; the seven
      values then add up to the containing width. */
  lemma WidthMarginRightFills(vs: seq<Value>, containing: real)
    requires |vs| == 7 && vs[6] != Auto && containing - Sum(Pixels(vs)) >= 0.0
    ensures var r := SolveWidth(vs, containing);
      Sum(r) == containing && r[0] == vs[0].ToPx() + (containing - Sum(Pixels(vs))) &&
      forall i :: 1 <= i < 7 ==> r[i] == vs[i].ToPx()
  {
    var r := SolveWidth(vs, containing);
    SumOfSeven(r);
    SumOfSeven(Pixels(vs));
  }

  /** A negative underflow leaves every quantity a non-negative length, and
      with non-negative specified values and a non-negative containing width
      the seven values add up to the containing width. */
  lemma WidthOverConstrainedFits(vs: seq<Value>, containing: real)
    requires |vs| == 7 && containing - Sum(Pixels(vs)) < 0.0
    ensures var r := SolveWidth(vs, containing);
      (forall i :: 0 <= i < 7 ==> r[i] >= 0.0) &&
      ((forall i :: 0 <= i < 7 ==> vs[i].ToPx() >= 0.0) && containing >= 0.0 ==> Sum(r) == containing)
  {
    var underflow := containing - Sum(Pixels(vs));
    AbsorbConserves(underflow, vs);
    if (forall i :: 0 <= i < 7 ==> vs[i].ToPx() >= 0.0) && containing >= 0.0 {
      AbsorbInOrder(underflow, vs);
    }
  }

  /** Over-constrained example: in a 50px container, a 60px width with a
      20px left margin loses the margin first and then 10px of width. */
  lemma OverConstrainedExample()
    ensures SolveWidth([ZeroPx, ZeroPx, ZeroPx, ZeroPx, ZeroPx, Length(20.0, Px), Length(60.0, Px)], 50.0)
      == [0.0, 0.0, 0.0, 0.0, 0.0, 0.0, 50.0]
  {
    var vs := [ZeroPx, ZeroPx, ZeroPx, ZeroPx, ZeroPx, Length(20.0, Px), Length(60.0, Px)];
    SumOfSeven(Pixels(vs));
    AbsorbSeven(-30.0, vs);
  }

  /** Under-constrained example: in a 100px container, an `auto` width with
      a 10px left margin becomes 90px and margin-right stays 0. */
  lemma UnderConstrainedExample()
    ensures SolveWidth([ZeroPx, ZeroPx, ZeroPx, ZeroPx, ZeroPx, Length(10.0, Px), Auto], 100.0)
      == [0.0, 0.0, 0.0, 0.0, 0.0, 10.0, 90.0]
  {
    var vs := [ZeroPx, ZeroPx, ZeroPx, ZeroPx, ZeroPx, Length(10.0, Px), Auto];
    SumOfSeven(Pixels(vs));
  }

  /** Absorbing depends on the values' px amounts only. */
  lemma {:induction false} AbsorbPixelsOnly(u: real, vs: seq<Value>, ws: seq<Value>)
    requires |vs| == |ws| && forall i :: 0 <= i < |vs| ==> vs[i].ToPx() == ws[i].ToPx()
    ensures Absorb(u, vs) == Absorb(u, ws)
    decreases vs
  {
    if vs != [] {
      AbsorbPixelsOnly(ConsumeUnderflow(u, vs[0]).1, vs[1..], ws[1..]);
    }
  }

  /** `Absorb` over seven values, unrolled as the source writes it. */
  lemma AbsorbSeven(u: real, vs: seq<Value>)
    requires |vs| == 7
    ensures var c0 := ConsumeUnderflow(u, vs[0]);
      var c1 := ConsumeUnderflow(c0.1, vs[1]);
      var c2 := ConsumeUnderflow(c1.1, vs[2]);
      var c3 := ConsumeUnderflow(c2.1, vs[3]);
      var c4 := ConsumeUnderflow(c3.1, vs[4]);
      var c5 := ConsumeUnderflow(c4.1, vs[5]);
      var c6 := ConsumeUnderflow(c5.1, vs[6]);
      Absorb(u, vs).0 == [c0.0, c1.0, c2.0, c3.0, c4.0, c5.0, c6.0]
  {
    var c0 := ConsumeUnderflow(u, vs[0]);
    var c1 := ConsumeUnderflow(c0.1, vs[1]);
    var c2 := ConsumeUnderflow(c1.1, vs[2]);
    var c3 := ConsumeUnderflow(c2.1, vs[3]);
    var c4 := ConsumeUnderflow(c3.1, vs[4]);
    var c5 := ConsumeUnderflow(c4.1, vs[5]);
    var c6 := ConsumeUnderflow(c5.1, vs[6]);
    assert Absorb(c5.1, vs[6..]).0 == [c6.0] by { assert vs[6..][1..] == []; }
    assert Absorb(c4.1, vs[5..]).0 == [c5.0] + Absorb(c5.1, vs[6..]).0 by { assert vs[5..][1..] == vs[6..]; }
    assert Absorb(c3.1, vs[4..]).0 == [c4.0] + Absorb(c4.1, vs[5..]).0 by { assert vs[4..][1..] == vs[5..]; }
    assert Absorb(c2.1, vs[3..]).0 == [c3.0] + Absorb(c3.1, vs[4..]).0 by { assert vs[3..][1..] == vs[4..]; }
    assert Absorb(c1.1, vs[2..]).0 == [c2.0] + Absorb(c2.1, vs[3..]).0 by { assert vs[2..][1..] == vs[3..]; }
    assert Absorb(c0.1, vs[1..]).0 == [c1.0] + Absorb(c1.1, vs[2..]).0 by { assert vs[1..][1..] == vs[2..]; }
    assert Absorb(u, vs).0 == [c0.0] + Absorb(c0.1, vs[1..]).0;
  }

  /** The dimensions with the seven solved horizontal values stored. */
  function WithWidths(d: Dimensions, w: seq<real>): Dimensions
    requires |w| == 7
  {
    d.(content := d.content.(width := w[6]),
       margin := d.margin.(left := w[5], right := w[0]),
       border := d.border.(left := w[4], right := w[1]),
       padding := d.padding.(left := w[3], right := w[2]))
  }

  /** `calculate_block_width`: the seven values looked up as the source
      does, then solved against the containing block's width. */
  method CalculateBlockWidth(b: LayoutBox, containingBlock: Dimensions) returns (r: LayoutBox)
    requires b.boxType.BlockNode?
    ensures r == b.(dimensions := WithWidths(b.dimensions, SolveWidth(Horizontal(StyleNode(b)), containingBlock.content.width)))
  {
    var style := StyleNode(b);
    var width := SpecifiedWidth(style);
    var marginLeft := style.Lookup("margin-left", "margin", ZeroPx);
    var marginRight := style.Lookup("margin-right", "margin", ZeroPx);
    var borderLeft := style.Lookup("border-left-width", "border-width", ZeroPx);
    var borderRight := style.Lookup("border-right-width", "border-width", ZeroPx);
    var paddingLeft := style.Lookup("padding-left", "padding", ZeroPx);
    var paddingRight := style.Lookup("padding-right", "padding", ZeroPx);
    var vs := [marginRight, borderRight, paddingRight, paddingLeft, borderLeft, marginLeft, width];
    assert vs == Horizontal(style);
    var d := SolveBlockWidth(b.dimensions, vs, containingBlock.content.width);
    r := b.(dimensions := d);
  }

  /** The arithmetic of `calculate_block_width`, step by step on the seven
      looked-up values (in the order of `Horizontal`). */
  method SolveBlockWidth(d0: Dimensions, vs: seq<Value>, containing: real) returns (d: Dimensions)
    requires |vs| == 7
    ensures d == WithWidths(d0, SolveWidth(vs, containing))
  {
    var marginRight, borderRight, paddingRight, paddingLeft := vs[0], vs[1], vs[2], vs[3];
    var borderLeft, marginLeft, width := vs[4], vs[5], vs[6];
    ghost var w := SolveWidth(vs, containing);

    var total := marginRight.ToPx() + borderRight.ToPx() + paddingRight.ToPx() + paddingLeft.ToPx()
      + borderLeft.ToPx() + marginLeft.ToPx() + width.ToPx();
    assert total == Sum(Pixels(vs)) by { SumOfSeven(Pixels(vs)); }
    var underflow := containing - total;
    if underflow < 0.0 {
      width := Length(width.ToPx(), Px);
      marginLeft := Length(marginLeft.ToPx(), Px);
      marginRight := Length(marginRight.ToPx(), Px);
      borderLeft := Length(borderLeft.ToPx(), Px);
      borderRight := Length(borderRight.ToPx(), Px);
      paddingLeft := Length(paddingLeft.ToPx(), Px);
      paddingRight := Length(paddingRight.ToPx(), Px);
      ghost var ps := [marginRight, borderRight, paddingRight, paddingLeft, borderLeft, marginLeft, width];
      ghost var u0 := underflow;

      var c := ConsumeUnderflow(underflow, marginRight);
      marginRight, underflow := c.0, c.1;
      c := ConsumeUnderflow(underflow, borderRight);
      borderRight, underflow := c.0, c.1;
      c := ConsumeUnderflow(underflow, paddingRight);
      paddingRight, underflow := c.0, c.1;
      c := ConsumeUnderflow(underflow, paddingLeft);
      paddingLeft, underflow := c.0, c.1;
      c := ConsumeUnderflow(underflow, borderLeft);
      borderLeft, underflow := c.0, c.1;
      c := ConsumeUnderflow(underflow, marginLeft);
      marginLeft, underflow := c.0, c.1;
      c := ConsumeUnderflow(underflow, width);
      width := c.0;
      ghost var fs := [marginRight, borderRight, paddingRight, paddingLeft, borderLeft, marginLeft, width];
      assert w[0] == marginRight.ToPx() && w[1] == borderRight.ToPx() && w[2] == paddingRight.ToPx() &&
             w[3] == paddingLeft.ToPx() && w[4] == borderLeft.ToPx() && w[5] == marginLeft.ToPx() &&
             w[6] == width.ToPx() by {
        AbsorbPixelsOnly(u0, vs, ps);
        AbsorbSeven(u0, ps);
        assert w == Pixels(fs);
        assert fs[0] == marginRight && fs[1] == borderRight && fs[2] == paddingRight && fs[3] == paddingLeft;
        assert fs[4] == borderLeft && fs[5] == marginLeft && fs[6] == width;
      }
    } else {
      if width == Auto {
        width := Length(underflow, Px);
        marginLeft := Length(marginLeft.ToPx(), Px);
        marginRight := Length(marginRight.ToPx(), Px);
        borderLeft := Length(borderLeft.ToPx(), Px);
        borderRight := Length(borderRight.ToPx(), Px);
        paddingLeft := Length(paddingLeft.ToPx(), Px);
        paddingRight := Length(paddingRight.ToPx(), Px);
        assert w[0] == marginRight.ToPx() && w[1] == borderRight.ToPx() && w[2] == paddingRight.ToPx() &&
               w[3] == paddingLeft.ToPx() && w[4] == borderLeft.ToPx() && w[5] == marginLeft.ToPx() &&
               w[6] == width.ToPx() by {
          WidthAutoFills(vs, containing);
        }
      } else {
        marginRight := Length(marginRight.ToPx() + underflow, Px);
        assert w[0] == marginRight.ToPx() && w[1] == borderRight.ToPx() && w[2] == paddingRight.ToPx() &&
               w[3] == paddingLeft.ToPx() && w[4] == borderLeft.ToPx() && w[5] == marginLeft.ToPx() &&
               w[6] == width.ToPx() by {
          WidthMarginRightFills(vs, containing);
        }
      }
    }

    d := d0;
    d := d.(content := d.content.(width := width.ToPx()));
    d := d.(margin := d.margin.(left := marginLeft.ToPx()));
    d := d.(margin := d.margin.(right := marginRight.ToPx()));
    d := d.(border := d.border.(left := borderLeft.ToPx()));
    d := d.(border := d.border.(right := borderRight.ToPx()));
    d := d.(padding := d.padding.(left := paddingLeft.ToPx()));
    d := d.(padding := d.padding.(right := paddingRight.ToPx()));
  }

  // ---------------------------------------------------------------------------
  // Positions and heights

  /** The top and bottom margin, border and padding of a block or inline
      box, each looked up side first, then by its shorthand, then 0px. */
  function WithVerticalEdges(d: Dimensions, style: StyledNode): Dimensions
  {
    d.(margin := d.margin.(top := style.Lookup("margin-top", "margin", ZeroPx).ToPx(),
                           bottom := style.Lookup("margin-bottom", "margin", ZeroPx).ToPx()),
       border := d.border.(top := style.Lookup("border-top-width", "border-width", ZeroPx).ToPx(),
                           bottom := style.Lookup("border-bottom-width", "border-width", ZeroPx).ToPx()),
       padding := d.padding.(top := style.Lookup("padding-top", "padding", ZeroPx).ToPx(),
                             bottom := style.Lookup("padding-bottom", "padding", ZeroPx).ToPx()))
  }

  /** The left and right margin of an inline box; its left and right border
      and padding are not looked up at all. */
  function WithInlineMargins(d: Dimensions, style: StyledNode): Dimensions
  {
    d.(margin := d.margin.(left := style.Lookup("margin-left", "margin", ZeroPx).ToPx(),
                           right := style.Lookup("margin-right", "margin", ZeroPx).ToPx()))
  }

  /** The content box placed in its containing block: its left edge right
      of the box's own left margin, border and padding; its top edge below
      the containing block's content laid out so far (its height) and the
      box's own top margin, border and padding. */
  function Placed(d: Dimensions, containingBlock: Dimensions): Dimensions
  {
    d.(content := d.content.(
      x := containingBlock.content.x + d.margin.left + d.border.left + d.padding.left,
      y := containingBlock.content.height + containingBlock.content.y + d.margin.top + d.border.top + d.padding.top))
  }

  /** `calculate_block_position`. */
  method CalculateBlockPosition(b: LayoutBox, containingBlock: Dimensions) returns (r: LayoutBox)
    requires !b.boxType.AnonymousBlock?
    ensures r == b.(dimensions := Placed(WithVerticalEdges(b.dimensions, StyleNode(b)), containingBlock))
  {
    var style := StyleNode(b);
    var zero := ZeroPx;
    var d := b.dimensions;
    d := d.(margin := d.margin.(top := style.Lookup("margin-top", "margin", zero).ToPx()));
    d := d.(margin := d.margin.(bottom := style.Lookup("margin-bottom", "margin", zero).ToPx()));
    d := d.(border := d.border.(top := style.Lookup("border-top-width", "border-width", zero).ToPx()));
    d := d.(border := d.border.(bottom := style.Lookup("border-bottom-width", "border-width", zero).ToPx()));
    d := d.(padding := d.padding.(top := style.Lookup("padding-top", "padding", zero).ToPx()));
    d := d.(padding := d.padding.(bottom := style.Lookup("padding-bottom", "padding", zero).ToPx()));
    d := d.(content := d.content.(x := containingBlock.content.x + d.margin.left + d.border.left + d.padding.left));
    d := d.(content := d.content.(y := containingBlock.content.height + containingBlock.content.y
                                      + d.margin.top + d.border.top + d.padding.top));
    r := b.(dimensions := d);
  }

  /** `calculate_inline_position`. */
  method CalculateInlinePosition(b: LayoutBox, containingBlock: Dimensions) returns (r: LayoutBox)
    requires !b.boxType.AnonymousBlock?
    ensures r == b.(dimensions := Placed(WithVerticalEdges(WithInlineMargins(b.dimensions, StyleNode(b)), StyleNode(b)), containingBlock))
  {
    var style := StyleNode(b);
    var zero := ZeroPx;
    var d := b.dimensions;
    d := d.(margin := d.margin.(left := style.Lookup("margin-left", "margin", zero).ToPx()));
    d := d.(margin := d.margin.(right := style.Lookup("margin-right", "margin", zero).ToPx()));
    d := d.(margin := d.margin.(top := style.Lookup("margin-top", "margin", zero).ToPx()));
    d := d.(margin := d.margin.(bottom := style.Lookup("margin-bottom", "margin", zero).ToPx()));
    d := d.(border := d.border.(top := style.Lookup("border-top-width", "border-width", zero).ToPx()));
    d := d.(border := d.border.(bottom := style.Lookup("border-bottom-width", "border-width", zero).ToPx()));
    d := d.(padding := d.padding.(top := style.Lookup("padding-top", "padding", zero).ToPx()));
    d := d.(padding := d.padding.(bottom := style.Lookup("padding-bottom", "padding", zero).ToPx()));
    d := d.(content := d.content.(x := containingBlock.content.x + d.margin.left + d.border.left + d.padding.left));
    d := d.(content := d.content.(y := containingBlock.content.height + containingBlock.content.y
                                      + d.margin.top + d.border.top + d.padding.top));
    r := b.(dimensions := d);
  }

  /** The `height` of a box when it is given as a px length. */
  function ExplicitHeight(style: StyledNode): (r: Option<real>)
    ensures r.Some? <==> exists h :: style.Value("height") == Some(Length(h, Px))
    ensures r.Some? ==> style.Value("height") == Some(Length(r.value, Px))
  {
    match style.Value("height")
    case Some(Length(h, Px)) => Some(h)
    case _ => None
  }

  /** An explicit px height overrides the height the children gave. */
  function WithExplicitHeight(d: Dimensions, style: StyledNode): Dimensions
  {
    match ExplicitHeight(style)
    case Some(h) => d.(content := d.content.(height := h))
    case None => d
  }

  /** `calculate_block_height`. */
  method CalculateBlockHeight(b: LayoutBox) returns (r: LayoutBox)
    requires !b.boxType.AnonymousBlock?
    ensures r == b.(dimensions := WithExplicitHeight(b.dimensions, StyleNode(b)))
  {
    r := b;
    match StyleNode(b).Value("height")
    case Some(Length(h, Px)) =>
      r := b.(dimensions := b.dimensions.(content := b.dimensions.content.(height := h)));
    case _ =>
  }

  /** Text is sized by a fixed metric: 8px per byte of its UTF-8 encoding,
      16px high; an element keeps the size its children gave it. */
  function TextSized(d: Dimensions, style: StyledNode): Dimensions
  {
    match style.node.data
    case Element(_) => d
    case Text(body) => d.(content := d.content.(width := Chars.Utf8Length(body) as real * 8.0, height := 16.0))
  }

  // ---------------------------------------------------------------------------
  // Laying out the tree

  /** The three loops over children: a block stacks its children in its own
      content box; an inline box does the same and takes the margin-box
      width of each child in turn; an anonymous block lays every child out
      against its own containing block, accumulating height and taking
      widths the same way. */
  datatype Flow = BlockFlow | InlineFlow | AnonymousFlow(containingBlock: Dimensions)

  /** The total margin-box height of a run of boxes. */
  function SumHeights(kids: seq<LayoutBox>): real
  {
    if kids == [] then 0.0 else MarginBox(kids[0].dimensions).height + SumHeights(kids[1..])
  }

  /** The box laid out against a containing block. */
  function LayoutOf(b: LayoutBox, containingBlock: Dimensions): LayoutBox
    decreases b
  {
    match b.boxType
    case BlockNode(style) =>
      var solved := WithWidths(b.dimensions, SolveWidth(Horizontal(style), containingBlock.content.width));
      var placed := Placed(WithVerticalEdges(solved, style), containingBlock);
      var (d, kids) := FlowChildren(BlockFlow, placed, b.children);
      LayoutBox(WithExplicitHeight(d, style), b.boxType, kids)
    case InlineNode(style) =>
      var placed := Placed(WithVerticalEdges(WithInlineMargins(b.dimensions, style), style), containingBlock);
      var (d, kids) := FlowChildren(InlineFlow, placed, b.children);
      LayoutBox(TextSized(d, style), b.boxType, kids)
    case AnonymousBlock =>
      var (d, kids) := FlowChildren(AnonymousFlow(containingBlock), b.dimensions, b.children);
      LayoutBox(d, b.boxType, kids)
  }

  /** The parent's dimensions and its laid-out children after a loop over
      `kids` that starts from the parent's dimensions `d`. */
  function FlowChildren(flow: Flow, d: Dimensions, kids: seq<LayoutBox>): (Dimensions, seq<LayoutBox>)
    decreases kids
  {
    if kids == [] then (d, [])
    else
      var child := LayoutOf(kids[0], ContainerFor(flow, d));
      var (last, rest) := FlowChildren(flow, Advance(flow, d, child), kids[1..]);
      (last, [child] + rest)
  }

  /** What a child of the loop is laid out against. */
  function ContainerFor(flow: Flow, d: Dimensions): Dimensions
  {
    if flow.AnonymousFlow? then flow.containingBlock else d
  }

  /** The parent's dimensions after one child: its height grows by the
      child's margin-box height and, except in a block, its width becomes
      the child's margin-box width. */
  function Advance(flow: Flow, d: Dimensions, child: LayoutBox): Dimensions
  {
    var m := MarginBox(child.dimensions);
    d.(content := d.content.(width := if flow.BlockFlow? then d.content.width else m.width,
                             height := d.content.height + m.height))
  }

  /** One turn of the child loop, as `FlowChildren` unfolds it from child `i`. */
  lemma FlowChildrenStep(flow: Flow, d: Dimensions, kids: seq<LayoutBox>, i: nat)
    requires i < |kids|
    ensures var child := LayoutOf(kids[i], ContainerFor(flow, d));
      var next := FlowChildren(flow, Advance(flow, d, child), kids[i + 1..]);
      FlowChildren(flow, d, kids[i..]) == (next.0, [child] + next.1)
  {
    assert kids[i..][0] == kids[i];
    assert kids[i..][1..] == kids[i + 1..];
  }

  /** `layout`: dispatch on the box type. */
  method Layout(b: LayoutBox, containingBlock: Dimensions) returns (r: LayoutBox)
    ensures r == LayoutOf(b, containingBlock)
    decreases b.children, 2
  {
    match b.boxType
    case BlockNode(_) =>
      r := LayoutBlock(b, containingBlock);
    case InlineNode(_) =>
      r := LayoutInline(b, containingBlock);
    case AnonymousBlock =>
      r := LayoutChildren(AnonymousFlow(containingBlock), b);
  }

  /** `layout_block`: widths first (they depend on the parent), then the
      position, then the children (they depend on the width), then the
      height (it depends on the children). */
  method LayoutBlock(b: LayoutBox, containingBlock: Dimensions) returns (r: LayoutBox)
    requires b.boxType.BlockNode?
    ensures r == LayoutOf(b, containingBlock)
    decreases b.children, 1
  {
    r := CalculateBlockWidth(b, containingBlock);
    r := CalculateBlockPosition(r, containingBlock);
    r := LayoutChildren(BlockFlow, r);
    r := CalculateBlockHeight(r);
  }

  /** `layout_inline`: position, children, then the text metric. */
  method LayoutInline(b: LayoutBox, containingBlock: Dimensions) returns (r: LayoutBox)
    requires b.boxType.InlineNode?
    ensures r == LayoutOf(b, containingBlock)
    decreases b.children, 1
  {
    r := CalculateInlinePosition(b, containingBlock);
    r := LayoutChildren(InlineFlow, r);
    match StyleNode(r).node.data
    case Element(_) =>
    case Text(body) =>
      r := r.(dimensions := r.dimensions.(content := r.dimensions.content.(width := Chars.Utf8Length(body) as real * 8.0)));
      r := r.(dimensions := r.dimensions.(content := r.dimensions.content.(height := 16.0)));
  }

  /** The loops of `layout_block_children`, `layout_inline_children` and the
      anonymous arm of `layout`, child by child in place. */
  method LayoutChildren(flow: Flow, b: LayoutBox) returns (r: LayoutBox)
    ensures r == b.(dimensions := FlowChildren(flow, b.dimensions, b.children).0,
                    children := FlowChildren(flow, b.dimensions, b.children).1)
    decreases b.children, 0
  {
    var d := b.dimensions;
    var kids := b.children;
    assert b.children[0..] == b.children && kids[..0] == [];
    assert [] + FlowChildren(flow, d, b.children).1 == FlowChildren(flow, d, b.children).1;
    for i := 0 to |kids|
      invariant |kids| == |b.children| && kids[i..] == b.children[i..]
      invariant FlowChildren(flow, b.dimensions, b.children) == Resumed(flow, d, kids[..i], b.children[i..])
    {
      ghost var before, d0 := kids, d;
      var child := Layout(kids[i], ContainerFor(flow, d));
      kids := kids[i := child];
      var marginBox := MarginBox(child.dimensions);
      if !flow.BlockFlow? {
        d := d.(content := d.content.(width := marginBox.width));
      }
      d := d.(content := d.content.(height := d.content.height + marginBox.height));
      ChildLaidOut(flow, d0, before, b.children, i);
    }
    assert kids[..|kids|] == kids;
    r := b.(dimensions := d, children := kids);
  }

  /** The outcome of the child loop when the children `done` are laid out
      already, the parent's dimensions are `d` and `pending` remain. */
  function Resumed(flow: Flow, d: Dimensions, done: seq<LayoutBox>, pending: seq<LayoutBox>): (Dimensions, seq<LayoutBox>)
  {
    var rest := FlowChildren(flow, d, pending);
    (rest.0, done + rest.1)
  }

  /** Laying out child `i` moves the loop on by one. */
  lemma ChildLaidOut(flow: Flow, d: Dimensions, kids: seq<LayoutBox>, children: seq<LayoutBox>, i: nat)
    requires i < |kids| == |children| && kids[i..] == children[i..]
    ensures var child := LayoutOf(kids[i], ContainerFor(flow, d));
      var kids' := kids[i := child];
      kids'[i + 1..] == children[i + 1..] &&
      Resumed(flow, Advance(flow, d, child), kids'[..i + 1], children[i + 1..]) == Resumed(flow, d, kids[..i], children[i..])
  {
    var child := LayoutOf(kids[i], ContainerFor(flow, d));
    var kids' := kids[i := child];
    SuffixStep(kids, children, i);
    FlowChildrenStep(flow, d, children, i);
    assert kids'[..i + 1] == kids[..i] + [child];
    assert kids'[i + 1..] == kids[i + 1..];
    var next := FlowChildren(flow, Advance(flow, d, child), children[i + 1..]);
    ConcatAssoc(kids[..i], [child], next.1);
  }

  /** `layout_tree`: the root is laid out against the viewport with its
      content height zeroed, so the root starts at the top. A hidden root
      (a panic in the source) gives no tree. */
  function LayoutTreeOf(node: StyledNode, viewport: Dimensions): Option<LayoutBox>
  {
    match MakeTreeOf(node)
    case None => None
    case Some(root) => Some(LayoutOf(root, viewport.(content := viewport.content.(height := 0.0))))
  }

  method LayoutTree(node: StyledNode, viewport: Dimensions) returns (r: Option<LayoutBox>)
    ensures r == LayoutTreeOf(node, viewport)
  {
    var containingBlock := viewport;
    containingBlock := containingBlock.(content := containingBlock.content.(height := 0.0));
    var root := MakeLayoutTree(node);
    match root
    case None =>
      r := None;
    case Some(b) =>
      var laid := Layout(b, containingBlock);
      r := Some(laid);
  }

  // ---------------------------------------------------------------------------
  // What layout promises

  /** The child loop changes only the parent's content width and height:
      the height grows by the margin-box height of every child; a block
      keeps its width, while an inline box or an anonymous block ends with
      the margin-box width of its last child. */
  lemma {:induction false} FlowChildrenSizes(flow: Flow, d: Dimensions, kids: seq<LayoutBox>)
    ensures var (last, laid) := FlowChildren(flow, d, kids);
      |laid| == |kids| &&
      last == d.(content := d.content.(width := last.content.width, height := last.content.height)) &&
      last.content.height == d.content.height + SumHeights(laid) &&
      (flow.BlockFlow? || kids == [] ==> last.content.width == d.content.width) &&
      (!flow.BlockFlow? && kids != [] ==> last.content.width == MarginBox(laid[|laid| - 1].dimensions).width)
    decreases kids
  {
    if kids != [] {
      var child := LayoutOf(kids[0], ContainerFor(flow, d));
      FlowChildrenSizes(flow, Advance(flow, d, child), kids[1..]);
      var rest := FlowChildren(flow, Advance(flow, d, child), kids[1..]).1;
      assert ([child] + rest)[1..] == rest;
      if rest != [] {
        assert ([child] + rest)[|rest|] == rest[|rest| - 1];
      }
    }
  }

  /** What child `i` of the loop is laid out against, once the children
      `done` before it are laid out. */
  function ContainerBefore(flow: Flow, d: Dimensions, done: seq<LayoutBox>): Dimensions
  {
    if flow.AnonymousFlow? then flow.containingBlock
    else
      d.(content := d.content.(
        width := if flow.InlineFlow? && done != [] then MarginBox(done[|done| - 1].dimensions).width else d.content.width,
        height := d.content.height + SumHeights(done)))
  }

  /** Children are stacked: each child of a block or inline box is laid out
      in the parent's box with the height of its earlier siblings already
      added (an inline box also passes on the width of the previous child),
      and each child of an anonymous block against that block's own
      containing block. */
  lemma {:induction false} FlowChildrenStacked(flow: Flow, d: Dimensions, kids: seq<LayoutBox>)
    ensures var laid := FlowChildren(flow, d, kids).1;
      |laid| == |kids| &&
      forall i :: 0 <= i < |kids| ==> laid[i] == LayoutOf(kids[i], ContainerBefore(flow, d, laid[..i]))
    decreases kids
  {
    FlowChildrenSizes(flow, d, kids);
    if kids != [] {
      var child := LayoutOf(kids[0], ContainerFor(flow, d));
      var d' := Advance(flow, d, child);
      FlowChildrenStacked(flow, d', kids[1..]);
      var rest := FlowChildren(flow, d', kids[1..]).1;
      var laid := [child] + rest;
      assert FlowChildren(flow, d, kids).1 == laid;
      assert ContainerBefore(flow, d, []) == ContainerFor(flow, d);
      forall i | 1 <= i < |kids|
        ensures laid[i] == LayoutOf(kids[i], ContainerBefore(flow, d, laid[..i]))
      {
        assert laid[i] == rest[i - 1] && kids[i] == kids[1..][i - 1];
        ContainerBeforeShift(flow, d, child, rest, i - 1);
      }
    }
  }

  /** The container a later child sees is the same whether counted from
      the parent's start, or from after the first child. */
  lemma ContainerBeforeShift(flow: Flow, d: Dimensions, child: LayoutBox, rest: seq<LayoutBox>, j: nat)
    requires j <= |rest|
    ensures ContainerBefore(flow, Advance(flow, d, child), rest[..j]) ==
            ContainerBefore(flow, d, ([child] + rest)[..j + 1])
  {
    var done := ([child] + rest)[..j + 1];
    assert done == [child] + rest[..j];
    assert done[1..] == rest[..j];
    assert SumHeights(done) == MarginBox(child.dimensions).height + SumHeights(rest[..j]);
  }

  /** A laid-out block or inline box sits in its containing block: its top
      and bottom margin, border and padding are the looked-up values, its
      content starts right of its left margin, border and padding, and
      below what the containing block holds so far and its own top margin,
      border and padding. */
  lemma LayoutPlacesBox(b: LayoutBox, containingBlock: Dimensions)
    requires !b.boxType.AnonymousBlock?
    ensures var r, style := LayoutOf(b, containingBlock).dimensions, StyleNode(b);
      r.margin.top == style.Lookup("margin-top", "margin", ZeroPx).ToPx() &&
      r.margin.bottom == style.Lookup("margin-bottom", "margin", ZeroPx).ToPx() &&
      r.border.top == style.Lookup("border-top-width", "border-width", ZeroPx).ToPx() &&
      r.border.bottom == style.Lookup("border-bottom-width", "border-width", ZeroPx).ToPx() &&
      r.padding.top == style.Lookup("padding-top", "padding", ZeroPx).ToPx() &&
      r.padding.bottom == style.Lookup("padding-bottom", "padding", ZeroPx).ToPx() &&
      r.content.x == containingBlock.content.x + r.margin.left + r.border.left + r.padding.left &&
      r.content.y == containingBlock.content.height + containingBlock.content.y + r.margin.top + r.border.top + r.padding.top
  {
    var style := StyleNode(b);
    if b.boxType.BlockNode? {
      var solved := WithWidths(b.dimensions, SolveWidth(Horizontal(style), containingBlock.content.width));
      FlowChildrenSizes(BlockFlow, Placed(WithVerticalEdges(solved, style), containingBlock), b.children);
    } else {
      FlowChildrenSizes(InlineFlow, Placed(WithVerticalEdges(WithInlineMargins(b.dimensions, style), style), containingBlock), b.children);
    }
  }

  /** A laid-out block holds the seven solved horizontal values. */
  lemma LayoutBlockWidths(b: LayoutBox, containingBlock: Dimensions)
    requires b.boxType.BlockNode?
    ensures var r, w := LayoutOf(b, containingBlock).dimensions, SolveWidth(Horizontal(StyleNode(b)), containingBlock.content.width);
      r.margin.right == w[0] && r.border.right == w[1] && r.padding.right == w[2] &&
      r.padding.left == w[3] && r.border.left == w[4] && r.margin.left == w[5] && r.content.width == w[6]
  {
    var style := StyleNode(b);
    var solved := WithWidths(b.dimensions, SolveWidth(Horizontal(style), containingBlock.content.width));
    FlowChildrenSizes(BlockFlow, Placed(WithVerticalEdges(solved, style), containingBlock), b.children);
  }

  /** A block's margin box is exactly as wide as its containing block
      whenever the width solve balances: the underflow is not negative, or
      the specified values and the containing width are not negative. */
  lemma BlockFillsContainer(b: LayoutBox, containingBlock: Dimensions)
    requires b.boxType.BlockNode?
    requires var vs, c := Horizontal(StyleNode(b)), containingBlock.content.width;
      c - Sum(Pixels(vs)) >= 0.0 || (c >= 0.0 && forall i :: 0 <= i < 7 ==> vs[i].ToPx() >= 0.0)
    ensures MarginBox(LayoutOf(b, containingBlock).dimensions).width == containingBlock.content.width
  {
    var vs, c := Horizontal(StyleNode(b)), containingBlock.content.width;
    var w := SolveWidth(vs, c);
    LayoutBlockWidths(b, containingBlock);
    SumOfSeven(w);
    if c - Sum(Pixels(vs)) < 0.0 {
      WidthOverConstrainedFits(vs, c);
    } else if vs[6] == Auto {
      WidthAutoFills(vs, c);
    } else {
      WidthMarginRightFills(vs, c);
    }
  }

  /** A block's height is its explicit px height if it has one, and
      otherwise what it had plus the margin-box heights of its children. */
  lemma LayoutBlockHeight(b: LayoutBox, containingBlock: Dimensions)
    requires b.boxType.BlockNode?
    ensures var r := LayoutOf(b, containingBlock);
      |r.children| == |b.children| &&
      r.dimensions.content.height ==
        (match ExplicitHeight(StyleNode(b))
         case Some(h) => h
         case None => b.dimensions.content.height + SumHeights(r.children))
  {
    var style := StyleNode(b);
    var solved := WithWidths(b.dimensions, SolveWidth(Horizontal(style), containingBlock.content.width));
    var placed := Placed(WithVerticalEdges(solved, style), containingBlock);
    var flowed := FlowChildren(BlockFlow, placed, b.children);
    assert LayoutOf(b, containingBlock) == LayoutBox(WithExplicitHeight(flowed.0, style), b.boxType, flowed.1);
    assert placed.content.height == b.dimensions.content.height;
    FlowChildrenSizes(BlockFlow, placed, b.children);
  }

  /** Each child of a block is laid out in the block's final box with the
      heights of its earlier siblings added to the block's starting
      height. */
  lemma LayoutBlockStacked(b: LayoutBox, containingBlock: Dimensions, i: nat)
    requires b.boxType.BlockNode? && i < |b.children|
    ensures var r := LayoutOf(b, containingBlock);
      i < |r.children| &&
      r.children[i] == LayoutOf(b.children[i], r.dimensions.(content := r.dimensions.content.(
        height := b.dimensions.content.height + SumHeights(r.children[..i]))))
  {
    var style := StyleNode(b);
    var solved := WithWidths(b.dimensions, SolveWidth(Horizontal(style), containingBlock.content.width));
    var placed := Placed(WithVerticalEdges(solved, style), containingBlock);
    var flowed := FlowChildren(BlockFlow, placed, b.children);
    var d, kids := flowed.0, flowed.1;
    var r := LayoutOf(b, containingBlock);
    assert r == LayoutBox(WithExplicitHeight(d, style), b.boxType, kids);
    assert placed.content.height == b.dimensions.content.height;
    assert |kids| == |b.children| && d == placed.(content := placed.content.(height := d.content.height)) by {
      FlowChildrenSizes(BlockFlow, placed, b.children);
    }
    assert kids[i] == LayoutOf(b.children[i], ContainerBefore(BlockFlow, placed, kids[..i])) by {
      FlowChildrenStacked(BlockFlow, placed, b.children);
    }
    assert r.dimensions.(content := r.dimensions.content.(height := b.dimensions.content.height + SumHeights(kids[..i])))
      == ContainerBefore(BlockFlow, placed, kids[..i]);
  }

  /** An inline box takes its left and right margin from the style but
      keeps the left and right border and padding it had; text gets the
      fixed text metric, and an element the height of its children and the
      margin-box width of its last child. */
  lemma LayoutInlineBox(b: LayoutBox, containingBlock: Dimensions)
    requires b.boxType.InlineNode?
    ensures var r, style := LayoutOf(b, containingBlock), StyleNode(b);
      r.dimensions.margin.left == style.Lookup("margin-left", "margin", ZeroPx).ToPx() &&
      r.dimensions.margin.right == style.Lookup("margin-right", "margin", ZeroPx).ToPx() &&
      r.dimensions.border.left == b.dimensions.border.left && r.dimensions.border.right == b.dimensions.border.right &&
      r.dimensions.padding.left == b.dimensions.padding.left && r.dimensions.padding.right == b.dimensions.padding.right &&
      |r.children| == |b.children| &&
      (style.node.data.Text? ==>
        r.dimensions.content.width == Chars.Utf8Length(style.node.data.text) as real * 8.0 &&
        r.dimensions.content.height == 16.0) &&
      (style.node.data.Element? ==>
        r.dimensions.content.height == b.dimensions.content.height + SumHeights(r.children) &&
        r.dimensions.content.width ==
          (if b.children == [] then b.dimensions.content.width
           else MarginBox(r.children[|r.children| - 1].dimensions).width))
  {
    var style := StyleNode(b);
    FlowChildrenSizes(InlineFlow, Placed(WithVerticalEdges(WithInlineMargins(b.dimensions, style), style), containingBlock), b.children);
  }

  /** An anonymous block lays every child out against its own containing
      block, never moves itself, grows by the margin-box heights of its
      children and takes the margin-box width of the last one. */
  lemma LayoutAnonymousBlock(b: LayoutBox, containingBlock: Dimensions)
    requires b.boxType.AnonymousBlock?
    ensures var r := LayoutOf(b, containingBlock);
      |r.children| == |b.children| &&
      (forall i :: 0 <= i < |b.children| ==> r.children[i] == LayoutOf(b.children[i], containingBlock)) &&
      r.dimensions == b.dimensions.(content := b.dimensions.content.(
        width := if b.children == [] then b.dimensions.content.width
                 else MarginBox(r.children[|r.children| - 1].dimensions).width,
        height := b.dimensions.content.height + SumHeights(r.children)))
  {
    FlowChildrenSizes(AnonymousFlow(containingBlock), b.dimensions, b.children);
    FlowChildrenStacked(AnonymousFlow(containingBlock), b.dimensions, b.children);
  }

  /** Two box trees with the same box types in the same places. */
  predicate SameShape(a: LayoutBox, b: LayoutBox)
    decreases a
  {
    a.boxType == b.boxType && |a.children| == |b.children| &&
    forall i :: 0 <= i < |a.children| ==> SameShape(a.children[i], b.children[i])
  }

  /** Layout sizes and places boxes but never adds, drops, moves or retypes one. */
  lemma {:induction false} LayoutKeepsShape(b: LayoutBox, containingBlock: Dimensions)
    ensures SameShape(LayoutOf(b, containingBlock), b)
    decreases b
  {
    var r := LayoutOf(b, containingBlock);
    match b.boxType
    case BlockNode(style) =>
      var solved := WithWidths(b.dimensions, SolveWidth(Horizontal(style), containingBlock.content.width));
      FlowKeepsShape(BlockFlow, Placed(WithVerticalEdges(solved, style), containingBlock), b.children);
    case InlineNode(style) =>
      FlowKeepsShape(InlineFlow, Placed(WithVerticalEdges(WithInlineMargins(b.dimensions, style), style), containingBlock), b.children);
    case AnonymousBlock =>
      FlowKeepsShape(AnonymousFlow(containingBlock), b.dimensions, b.children);
  }

  lemma {:induction false} FlowKeepsShape(flow: Flow, d: Dimensions, kids: seq<LayoutBox>)
    ensures var laid := FlowChildren(flow, d, kids).1;
      |laid| == |kids| && forall i :: 0 <= i < |kids| ==> SameShape(laid[i], kids[i])
    decreases kids
  {
    if kids != [] {
      var child := LayoutOf(kids[0], ContainerFor(flow, d));
      LayoutKeepsShape(kids[0], ContainerFor(flow, d));
      FlowKeepsShape(flow, Advance(flow, d, child), kids[1..]);
      var rest := FlowChildren(flow, Advance(flow, d, child), kids[1..]).1;
      forall i | 1 <= i < |kids|
        ensures SameShape(([child] + rest)[i], kids[i])
      {
        assert ([child] + rest)[i] == rest[i - 1] && kids[i] == kids[1..][i - 1];
      }
    }
  }

  /** The box-tree invariant depends on the shape of the tree only. */
  lemma {:induction false} SameShapeWellFormed(a: LayoutBox, b: LayoutBox)
    requires SameShape(a, b) && WellFormed(b)
    ensures WellFormed(a)
    decreases a
  {
    forall i | 0 <= i < |a.children|
      ensures WellFormed(a.children[i])
    {
      SameShapeWellFormed(a.children[i], b.children[i]);
    }
    assert ChildrenFit(a.boxType, a.children);
  }

  /** `layout_tree` gives a tree exactly when the root is displayed; the
      tree keeps the box-tree invariant; its root starts at the top left of
      the viewport's content, inside its own margin, border and padding. */
  lemma LayoutTreeRoot(node: StyledNode, viewport: Dimensions)
    ensures LayoutTreeOf(node, viewport).Some? <==> node.Display() != DisplayNone
    ensures node.Display() != DisplayNone ==>
      var root := LayoutTreeOf(node, viewport).value;
      var r := root.dimensions;
      WellFormed(root) && root.boxType == BoxTypeOf(node) &&
      r.content.x == viewport.content.x + r.margin.left + r.border.left + r.padding.left &&
      r.content.y == viewport.content.y + r.margin.top + r.border.top + r.padding.top
  {
    if node.Display() != DisplayNone {
      var cb := viewport.(content := viewport.content.(height := 0.0));
      var tree := TreeOf(node);
      TreeWellFormed(node);
      TreeWithChildrenType(node, |node.children|);
      LayoutKeepsShape(tree, cb);
      SameShapeWellFormed(LayoutOf(tree, cb), tree);
      LayoutPlacesBox(tree, cb);
    }
  }

  /** A block root without an explicit height is exactly as tall as the
      margin boxes of its children. */
  lemma LayoutTreeRootHeight(node: StyledNode, viewport: Dimensions)
    requires node.Display() == Block && ExplicitHeight(node).None?
    ensures var root := LayoutTreeOf(node, viewport).value;
      root.dimensions.content.height == SumHeights(root.children)
  {
    var cb := viewport.(content := viewport.content.(height := 0.0));
    TreeWithChildrenType(node, |node.children|);
    LayoutBlockHeight(TreeOf(node), cb);
  }
}
