/**
 * Concrete trees from the demo screen (example/src/App.tsx) and the shapes
 * the transform gives them.
 *
 * Some lemmas take a tree as a parameter with `requires row == Row()`
 * instead of stating the fact about `Row()` directly. The fact is the same;
 * the parameter keeps the verifier from unfolding the transform over the
 * whole literal tree at once.
 */
module Fixtures {
  import opened Js
  import opened Styles
  import opened Elements
  import opened Placeholders
  import opened CloneProperties

  function HostElement(kind: ComponentType, style: StyleMap, children: Node): Node {
    Elem(kind, Props(Undefined, Sheet(style), children))
  }

  /** `styles.text` of the demo screen. */
  const TextStyle: StyleMap := map[Other("fontSize") := Num(18.0), Height := Num(30.0),
                                   BackgroundColor := Str("#eee"), MarginBottom := Num(8.0)]

  /** `styles.rowText`: the label inside the row's flexible cell. */
  const RowTextStyle: StyleMap := map[Other("fontSize") := Num(16.0), Height := Num(25.0),
                                      BackgroundColor := Str("#eee")]

  /** The red 50x50 round avatar of the demo row. */
  const AvatarStyle: StyleMap := map[Width := Num(50.0), Height := Num(50.0),
                                     BorderRadius := Num(50.0), BackgroundColor := Str("red")]

  /** The demo row: laid out, but without width, height or flex. */
  const RowStyle: StyleMap := map[FlexDirection := Str("row"), Gap := Num(20.0),
                                  MarginTop := Num(20.0), AlignItems := Str("center")]

  /** The flexible middle cell: `flex: 1` and nothing else. */
  const FlexStyle: StyleMap := map[Flex := Num(1.0)]

  /** `<Text style={styles.text}>Another Text</Text>`. */
  function Label(): Node {
    HostElement(HostText, TextStyle, Leaf(Str("Another Text")))
  }

  /** `<Text style={styles.rowText}>Row Text</Text>`. */
  function RowLabel(): Node {
    HostElement(HostText, RowTextStyle, Leaf(Str("Row Text")))
  }

  function Avatar(): Node {
    HostElement(HostView, AvatarStyle, Leaf(Undefined))
  }

  /** The flexible middle cell of the row, holding the row label. */
  function FlexCell(): Node {
    HostElement(HostView, FlexStyle, RowLabel())
  }

  function Row(): Node {
    HostElement(HostView, RowStyle, List([Avatar(), FlexCell(), Avatar()]))
  }

  /** A `styles.text` label becomes a 30-high, 90%-wide grey bar with its bottom margin kept. */
  lemma LabelBecomesBar(index: Index)
    ensures var out := Synthesize(Label(), index);
      && out.Block?
      && Sets(out.style, Height, Num(30.0))
      && Sets(out.style, Width, Str("90%"))
      && Sets(out.style, MarginBottom, Num(8.0))
      && Sets(out.style, BackgroundColor, Grey)
  {
    TextElement(HostText, Label().props, index);
  }

  /** What the transform reads from the avatar's style. */
  lemma AvatarStyleFacts()
    ensures HasBackgroundAndSize(AvatarStyle) && HasDimensions(AvatarStyle)
    ensures Get(AvatarStyle, Width) == Num(50.0) && Get(AvatarStyle, Height) == Num(50.0)
    ensures Get(AvatarStyle, BorderRadius) == Num(50.0)
  {
  }

  /** The view shape of the childless avatar. */
  lemma AvatarShape(key: Key)
    ensures var out := ViewShape(key, AvatarStyle, NullChildren);
      && out.Block?
      && Sets(out.style, BackgroundColor, Grey)
      && Sets(out.style, Width, Num(50.0))
      && Sets(out.style, Height, Num(50.0))
      && Sets(out.style, BorderRadius, Num(50.0))
  {
    AvatarStyleFacts();
    var layout := LayoutStyle(AvatarStyle, false);
    assert ViewShape(key, AvatarStyle, NullChildren) == Block(key, layout[BackgroundColor := Grey]);
    assert LayoutAttributes[0] == Width && LayoutAttributes[1] == Height && LayoutAttributes[2] == BorderRadius;
    LayoutStyleFacts(AvatarStyle, false);
  }

  /** A keyless, childless View with the avatar's style, as `Avatar()` is. */
  predicate AvatarLike(n: Node) {
    n.Elem? && n.kind == HostView && n.props.key == Undefined
    && n.props.style == Sheet(AvatarStyle) && !NodeTruthy(n.props.children)
  }

  /** A keyless View with the flexible cell's style, as `FlexCell()` is. */
  predicate FlexCellLike(n: Node) {
    n.Elem? && n.kind == HostView && n.props.key == Undefined && n.props.style == Sheet(FlexStyle)
  }

  /** The red avatar, keyless and childless, becomes a grey block of the same size and radius. */
  lemma AvatarBecomesGreyBlock(props: Props, index: Index)
    requires props.key == Undefined && props.style == Sheet(AvatarStyle) && !NodeTruthy(props.children)
    ensures var out := Synthesize(Elem(HostView, props), index);
      && out.Block?
      && out.key == Generated(index)
      && Sets(out.style, BackgroundColor, Grey)
      && Sets(out.style, Width, Num(50.0))
      && Sets(out.style, Height, Num(50.0))
      && Sets(out.style, BorderRadius, Num(50.0))
  {
    ViewClones(HostView, props, index);
    AvatarShape(Generated(index));
  }

  /** The same avatar around a Text child keeps its structure instead. */
  lemma AvatarWithLabelStaysContainer(line: Node, index: Index)
    requires line == Label()  // the fixture, passed as a parameter (see the module comment)
    ensures var out := Synthesize(HostElement(HostView, AvatarStyle, line), index);
      && out.Container?
      && out.children == Mapped([Synthesize(line, Some(0))])
      && AlignSelf !in out.style
  {
    var props := Props(Undefined, Sheet(AvatarStyle), line);
    AvatarStyleFacts();
    ViewElement(HostView, props, index);
    LabelBecomesBar(Some(0));
    SingleChild(line);
  }

  /** Three non-array children are mapped one by one, with indices 0, 1 and 2. */
  lemma ThreeChildren(a: Node, b: Node, c: Node)
    requires !a.List? && !b.List? && !c.List?
    ensures ChildrenMapped(List([a, b, c])) ==
      Spliced(Synthesize(a, Some(0))) + Spliced(Synthesize(b, Some(1))) + Spliced(Synthesize(c, Some(2)))
  {
    var items := [a, b, c];
    assert items[1..] == [b, c] && items[1..][1..] == [c] && items[1..][1..][1..] == [];
    assert Leaves(a) == [a] && Leaves(b) == [b] && Leaves(c) == [c];
    assert LeavesOf([c]) == [c] + LeavesOf([]);
    assert LeavesOf([b, c]) == [b] + LeavesOf([c]);
    assert LeavesOf(items) == [a] + LeavesOf([b, c]);
    assert Leaves(List(items)) == [a, b, c];
    assert CallbackSpliced([c], 2) == Spliced(Synthesize(c, Some(2))) + CallbackSpliced([], 3);
    assert CallbackSpliced([b, c], 1) == Spliced(Synthesize(b, Some(1))) + CallbackSpliced([c], 2);
    assert CallbackSpliced(items, 0) == Spliced(Synthesize(a, Some(0))) + CallbackSpliced([b, c], 1);
  }

  /** The row has children but no width, height or flex, so it becomes a stretching container. */
  lemma RowStretches(row: Node, index: Index)
    requires row == Row()  // the fixture, passed as a parameter (see the module comment)
    ensures var out := Synthesize(row, index);
      && out.Container?
      && Sets(out.style, AlignSelf, Str("stretch"))
  {
    var vs := Resolve(row.props.style);
    assert vs == RowStyle;
    assert !HasDimensions(vs) && !HasBackgroundAndSize(vs);
    ViewElement(HostView, row.props, index);
  }

  /** Without background colour, the flexible cell stays a container whatever its children. */
  lemma FlexCellShape(key: Key, cloned: ClonedChildren)
    ensures ViewShape(key, FlexStyle, cloned).Container?
  {
    assert !Truthy(Get(FlexStyle, BackgroundColor));
  }

  /** The demo row holds an avatar, the flexible cell and another avatar. */
  lemma RowParts()
    ensures Row().props.children == List([Avatar(), FlexCell(), Avatar()])
    ensures AvatarLike(Avatar()) && FlexCellLike(FlexCell())
  {
  }

  /** The row's children map to a grey block, a container and a grey block, in order. */
  lemma RowChildren(first: Node, middle: Node, last: Node)
    requires AvatarLike(first) && FlexCellLike(middle) && AvatarLike(last)
    ensures var kids := ChildrenMapped(List([first, middle, last]));
      && |kids| == 3
      && kids[0].Block? && kids[0].key == Generated(Some(0))
      && kids[1].Container? && kids[1].key == Generated(Some(1))
      && kids[2].Block? && kids[2].key == Generated(Some(2))
  {
    var a, b, c := Synthesize(first, Some(0)), Synthesize(middle, Some(1)), Synthesize(last, Some(2));
    assert a.Block? && a.key == Generated(Some(0)) by {
      AvatarBecomesGreyBlock(first.props, Some(0));
    }
    assert c.Block? && c.key == Generated(Some(2)) by {
      AvatarBecomesGreyBlock(last.props, Some(2));
    }
    assert b.Container? && b.key == Generated(Some(1)) by {
      ViewClones(HostView, middle.props, Some(1));
      FlexCellShape(Generated(Some(1)), Mapped(ChildrenMapped(middle.props.children)));
    }
    assert ChildrenMapped(List([first, middle, last])) == [a, b, c] by {
      ThreeChildren(first, middle, last);
      assert Spliced(a) == [a] && Spliced(b) == [b] && Spliced(c) == [c];
    }
  }

  /** The whole demo row: a stretching container of a grey block, a container and a grey block. */
  lemma RowSkeleton(row: Node, index: Index)
    requires row == Row()  // the fixture, passed as a parameter (see the module comment)
    ensures var out := Synthesize(row, index);
      && out.Container? && out.children.Mapped?
      && |out.children.list| == 3
      && out.children.list[0].Block? && out.children.list[1].Container? && out.children.list[2].Block?
  {
    RowParts();
    var kids := ChildrenMapped(List([Avatar(), FlexCell(), Avatar()]));
    assert |kids| == 3 && kids[0].Block? && kids[1].Container? && kids[2].Block? by {
      RowChildren(Avatar(), FlexCell(), Avatar());
    }
    assert Synthesize(row, index).children == Mapped(kids) by {
      RowStretches(row, index);
      ViewElement(HostView, row.props, index);
    }
  }

  /** A component that throws while rendering falls back to its Text child. */
  lemma ThrowingComponentFallsBack(line: Node, index: Index)
    requires line == Label()  // the fixture, passed as a parameter (see the module comment)
    ensures Synthesize(Elem(Callable(1, Threw(JsError("boom"))), Props(Undefined, NoStyle, line)), index)
         == Items([Synthesize(line, Some(0))])
  {
    var props := Props(Undefined, NoStyle, line);
    FunctionComponent(1, Threw(JsError("boom")), props, index);
    LabelBecomesBar(Some(0));
    SingleChild(line);
  }
}
