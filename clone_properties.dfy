/**
 * What `cloneElement` guarantees: no user throw escapes it, its output keeps
 * the placeholder invariant, arrays map position by position, children are
 * mapped as `React.Children.map` documents, and each element kind gets the
 * placeholder its branch promises.
 */
module CloneProperties {
  import opened Js
  import opened Styles
  import opened Elements
  import opened Placeholders
  import opened Shimmer

  // ---------------------------------------------------------------------------
  // No throw escapes
  // ---------------------------------------------------------------------------

  /**
   * Every throw of a user render step is caught: the transform always
   * completes normally, even though a throw from a mapped child would
   * propagate through `React.Children.map`.
   */
  lemma {:induction false} CloneNeverThrows(n: Node, index: Index)
    ensures Clone(n, index).Ok?
    decreases n, 0
  {
    match n
    case Leaf(_) =>
    case List(items) => CloneEachNeverThrows(items, 0);
    case Elem(_, props) => CloneChildrenNeverThrows(props.children);
  }

  lemma {:induction false} CloneEachNeverThrows(items: seq<Node>, offset: nat)
    ensures CloneEach(items, offset).Ok?
    decreases items, 0
  {
    if items != [] {
      CloneNeverThrows(items[0], Some(offset));
      CloneEachNeverThrows(items[1..], offset + 1);
    }
  }

  lemma {:induction false} CloneChildrenNeverThrows(children: Node)
    ensures CloneChildren(children).Ok?
    decreases children, 2
  {
    if NodeTruthy(children) {
      MapChildrenNeverThrows(children, 0);
    }
  }

  lemma {:induction false} MapChildrenNeverThrows(children: Node, count: nat)
    ensures MapChildren(children, count).Ok?
    decreases children, 1
  {
    match children
    case List(items) => MapChildListNeverThrows(items, count);
    case _ => CloneNeverThrows(children, Some(count));
  }

  lemma {:induction false} MapChildListNeverThrows(items: seq<Node>, count: nat)
    ensures MapChildList(items, count).Ok?
    decreases items, 0
  {
    if items != [] {
      MapChildrenNeverThrows(items[0], count);
      MapChildListNeverThrows(items[1..], MapChildren(items[0], count).value.1);
    }
  }

  /** The placeholder tree `cloneElement(n, index)` returns (it always returns). */
  function Synthesize(n: Node, index: Index): (r: Placeholder)
    ensures Clone(n, index) == Ok(r)
  {
    CloneNeverThrows(n, index);
    Clone(n, index).value
  }

  // ---------------------------------------------------------------------------
  // The output invariant
  // ---------------------------------------------------------------------------

  /**
   * Whatever the input, every block in the output is the neutral grey, no
   * container copies a background colour, and every mapped child list is
   * flat and free of `null`.
   */
  lemma CloneIsShaped(n: Node, index: Index)
    ensures Shaped(Synthesize(n, index))
  {
    CloneShaped(n, index);
  }

  lemma {:induction false} CloneShaped(n: Node, index: Index)
    ensures Clone(n, index).Ok? ==> Shaped(Clone(n, index).value)
    decreases n, 1
  {
    match n
    case Leaf(_) =>
    case List(items) => CloneEachShaped(items, 0);
    case Elem(kind, props) =>
      if kind.Callable? || IsClassComponent(kind) {
        ComponentShaped(n, index);
      } else {
        HostShaped(n, index);
      }
  }

  /** A component renders to a shaped tree or recovers to its shaped children. */
  lemma {:induction false} ComponentShaped(n: Node, index: Index)
    requires n.Elem? && (n.kind.Callable? || IsClassComponent(n.kind))
    ensures Clone(n, index).Ok? ==> Shaped(Clone(n, index).value)
    decreases n, 0
  {
    var outcome := if n.kind.Callable? then n.kind.call else n.kind.instantiate;
    CloneRenderedShaped(outcome, index);
    RecoverShaped(n.props.children);
  }

  /** Any other element is a text bar, a view shape or a fragment of shaped children. */
  lemma {:induction false} HostShaped(n: Node, index: Index)
    requires n.Elem? && !n.kind.Callable? && !IsClassComponent(n.kind)
    ensures Clone(n, index).Ok? ==> Shaped(Clone(n, index).value)
    decreases n, 0
  {
    var key, vs, children := KeyFor(n.props.key, index), Resolve(n.props.style), n.props.children;
    if IsText(n.kind) {
      TextBarShaped(key, vs);
    } else {
      CloneChildrenNeverThrows(children);
      CloneChildrenShaped(children);
      var cloned := CloneChildren(children).value;
      if IsView(n.kind) && !n.kind.Absent? {
        assert Clone(n, index) == Ok(ViewShape(key, vs, cloned));
        ViewShapeShaped(key, vs, cloned);
      }
    }
  }

  lemma {:induction false} RecoverShaped(children: Node)
    ensures Recover(children).Ok? ==> Shaped(Recover(children).value)
    decreases children, 4
  {
    CloneChildrenShaped(children);
  }

  lemma {:induction false} CloneRenderedShaped(outcome: RenderOutcome, index: Index)
    ensures CloneRendered(outcome, index).Ok? ==> Shaped(CloneRendered(outcome, index).value)
    decreases outcome, 0
  {
    if outcome.Returned? {
      CloneShaped(outcome.output, index);
    }
  }

  lemma {:induction false} CloneEachShaped(items: seq<Node>, offset: nat)
    ensures CloneEach(items, offset).Ok? ==>
      forall i :: 0 <= i < |CloneEach(items, offset).value| ==> Shaped(CloneEach(items, offset).value[i])
    decreases items, 0
  {
    if items != [] {
      CloneShaped(items[0], Some(offset));
      CloneEachShaped(items[1..], offset + 1);
    }
  }

  lemma {:induction false} CloneChildrenShaped(children: Node)
    ensures CloneChildren(children).Ok? && CloneChildren(children).value.Mapped? ==>
      ShapedChildren(CloneChildren(children).value.list)
    decreases children, 3
  {
    if NodeTruthy(children) {
      MapChildrenShaped(children, 0);
    }
  }

  lemma {:induction false} MapChildrenShaped(children: Node, count: nat)
    ensures MapChildren(children, count).Ok? ==> ShapedChildren(MapChildren(children, count).value.0)
    decreases children, 2
  {
    match children
    case List(items) => MapChildListShaped(items, count);
    case _ =>
      CloneShaped(children, Some(count));
      if Clone(children, Some(count)).Ok? {
        SplicedShaped(Clone(children, Some(count)).value);
      }
  }

  lemma {:induction false} MapChildListShaped(items: seq<Node>, count: nat)
    ensures MapChildList(items, count).Ok? ==> ShapedChildren(MapChildList(items, count).value.0)
    decreases items, 0
  {
    if items != [] && MapChildList(items, count).Ok? {
      var head := MapChildren(items[0], count).value;
      MapChildrenShaped(items[0], count);
      MapChildListShaped(items[1..], head.1);
      ShapedChildrenAppend(head.0, MapChildList(items[1..], head.1).value.0);
    }
  }

  // ---------------------------------------------------------------------------
  // React.Children.map, by its documented behaviour
  // ---------------------------------------------------------------------------

  /** The children `React.Children.map` visits, in order: nested arrays are walked through. */
  function Leaves(children: Node): (r: seq<Node>)
    ensures forall i :: 0 <= i < |r| ==> !r[i].List?
    decreases children, 1
  {
    match children
    case List(items) => LeavesOf(items)
    case _ => [children]
  }

  function LeavesOf(items: seq<Node>): (r: seq<Node>)
    ensures forall i :: 0 <= i < |r| ==> !r[i].List?
    decreases items, 0
  {
    if items == [] then [] else Leaves(items[0]) + LeavesOf(items[1..])
  }

  /** The callback applied to each leaf with its position counted from `count`, the results spliced together. */
  function CallbackSpliced(leaves: seq<Node>, count: nat): seq<Placeholder>
    decreases leaves
  {
    if leaves == [] then []
    else Spliced(Synthesize(leaves[0], Some(count))) + CallbackSpliced(leaves[1..], count + 1)
  }

  /** `React.Children.map(children, cloneElement)` as documented. */
  function ChildrenMapped(children: Node): seq<Placeholder> {
    CallbackSpliced(Leaves(children), 0)
  }

  lemma {:induction false} CallbackSplicedAppend(a: seq<Node>, b: seq<Node>, count: nat)
    ensures CallbackSpliced(a + b, count) == CallbackSpliced(a, count) + CallbackSpliced(b, count + |a|)
    decreases a
  {
    if a == [] {
      assert a + b == b;
    } else {
      var head := Spliced(Synthesize(a[0], Some(count)));
      assert (a + b)[0] == a[0] && (a + b)[1..] == a[1..] + b;
      assert CallbackSpliced(a + b, count) == head + CallbackSpliced(a[1..] + b, count + 1);
      assert CallbackSpliced(a, count) == head + CallbackSpliced(a[1..], count + 1);
      CallbackSplicedAppend(a[1..], b, count + 1);
    }
  }

  /**
   * The recursive, counter-threading `MapChildren` is the documented
   * behaviour: every leaf is passed to the callback with its position among
   * all leaves, and the counter ends past the last leaf.
   */
  lemma {:induction false} MapChildrenAsDocumented(children: Node, count: nat)
    ensures MapChildren(children, count) ==
      Ok((CallbackSpliced(Leaves(children), count), count + |Leaves(children)|))
    decreases children, 1
  {
    match children
    case List(items) => MapChildListAsDocumented(items, count);
    case _ =>
      var cloned := Synthesize(children, Some(count));
      assert MapChildren(children, count) == Ok((Spliced(cloned), count + 1));
      assert Leaves(children) == [children];
      assert CallbackSpliced([children], count) == Spliced(cloned) + CallbackSpliced([], count + 1);
      assert Spliced(cloned) + [] == Spliced(cloned);
  }

  lemma {:induction false} MapChildListAsDocumented(items: seq<Node>, count: nat)
    ensures MapChildList(items, count) ==
      Ok((CallbackSpliced(LeavesOf(items), count), count + |LeavesOf(items)|))
    decreases items, 0
  {
    if items != [] {
      var first := Leaves(items[0]);
      MapChildrenAsDocumented(items[0], count);
      MapChildListAsDocumented(items[1..], count + |first|);
      CallbackSplicedAppend(first, LeavesOf(items[1..]), count);
    }
  }

  /** `props.children ? React.Children.map(props.children, cloneElement) : null`, as documented. */
  lemma CloneChildrenAsDocumented(children: Node)
    ensures CloneChildren(children) ==
      Ok(if NodeTruthy(children) then Mapped(ChildrenMapped(children)) else NullChildren)
  {
    MapChildrenAsDocumented(children, 0);
  }

  /** A single child that is not an array is passed to the callback alone, with index 0. */
  lemma SingleChild(child: Node)
    requires !child.List?
    ensures ChildrenMapped(child) == Spliced(Synthesize(child, Some(0)))
  {
    assert Leaves(child) == [child];
    assert [child][1..] == [];
    assert CallbackSpliced([child], 0) == Spliced(Synthesize(child, Some(0))) + CallbackSpliced([], 1);
  }

  // ---------------------------------------------------------------------------
  // Per-kind behaviour
  // ---------------------------------------------------------------------------

  /** Falsy values, strings, numbers, `true` and elements with a falsy `type` become `null`. */
  lemma NonElementsVanish(n: Node, index: Index)
    requires !NodeTruthy(n) || n.Leaf? || (n.Elem? && n.kind.Absent?)
    ensures Synthesize(n, index) == Empty
  {
  }

  lemma {:induction false} CloneEachElementwise(items: seq<Node>, offset: nat)
    ensures CloneEach(items, offset).Ok?
    ensures |CloneEach(items, offset).value| == |items|
    ensures forall i :: 0 <= i < |items| ==>
      CloneEach(items, offset).value[i] == Synthesize(items[i], Some(offset + i))
    decreases items
  {
    CloneEachNeverThrows(items, offset);
    if items != [] {
      CloneEachNeverThrows(items[1..], offset + 1);
      CloneEachElementwise(items[1..], offset + 1);
      var out := CloneEach(items, offset).value;
      assert out == [Synthesize(items[0], Some(offset))] + CloneEach(items[1..], offset + 1).value;
      forall i | 0 <= i < |items|
        ensures out[i] == Synthesize(items[i], Some(offset + i))
      {
        if i > 0 {
          assert items[1..][i - 1] == items[i];
        }
      }
    }
  }

  /**
   * An array becomes an array of the same length and order whose entry `i`
   * is entry `i` transformed with index `i`; `null` results stay in place.
   */
  lemma ArrayElementwise(items: seq<Node>, index: Index)
    ensures Synthesize(List(items), index).Items?
    ensures |Synthesize(List(items), index).items| == |items|
    ensures forall i :: 0 <= i < |items| ==>
      Synthesize(List(items), index).items[i] == Synthesize(items[i], Some(i))
  {
    CloneEachElementwise(items, 0);
  }

  /** What a component's `catch` block yields: the mapped children as an array, or `null`. */
  function Fallback(children: Node): Placeholder {
    if NodeTruthy(children) then Items(ChildrenMapped(children)) else Empty
  }

  lemma RecoverAsDocumented(children: Node)
    ensures Recover(children) == Ok(Fallback(children))
  {
    CloneChildrenAsDocumented(children);
  }

  /**
   * A function-typed `type` (other than `View` and `Text`): of arity 0 or 1
   * it is called and its truthy output transformed with the same index; of
   * higher arity, or with a falsy output, the element becomes `null`; when
   * the call throws, the children are mapped instead.
   */
  lemma FunctionComponent(arity: nat, call: RenderOutcome, props: Props, index: Index)
    ensures var out := Synthesize(Elem(Callable(arity, call), props), index);
      && (arity >= 2 ==> out == Empty)
      && (arity <= 1 && call.Threw? ==> out == Fallback(props.children))
      && (arity <= 1 && call.Returned? && !NodeTruthy(call.output) ==> out == Empty)
      && (arity <= 1 && call.Returned? && NodeTruthy(call.output) ==> out == Synthesize(call.output, index))
  {
    var n := Elem(Callable(arity, call), props);
    RecoverAsDocumented(props.children);
    if arity <= 1 {
      match call
      case Threw(e) =>
        assert CloneRendered(call, index) == Thrown(e);
        assert Clone(n, index) == Recover(props.children);
      case Returned(output) =>
        CloneNeverThrows(output, index);
        assert Clone(n, index) == CloneRendered(call, index);
    }
  }

  /**
   * A non-function `type` whose prototype is marked `isReactComponent`: the
   * same rule through `new type(props).render()`, whatever its display name.
   */
  lemma ClassComponent(displayName: Option<string>, instantiate: RenderOutcome, props: Props, index: Index)
    ensures var out := Synthesize(Elem(NonCallable(true, displayName, instantiate), props), index);
      && (instantiate.Threw? ==> out == Fallback(props.children))
      && (instantiate.Returned? && !NodeTruthy(instantiate.output) ==> out == Empty)
      && (instantiate.Returned? && NodeTruthy(instantiate.output) ==> out == Synthesize(instantiate.output, index))
  {
    var n := Elem(NonCallable(true, displayName, instantiate), props);
    RecoverAsDocumented(props.children);
    match instantiate
    case Threw(e) =>
      assert CloneRendered(instantiate, index) == Thrown(e);
      assert Clone(n, index) == Recover(props.children);
    case Returned(output) =>
      CloneNeverThrows(output, index);
      assert Clone(n, index) == CloneRendered(instantiate, index);
  }

  /**
   * A Text element becomes exactly one grey bar keyed `props.key` or
   * `shimmer-<index>`: height from the style or 20, width from the style or
   * '90%', radius 4, and the four margins copied.
   */
  lemma TextElement(kind: ComponentType, props: Props, index: Index)
    requires IsText(kind) && !IsClassComponent(kind)
    ensures var out := Synthesize(Elem(kind, props), index);
      var ts := Resolve(props.style);
      && out.Block?
      && out.key == KeyFor(props.key, index)
      && out.style.Keys == {Height, Width, BackgroundColor, BorderRadius,
                                 MarginBottom, MarginTop, MarginLeft, MarginRight}
      && out.style[Height] == (if Truthy(Get(ts, Height)) then Get(ts, Height) else Num(20.0))
      && out.style[Width] == (if Truthy(Get(ts, Width)) then Get(ts, Width) else Str("90%"))
      && out.style[BackgroundColor] == Grey
      && out.style[BorderRadius] == Num(4.0)
      && forall m :: m in Margins ==> out.style[m] == Get(ts, m)
  {
    var key, ts := KeyFor(props.key, index), Resolve(props.style);
    assert Clone(Elem(kind, props), index) == Ok(TextBar(key, ts));
    TextBarFacts(key, ts);
  }

  /** A Text element's children never influence its placeholder. */
  lemma TextIgnoresChildren(kind: ComponentType, props: Props, other: Node, index: Index)
    requires IsText(kind) && !IsClassComponent(kind)
    ensures Synthesize(Elem(kind, props), index) == Synthesize(Elem(kind, props.(children := other)), index)
  {
  }

  /**
   * A View element becomes the view shape of its resolved style and of its
   * mapped children, or of `null` when `props.children` is falsy.
   */
  lemma ViewClones(kind: ComponentType, props: Props, index: Index)
    requires IsView(kind) && !IsClassComponent(kind)
    ensures Synthesize(Elem(kind, props), index) ==
      ViewShape(KeyFor(props.key, index), Resolve(props.style),
                if NodeTruthy(props.children) then Mapped(ChildrenMapped(props.children)) else NullChildren)
  {
    CloneChildrenAsDocumented(props.children);
  }

  /**
   * A View element becomes a grey block exactly when its style has a truthy
   * background and a truthy height or width and no cloned child survives;
   * otherwise a container holding the cloned children (`null` when
   * `props.children` is falsy). Both copy the seventeen layout attributes and
   * never the source colour; `alignSelf: 'stretch'` is added exactly when
   * `props.children` is truthy and no width, height or flex is, so a block
   * never stretches.
   */
  lemma ViewElement(kind: ComponentType, props: Props, index: Index)
    requires IsView(kind) && !IsClassComponent(kind)
    ensures var out := Synthesize(Elem(kind, props), index);
      var vs := Resolve(props.style);
      var kids := ChildrenMapped(props.children);
      var stretch := NodeTruthy(props.children) && !HasDimensions(vs);
      && (out.Block? || out.Container?)
      && out.key == KeyFor(props.key, index)
      && (out.Block? <==> HasBackgroundAndSize(vs) && (!NodeTruthy(props.children) || kids == []))
      && (forall a :: a in LayoutAttributes ==> a in out.style && out.style[a] == Get(vs, a))
      && (AlignSelf in out.style <==> stretch)
      && (AlignSelf in out.style ==> out.style[AlignSelf] == Str("stretch"))
      && (out.Block? ==> !stretch && out.style.Keys == LayoutKeys() + {BackgroundColor}
                         && out.style[BackgroundColor] == Grey)
      && (out.Container? ==> out.style.Keys == LayoutKeys() + (if stretch then {AlignSelf} else {})
                             && out.children == (if NodeTruthy(props.children) then Mapped(kids) else NullChildren))
  {
    var vs := Resolve(props.style);
    CloneChildrenAsDocumented(props.children);
    var cloned := CloneChildren(props.children).value;
    CloneChildrenShaped(props.children);
    ViewClones(kind, props, index);
    ViewShapeChoice(KeyFor(props.key, index), vs, cloned);
    ViewShapeCopies(KeyFor(props.key, index), vs, cloned);
    ViewShapeStretch(KeyFor(props.key, index), vs, cloned);
    ViewShapeKeys(KeyFor(props.key, index), vs, cloned);
  }

  /**
   * Any other element becomes a Fragment keyed `props.key` or
   * `shimmer-<index>` of its mapped children when `props.children` is
   * truthy, and `null` otherwise.
   */
  lemma OtherElement(kind: ComponentType, props: Props, index: Index)
    requires !kind.Absent? && !kind.Callable? && !IsClassComponent(kind) && !IsText(kind) && !IsView(kind)
    ensures Synthesize(Elem(kind, props), index) ==
      if NodeTruthy(props.children) then Fragment(KeyFor(props.key, index), ChildrenMapped(props.children))
      else Empty
  {
    CloneChildrenAsDocumented(props.children);
  }
}
