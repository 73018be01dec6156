/**
 * The placeholder tree the transform builds, the two leaf shapes it makes
 * (a grey bar for text, a block or layout container for a view), and how
 * `React.Children.map` and `React.Children.count` treat lists of them.
 */
module Placeholders {
  import opened Js
  import opened Styles
  import opened Elements

  /**
   * `Block` is an `Animated.View` without children; every block also carries
   * the one shared pulsing `opacity`, which is therefore not recorded.
   * `Container` is a plain `View` holding the cloned children. `Fragment` is a keyed `React.Fragment`, `Items` a
   * JavaScript array, `Empty` is `null`.
   */
  datatype Placeholder =
    | Empty
    | Block(key: Key, style: StyleMap)
    | Container(key: Key, style: StyleMap, children: ClonedChildren)
    | Fragment(key: Key, entries: seq<Placeholder>)
    | Items(items: seq<Placeholder>)

  /**
   * `clonedChildren`: `null` when `props.children` is falsy, otherwise the
   * array `React.Children.map` returned (possibly empty, which is truthy).
   */
  datatype ClonedChildren = NullChildren | Mapped(list: seq<Placeholder>)

  const Grey: Scalar := Str("#E0E0E0")

  /** The margins a text bar copies from its source style. */
  const Margins: seq<Attribute> := [MarginBottom, MarginTop, MarginLeft, MarginRight]

  /** The seventeen attributes a view placeholder copies from its source style. */
  const LayoutAttributes: seq<Attribute> := [
    Width, Height, BorderRadius,
    MarginTop, MarginBottom, MarginLeft, MarginRight,
    Padding, PaddingTop, PaddingBottom, PaddingLeft, PaddingRight,
    FlexDirection, Gap, AlignItems, JustifyContent, Flex]

  /** An entry of a list `React.Children.map` returns: neither `null` nor an array. */
  predicate IsChild(p: Placeholder) {
    !p.Empty? && !p.Items?
  }

  /**
   * How `React.Children.map` adds one callback result to its output:
   * `null` is dropped, an array is flattened into its entries.
   */
  function Spliced(p: Placeholder): seq<Placeholder>
    decreases p, 1
  {
    match p
    case Empty => []
    case Items(xs) => SplicedAll(xs)
    case _ => [p]
  }

  function SplicedAll(ps: seq<Placeholder>): seq<Placeholder>
    decreases ps, 0
  {
    if ps == [] then [] else Spliced(ps[0]) + SplicedAll(ps[1..])
  }

  /** `React.Children.count` of an array: nested arrays are counted through, every other entry (`null` too) counts one. */
  function ChildCount(ps: seq<Placeholder>): nat
    decreases ps
  {
    if ps == [] then 0
    else (if ps[0].Items? then ChildCount(ps[0].items) else 1) + ChildCount(ps[1..])
  }

  /** The bar a Text element becomes (ShimmerLoader.tsx:130-143). */
  function TextBar(key: Key, ts: StyleMap): Placeholder {
    Block(key, map[
      Height := Or(Get(ts, Height), Num(20.0)),
      Width := Or(Get(ts, Width), Str("90%")),
      BackgroundColor := Grey,
      BorderRadius := Num(4.0),
      MarginBottom := Get(ts, MarginBottom),
      MarginTop := Get(ts, MarginTop),
      MarginLeft := Get(ts, MarginLeft),
      MarginRight := Get(ts, MarginRight)])
  }

  /**
   * A text bar is one block: the source height or 20, the source width or
   * '90%', the grey background, radius 4 and the four source margins, and
   * no other attribute.
   */
  lemma TextBarFacts(key: Key, ts: StyleMap)
    ensures var bar := TextBar(key, ts);
      && bar.Block?
      && bar.key == key
      && bar.style.Keys == {Height, Width, BackgroundColor, BorderRadius,
                                 MarginBottom, MarginTop, MarginLeft, MarginRight}
      && bar.style[Height] == (if Truthy(Get(ts, Height)) then Get(ts, Height) else Num(20.0))
      && bar.style[Width] == (if Truthy(Get(ts, Width)) then Get(ts, Width) else Str("90%"))
      && bar.style[BackgroundColor] == Grey
      && bar.style[BorderRadius] == Num(4.0)
      && forall m :: m in Margins ==> bar.style[m] == Get(ts, m)
  {
    var bar := TextBar(key, ts);
    assert bar.style.Keys == {Height, Width, BackgroundColor, BorderRadius,
                              MarginBottom, MarginTop, MarginLeft, MarginRight};
  }

  /** `width || height || flex`, as a truth value. */
  predicate HasDimensions(vs: StyleMap) {
    Truthy(Get(vs, Width)) || Truthy(Get(vs, Height)) || Truthy(Get(vs, Flex))
  }

  /** `backgroundColor && (height || width)`, as a truth value. */
  predicate HasBackgroundAndSize(vs: StyleMap) {
    Truthy(Get(vs, BackgroundColor)) && (Truthy(Get(vs, Height)) || Truthy(Get(vs, Width)))
  }

  /** The layout-only style of a view placeholder, with `alignSelf: 'stretch'` when asked. */
  function LayoutStyle(vs: StyleMap, stretch: bool): StyleMap {
    (map a | a in LayoutAttributes :: Get(vs, a))
    + (if stretch then map[AlignSelf := Str("stretch")] else map[])
  }

  /**
   * The placeholder a View element becomes once its children are cloned
   * (ShimmerLoader.tsx:159-212).
   */
  function ViewShape(key: Key, vs: StyleMap, cloned: ClonedChildren): Placeholder {
    var stretch := cloned.Mapped? && !HasDimensions(vs);
    var hasTextChildren := cloned.Mapped? && ChildCount(cloned.list) > 0;
    if HasBackgroundAndSize(vs) && !hasTextChildren then
      Block(key, LayoutStyle(vs, stretch)[BackgroundColor := Grey])
    else
      Container(key, LayoutStyle(vs, stretch), cloned)
  }

  /** All entries are list children (no `null`, no nested array) that are themselves well shaped. */
  predicate ShapedChildren(cs: seq<Placeholder>)
    decreases cs, 1
  {
    forall i :: 0 <= i < |cs| ==> IsChild(cs[i]) && Shaped(cs[i])
  }

  /**
   * The output invariant: every block is the neutral grey, no container
   * carries a background colour, and every child list is flat and null-free.
   */
  predicate Shaped(p: Placeholder)
    decreases p, 0
  {
    match p
    case Empty => true
    case Block(_, style) => BackgroundColor in style && style[BackgroundColor] == Grey
    case Container(_, style, NullChildren) => BackgroundColor !in style
    case Container(_, style, Mapped(cs)) => BackgroundColor !in style && ShapedChildren(cs)
    case Fragment(_, cs) => ShapedChildren(cs)
    case Items(xs) => forall i :: 0 <= i < |xs| ==> Shaped(xs[i])
  }

  /** Splicing a well-shaped result yields well-shaped list children. */
  lemma {:induction false} SplicedShaped(p: Placeholder)
    requires Shaped(p)
    ensures ShapedChildren(Spliced(p))
    decreases p, 1
  {
    if p.Items? {
      SplicedAllShaped(p.items);
    }
  }

  lemma {:induction false} SplicedAllShaped(ps: seq<Placeholder>)
    requires forall i :: 0 <= i < |ps| ==> Shaped(ps[i])
    ensures ShapedChildren(SplicedAll(ps))
    decreases ps, 0
  {
    if ps != [] {
      SplicedShaped(ps[0]);
      SplicedAllShaped(ps[1..]);
      ShapedChildrenAppend(Spliced(ps[0]), SplicedAll(ps[1..]));
    }
  }

  lemma ShapedChildrenAppend(a: seq<Placeholder>, b: seq<Placeholder>)
    requires ShapedChildren(a) && ShapedChildren(b)
    ensures ShapedChildren(a + b)
  {
    forall i | 0 <= i < |a + b|
      ensures IsChild((a + b)[i]) && Shaped((a + b)[i])
    {
      if i < |a| { assert (a + b)[i] == a[i]; } else { assert (a + b)[i] == b[i - |a|]; }
    }
  }

  /** On a list `React.Children.map` produced, `React.Children.count` is its length. */
  lemma {:induction false} CountOfChildList(ps: seq<Placeholder>)
    requires forall i :: 0 <= i < |ps| ==> IsChild(ps[i])
    ensures ChildCount(ps) == |ps|
  {
    if ps != [] {
      CountOfChildList(ps[1..]);
    }
  }

  /** A text bar is a grey block. */
  lemma TextBarShaped(key: Key, ts: StyleMap)
    ensures Shaped(TextBar(key, ts))
  {
  }

  /** A view placeholder is well shaped whenever its cloned children are. */
  lemma ViewShapeShaped(key: Key, vs: StyleMap, cloned: ClonedChildren)
    requires cloned.Mapped? ==> ShapedChildren(cloned.list)
    ensures Shaped(ViewShape(key, vs, cloned))
  {
    var stretch := cloned.Mapped? && !HasDimensions(vs);
    LayoutStyleFacts(vs, stretch);
  }

  /** The attributes a view placeholder copies, as a set. */
  function LayoutKeys(): set<Attribute> {
    set a | a in LayoutAttributes
  }

  /**
   * The layout style copies each of the seventeen attributes, adds
   * `alignSelf: 'stretch'` exactly when asked, and holds nothing else.
   */
  lemma LayoutStyleFacts(vs: StyleMap, stretch: bool)
    ensures forall a :: a in LayoutAttributes ==> a in LayoutStyle(vs, stretch) && LayoutStyle(vs, stretch)[a] == Get(vs, a)
    ensures LayoutStyle(vs, stretch).Keys == LayoutKeys() + (if stretch then {AlignSelf} else {})
    ensures AlignSelf in LayoutStyle(vs, stretch) <==> stretch
    ensures stretch ==> LayoutStyle(vs, stretch)[AlignSelf] == Str("stretch")
    ensures BackgroundColor !in LayoutStyle(vs, stretch)
  {
    assert AlignSelf !in LayoutAttributes;
    assert BackgroundColor !in LayoutAttributes;
  }

  /**
   * A view becomes a grey block exactly when it has a background and a size
   * and no cloned child survives; otherwise a container holding the cloned
   * children. Since a size is a dimension, a block never stretches.
   */
  lemma ViewShapeChoice(key: Key, vs: StyleMap, cloned: ClonedChildren)
    requires cloned.Mapped? ==> forall i :: 0 <= i < |cloned.list| ==> IsChild(cloned.list[i])
    ensures var out := ViewShape(key, vs, cloned);
      && (out.Block? || out.Container?)
      && out.key == key
      && (out.Block? <==> HasBackgroundAndSize(vs) && (cloned.NullChildren? || cloned.list == []))
      && (out.Block? ==> !(cloned.Mapped? && !HasDimensions(vs)))
      && (out.Container? ==> out.children == cloned)
  {
    if cloned.Mapped? {
      CountOfChildList(cloned.list);
    }
  }

  /** Either shape copies the seventeen layout attributes from the source style. */
  lemma ViewShapeCopies(key: Key, vs: StyleMap, cloned: ClonedChildren)
    ensures var out := ViewShape(key, vs, cloned);
      forall a :: a in LayoutAttributes ==> a in out.style && out.style[a] == Get(vs, a)
  {
    var stretch := cloned.Mapped? && !HasDimensions(vs);
    LayoutStyleFacts(vs, stretch);
    var out := ViewShape(key, vs, cloned);
    if out.Block? {
      assert out.style == LayoutStyle(vs, stretch)[BackgroundColor := Grey];
      forall a | a in LayoutAttributes
        ensures a in out.style && out.style[a] == Get(vs, a)
      {
        assert a != BackgroundColor;
      }
    }
  }

  /**
   * Either shape holds `alignSelf: 'stretch'` exactly when the view has
   * children but no width, height or flex.
   */
  lemma ViewShapeStretch(key: Key, vs: StyleMap, cloned: ClonedChildren)
    ensures var out := ViewShape(key, vs, cloned);
      var stretch := cloned.Mapped? && !HasDimensions(vs);
      && (AlignSelf in out.style <==> stretch)
      && (AlignSelf in out.style ==> out.style[AlignSelf] == Str("stretch"))
  {
    var stretch := cloned.Mapped? && !HasDimensions(vs);
    LayoutStyleFacts(vs, stretch);
    assert AlignSelf != BackgroundColor;
  }

  /** Neither shape holds any attribute but those, and a block only adds the grey background. */
  lemma ViewShapeKeys(key: Key, vs: StyleMap, cloned: ClonedChildren)
    ensures var out := ViewShape(key, vs, cloned);
      var stretch := cloned.Mapped? && !HasDimensions(vs);
      && (out.Block? ==> out.style.Keys == LayoutKeys() + {BackgroundColor}
                         && out.style[BackgroundColor] == Grey)
      && (out.Container? ==> out.style.Keys == LayoutKeys() + (if stretch then {AlignSelf} else {}))
  {
    var stretch := cloned.Mapped? && !HasDimensions(vs);
    var layout := LayoutStyle(vs, stretch);
    LayoutStyleFacts(vs, stretch);
    var out := ViewShape(key, vs, cloned);
    if out.Block? {
      assert HasBackgroundAndSize(vs) && !stretch;
      assert out.style == layout[BackgroundColor := Grey];
      assert out.style.Keys == layout.Keys + {BackgroundColor};
    }
  }
}
