/**
 * The public component: `LoadingWrapper` chooses between the real children
 * and a shimmer of either the custom layout or the children, and
 * `ShimmerClone` wraps the transformed tree in a View carrying the layout
 * direction. The pulse animation and its lifecycle are not modelled; every
 * block shares its one opacity value.
 */
module Loading {
  import opened Js
  import opened Elements
  import opened Placeholders
  import opened Shimmer
  import opened CloneProperties

  datatype Direction = Ltr | Rtl

  /** What the wrapper renders: the children in a fragment, or the direction-setting View around a placeholder tree. */
  datatype Screen = Content(children: Node) | Shimmering(direction: Direction, tree: Placeholder)

  /** `customLayout ?? children`: only `null` and `undefined` fall back to the children. */
  function ShimmerSource(children: Node, customLayout: Node): Node {
    if customLayout.Leaf? && Nullish(customLayout.value) then children else customLayout
  }

  /**
   * `ShimmerClone` (ShimmerLoader.tsx:226-230): direction `'rtl'` exactly
   * when `isRtl`, around `cloneElement(children)` called without an index.
   */
  function ShimmerClone(isRtl: bool, children: Node): (s: Screen)
    ensures s.Shimmering?
    ensures s.direction == Rtl <==> isRtl
    ensures Clone(children, None) == Ok(s.tree)
    ensures Shaped(s.tree)
  {
    CloneIsShaped(children, None);
    Shimmering(if isRtl then Rtl else Ltr, Synthesize(children, None))
  }

  /** `LoadingWrapper` (ShimmerLoader.tsx:12-28), with `isRtl` given explicitly. */
  function LoadingWrapper(isLoading: bool, children: Node, isRtl: bool, customLayout: Node): Screen {
    if !isLoading then Content(children)
    else ShimmerClone(isRtl, ShimmerSource(children, customLayout))
  }

  /**
   * Not loading, the children are shown unchanged. Loading, the placeholder
   * tree is the transform of the custom layout when it is neither `null` nor
   * `undefined` (so it no longer depends on the children, and a `false`
   * layout shows nothing), and of the children otherwise; it is always well
   * shaped.
   */
  lemma LoadingSelection(isLoading: bool, children: Node, isRtl: bool, customLayout: Node, otherChildren: Node)
    ensures var s := LoadingWrapper(isLoading, children, isRtl, customLayout);
      && (!isLoading <==> s == Content(children))
      && (isLoading ==> s.Shimmering? && (s.direction == Rtl <==> isRtl) && Shaped(s.tree))
      && (isLoading && customLayout.Leaf? && Nullish(customLayout.value) ==> s.tree == Synthesize(children, None))
      && (isLoading && !(customLayout.Leaf? && Nullish(customLayout.value)) ==>
            s.tree == Synthesize(customLayout, None)
            && s == LoadingWrapper(isLoading, otherChildren, isRtl, customLayout))
      && (isLoading && customLayout == Leaf(Bool(false)) ==> s.tree == Empty)
  {
  }
}
