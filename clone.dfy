/**
 * `cloneElement` of ShimmerClone: the recursive transform from an element
 * tree to a placeholder tree. Throws are explicit: every function returns a
 * `Result`, a `try`/`catch` is an `if attempt.Ok? then attempt else ...`, and
 * a throw anywhere else propagates (`:-`), as it would in JavaScript.
 * The order of the source's branch conditions (ShimmerLoader.tsx:62, 65, 70, 78,
 * 111, 129, 147, 216) is kept as an if-chain.
 */
module Shimmer {
  import opened Js
  import opened Styles
  import opened Elements
  import opened Placeholders

  /** `cloneElement(element, index)`. */
  function Clone(n: Node, index: Index): Result<Placeholder>
    decreases n, 0
  {
    if !NodeTruthy(n) then
      Ok(Empty)
    else if n.List? then
      var out :- CloneEach(n.items, 0);
      Ok(Items(out))
    else if !n.Elem? || n.kind.Absent? then
      Ok(Empty)
    else
      var kind, props := n.kind, n.props;
      var key := KeyFor(props.key, index);
      if kind.Callable? then
        var attempt := if kind.arity == 0 || kind.arity == 1 then CloneRendered(kind.call, index) else Ok(Empty);
        if attempt.Ok? then attempt else Recover(props.children)
      else if IsClassComponent(kind) then
        var attempt := CloneRendered(kind.instantiate, index);
        if attempt.Ok? then attempt else Recover(props.children)
      else if IsText(kind) then
        Ok(TextBar(key, Resolve(props.style)))
      else if IsView(kind) then
        var cloned :- CloneChildren(props.children);
        Ok(ViewShape(key, Resolve(props.style), cloned))
      else
        var cloned :- CloneChildren(props.children);
        Ok(if cloned.Mapped? then Fragment(key, cloned.list) else Empty)
  }

  /**
   * The body of a component's `try` block once the render step is called:
   * its throw propagates, a falsy result is `null`, anything else is cloned
   * with the component's own index.
   */
  function CloneRendered(outcome: RenderOutcome, index: Index): Result<Placeholder>
    decreases outcome, 0
  {
    match outcome
    case Threw(e) => Thrown(e)
    case Returned(rendered) => if NodeTruthy(rendered) then Clone(rendered, index) else Ok(Empty)
  }

  /** A component's `catch` block: the mapped children as an array, or `null` when there are none. */
  function Recover(children: Node): Result<Placeholder>
    decreases children, 3
  {
    var cloned :- CloneChildren(children);
    Ok(if cloned.Mapped? then Items(cloned.list) else Empty)
  }

  /** `props.children ? React.Children.map(props.children, cloneElement) : null`. */
  function CloneChildren(children: Node): Result<ClonedChildren>
    decreases children, 2
  {
    if NodeTruthy(children) then
      var mapped :- MapChildren(children, 0);
      Ok(Mapped(mapped.0))
    else
      Ok(NullChildren)
  }

  /** `element.map((child, idx) => cloneElement(child, idx))`, from position `offset` on. */
  function CloneEach(items: seq<Node>, offset: nat): Result<seq<Placeholder>>
    decreases items, 0
  {
    if items == [] then
      Ok([])
    else
      var head :- Clone(items[0], Some(offset));
      var tail :- CloneEach(items[1..], offset + 1);
      Ok([head] + tail)
  }

  /**
   * `React.Children.map(children, cloneElement)` with the callback counter at
   * `count`: nested arrays are walked through, each other child is passed to
   * the callback with the next count, and each result is spliced in. Returns
   * the spliced list and the counter after the last child.
   */
  function MapChildren(children: Node, count: nat): Result<(seq<Placeholder>, nat)>
    decreases children, 1
  {
    match children
    case List(items) => MapChildList(items, count)
    case _ =>
      var cloned :- Clone(children, Some(count));
      Ok((Spliced(cloned), count + 1))
  }

  function MapChildList(items: seq<Node>, count: nat): Result<(seq<Placeholder>, nat)>
    decreases items, 0
  {
    if items == [] then
      Ok(([], count))
    else
      var head :- MapChildren(items[0], count);
      var tail :- MapChildList(items[1..], head.1);
      Ok((head.0 + tail.0, tail.1))
  }
}
