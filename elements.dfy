/**
 * The element tree the transform reads: primitives, arrays and typed elements
 * with `props.key`, `props.style` and `props.children`. An element's `type`
 * is recorded by exactly what the transform tests of it: identity with the
 * `View` and `Text` primitives, `typeof type === 'function'` with its arity
 * (`type.length`), `type.prototype.isReactComponent`, and `type.displayName`.
 */
module Elements {
  import opened Js
  import opened Styles

  /**
   * What the component's render step does when invoked with this element's
   * own props: for a function type `type(props)`, for a class-like type
   * `new type(props).render()`. Render steps are assumed deterministic in
   * their props, so the single outcome the transform observes is stored here.
   */
  datatype RenderOutcome = Returned(output: Node) | Threw(error: JsError)

  datatype ComponentType =
      /** a falsy `type` */
    | Absent
      /** the `View` primitive itself */
    | HostView
      /** the `Text` primitive itself */
    | HostText
      /** `typeof type === 'function'` and not `View` or `Text` (a JS class is one too) */
    | Callable(arity: nat, call: RenderOutcome)
      /**
       * any other truthy type (a host tag string, a wrapper object); `classLike` is
       * the truthiness of `type.prototype && type.prototype.isReactComponent`
       */
    | NonCallable(classLike: bool, displayName: Option<string>, instantiate: RenderOutcome)

  datatype Props = Props(key: Scalar, style: StyleDecl, children: Node)

  datatype Node =
    | Leaf(value: Scalar)
    | List(items: seq<Node>)
    | Elem(kind: ComponentType, props: Props)

  /** `!!node`: arrays and elements are objects and always truthy. */
  predicate NodeTruthy(n: Node) {
    match n
    case Leaf(v) => Truthy(v)
    case _ => true
  }

  /** The class-component test of ShimmerLoader.tsx:111. */
  predicate IsClassComponent(k: ComponentType) {
    k.NonCallable? && k.classLike
  }

  /** `type === Text || type?.displayName === 'Text'`. */
  predicate IsText(k: ComponentType) {
    k.HostText? || (k.NonCallable? && k.displayName == Some("Text"))
  }

  /** `type === View || type?.displayName === 'View'`. */
  predicate IsView(k: ComponentType) {
    k.HostView? || (k.NonCallable? && k.displayName == Some("View"))
  }

  /** The `index` argument: a position, or `undefined` for the outermost call. */
  type Index = Option<nat>

  /**
   * A React key: a caller-given one, or the generated string
   * `shimmer-<index>` (`shimmer-undefined` when the index is absent).
   */
  datatype Key = Given(value: Scalar) | Generated(index: Index)

  /** `props.key || \`shimmer-${index}\``. */
  function KeyFor(key: Scalar, index: Index): Key {
    if Truthy(key) then Given(key) else Generated(index)
  }
}
