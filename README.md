# Shimmer placeholder synthesis, in Dafny

`react-native-shimmer-loader` shows a pulsing grey skeleton of a screen while
it loads. `LoadingWrapper` either renders its children unchanged or hands a
tree (the custom layout, or else the children) to `ShimmerClone`, whose
`cloneElement` walks the React element tree and builds a parallel tree of
placeholders:

- a Text element becomes one grey bar;
- a View becomes a solid grey block, or a layout-only container around its
  transformed children;
- a function component of arity 0 or 1, or a class component, is rendered
  and its output transformed, and if rendering throws, its children are
  transformed instead; a function of higher arity becomes `null`;
- any other element with truthy children becomes a keyed Fragment of its
  transformed children, and `null` without them;
- anything that is not an element (a falsy value, a string or a number)
  becomes `null`.

The model is purely functional, like the source. It has these modules:

- `Js`: the JavaScript values the transform inspects, with their truthiness,
  `||` and `??`. Exceptions are a `Result` that is threaded explicitly.
- `Styles`: style declarations and `StyleSheet.flatten`, which merges them
  left to right with later entries winning.
- `Elements`: the element tree. An element's `type` records exactly what the
  transform tests of it: whether it is `View` or `Text`, whether
  `typeof type === 'function'` and its arity, the truthiness of
  `prototype.isReactComponent`, and `displayName`.
- `Placeholders`: the output tree, the text bar, the view shape, and how
  `React.Children.map` and `React.Children.count` treat a list.
- `Shimmer`: `cloneElement` itself. Its branch conditions keep the order of the source:
  function types first, then class-like types, Text, View, and the rest.
- `CloneProperties`: what the transform guarantees.
  - No throw escapes it.
  - Its output is well shaped: every block is `#E0E0E0`, no container keeps
    a background colour, and every mapped child list is flat and null-free.
  - Arrays map position by position.
  - Children are mapped as `React.Children.map` documents. This is proved
    against an independent definition by leaves and running index.
  - Each element kind gets the placeholder its branch promises.
- `Loading`: the selection done by `LoadingWrapper` and the direction
  wrapper of `ShimmerClone`.
- `Fixtures`: trees from the demo screen (`example/src/App.tsx`) and what
  they become.

A component's render step is not an oracle called with fuel. Each component
type stores the outcome of rendering this element's own props: a returned
tree, or a throw. The transform calls the render step at most once, with
those props (never for a function of arity 2 or more), so this assumes only
that rendering is deterministic. Recursion into rendered output then stays
structural.

A JavaScript class is `typeof 'function'`, so it takes the function branch.
The source checks the arity (`type.length`) before it calls anything. A class
whose constructor takes 0 or 1 parameters is called without `new`, which
throws, so its `call` outcome is a throw and it falls back to its children (or
`null` when it has none). A class whose constructor takes two or more
parameters is never called and gives `null` (src/ShimmerLoader.tsx:90). The class branch (`NonCallable` with `classLike`)
is reached only by non-function types.

Attribute names are a datatype. Every name the transform reads or writes is
its own constructor, and any other name is `Other(name)`.

## Model

| member | source | states |
|---|---|---|
| Shimmer.Clone | src/ShimmerLoader.tsx:61-224 | `cloneElement(element, index)`: the branch chain as written, returning the placeholder or a throw. Its contracts are carried by `CloneProperties.CloneNeverThrows`, `CloneIsShaped`, `NonElementsVanish`, `ArrayElementwise`, `FunctionComponent`, `ClassComponent`, `TextElement`, `ViewClones`, `ViewElement` and `OtherElement`. |
| Shimmer.CloneRendered | src/ShimmerLoader.tsx:85-97 | The body of a component's `try` block once the render step has run (also :113-116 for class-like types): a throw propagates, a falsy result is `null`, and anything else is cloned with the same index. Stated by `CloneProperties.FunctionComponent` and `ClassComponent`. |
| Shimmer.Recover | src/ShimmerLoader.tsx:100-106 | The `catch` block (also :119-124): the mapped children as an array, or `null`. Stated by `CloneProperties.RecoverAsDocumented`. |
| Shimmer.CloneChildren | src/ShimmerLoader.tsx:151-156 | `props.children ? React.Children.map(props.children, cloneElement) : null`. Stated by `CloneProperties.CloneChildrenAsDocumented`. |
| Shimmer.CloneEach | src/ShimmerLoader.tsx:65-67 | `element.map((child, idx) => cloneElement(child, idx))`. Stated by `CloneProperties.CloneEachElementwise` and `ArrayElementwise`. |
| Shimmer.MapChildren | src/ShimmerLoader.tsx:153-155 | `React.Children.map` over one child with a running counter: an array is walked through, any other child goes to the callback and its result is spliced in. Stated by `CloneProperties.MapChildrenAsDocumented`. |
| Shimmer.MapChildList | src/ShimmerLoader.tsx:102-104 | The same walk over the entries of an array, threading the counter. Stated by `CloneProperties.MapChildListAsDocumented`. |
| Placeholders.TextBar | src/ShimmerLoader.tsx:130-143 | The bar a Text element becomes. Stated by `Placeholders.TextBarFacts` and `CloneProperties.TextElement`. |
| Placeholders.LayoutStyle | src/ShimmerLoader.tsx:163-184 | `shimmerStyle` of a View: the 17 copied attributes, plus `alignSelf: 'stretch'` when asked. Stated by `Placeholders.LayoutStyleFacts`. |
| Placeholders.ViewShape | src/ShimmerLoader.tsx:159-212 | The block or container a View becomes once its children are cloned. Stated by `Placeholders.ViewShapeChoice`, `ViewShapeCopies`, `ViewShapeStretch`, `ViewShapeKeys` and `ViewShapeShaped`. |
| Placeholders.ChildCount | src/ShimmerLoader.tsx:193 | `React.Children.count` of an array. Stated by `Placeholders.CountOfChildList`. |
| Elements.KeyFor | src/ShimmerLoader.tsx:75 | The key of line 75: `props.key` when it is truthy, otherwise the generated `shimmer-<index>`. Stated through `CloneProperties.TextElement`, `ViewElement` and `OtherElement`, which give every placeholder the key `KeyFor(props.key, index)`. |
| Elements.IsClassComponent | src/ShimmerLoader.tsx:111 | `type.prototype && type.prototype.isReactComponent` for a type that is not a function. It selects the case of `CloneProperties.ClassComponent` and is excluded by the requires of `TextElement`, `ViewElement` and `OtherElement`, as the branch order demands. |
| Elements.IsText | src/ShimmerLoader.tsx:129 | The type is `Text`, or its `displayName` is `'Text'`. It selects the case of `CloneProperties.TextElement` and `TextIgnoresChildren`. |
| Elements.IsView | src/ShimmerLoader.tsx:147 | The type is `View`, or its `displayName` is `'View'`. It selects the case of `CloneProperties.ViewClones` and `ViewElement`. |
| Placeholders.HasDimensions | src/ShimmerLoader.tsx:159-160 | Whether one of `width`, `height` and `flex` of the flattened style is truthy. `Placeholders.ViewShapeStretch` and `CloneProperties.ViewElement` state that `alignSelf: 'stretch'` is added exactly when there are children and this is false. |
| Placeholders.HasBackgroundAndSize | src/ShimmerLoader.tsx:187-188 | Whether `backgroundColor` of the flattened style is truthy and so is its `height` or `width`. `Placeholders.ViewShapeChoice` and `CloneProperties.ViewElement` state that a View becomes a block exactly when this holds and no mapped child survives. |
| Placeholders.Spliced | src/ShimmerLoader.tsx:153-155 | How `React.Children.map` adds one callback result to its output: `null` is dropped, an array is flattened into its entries, and anything else is kept. `CloneProperties.MapChildrenAsDocumented` uses it to define the documented mapping, and `Placeholders.SplicedShaped` shows that on well-shaped input its output is flat and null-free. |
| Placeholders.SplicedAll | src/ShimmerLoader.tsx:153-155 | The same splicing over the entries of a returned array. `Placeholders.SplicedAllShaped` shows that on well-shaped input its output is flat and null-free. |
| Styles.Resolve | src/ShimmerLoader.tsx:130 | `StyleSheet.flatten` of the style, or of `{}` when the style is falsy (also :148). Stated by `Styles.MergeKeys` and `LaterEntriesWin`. |
| Styles.Merge | src/ShimmerLoader.tsx:148 | The left-to-right merge of a style array. Stated by `Styles.MergeKeys` and `LaterEntriesWin`. |
| Loading.LoadingWrapper | src/ShimmerLoader.tsx:12-28 | The children when not loading, otherwise the shimmer of `customLayout ?? children`. Stated by `Loading.LoadingSelection`. |
| Loading.ShimmerSource | src/ShimmerLoader.tsx:25 | `customLayout ?? children`. Stated by `Loading.LoadingSelection`. |
| CloneProperties.CloneNeverThrows | src/ShimmerLoader.tsx:78-126 | `cloneElement` always completes normally. Every throw from a render step is caught by its component's `catch`, at any depth, even though `React.Children.map` would pass a throw on. |
| CloneProperties.CloneIsShaped | src/ShimmerLoader.tsx:129-212 | On every input the output is well shaped. Every block has background `#E0E0E0`. No container has a background colour, so no source colour survives. Every mapped child list contains no `null` and no nested array. |
| CloneProperties.NonElementsVanish | src/ShimmerLoader.tsx:62-72 | Falsy values, strings, numbers, `true` and elements with a falsy `type` become `null`. |
| CloneProperties.ArrayElementwise | src/ShimmerLoader.tsx:65-67 | An array becomes an array of the same length. Entry `i` is the transform of input `i` with index `i`, and `null` results stay in place. |
| CloneProperties.MapChildrenAsDocumented | src/ShimmerLoader.tsx:152-156 | The counter-threading walk over children equals the documented `React.Children.map`. Each leaf of the nested arrays goes to the callback with its position among all leaves. Results are spliced, with `null` dropped and arrays flattened. The counter ends at the number of leaves. |
| CloneProperties.CloneChildrenAsDocumented | src/ShimmerLoader.tsx:151-156 | `clonedChildren` is `null` exactly when `props.children` is falsy. Otherwise it is the documented mapping of the children, which may be empty. |
| CloneProperties.SingleChild | src/ShimmerLoader.tsx:102-104 | A single non-array child goes to the callback alone, with index 0. |
| CloneProperties.RecoverAsDocumented | src/ShimmerLoader.tsx:100-106 | The `catch` block yields the mapped children as an array when `props.children` is truthy, and `null` otherwise. |
| CloneProperties.FunctionComponent | src/ShimmerLoader.tsx:78-108 | For a function type: arity 2 or more gives `null`. A throw gives the fallback. A falsy render result gives `null`. Otherwise the result is the transform of the rendered tree with the component's own index. |
| CloneProperties.ClassComponent | src/ShimmerLoader.tsx:111-126 | The same rule through `new type(props).render()` for a non-function type marked `isReactComponent`, whatever its display name. |
| CloneProperties.TextElement | src/ShimmerLoader.tsx:129-144 | A Text element becomes one block keyed by `props.key` or the generated key, with exactly eight attributes: the height or 20, the width or `'90%'`, `#E0E0E0`, radius 4, and the four margins copied. |
| CloneProperties.TextIgnoresChildren | src/ShimmerLoader.tsx:129-143 | A Text element's placeholder does not depend on its children. |
| CloneProperties.ViewClones | src/ShimmerLoader.tsx:147-157 | A View element becomes the view shape of its flattened style and its mapped children, or of `null` when `props.children` is falsy. |
| CloneProperties.ViewElement | src/ShimmerLoader.tsx:147-212 | A View becomes a block exactly when its background, and its height or width, are truthy and no mapped child survives. Otherwise it is a container holding the mapped children. The 17 layout attributes are copied. `alignSelf: 'stretch'` is present exactly when the children are truthy and width, height and flex are all falsy. A block never stretches. The exact attribute set is stated for both shapes. |
| CloneProperties.OtherElement | src/ShimmerLoader.tsx:215-223 | Any other element becomes a keyed Fragment of its mapped children when `props.children` is truthy, and `null` otherwise. |
| Placeholders.TextBarFacts | src/ShimmerLoader.tsx:130-143 | The text bar has exactly the eight attributes with the values and defaults above. |
| Placeholders.ViewShapeChoice | src/ShimmerLoader.tsx:186-212 | The view shape is a block exactly when the style has background and size and the cloned list is `null` or empty. Otherwise it is a container with the cloned children. A block never stretches. |
| Placeholders.ViewShapeCopies | src/ShimmerLoader.tsx:163-180 | Both shapes copy each of the 17 layout attributes from the flattened style. |
| Placeholders.ViewShapeStretch | src/ShimmerLoader.tsx:158-183 | `alignSelf` is present, set to `'stretch'`, exactly when there are cloned children and no width, height or flex. |
| Placeholders.ViewShapeKeys | src/ShimmerLoader.tsx:163-200 | A container holds the 17 layout attributes plus any `alignSelf`, and nothing else. A block holds them plus the grey background. |
| Placeholders.LayoutStyleFacts | src/ShimmerLoader.tsx:163-184 | The layout style copies the 17 attributes, adds `alignSelf` exactly when asked, and never holds a background colour. |
| Placeholders.ViewShapeShaped | src/ShimmerLoader.tsx:186-212 | A view shape over well-shaped children is well shaped. |
| Placeholders.CountOfChildList | src/ShimmerLoader.tsx:192-193 | On a list returned by `React.Children.map`, `React.Children.count` is its length. So "has children" means the list is non-empty. |
| Styles.MergeKeys | src/ShimmerLoader.tsx:148 | A flattened style array sets an attribute exactly when one of its entries does. |
| Styles.LaterEntriesWin | src/ShimmerLoader.tsx:148 | A flattened attribute takes its value from the last entry that sets it. |
| Loading.ShimmerClone | src/ShimmerLoader.tsx:226-230 | The wrapper's direction is `rtl` exactly when `isRtl`. It holds `cloneElement(children)` called without an index, and that tree is well shaped. |
| Loading.LoadingSelection | src/ShimmerLoader.tsx:12-28 | Not loading, the screen is exactly the children. Loading, it is a shimmer with the right direction. Its tree is the transform of the children when the custom layout is `null` or `undefined`. Otherwise it is the transform of the custom layout, which does not depend on the children, and a `false` layout gives `null`. |
| Fixtures.LabelBecomesBar | example/src/App.tsx:15 | The `styles.text` label becomes a grey bar 30 high and `'90%'` wide that keeps its bottom margin of 8. |
| Fixtures.AvatarBecomesGreyBlock | example/src/App.tsx:26-33 | The red 50×50 round avatar becomes a grey block of the same size and radius, with the generated key. |
| Fixtures.AvatarWithLabelStaysContainer | src/ShimmerLoader.tsx:186-212 | The same avatar around a Text child becomes a container holding the child's bar, and it does not stretch. |
| Fixtures.RowStretches | example/src/App.tsx:18-45 | The demo row has children but no width, height or flex, so it becomes a container with `alignSelf: 'stretch'`. |
| Fixtures.RowSkeleton | example/src/App.tsx:18-45 | The whole demo row becomes a container of exactly three placeholders: a grey block, a container and a grey block. |
| Fixtures.RowChildren | example/src/App.tsx:26-44 | The row's children map, in order, to a block, a container and a block, keyed with indices 0, 1 and 2. |
| Fixtures.ThreeChildren | src/ShimmerLoader.tsx:153-155 | Three non-array children are mapped one by one with indices 0, 1 and 2. |
| Fixtures.ThrowingComponentFallsBack | src/ShimmerLoader.tsx:98-106 | A component whose render throws yields an array holding the transform of its Text child, with index 0. |

## Left out

- The pulse animation (src/ShimmerLoader.tsx:35-59) is left out: the animated value, its looping timing sequence, its start and stop effect, the `blinkDuration` it uses and the opacity interpolation. These are timers and floating-point animation. Every block carries the same shared opacity, so placeholders record none.
- `console.warn` in the two `catch` blocks is left out because it is output only. The fallback result is modelled.
- The `I18nManager.isRTL` default of `isRtl` is global platform state, so `isRtl` is a plain input.
- Rendering the screen itself (JSX rendering, layout and paint) is not modelled.
- The keys that `React.Children.map` assigns to mapped children are not modelled. Only the key the transform gives each placeholder is kept.
- Keys are structural: `Given(props.key)` or `Generated(index)`, standing for the string `shimmer-<index>`. A caller key that is literally `"shimmer-1"` is therefore not identified with a generated one. React strips `key` from `props`, so in practice the key is always generated; the model takes `props.key` as given.
- Objects that are not elements (plain objects, functions) are not modelled as tree nodes, and neither is the throw `React.Children.map` raises for an invalid child.
- Render steps are stored outcomes, and trees are finite. A render that never terminates, or recursion that overflows the stack, cannot be represented. Neither the source nor the model has a depth bound.
- Calling `new` on a non-function type throws in JavaScript. The model lets a class-like non-function type carry any render outcome, so its lemmas cover that throw as one case.
- Numbers are reals: NaN and negative zero are not represented.
- Style values are scalars: nested values such as `transform` arrays are not modelled, and registered style IDs are taken as already resolved.
- `View` and `Text` are taken to be the host components and not class-like; a user type that imitates them is matched by `displayName`, as in the source.
- The custom layout is not shown as it is: the code passes it through `cloneElement` (src/ShimmerLoader.tsx:25, 228), and the model follows the code.
- Style maps are not required to be well named: nothing stops a map from holding `Other("height")`, which the transform does not read as the height. No JavaScript object has two distinct `height` keys, so such a map stands for no real style.
