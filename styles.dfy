/**
 * Style declarations and the flattening the transform applies to them
 * (`StyleSheet.flatten(props.style || {})`): a declaration is absent, one
 * attribute mapping, or an ordered list of declarations merged left to right,
 * later entries overriding earlier ones.
 */
module Styles {
  import opened Js

  /**
   * Style attribute names. Each name the transform reads or writes is a
   * constructor of its own; every other name is `Other`, whose `name` is
   * none of theirs.
   */
  datatype Attribute =
    | Width | Height | BorderRadius
    | MarginTop | MarginBottom | MarginLeft | MarginRight
    | Padding | PaddingTop | PaddingBottom | PaddingLeft | PaddingRight
    | FlexDirection | Gap | AlignItems | JustifyContent | Flex
    | BackgroundColor | AlignSelf
    | Other(name: string)

  /** A resolved style: attribute names to values. A name mapped to `Undefined` is present but unset. */
  type StyleMap = map<Attribute, Scalar>

  datatype StyleDecl =
    | NoStyle                          // a falsy style value: undefined, null, false
    | Sheet(attrs: StyleMap)           // one style object
    | Composite(parts: seq<StyleDecl>) // a style array, possibly nested

  /** Reading `style.name`: absent names read as `undefined`. */
  function Get(s: StyleMap, name: Attribute): Scalar {
    if name in s then s[name] else Undefined
  }

  /** The style sets `name` to `v`. */
  predicate Sets(s: StyleMap, name: Attribute, v: Scalar) {
    name in s && s[name] == v
  }

  /**
   * `StyleSheet.flatten(decl || {})`. A falsy declaration becomes `{}`; inside
   * an array, a falsy entry flattens to nothing and is skipped.
   */
  function Resolve(decl: StyleDecl): StyleMap
    decreases decl, 1
  {
    match decl
    case NoStyle => map[]
    case Sheet(attrs) => attrs
    case Composite(parts) => Merge(parts)
  }

  /** The left-to-right merge of a style array: each part's attributes overwrite those before it. */
  function Merge(parts: seq<StyleDecl>): StyleMap
    decreases parts, 0
  {
    if parts == [] then map[]
    else Merge(parts[..|parts| - 1]) + Resolve(parts[|parts| - 1])
  }

  /** An attribute is set by the merge exactly when some part sets it. */
  lemma {:induction false} MergeKeys(parts: seq<StyleDecl>, name: Attribute)
    ensures name in Merge(parts) <==> exists i :: 0 <= i < |parts| && name in Resolve(parts[i])
  {
    if parts != [] {
      var init := parts[..|parts| - 1];
      MergeKeys(init, name);
      if name in Merge(init) {
        var i :| 0 <= i < |init| && name in Resolve(init[i]);
        assert parts[i] == init[i];
      }
      forall i | 0 <= i < |init| && name in Resolve(parts[i])
        ensures name in Merge(init)
      {
        assert parts[i] == init[i];
      }
    }
  }

  /** The value of a merged attribute comes from the last part that sets it. */
  lemma {:induction false} LaterEntriesWin(parts: seq<StyleDecl>, j: nat, name: Attribute)
    requires j < |parts| && name in Resolve(parts[j])
    requires forall i :: j < i < |parts| ==> name !in Resolve(parts[i])
    ensures name in Merge(parts) && Merge(parts)[name] == Resolve(parts[j])[name]
  {
    var last := |parts| - 1;
    if j < last {
      var init := parts[..last];
      assert init[j] == parts[j];
      forall i | j < i < |init|
        ensures name !in Resolve(init[i])
      {
        assert init[i] == parts[i];
      }
      LaterEntriesWin(init, j, name);
    }
  }
}
