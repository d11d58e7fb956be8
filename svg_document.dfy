/**
  The parsed SVG document as the level loader sees it through libGDX's
  `XmlReader.Element`: a tag name, an attribute map, optional text and the
  child elements in document order. Also the label lookups of `SVGLevelActor`.
*/
module SvgDocument {
  import opened Wrappers
  import opened JavaText

  datatype Element = Element(name: string, attributes: map<string, string>, text: Option<string>, children: seq<Element>)

  /** Everything that aborts loading a level (the exception the source lets escape). */
  datatype LoadError =
    | MissingAttribute(attribute: string)
    | MissingLayer(layer: string)
    | MissingMarker(marker: string)
    | ZeroScreenHeight
    | BadNumber(text: string)
    | BadTransform
    | BadPath
    | BadColor
    | TooFewFields
    | NoBody
    | PathFailed

  /** Inkscape's layer and object label attribute. */
  const LABEL: string := "inkscape:label"

  /** `getAttribute(name)`: throws (here `None`) when the attribute is absent. */
  function GetAttribute(e: Element, attribute: string): Option<string> {
    if attribute in e.attributes then Some(e.attributes[attribute]) else None
  }

  /** `getAttribute` where the source does not catch the exception: absence aborts the load. */
  function RequireAttribute(e: Element, attribute: string): (r: Result<string, LoadError>)
    ensures r.Success? <==> attribute in e.attributes
    ensures r.Success? ==> r.value == e.attributes[attribute]
    ensures r.Failure? ==> r.error == MissingAttribute(attribute)
  {
    if attribute in e.attributes then Success(e.attributes[attribute]) else Failure(MissingAttribute(attribute))
  }

  /** Index of the first child named `name`, if any. */
  function FirstChildNamed(children: seq<Element>, name: string): (r: Option<nat>)
    ensures r.Some? ==> r.value < |children| && children[r.value].name == name
                        && forall j :: 0 <= j < r.value ==> children[j].name != name
    ensures r.None? ==> forall j :: 0 <= j < |children| ==> children[j].name != name
  {
    if |children| == 0 then None
    else if children[0].name == name then Some(0)
    else
      match FirstChildNamed(children[1..], name)
      case None => None
      case Some(i) => Some(i + 1)
  }

  /**
    `Element.get(name)`: the attribute if present, otherwise the text of the
    first child with that tag; `None` where the source throws.
  */
  function Get(e: Element, name: string): (r: Option<string>)
    ensures name in e.attributes ==> r == Some(e.attributes[name])
    ensures name !in e.attributes && FirstChildNamed(e.children, name).None? ==> r.None?
    ensures name !in e.attributes && FirstChildNamed(e.children, name).Some? ==>
              r == e.children[FirstChildNamed(e.children, name).value].text
  {
    if name in e.attributes then Some(e.attributes[name])
    else
      match FirstChildNamed(e.children, name)
      case None => None
      case Some(i) => e.children[i].text
  }

  /** `a` is `b` with some elements left out, the rest in their order. */
  predicate Subsequence<T(==,!new)>(a: seq<T>, b: seq<T>)
    decreases |b|
  {
    if |a| == 0 then true
    else if |b| == 0 then false
    else if a[0] == b[0] then Subsequence(a[1..], b[1..])
    else Subsequence(a, b[1..])
  }

  /** The elements satisfying `keep`, in their order, each as often as in `s`. */
  function Filter<T(==,!new)>(s: seq<T>, keep: T -> bool): (r: seq<T>)
    ensures |r| <= |s|
    ensures forall x :: x in r <==> x in s && keep(x)
    ensures forall x :: multiset(r)[x] == if keep(x) then multiset(s)[x] else 0
    ensures Subsequence(r, s)
  {
    if |s| == 0 then []
    else
      var rest := Filter(s[1..], keep);
      assert s == [s[0]] + s[1..];
      assert multiset(s) == multiset([s[0]]) + multiset(s[1..]);
      if keep(s[0]) then
        assert ([s[0]] + rest)[1..] == rest;
        assert multiset([s[0]] + rest) == multiset([s[0]]) + multiset(rest);
        [s[0]] + rest
      else rest
  }

  /** `getChildrenByName(name)`: the children with that tag, in document order. */
  function ChildrenByName(e: Element, name: string): (r: seq<Element>)
    ensures forall c :: c in r <==> c in e.children && c.name == name
    ensures Subsequence(r, e.children)
  {
    Filter(e.children, (c: Element) => c.name == name)
  }

  /** `getChildrenByName` returns each child of that tag as often as it occurs, and no other. */
  lemma ChildrenByNameCounts(e: Element, name: string)
    ensures forall c :: multiset(ChildrenByName(e, name))[c] == if c.name == name then multiset(e.children)[c] else 0
  {
  }

  function LabelOf(e: Element): Option<string> {
    GetAttribute(e, LABEL)
  }

  /** Every `tag` element among the first `n` of `es` is labelled, and not with `wanted`. */
  predicate LabelledOtherwise(es: seq<Element>, tag: string, wanted: string, n: nat)
    requires n <= |es|
  {
    forall j :: 0 <= j < n && es[j].name == tag ==> LabelOf(es[j]).Some? && LabelOf(es[j]) != Some(wanted)
  }

  /**
    The scan of `childByLabel` over the `tag` children of a list: the index
    of the first one whose label equals `wanted`. Reading the label of an
    unlabelled `tag` element on the way throws.
  */
  function FindLabel(es: seq<Element>, tag: string, wanted: string): (r: Result<Option<nat>, LoadError>)
    ensures r.Success? && r.value.Some? ==>
              var k := r.value.value;
              k < |es| && es[k].name == tag && LabelOf(es[k]) == Some(wanted) && LabelledOtherwise(es, tag, wanted, k)
    ensures r == Success(None) ==> LabelledOtherwise(es, tag, wanted, |es|)
    ensures r.Failure? ==>
              && r.error == MissingAttribute(LABEL)
              && exists j :: 0 <= j < |es| && es[j].name == tag && LabelOf(es[j]).None? && LabelledOtherwise(es, tag, wanted, j)
  {
    if |es| == 0 then Success(None)
    else if es[0].name != tag then
      match FindLabel(es[1..], tag, wanted)
      case Failure(err) =>
        ghost var j :| 0 <= j < |es[1..]| && es[1..][j].name == tag && LabelOf(es[1..][j]).None?
                       && LabelledOtherwise(es[1..], tag, wanted, j);
        assert LabelledOtherwise(es, tag, wanted, j + 1);
        Failure(err)
      case Success(None) => Success(None)
      case Success(Some(i)) => Success(Some(i + 1))
    else if LabelOf(es[0]).None? then
      assert LabelledOtherwise(es, tag, wanted, 0);
      Failure(MissingAttribute(LABEL))
    else if LabelOf(es[0]) == Some(wanted) then Success(Some(0))
    else
      match FindLabel(es[1..], tag, wanted)
      case Failure(err) =>
        ghost var j :| 0 <= j < |es[1..]| && es[1..][j].name == tag && LabelOf(es[1..][j]).None?
                       && LabelledOtherwise(es[1..], tag, wanted, j);
        assert LabelledOtherwise(es, tag, wanted, j + 1);
        Failure(err)
      case Success(None) => Success(None)
      case Success(Some(i)) => Success(Some(i + 1))
  }

  /**
    `childByLabel(layer, type, wanted)`: the first `type` child of `layer`
    labelled `wanted`, or `None` (null) when there is none. Looping over
    `getChildrenByName(type)` visits the same elements as scanning all
    children and skipping the other tags.
  */
  function ChildByLabel(layer: Element, tag: string, wanted: string): (r: Result<Option<Element>, LoadError>)
    ensures r.Success? && r.value.Some? ==>
              r.value.value in layer.children && r.value.value.name == tag && LabelOf(r.value.value) == Some(wanted)
    ensures r.Success? && r.value.Some? ==>
              exists k :: 0 <= k < |layer.children| && layer.children[k] == r.value.value
                          && LabelledOtherwise(layer.children, tag, wanted, k)
    ensures r == Success(None) ==> LabelledOtherwise(layer.children, tag, wanted, |layer.children|)
    ensures r == Success(None) ==>
              forall c :: c in layer.children && c.name == tag ==> LabelOf(c).Some? && LabelOf(c) != Some(wanted)
    ensures r.Failure? ==>
              && r.error == MissingAttribute(LABEL)
              && exists j :: 0 <= j < |layer.children| && layer.children[j].name == tag && LabelOf(layer.children[j]).None?
                             && LabelledOtherwise(layer.children, tag, wanted, j)
  {
    var i :- FindLabel(layer.children, tag, wanted);
    match i
    case None => Success(None)
    case Some(k) => Success(Some(layer.children[k]))
  }

  /** `hasAttribute`: present and not empty. */
  predicate HasAttribute(e: Element, attribute: string) {
    attribute in e.attributes && |e.attributes[attribute]| > 0
  }

  predicate LabelStartsWith(e: Element, prefix: string) {
    HasAttribute(e, LABEL) && StartsWith(e.attributes[LABEL], prefix)
  }

  /**
    `childrenByPrefix(layer, type, prefix)`: the `type` children whose label
    is present, not empty and starts with `prefix`, in document order, each
    as often as it occurs.
  */
  function ChildrenByPrefix(layer: Element, tag: string, prefix: string): (r: seq<Element>)
    ensures forall c :: c in r <==> c in layer.children && c.name == tag && LabelStartsWith(c, prefix)
    ensures forall c :: multiset(r)[c] == if c.name == tag && LabelStartsWith(c, prefix) then multiset(layer.children)[c] else 0
    ensures Subsequence(r, ChildrenByName(layer, tag))
  {
    Filter(ChildrenByName(layer, tag), (c: Element) => LabelStartsWith(c, prefix))
  }

  /** The object name of a prefix-matched marker: its label with the prefix cut off. */
  function ObjectName(e: Element, prefix: string): (r: string)
    requires LabelStartsWith(e, prefix)
    ensures prefix + r == e.attributes[LABEL]
    ensures |r| == |e.attributes[LABEL]| - |prefix|
  {
    var text := e.attributes[LABEL];
    assert text == text[..|prefix|] + text[|prefix|..];
    text[|prefix|..]
  }
}
