/** What index.js computes, as recursive functions: the reference definitions
    that the step-by-step methods of module Parser are proved to agree with,
    and that the lemmas of module RenderLemmas are about. */
module Render {
  import opened JsValues

  /** Keys that parseAttributes never turns into HTML attributes. */
  const ReservedKeywords: seq<string> := ["tag", "children", "raw"]

  /** What parseChildren returns in place of markup when given a non-array. */
  const ChildrenError: string := "Children need to be an array"

  const StyleOpen: string := "<style type=\"text/css\">"
  const StyleClose: string := "</style>"
  const PageOpen: string := "<!doctype html><html>"
  const PageClose: string := "</html>"

  /** `acc += part` for each of `parts` in turn, starting from `""`, as the
      forEach loops of parseAttributes, parseChildren and parseStyle do: the concatenation,
      unless some part throws. */
  function Concat(parts: seq<Outcome>): Outcome
  {
    if parts == [] then Returned("") else Then(Concat(parts[..|parts| - 1]), parts[|parts| - 1])
  }

  /** The segment ` key="value"` for one attribute; `${value}` may throw. */
  function AttributeSegment(key: string, value: Json): Outcome
  {
    Enclose(" " + key + "=\"", ToJsString(value), "\"")
  }

  /** What parseAttributes adds for one key/value pair. */
  function AttributePiece(pair: (string, Json)): Outcome
  {
    if pair.0 in ReservedKeywords then Returned("") else AttributeSegment(pair.0, pair.1)
  }

  /** What parseAttributes adds for each of the pairs `props`, in order. */
  function AttributePieces(props: seq<(string, Json)>): (r: seq<Outcome>)
    ensures |r| == |props|
  {
    seq(|props|, i requires 0 <= i < |props| => AttributePiece(props[i]))
  }

  /** parseAttributes over the key/value pairs `props`, in their order. */
  function Attributes(props: seq<(string, Json)>): Outcome
  {
    Concat(AttributePieces(props))
  }

  /** parseStyle(v). */
  function StyleOf(v: Json): Outcome
    decreases v, 2
  {
    if v.JNull? then ThrewTypeError else Concat(StyleEntries(v))
  }

  /** What parseStyle(v) adds for each of its keys, in order. */
  function StyleEntries(v: Json): (r: seq<Outcome>)
    requires !v.JNull?
    ensures |r| == |OwnProps(v)|
    decreases v, 1
  {
    seq(|OwnProps(v)|, i requires 0 <= i < |OwnProps(v)| => StyleEntry(v, i))
  }

  /** What parseStyle(v) adds for its `i`-th key: nothing for `tag`, a nested
      block for a value of `typeof` "object", a declaration otherwise. */
  function StyleEntry(v: Json, i: nat): Outcome
    requires !v.JNull? && i < |OwnProps(v)|
    decreases v, 0
  {
    var (key, value) := OwnProps(v)[i];
    if key == "tag" then Returned("")
    else if IsObjectTyped(value) then Enclose(key + " {", StyleOf(value), "}")
    else Enclose(key + ": ", ToJsString(value), ";")
  }

  /** parseChildren(c). */
  function ChildrenOf(c: Json): Outcome
    decreases c, 2
  {
    if !c.JArray? then Returned(ChildrenError) else Concat(Renderings(c))
  }

  /** parseTag of each item of array `c`, in order. */
  function Renderings(c: Json): (r: seq<Outcome>)
    requires c.JArray?
    ensures |r| == |c.items|
    decreases c, 1
  {
    seq(|c.items|, i requires 0 <= i < |c.items| => TagOf(c.items[i]))
  }

  /** `<${name}${attributes}>${content}</${name}>`, unless one of the
      interpolated parts throws. */
  function Paired(name: Outcome, attributes: Outcome, content: Outcome): Outcome
  {
    match (name, attributes, content)
    case (Returned(n), Returned(a), Returned(c)) => Returned("<" + n + a + ">" + c + "</" + n + ">")
    case _ => ThrewTypeError
  }

  /** `<${name}${attributes} />`, unless one of the interpolated parts throws. */
  function SelfClosing(name: Outcome, attributes: Outcome): Outcome
  {
    match (name, attributes)
    case (Returned(n), Returned(a)) => Returned("<" + n + a + " />")
    case _ => ThrewTypeError
  }

  /** The element parseTag writes for the tag read from `tag`, the attribute
      string `attributes` and the content `content` (None when there is
      none): a paired element for truthy content, a self-closing one
      otherwise. */
  function Element(tag: Option<Json>, attributes: Outcome, content: Option<Json>): Outcome
  {
    if Truthy(content) then Paired(Interpolate(tag), attributes, ToJsString(content.value))
    else SelfClosing(Interpolate(tag), attributes)
  }

  /** parseTag(v). */
  function TagOf(v: Json): Outcome
    decreases v, 3
  {
    if v.JNull? then ThrewTypeError
    else if Member(v, "tag") == Some(JString("style")) then Enclose(StyleOpen, StyleOf(v), StyleClose)
    else ElementOf(v)
  }

  /** The element parseTag(v) writes for a tag other than `style`: its content
      is the rendering of a truthy `children`, else a truthy `raw`. */
  function ElementOf(v: Json): Outcome
    requires !v.JNull?
    decreases v, 2
  {
    var tag := Member(v, "tag");
    var attributes := Attributes(OwnProps(v));
    var children := Member(v, "children");
    var raw := Member(v, "raw");
    if Truthy(children) then
      match ChildrenOf(children.value)
      case Returned(html) => Element(tag, attributes, Some(JString(html)))
      case ThrewTypeError => ThrewTypeError
    else Element(tag, attributes, if Truthy(raw) then raw else None)
  }

  /** parseJsonToHtml(v). */
  function PageOf(v: Json): Outcome
  {
    Enclose(PageOpen, ChildrenOf(v), PageClose)
  }
}
