/** The functions of index.js as they run: parseAttributes, parseChildren and
    parseStyle build their result in an accumulator inside a loop over keys
    or items; parseTag and parseJsonToHtml choose and combine. Each method is
    proved to compute the corresponding function of module Render. */
module Parser {
  import opened JsValues
  import opened Render
  import RenderLemmas

  /** parseAttributes: ` key="value"` for every non-reserved key, in key
      order. `Object.keys(null)` throws, and so does `${value}` for a value
      that cannot be turned into a string. */
  method ParseAttributes(json: Json) returns (r: Outcome)
    ensures json.JNull? ==> r == ThrewTypeError
    ensures !json.JNull? ==> r == Attributes(OwnProps(json))
    ensures r.ThrewTypeError? <==> json.JNull? || RenderLemmas.SomeAttributeFails(OwnProps(json))
  {
    if json.JNull? {
      return ThrewTypeError;
    }
    var keys := OwnProps(json);
    ghost var parts := AttributePieces(keys);
    var htmlAttributes := "";
    for i := 0 to |keys|
      invariant Concat(parts[..i]) == Returned(htmlAttributes)
    {
      assert parts[..i + 1] == parts[..i] + [parts[i]];
      RenderLemmas.ConcatSnoc(parts[..i], parts[i]);
      assert parts[i] == AttributePiece(keys[i]);
      var (key, value) := keys[i];
      if key in ReservedKeywords {
        assert htmlAttributes + "" == htmlAttributes;
        continue;
      }
      var text := ToJsString(value);
      assert parts[i] == Enclose(" " + key + "=\"", text, "\"");
      if text.ThrewTypeError? {
        RenderLemmas.ConcatThrowSticks(parts, i + 1);
        RenderLemmas.AttributesThrowsIff(keys);
        return ThrewTypeError;
      }
      htmlAttributes := htmlAttributes + (" " + key + "=\"" + text.text + "\"");
    }
    assert parts[..|parts|] == parts;
    RenderLemmas.AttributesThrowsIff(keys);
    return Returned(htmlAttributes);
  }

  /** parseChildren: the sentinel text for a non-array, otherwise parseTag of
      every item, concatenated in order; a throwing item aborts the loop. */
  method ParseChildren(children: Json) returns (r: Outcome)
    ensures r == ChildrenOf(children)
    ensures !children.JArray? ==> r == Returned(ChildrenError)
    decreases children, 1
  {
    if !children.JArray? {
      return Returned(ChildrenError);
    }
    ghost var parts := Renderings(children);
    var htmlChildren := "";
    for i := 0 to |children.items|
      invariant Concat(parts[..i]) == Returned(htmlChildren)
    {
      var tag := ParseTag(children.items[i]);
      assert parts[..i + 1] == parts[..i] + [tag];
      RenderLemmas.ConcatSnoc(parts[..i], tag);
      if tag.ThrewTypeError? {
        RenderLemmas.ConcatThrowSticks(parts, i + 1);
        return ThrewTypeError;
      }
      htmlChildren := htmlChildren + tag.text;
    }
    assert parts[..|parts|] == parts;
    return Returned(htmlChildren);
  }

  /** parseStyle: skips the `tag` key; an object-typed value becomes a nested
      `key {…}` block, any other value a `key: value;` declaration. */
  method ParseStyle(json: Json) returns (r: Outcome)
    ensures r == StyleOf(json)
    decreases json
  {
    if json.JNull? {
      return ThrewTypeError;
    }
    var keys := OwnProps(json);
    ghost var parts := StyleEntries(json);
    var css := "";
    for i := 0 to |keys|
      invariant Concat(parts[..i]) == Returned(css)
    {
      assert parts[..i + 1] == parts[..i] + [parts[i]];
      RenderLemmas.ConcatSnoc(parts[..i], parts[i]);
      assert parts[i] == StyleEntry(json, i);
      var (key, value) := keys[i];
      if key == "tag" {
        assert parts[i] == Returned("") && css + "" == css;
        continue;
      }
      var piece: string;
      if IsObjectTyped(value) {
        var inner := ParseStyle(value);
        if inner.ThrewTypeError? {
          RenderLemmas.ConcatThrowSticks(parts, i + 1);
          return ThrewTypeError;
        }
        piece := key + " {" + inner.text + "}";
      } else {
        piece := key + ": " + ToJsString(value).text + ";";
      }
      assert parts[i] == Returned(piece);
      css := css + piece;
    }
    assert parts[..|parts|] == parts;
    return Returned(css);
  }

  /** parseTag: a `style` tag becomes a style sheet; any other tag an element
      whose content is the rendering of a truthy `children`, else a truthy
      `raw`, and which self-closes when that content is falsy. */
  method ParseTag(json: Json) returns (r: Outcome)
    ensures r == TagOf(json)
    ensures Member(json, "tag") == Some(JString("style")) ==> r == Enclose(StyleOpen, StyleOf(json), StyleClose)
    decreases json, 3
  {
    if json.JNull? {
      return ThrewTypeError;
    }
    var htmlTag := Member(json, "tag");
    if htmlTag == Some(JString("style")) {
      var css := ParseStyle(json);
      return Enclose(StyleOpen, css, StyleClose);
    }
    var htmlAttributes := ParseAttributes(json);
    if htmlAttributes.ThrewTypeError? {
      return ThrewTypeError;
    }
    var children := Member(json, "children");
    var raw := Member(json, "raw");
    var htmlChildren: Option<Json>;
    if Truthy(children) {
      var html := ParseChildren(children.value);
      if html.ThrewTypeError? {
        return ThrewTypeError;
      }
      htmlChildren := Some(JString(html.text));
    } else if Truthy(raw) {
      htmlChildren := raw;
    } else {
      htmlChildren := None;
    }
    var name := Interpolate(htmlTag);
    if name.ThrewTypeError? {
      return ThrewTypeError;
    }
    if Truthy(htmlChildren) {
      var content := ToJsString(htmlChildren.value);
      if content.ThrewTypeError? {
        return ThrewTypeError;
      }
      r := Returned("<" + name.text + htmlAttributes.text + ">" + content.text + "</" + name.text + ">");
    } else {
      r := Returned("<" + name.text + htmlAttributes.text + " />");
    }
  }

  /** parseJsonToHtml: the rendered children inside the document shell. */
  method ParseJsonToHtml(json: Json) returns (r: Outcome)
    ensures r == PageOf(json)
    ensures r.Returned? <==> ChildrenOf(json).Returned?
    ensures r.Returned? ==> r.text == PageOpen + ChildrenOf(json).text + PageClose
    ensures !json.JArray? ==> r == Returned(PageOpen + ChildrenError + PageClose)
  {
    var html := ParseChildren(json);
    return Enclose(PageOpen, html, PageClose);
  }
}
