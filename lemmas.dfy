/** Properties of the renderer of index.js, stated about the functions of
    module Render (which the methods of module Parser compute). */
module RenderLemmas {
  import opened JsValues
  import opened Render

  /** Outcomes combine like strings: `Then` is associative with unit
      `Returned("")`. */
  lemma ThenMonoid(x: Outcome, y: Outcome, z: Outcome)
    ensures Then(Then(x, y), z) == Then(x, Then(y, z))
    ensures Then(x, Returned("")) == x && Then(Returned(""), x) == x
  {
    if x.Returned? {
      assert x.text + "" == x.text && "" + x.text == x.text;
      if y.Returned? && z.Returned? {
        assert (x.text + y.text) + z.text == x.text + (y.text + z.text);
      }
    }
  }

  // ---------------------------------------------------------------------
  // The forEach accumulation shared by parseAttributes, parseChildren and
  // parseStyle

  lemma ConcatSnoc(parts: seq<Outcome>, part: Outcome)
    ensures Concat(parts + [part]) == Then(Concat(parts), part)
  {
    assert (parts + [part])[..|parts|] == parts;
  }

  /** Accumulating over two lists in turn is accumulating over their
      concatenation. */
  lemma {:induction false} ConcatAppend(x: seq<Outcome>, y: seq<Outcome>)
    ensures Concat(x + y) == Then(Concat(x), Concat(y))
    decreases |y|
  {
    if y == [] {
      assert x + y == x;
      ThenMonoid(Concat(x), Returned(""), Returned(""));
    } else {
      var init, last := y[..|y| - 1], y[|y| - 1];
      assert y == init + [last];
      assert x + y == (x + init) + [last];
      ConcatSnoc(x + init, last);
      ConcatSnoc(init, last);
      ConcatAppend(x, init);
      ThenMonoid(Concat(x), Concat(init), last);
    }
  }

  lemma ConcatOne(part: Outcome)
    ensures Concat([part]) == part
  {
    assert [part][..0] == [];
    ThenMonoid(part, Returned(""), Returned(""));
  }

  /** The accumulation throws exactly when one of its parts throws. */
  lemma {:induction false} ConcatThrowsIff(parts: seq<Outcome>)
    ensures Concat(parts).ThrewTypeError? <==> exists i :: 0 <= i < |parts| && parts[i].ThrewTypeError?
    decreases |parts|
  {
    if parts != [] {
      var init := parts[..|parts| - 1];
      ConcatThrowsIff(init);
      assert forall i :: 0 <= i < |init| ==> init[i] == parts[i];
      if parts[|parts| - 1].ThrewTypeError? {
        assert 0 <= |parts| - 1 < |parts| && parts[|parts| - 1].ThrewTypeError?;
      }
    }
  }

  /** Once a part has thrown, the rest of the loop cannot undo it. */
  lemma ConcatThrowSticks(parts: seq<Outcome>, m: nat)
    requires m <= |parts| && Concat(parts[..m]).ThrewTypeError?
    ensures Concat(parts).ThrewTypeError?
  {
    assert parts == parts[..m] + parts[m..];
    ConcatAppend(parts[..m], parts[m..]);
  }

  /** The accumulation is empty exactly when every part is empty. */
  lemma {:induction false} ConcatEmptyIff(parts: seq<Outcome>)
    ensures Concat(parts) == Returned("") <==> forall i :: 0 <= i < |parts| ==> parts[i] == Returned("")
    decreases |parts|
  {
    if parts != [] {
      var init := parts[..|parts| - 1];
      ConcatEmptyIff(init);
      assert forall i :: 0 <= i < |init| ==> init[i] == parts[i];
    }
  }

  // ---------------------------------------------------------------------
  // parseAttributes

  /** Attributes are built pair by pair: the string for a concatenation of
      pair lists is the concatenation of their strings. */
  lemma AttributesAppend(a: seq<(string, Json)>, b: seq<(string, Json)>)
    ensures Attributes(a + b) == Then(Attributes(a), Attributes(b))
  {
    assert AttributePieces(a + b) == AttributePieces(a) + AttributePieces(b);
    ConcatAppend(AttributePieces(a), AttributePieces(b));
  }

  lemma AttributesOfOne(pair: (string, Json))
    ensures Attributes([pair]) == AttributePiece(pair)
  {
    assert AttributePieces([pair]) == [AttributePiece(pair)];
    ConcatOne(AttributePiece(pair));
  }

  /** Each pair contributes, in its place, exactly one ` key="value"`
      segment, or nothing when its key is reserved. */
  lemma AttributesOfPair(before: seq<(string, Json)>, key: string, value: Json, after: seq<(string, Json)>)
    ensures Attributes(before + [(key, value)] + after)
         == Then(Then(Attributes(before),
                      if key in ReservedKeywords then Returned("") else Enclose(" " + key + "=\"", ToJsString(value), "\"")),
                 Attributes(after))
  {
    AttributesAppend(before + [(key, value)], after);
    AttributesAppend(before, [(key, value)]);
    AttributesOfOne((key, value));
  }

  /** The attribute string is empty exactly when every key is reserved (in
      particular for an object with no keys). */
  lemma AttributesEmptyIff(props: seq<(string, Json)>)
    ensures Attributes(props) == Returned("") <==> forall i :: 0 <= i < |props| ==> props[i].0 in ReservedKeywords
  {
    var parts := AttributePieces(props);
    ConcatEmptyIff(parts);
    forall i | 0 <= i < |props|
      ensures parts[i] == Returned("") <==> props[i].0 in ReservedKeywords
    {
      assert parts[i] == AttributePiece(props[i]);
    }
  }

  /** Some non-reserved key has a value that cannot be turned into a string. */
  predicate SomeAttributeFails(props: seq<(string, Json)>)
  {
    exists i :: 0 <= i < |props| && props[i].0 !in ReservedKeywords && ToStringFails(props[i].1)
  }

  /** The attribute string throws exactly when a value it prints cannot be
      turned into a string. */
  lemma AttributesThrowsIff(props: seq<(string, Json)>)
    ensures Attributes(props).ThrewTypeError? <==> SomeAttributeFails(props)
  {
    var parts := AttributePieces(props);
    ConcatThrowsIff(parts);
    forall i | 0 <= i < |props|
      ensures parts[i].ThrewTypeError? <==> props[i].0 !in ReservedKeywords && ToStringFails(props[i].1)
    {
      assert parts[i] == AttributePiece(props[i]);
      ToJsStringThrowsIff(props[i].1);
    }
  }

  // ---------------------------------------------------------------------
  // parseChildren

  lemma RenderingsAppend(a: seq<Json>, b: seq<Json>)
    ensures Renderings(JArray(a + b)) == Renderings(JArray(a)) + Renderings(JArray(b))
  {
    var r, ra, rb := Renderings(JArray(a + b)), Renderings(JArray(a)), Renderings(JArray(b));
    forall i | 0 <= i < |r|
      ensures r[i] == (ra + rb)[i]
    {
      if i < |a| {
        assert (a + b)[i] == a[i];
      } else {
        assert (a + b)[i] == b[i - |a|];
      }
    }
  }

  /** parseChildren of a one-item array is parseTag of that item, and of an
      empty array is empty. */
  lemma ChildrenOfOne(item: Json)
    ensures ChildrenOf(JArray([])) == Returned("")
    ensures ChildrenOf(JArray([item])) == TagOf(item)
  {
    assert Renderings(JArray([item])) == [TagOf(item)];
    ConcatOne(TagOf(item));
  }

  /** parseChildren of a concatenation is the concatenation. */
  lemma ChildrenAppend(a: seq<Json>, b: seq<Json>)
    ensures ChildrenOf(JArray(a + b)) == Then(ChildrenOf(JArray(a)), ChildrenOf(JArray(b)))
  {
    RenderingsAppend(a, b);
    ConcatAppend(Renderings(JArray(a)), Renderings(JArray(b)));
  }

  /** parseChildren of an array throws exactly when parseTag of one of its
      items throws. */
  lemma ChildrenThrowsIff(a: seq<Json>)
    ensures ChildrenOf(JArray(a)).ThrewTypeError? <==> exists i :: 0 <= i < |a| && TagOf(a[i]).ThrewTypeError?
  {
    var parts := Renderings(JArray(a));
    ConcatThrowsIff(parts);
    assert forall i :: 0 <= i < |a| ==> parts[i] == TagOf(a[i]);
  }

  // ---------------------------------------------------------------------
  // parseStyle

  lemma StyleEntriesAppend(a: seq<(string, Json)>, b: seq<(string, Json)>)
    ensures StyleEntries(JObject(a + b)) == StyleEntries(JObject(a)) + StyleEntries(JObject(b))
  {
    var r, ra, rb := StyleEntries(JObject(a + b)), StyleEntries(JObject(a)), StyleEntries(JObject(b));
    forall i | 0 <= i < |r|
      ensures r[i] == (ra + rb)[i]
    {
      if i < |a| {
        assert (a + b)[i] == a[i];
        assert StyleEntry(JObject(a + b), i) == StyleEntry(JObject(a), i);
      } else {
        assert (a + b)[i] == b[i - |a|];
        assert StyleEntry(JObject(a + b), i) == StyleEntry(JObject(b), i - |a|);
      }
    }
  }

  /** The CSS of an object is the CSS of its keys, one after the other. */
  lemma StyleAppend(a: seq<(string, Json)>, b: seq<(string, Json)>)
    ensures StyleOf(JObject(a + b)) == Then(StyleOf(JObject(a)), StyleOf(JObject(b)))
  {
    StyleEntriesAppend(a, b);
    ConcatAppend(StyleEntries(JObject(a)), StyleEntries(JObject(b)));
  }

  /** The CSS of a single key: nothing for `tag` (and only for `tag`: the
      keys `children` and `raw` are written like any other), a nested block
      for a value of `typeof` "object", a declaration for any other value. */
  lemma StyleOfPair(key: string, value: Json)
    ensures StyleOf(JObject([(key, value)]))
         == if key == "tag" then Returned("")
            else if IsObjectTyped(value) then Enclose(key + " {", StyleOf(value), "}")
            else Enclose(key + ": ", ToJsString(value), ";")
  {
    var v := JObject([(key, value)]);
    assert StyleEntries(v) == [StyleEntry(v, 0)];
    ConcatOne(StyleEntry(v, 0));
  }

  /** Where parseStyle meets a null: at the value itself, or below any key
      other than `tag` of an object, or below any item of an array. */
  predicate NullReachable(v: Json)
  {
    match v
    case JNull => true
    case JObject(fields) => exists i :: 0 <= i < |fields| && fields[i].0 != "tag" && NullReachable(fields[i].1)
    case JArray(items) => exists i :: 0 <= i < |items| && NullReachable(items[i])
    case _ => false
  }

  /** parseStyle throws exactly when it meets a null, the value of `typeof`
      "object" whose keys cannot be listed. */
  lemma {:induction false} StyleThrowsIff(v: Json)
    ensures StyleOf(v).ThrewTypeError? <==> NullReachable(v)
    decreases v
  {
    if !v.JNull? {
      var props, parts := OwnProps(v), StyleEntries(v);
      ConcatThrowsIff(parts);
      forall i | 0 <= i < |props|
        ensures parts[i].ThrewTypeError? <==> props[i].0 != "tag" && NullReachable(props[i].1)
      {
        var (key, value) := props[i];
        assert parts[i] == StyleEntry(v, i);
        if v.JArray? {
          assert IsDigit(key[0]);
        }
        if key != "tag" && IsObjectTyped(value) {
          StyleThrowsIff(value);
        }
      }
    }
  }

  // ---------------------------------------------------------------------
  // parseTag

  /** The pairs of `fields` without those keyed `k`. */
  function WithoutKey(fields: seq<(string, Json)>, k: string): (r: seq<(string, Json)>)
    ensures forall i :: 0 <= i < |r| ==> r[i].0 != k
  {
    if fields == [] then []
    else if fields[0].0 == k then WithoutKey(fields[1..], k)
    else [fields[0]] + WithoutKey(fields[1..], k)
  }

  lemma {:induction false} LookupWithoutKey(fields: seq<(string, Json)>, k: string, other: string)
    requires other != k
    ensures Lookup(WithoutKey(fields, k), other) == Lookup(fields, other)
  {
    if fields != [] {
      LookupWithoutKey(fields[1..], k, other);
    }
  }

  /** Removing the pairs of a reserved key leaves the attribute string
      unchanged. */
  lemma {:induction false} AttributesWithoutReserved(fields: seq<(string, Json)>, k: string)
    requires k in ReservedKeywords
    ensures Attributes(WithoutKey(fields, k)) == Attributes(fields)
  {
    if fields != [] {
      var rest := fields[1..];
      AttributesWithoutReserved(rest, k);
      assert fields == [fields[0]] + rest;
      AttributesAppend([fields[0]], rest);
      AttributesOfOne(fields[0]);
      if fields[0].0 != k {
        AttributesAppend([fields[0]], WithoutKey(rest, k));
      } else {
        ThenMonoid(Attributes(rest), Returned(""), Returned(""));
      }
    }
  }

  /** A truthy `children` takes precedence over `raw`: for a tag other than
      `style`, removing `raw` changes nothing. */
  lemma TagIgnoresRawGivenChildren(fields: seq<(string, Json)>)
    requires Member(JObject(fields), "tag") != Some(JString("style"))
    requires Truthy(Member(JObject(fields), "children"))
    ensures TagOf(JObject(fields)) == TagOf(JObject(WithoutKey(fields, "raw")))
  {
    LookupWithoutKey(fields, "raw", "tag");
    LookupWithoutKey(fields, "raw", "children");
    AttributesWithoutReserved(fields, "raw");
  }

  /** A truthy `children` array that renders to `html` gives a paired
      element around `html`, or a self-closing one when `html` is empty (so
      `children: []` self-closes, whatever `raw` holds). */
  lemma TagChildrenContent(v: Json)
    requires Member(v, "tag") != Some(JString("style"))
    requires Truthy(Member(v, "children")) && Member(v, "children").value.JArray?
    requires ChildrenOf(Member(v, "children").value).Returned?
    ensures var html := ChildrenOf(Member(v, "children").value).text;
            TagOf(v) == if html == "" then SelfClosing(Interpolate(Member(v, "tag")), Attributes(OwnProps(v)))
                        else Paired(Interpolate(Member(v, "tag")), Attributes(OwnProps(v)), Returned(html))
  {
    assert TagOf(v) == ElementOf(v);
  }

  /** `children: []` renders nothing, so the element self-closes, even when
      `raw` is truthy. */
  lemma TagEmptyChildrenSelfCloses(v: Json)
    requires Member(v, "tag") != Some(JString("style"))
    requires Member(v, "children") == Some(JArray([]))
    ensures TagOf(v) == SelfClosing(Interpolate(Member(v, "tag")), Attributes(OwnProps(v)))
  {
    ChildrenOfOne(JNull);
    TagChildrenContent(v);
  }

  /** A truthy `children` that is not an array puts the sentinel text in
      the element. */
  lemma TagNonArrayChildren(v: Json)
    requires Member(v, "tag") != Some(JString("style"))
    requires Truthy(Member(v, "children")) && !Member(v, "children").value.JArray?
    ensures TagOf(v) == Paired(Interpolate(Member(v, "tag")), Attributes(OwnProps(v)), Returned(ChildrenError))
  {
    assert ChildrenOf(Member(v, "children").value) == Returned(ChildrenError);
    assert TagOf(v) == ElementOf(v);
  }

  /** Without a truthy `children`, a truthy `raw` is printed as the content
      and a falsy one (such as `""`) gives a self-closing element. */
  lemma TagRawContent(v: Json)
    requires !v.JNull? && Member(v, "tag") != Some(JString("style"))
    requires !Truthy(Member(v, "children"))
    ensures var name := Interpolate(Member(v, "tag"));
            var attributes := Attributes(OwnProps(v));
            var raw := Member(v, "raw");
            TagOf(v) == if Truthy(raw) then Paired(name, attributes, ToJsString(raw.value))
                        else SelfClosing(name, attributes)
  {
    assert TagOf(v) == ElementOf(v);
  }

  /** A value other than an object or null, met as an item of a children
      array, still renders: its missing `tag` prints as "undefined", and a
      string's or an array's index keys become attributes. */
  lemma TagOfNonObject(v: Json)
    requires !v.JNull? && !v.JObject?
    ensures TagOf(v) == Enclose("<undefined", Attributes(OwnProps(v)), " />")
  {
    assert Member(v, "tag") == None && Member(v, "children") == None && Member(v, "raw") == None;
    assert TagOf(v) == ElementOf(v);
    assert ElementOf(v) == SelfClosing(Returned("undefined"), Attributes(OwnProps(v)));
    assert "<" + "undefined" == "<undefined";
  }

  /** Where parseTag throws: at a null; in a style sheet that meets a null;
      otherwise at an attribute value, a `tag`, or a `raw` content that cannot
      be turned into a string, or in an item of a truthy `children` array. */
  predicate RenderFails(v: Json)
    decreases v
  {
    v.JNull?
    || (Member(v, "tag") == Some(JString("style")) && NullReachable(v))
    || (Member(v, "tag") != Some(JString("style"))
        && (SomeAttributeFails(OwnProps(v))
            || (Member(v, "tag").Some? && ToStringFails(Member(v, "tag").value))
            || (Truthy(Member(v, "children"))
                && var c := Member(v, "children").value;
                   c.JArray? && exists i :: 0 <= i < |c.items| && RenderFails(c.items[i]))
            || (!Truthy(Member(v, "children")) && Truthy(Member(v, "raw")) && ToStringFails(Member(v, "raw").value))))
  }

  /** The element template throws exactly when its tag, its attribute
      string or its truthy content cannot be turned into a string. */
  lemma ElementThrowsIff(tag: Option<Json>, attributes: Outcome, content: Option<Json>)
    ensures Element(tag, attributes, content).ThrewTypeError?
        <==> (tag.Some? && ToStringFails(tag.value)) || attributes.ThrewTypeError?
             || (Truthy(content) && ToStringFails(content.value))
  {
    if tag.Some? {
      ToJsStringThrowsIff(tag.value);
    }
    if content.Some? {
      ToJsStringThrowsIff(content.value);
    }
  }

  lemma ElementOfThrowsIff(v: Json)
    requires !v.JNull?
    ensures var tag, children, raw := Member(v, "tag"), Member(v, "children"), Member(v, "raw");
            ElementOf(v).ThrewTypeError? <==>
              (|| SomeAttributeFails(OwnProps(v))
               || (tag.Some? && ToStringFails(tag.value))
               || (Truthy(children) && ChildrenOf(children.value).ThrewTypeError?)
               || (!Truthy(children) && Truthy(raw) && ToStringFails(raw.value)))
  {
    var tag, children, raw := Member(v, "tag"), Member(v, "children"), Member(v, "raw");
    var attributes := Attributes(OwnProps(v));
    AttributesThrowsIff(OwnProps(v));
    if Truthy(children) {
      var rendered := ChildrenOf(children.value);
      if rendered.Returned? {
        ElementThrowsIff(tag, attributes, Some(JString(rendered.text)));
      }
    } else {
      ElementThrowsIff(tag, attributes, if Truthy(raw) then raw else None);
    }
  }

  /** parseTag throws exactly where RenderFails says. */
  lemma {:induction false} TagThrowsIff(v: Json)
    ensures TagOf(v).ThrewTypeError? <==> RenderFails(v)
    decreases v
  {
    if !v.JNull? {
      if Member(v, "tag") == Some(JString("style")) {
        StyleThrowsIff(v);
      } else {
        assert TagOf(v) == ElementOf(v);
        ElementOfThrowsIff(v);
        var children := Member(v, "children");
        if Truthy(children) && children.value.JArray? {
          var c := children.value;
          ChildrenThrowsIff(c.items);
          forall i | 0 <= i < |c.items|
            ensures TagOf(c.items[i]).ThrewTypeError? <==> RenderFails(c.items[i])
          {
            TagThrowsIff(c.items[i]);
          }
        }
      }
    }
  }
}
