# jhtml renderer, modelled in Dafny

jhtml turns a JSON document into an HTML page. Its renderer in `index.js` is
made of four functions:

- `parseAttributes` writes ` key="value"` for every key of a tag object except
  the reserved `tag`, `children` and `raw`, in key order.
- `parseChildren` concatenates `parseTag` over an array. Given anything else
  it returns the text `Children need to be an array`, which then becomes
  ordinary content of the enclosing element.
- `parseStyle` flattens an object into CSS. An object-typed value becomes a
  nested `key {…}` block and any other value becomes `key: value;`. Only the
  `tag` key is skipped.
- `parseTag` renders a `style` tag as a `<style type="text/css">` sheet. Any
  other tag becomes an element whose content is the rendering of a truthy
  `children`, or else a truthy `raw`. Whether the element is paired or
  self-closing depends only on whether that content is truthy, so
  `children: []` self-closes.

`parseJsonToHtml` wraps the rendered children in `<!doctype html><html>` …
`</html>`.

The model has four modules:

- `JsValues` (`json.dfy`): parsed JSON values and the parts of JavaScript the
  renderer depends on.
  - Truthiness and `typeof … === "object"`.
  - `String(v)` as a template literal applies it. Integers print in decimal,
    and arrays are joined with commas, with null items printing as nothing.
    Objects print as `[object Object]`, and a missing property prints as
    `undefined`.
  - An object with its own `toString` key cannot be turned into a string at
    all: `String(v)` throws a `TypeError`. So does an array holding such an
    object.
  - `Object.keys` with the values it lists. Strings and arrays have index
    keys; numbers and booleans have none.
  - Property reads.
- `Render` (`render.dfy`): each JavaScript function as a recursive function.
  - A call either returns a string or throws a `TypeError`: `Outcome`.
    `Object.keys(null)`, `null["tag"]` and an interpolation that cannot be
    turned into a string all throw, and all can be reached from a JSON
    document.
  - The three `forEach` loops that build a string piece by piece share one
    definition, `Concat`.
- `Parser` (`parser.dfy`): the same functions written the way the source
  writes them.
  - `parseAttributes`, `parseChildren` and `parseStyle` keep a string
    accumulator in a loop over keys or items.
  - `parseTag` and `parseJsonToHtml` choose between cases and combine
    results.
  - Each method is proved to compute its `Render` function.
- `RenderLemmas` (`lemmas.dfy`): the properties of those functions, including
  exactly when each function throws.

The model covers every JSON value whose numbers are integers, not only
well-formed tag objects. This includes:
- a missing or non-string `tag`;
- attribute values of any type;
- strings and arrays met where a tag object is expected;
- nulls.

## Model

| member | source | states |
|---|---|---|
| JsValues.ToJsStringThrowsIff | index.js:23 | `${value}` throws exactly for an object with its own `toString` key, or an array reaching one through its items |
| JsValues.MemberFindsFirst | index.js:55-63 | for a name `k` that is not an index and not `length`, `json[k]` reads a value exactly when `json` is an object with a pair keyed `k`, and then reads the first such pair |
| JsValues.OwnPropsRead | index.js:20-22 | in an object with distinct keys, every key `Object.keys` lists (`""`, `"0%"` and digit-led keys included) reads back, through `json[key]`, the value listed with it; for a name that is neither an index nor `length` this is also the `Member` read |
| JsValues.NatToString | index.js:23 | the decimal numeral of a number is a non-empty string of digits with no leading zero |
| JsValues.DecimalRoundTrip | index.js:23 | the numeral printed for `n` denotes `n` |
| Parser.ParseAttributes | index.js:18-26 | throws on null; otherwise returns the attribute string of its key/value pairs in key order, and throws exactly when a printed value cannot be turned into a string |
| Parser.ParseChildren | index.js:28-38 | returns the sentinel text for a non-array; otherwise accumulates `parseTag` of each item in order, and throws as soon as an item does |
| Parser.ParseStyle | index.js:39-52 | accumulates, key by key, the declaration or nested block of every key except `tag`, recursing into object-typed values; throws on null |
| Parser.ParseTag | index.js:54-68 | computes the rendering of a tag; a `style` tag is exactly the style sheet of the whole object with no HTML attributes |
| Parser.ParseJsonToHtml | index.js:13-16 | the page is exactly the document shell around `parseChildren`; it fails exactly when `parseChildren` does; a non-array document gives the shell around the sentinel text |
| RenderLemmas.ConcatAppend | index.js:33-37 | accumulating over two lists in turn equals accumulating over their concatenation |
| RenderLemmas.ConcatThrowsIff | index.js:34-36 | an accumulation throws exactly when one of its pieces throws |
| RenderLemmas.ConcatThrowSticks | index.js:34-36 | once a piece has thrown, the whole loop has thrown |
| RenderLemmas.ConcatEmptyIff | index.js:19-25 | an accumulation is empty exactly when each of its pieces is |
| RenderLemmas.AttributesAppend | index.js:18-26 | the attribute string of a concatenation of pair lists is the concatenation of their attribute strings |
| RenderLemmas.AttributesOfPair | index.js:19-25 | each pair contributes, in its place, exactly ` key="value"`, or nothing when its key is reserved |
| RenderLemmas.AttributesEmptyIff | index.js:19-25 | the attribute string is empty exactly when every key is reserved, and so for an object without keys |
| RenderLemmas.AttributesThrowsIff | index.js:20-24 | the attribute string throws exactly when a non-reserved key's value cannot be turned into a string |
| RenderLemmas.AttributesWithoutReserved | index.js:21 | removing the pairs of one reserved key leaves the attribute string unchanged |
| RenderLemmas.RenderingsAppend | index.js:34-36 | the item renderings of a concatenated array are those of the two parts, in order |
| RenderLemmas.ChildrenOfOne | index.js:33-37 | `parseChildren([])` is `""`, and of a one-item array it is `parseTag` of that item |
| RenderLemmas.ChildrenAppend | index.js:33-37 | `parseChildren(a + b)` is `parseChildren(a)` followed by `parseChildren(b)` |
| RenderLemmas.ChildrenThrowsIff | index.js:34-36 | `parseChildren` of an array throws exactly when `parseTag` of one of its items throws |
| RenderLemmas.StyleEntriesAppend | index.js:41-50 | the per-key CSS of a concatenation of pair lists is that of the two lists, in order |
| RenderLemmas.StyleAppend | index.js:39-52 | the CSS of an object is the CSS of its leading pairs followed by that of the rest |
| RenderLemmas.StyleOfPair | index.js:42-48 | one key gives nothing when it is `tag` (only then), `key {` + the CSS of its value + `}` for an object-typed value, and `key: value;` otherwise |
| RenderLemmas.StyleThrowsIff | index.js:39-52 | `parseStyle` throws exactly when a null can be reached through non-`tag` keys and array items |
| RenderLemmas.LookupWithoutKey | index.js:55-63 | removing one key does not change the value read for any other key |
| RenderLemmas.TagIgnoresRawGivenChildren | index.js:60-65 | given a truthy `children`, removing `raw` leaves the rendering of a non-style tag unchanged |
| RenderLemmas.TagChildrenContent | index.js:60-66 | a truthy `children` array that renders to `html` gives `<name attrs>html</name>`, or `<name attrs />` when `html` is empty |
| RenderLemmas.TagEmptyChildrenSelfCloses | index.js:60-66 | `children: []` renders nothing, so the element self-closes, whatever `raw` holds |
| RenderLemmas.TagNonArrayChildren | index.js:29-31 | a truthy non-array `children` puts the sentinel text inside a paired element |
| RenderLemmas.TagRawContent | index.js:60-66 | without a truthy `children`, a truthy `raw` is printed as the content of a paired element; otherwise the element self-closes |
| RenderLemmas.TagOfNonObject | index.js:54-66 | a string, number, boolean or array item renders as `<undefined` + its index-key attributes + ` />` |
| RenderLemmas.ElementThrowsIff | index.js:66 | the element template throws exactly when its tag, its attribute string or its truthy content cannot be turned into a string |
| RenderLemmas.ElementOfThrowsIff | index.js:59-66 | a non-style tag throws exactly at an attribute value, the tag name, the rendering of a truthy `children`, or a `raw` content that cannot be turned into a string |
| RenderLemmas.TagThrowsIff | index.js:54-68 | `parseTag` throws exactly on a null, on a style sheet that reaches a null, at an attribute value, tag name or `raw` content that cannot be turned into a string, or when an item of a truthy `children` array throws |

Each `Parser` row also stands for the `Render` function its method is proved
equal to: `ParseAttributes` for `Attributes`, `ParseChildren` for `ChildrenOf`,
`ParseStyle` for `StyleOf`, `ParseTag` for `TagOf` and `ParseJsonToHtml` for
`PageOf`. Those functions, with `JsValues.ToJsString` for `String(v)`, are the
model's definition of what index.js computes; the `RenderLemmas` rows are
properties of them.

## Left out

- `readJsonFile`, `toHTMLFile` and `main` (index.js:4-11, 70-84) are file I/O, promises and `JSON.parse`. A document is a value of type `Json` given as a parameter.
- The `console.log` calls (index.js:30, 49) only print and do not affect any result.
- Numbers are integers. Fractions and exponents in a JSON number are not modelled.
- JsValues.NatToString: integers are taken as exact. JavaScript holds a number as a double: above 2^53 it prints the shortest digits that denote the same double, and from 10^21 on it uses exponent notation. Neither is modelled.
- JsValues.DecimalRoundTrip: the round trip holds for the model's exact numeral, not for JavaScript's printing of integers above 2^53, which is not modelled.
- `Object.keys` lists integer-like keys of an object before the others. The model takes an object's pairs to be already in key order.
- A JSON text with a duplicate key parses to an object with one pair for that key. The model assumes distinct keys (`DistinctKeys`) and does not enforce it. With duplicates it reads the first pair for `tag`, `children` and `raw` and writes every pair as an attribute.
- The message text of a `TypeError` is not modelled, only that one is thrown.
- A stack overflow on very deeply nested input is not modelled.
- Strings are sequences of characters. UTF-16 code units, which index a JavaScript string, are not distinguished from code points.
- JsValues.Member: reads only names that are not array indices, not `length` (which arrays and strings own) and not inherited from a prototype. `tag`, `children` and `raw` are such names, and they are the only names the renderer reads this way.
