/** The tool's input schema and the record shapes exchanged with the remote
    highlight store (src/types/highlight.ts). The zod schema is modelled as a
    validator from an untyped JSON value to a typed highlight list, next to an
    independent predicate saying which values the schema admits. */
module Highlights {
  import opened Wrappers
  import opened Json

  /** What `category` becomes when the caller leaves it out. */
  const DefaultCategory := "articles"

  /** A validated highlight. `category` is not optional any more: the schema
      fills in `DefaultCategory` when it is absent. */
  datatype Highlight = Highlight(
    text: string,
    title: string,
    author: Option<string>,
    sourceUrl: Option<string>,
    sourceType: Option<string>,
    category: string,
    note: Option<string>,
    location: Option<int>,
    locationType: Option<string>,
    highlightedAt: Option<string>,
    tags: Option<seq<string>>)

  /** One `{ name }` entry of the remote's `highlight_tags` array. */
  datatype Tag = Tag(name: string)

  /** The remote's wire record; an absent field is left out of the JSON body. */
  datatype ReadwiseHighlight = ReadwiseHighlight(
    text: string,
    title: string,
    author: Option<string>,
    sourceUrl: Option<string>,
    sourceType: Option<string>,
    category: Option<string>,
    note: Option<string>,
    location: Option<int>,
    locationType: Option<string>,
    highlightedAt: Option<string>,
    highlightTags: Option<seq<Tag>>)

  datatype SavedHighlight = SavedHighlight(id: int, text: string)

  /** One per-title batch result of the remote's create call. */
  datatype CreateResponse = CreateResponse(
    id: int,
    title: string,
    author: Option<string>,
    category: string,
    numHighlights: int,
    sourceUrl: Option<string>,
    highlights: seq<SavedHighlight>)

  /** The first schema violation found, in schema order. */
  datatype ValidationError =
    | InputNotObject
    | HighlightsMissing
    | HighlightsNotArray
    | HighlightsEmpty
    | ElementNotObject(index: nat)
    | FieldMissing(index: nat, field: string)
    | FieldWrongType(index: nat, field: string)

  // ---------------------------------------------------------------------
  // Which values the schema admits, stated field by field.

  predicate RequiredString(fields: map<string, Value>, key: string) {
    key in fields && fields[key].Str?
  }

  predicate OptionalString(fields: map<string, Value>, key: string) {
    key in fields ==> fields[key].Str?
  }

  predicate OptionalNumber(fields: map<string, Value>, key: string) {
    key in fields ==> fields[key].Num?
  }

  predicate StringArray(v: Value) {
    v.Arr? && forall i :: 0 <= i < |v.items| ==> v.items[i].Str?
  }

  predicate OptionalStringArray(fields: map<string, Value>, key: string) {
    key in fields ==> StringArray(fields[key])
  }

  /** `HighlightSchema`: an object with string `text` and `title`, and the
      optional fields, where present, of their declared types. */
  predicate ConformsToHighlight(v: Value) {
    && v.Obj?
    && RequiredString(v.fields, "text")
    && RequiredString(v.fields, "title")
    && OptionalString(v.fields, "author")
    && OptionalString(v.fields, "source_url")
    && OptionalString(v.fields, "source_type")
    && OptionalString(v.fields, "category")
    && OptionalString(v.fields, "note")
    && OptionalNumber(v.fields, "location")
    && OptionalString(v.fields, "location_type")
    && OptionalString(v.fields, "highlighted_at")
    && OptionalStringArray(v.fields, "tags")
  }

  /** `SavewiseInputSchema`: an object whose `highlights` is an array of at
      least one schema-conforming element. */
  predicate ConformsToInput(args: Value) {
    && args.Obj?
    && "highlights" in args.fields
    && args.fields["highlights"].Arr?
    && |args.fields["highlights"].items| >= 1
    && forall i :: 0 <= i < |args.fields["highlights"].items| ==>
         ConformsToHighlight(args.fields["highlights"].items[i])
  }

  function StringOf(fields: map<string, Value>, key: string): Option<string> {
    if key in fields && fields[key].Str? then Some(fields[key].s) else None
  }

  /** `h` is what the schema makes of the conforming object `v`: every field
      copied, `category` defaulted, unknown keys dropped. */
  predicate Decodes(v: Value, h: Highlight)
    requires ConformsToHighlight(v)
  {
    && h.text == v.fields["text"].s
    && h.title == v.fields["title"].s
    && h.author == StringOf(v.fields, "author")
    && h.sourceUrl == StringOf(v.fields, "source_url")
    && h.sourceType == StringOf(v.fields, "source_type")
    && h.category == StringOf(v.fields, "category").GetOr(DefaultCategory)
    && h.note == StringOf(v.fields, "note")
    && h.location == (if "location" in v.fields then Some(v.fields["location"].n) else None)
    && h.locationType == StringOf(v.fields, "location_type")
    && h.highlightedAt == StringOf(v.fields, "highlighted_at")
    && (h.tags.Some? <==> "tags" in v.fields)
    && (h.tags.Some? ==>
          && |h.tags.value| == |v.fields["tags"].items|
          && forall i :: 0 <= i < |h.tags.value| ==> h.tags.value[i] == v.fields["tags"].items[i].s)
  }

  // ---------------------------------------------------------------------
  // The validator.

  function RequireString(fields: map<string, Value>, key: string, index: nat): (r: Result<string, ValidationError>)
    ensures r.Ok? <==> RequiredString(fields, key)
    ensures r.Ok? ==> r.value == fields[key].s
    ensures r.Err? ==> r.error == (if key in fields then FieldWrongType(index, key) else FieldMissing(index, key))
  {
    if key !in fields then Err(FieldMissing(index, key))
    else if fields[key].Str? then Ok(fields[key].s)
    else Err(FieldWrongType(index, key))
  }

  function OptString(fields: map<string, Value>, key: string, index: nat): (r: Result<Option<string>, ValidationError>)
    ensures r.Ok? <==> OptionalString(fields, key)
    ensures r.Ok? ==> r.value == StringOf(fields, key)
    ensures r.Err? ==> r.error == FieldWrongType(index, key)
  {
    if key !in fields then Ok(None)
    else if fields[key].Str? then Ok(Some(fields[key].s))
    else Err(FieldWrongType(index, key))
  }

  function OptNumber(fields: map<string, Value>, key: string, index: nat): (r: Result<Option<int>, ValidationError>)
    ensures r.Ok? <==> OptionalNumber(fields, key)
    ensures r.Ok? ==> (r.value.Some? <==> key in fields)
    ensures r.Ok? && r.value.Some? ==> r.value.value == fields[key].n
  {
    if key !in fields then Ok(None)
    else if fields[key].Num? then Ok(Some(fields[key].n))
    else Err(FieldWrongType(index, key))
  }

  /** The strings of an array of JSON values, or `None` if one is not a string. */
  function Strings(items: seq<Value>): (r: Option<seq<string>>)
    ensures r.Some? <==> forall i :: 0 <= i < |items| ==> items[i].Str?
    ensures r.Some? ==> |r.value| == |items| && forall i :: 0 <= i < |items| ==> r.value[i] == items[i].s
  {
    if |items| == 0 then Some([])
    else if !items[0].Str? then None
    else
      match Strings(items[1..])
      case None => None
      case Some(rest) => Some([items[0].s] + rest)
  }

  function OptStrings(fields: map<string, Value>, key: string, index: nat): (r: Result<Option<seq<string>>, ValidationError>)
    ensures r.Ok? <==> OptionalStringArray(fields, key)
    ensures r.Ok? ==> (r.value.Some? <==> key in fields)
    ensures r.Ok? && r.value.Some? ==>
      && |r.value.value| == |fields[key].items|
      && forall i :: 0 <= i < |r.value.value| ==> r.value.value[i] == fields[key].items[i].s
  {
    if key !in fields then Ok(None)
    else if !fields[key].Arr? then Err(FieldWrongType(index, key))
    else
      match Strings(fields[key].items)
      case None => Err(FieldWrongType(index, key))
      case Some(tags) => Ok(Some(tags))
  }

  /** `HighlightSchema.safeParse` on the element at position `index`. */
  function ValidateHighlight(v: Value, index: nat): (r: Result<Highlight, ValidationError>)
    ensures r.Ok? <==> ConformsToHighlight(v)
    ensures r.Ok? ==> Decodes(v, r.value)
    ensures r.Err? ==> r.error.ElementNotObject? || r.error.FieldMissing? || r.error.FieldWrongType?
    ensures r.Err? ==> r.error.index == index
  {
    if !v.Obj? then Err(ElementNotObject(index))
    else
      var f := v.fields;
      var text :- RequireString(f, "text", index);
      var title :- RequireString(f, "title", index);
      var author :- OptString(f, "author", index);
      var sourceUrl :- OptString(f, "source_url", index);
      var sourceType :- OptString(f, "source_type", index);
      var category :- OptString(f, "category", index);
      var note :- OptString(f, "note", index);
      var location :- OptNumber(f, "location", index);
      var locationType :- OptString(f, "location_type", index);
      var highlightedAt :- OptString(f, "highlighted_at", index);
      var tags :- OptStrings(f, "tags", index);
      Ok(Highlight(text, title, author, sourceUrl, sourceType, category.GetOr(DefaultCategory),
                   note, location, locationType, highlightedAt, tags))
  }

  /** Validates the elements in order; `offset` is the position of `items[0]`. */
  function ValidateElements(items: seq<Value>, offset: nat): (r: Result<seq<Highlight>, ValidationError>)
    ensures r.Ok? <==> forall i :: 0 <= i < |items| ==> ConformsToHighlight(items[i])
    ensures r.Ok? ==> |r.value| == |items|
    ensures r.Ok? ==> forall i :: 0 <= i < |items| ==> Decodes(items[i], r.value[i])
    ensures r.Err? ==> r.error.ElementNotObject? || r.error.FieldMissing? || r.error.FieldWrongType?
    ensures r.Err? ==> offset <= r.error.index < offset + |items|
    decreases |items|
  {
    if |items| == 0 then Ok([])
    else
      var h :- ValidateHighlight(items[0], offset);
      var rest :- ValidateElements(items[1..], offset + 1);
      Ok([h] + rest)
  }

  /** `SavewiseInputSchema.safeParse(args)`: the validated highlights, same
      count and order as the input array, or the first violation. */
  function Validate(args: Value): (r: Result<seq<Highlight>, ValidationError>)
    ensures r.Ok? <==> ConformsToInput(args)
    ensures r.Ok? ==> |r.value| == |args.fields["highlights"].items| >= 1
    ensures r.Ok? ==> forall i :: 0 <= i < |r.value| ==>
              Decodes(args.fields["highlights"].items[i], r.value[i])
  {
    if !args.Obj? then Err(InputNotObject)
    else if "highlights" !in args.fields then Err(HighlightsMissing)
    else if !args.fields["highlights"].Arr? then Err(HighlightsNotArray)
    else if |args.fields["highlights"].items| == 0 then Err(HighlightsEmpty)
    else ValidateElements(args.fields["highlights"].items, 0)
  }

  // ---------------------------------------------------------------------
  // Consequences of the validator's contract.

  /** The decoded highlight is determined by the input value. */
  lemma DecodesIsFunctional(v: Value, h1: Highlight, h2: Highlight)
    requires ConformsToHighlight(v)
    requires Decodes(v, h1) && Decodes(v, h2)
    ensures h1 == h2
  {
    if h1.tags.Some? {
      assert h1.tags.value == h2.tags.value;
    }
  }

  /** `category` is kept when supplied and defaults to "articles" otherwise. */
  lemma CategoryDefault(args: Value, i: nat)
    requires Validate(args).Ok?
    requires i < |Validate(args).value|
    ensures var e := args.fields["highlights"].items[i];
            Validate(args).value[i].category ==
              if "category" in e.fields then e.fields["category"].s else DefaultCategory
  {
  }

  function Minimal(text: string, title: string): Value {
    Obj(map["text" := Str(text), "title" := Str(title)])
  }

  /** A list of one element carrying only `text` and `title` is accepted. */
  lemma MinimalInputAccepted(text: string, title: string)
    ensures Validate(Single("highlights", Arr([Minimal(text, title)]))) ==
      Ok([Highlight(text, title, None, None, None, DefaultCategory, None, None, None, None, None)])
  {
    var v := Minimal(text, title);
    var args := Single("highlights", Arr([v]));
    var expected := Highlight(text, title, None, None, None, DefaultCategory, None, None, None, None, None);
    assert args.fields["highlights"].items == [v];
    assert ConformsToHighlight(v);
    assert ConformsToInput(args);
    var hs := Validate(args).value;
    assert |hs| == 1;
    assert Decodes(v, expected);
    DecodesIsFunctional(v, hs[0], expected);
    assert hs == [expected];
  }

  function Tagged(text: string, title: string): Value {
    Obj(map["text" := Str(text), "title" := Str(title), "tags" := Arr([Str("a"), Str("b")])])
  }

  /** An element with two tags and no category validates with the default. */
  lemma TaggedInputAccepted(text: string, title: string)
    ensures Validate(Single("highlights", Arr([Tagged(text, title)]))) ==
      Ok([Highlight(text, title, None, None, None, DefaultCategory, None, None, None, None, Some(["a", "b"]))])
  {
    var e := Tagged(text, title);
    var args := Single("highlights", Arr([e]));
    var expected := Highlight(text, title, None, None, None, DefaultCategory, None, None, None, None, Some(["a", "b"]));
    assert args.fields["highlights"].items == [e];
    assert StringArray(e.fields["tags"]);
    assert ConformsToHighlight(e);
    assert ConformsToInput(args);
    var hs := Validate(args).value;
    assert |hs| == 1;
    assert Decodes(e, expected);
    DecodesIsFunctional(e, hs[0], expected);
    assert hs == [expected];
  }

  /** An empty `highlights` array is rejected. */
  lemma EmptyListRejected()
    ensures Validate(Single("highlights", Arr([]))) == Err(HighlightsEmpty)
  {
  }

  /** One element without `text` rejects the whole input. */
  lemma MissingTextRejected(args: Value, i: nat)
    requires args.Obj? && "highlights" in args.fields && args.fields["highlights"].Arr?
    requires i < |args.fields["highlights"].items|
    requires args.fields["highlights"].items[i].Obj?
    requires "text" !in args.fields["highlights"].items[i].fields
    ensures Validate(args).Err?
  {
    assert !ConformsToHighlight(args.fields["highlights"].items[i]);
  }
}
