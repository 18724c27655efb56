/** The outbound client (src/services/readwise.ts): the mapping of a validated
    highlight to the remote's wire record, the JSON request it sends, and the
    classification of a non-OK HTTP status into a `ReadwiseError`. The network
    exchange itself is an input: the response is given as (status, raw body,
    parsed list). */
module Readwise {
  import opened Wrappers
  import opened Json
  import opened Highlights
  import Decimal

  const ApiUrl := "https://readwise.io/api/v2/highlights/"
  const InvalidTokenMessage := "Invalid Readwise API token"
  const RateLimitMessage := "Readwise API rate limit exceeded"
  const GenericErrorPrefix := "Readwise API error: "

  /** A classified remote failure: message, HTTP status, raw response body. */
  datatype ReadwiseError = ReadwiseError(message: string, statusCode: int, response: Option<string>)

  // ---------------------------------------------------------------------
  // toReadwiseHighlight

  /** JavaScript truthiness of an optional string: absent and "" are falsy. */
  predicate Truthy(o: Option<string>) {
    o.Some? && o.value != ""
  }

  /** `dst` carries `src`'s value exactly when `src` is truthy. */
  predicate CopiedIfTruthy(src: Option<string>, dst: Option<string>) {
    && (dst.Some? <==> Truthy(src))
    && (dst.Some? ==> dst == src)
  }

  function KeepTruthy(o: Option<string>): (r: Option<string>)
    ensures CopiedIfTruthy(o, r)
  {
    if Truthy(o) then o else None
  }

  function TagsOf(tags: seq<string>): (r: seq<Tag>)
    ensures |r| == |tags|
    ensures forall i :: 0 <= i < |tags| ==> r[i].name == tags[i]
  {
    seq(|tags|, i requires 0 <= i < |tags| => Tag(tags[i]))
  }

  function Names(tags: seq<Tag>): (r: seq<string>)
    ensures |r| == |tags|
    ensures forall i :: 0 <= i < |tags| ==> r[i] == tags[i].name
  {
    seq(|tags|, i requires 0 <= i < |tags| => tags[i].name)
  }

  /** `toReadwiseHighlight`: `text` and `title` always; every optional string
      only when truthy; `location` whenever defined (0 included); tags as
      `{ name }` objects only when the list is non-empty. */
  function ToWire(h: Highlight): (r: ReadwiseHighlight)
    ensures r.text == h.text && r.title == h.title
    ensures CopiedIfTruthy(h.author, r.author)
    ensures CopiedIfTruthy(h.sourceUrl, r.sourceUrl)
    ensures CopiedIfTruthy(h.sourceType, r.sourceType)
    ensures CopiedIfTruthy(Some(h.category), r.category)
    ensures CopiedIfTruthy(h.note, r.note)
    ensures r.location == h.location
    ensures CopiedIfTruthy(h.locationType, r.locationType)
    ensures CopiedIfTruthy(h.highlightedAt, r.highlightedAt)
    ensures r.highlightTags.Some? <==> h.tags.Some? && |h.tags.value| > 0
    ensures r.highlightTags.Some? ==>
      && |r.highlightTags.value| == |h.tags.value|
      && forall i :: 0 <= i < |h.tags.value| ==> r.highlightTags.value[i] == Tag(h.tags.value[i])
  {
    ReadwiseHighlight(
      h.text,
      h.title,
      KeepTruthy(h.author),
      KeepTruthy(h.sourceUrl),
      KeepTruthy(h.sourceType),
      KeepTruthy(Some(h.category)),
      KeepTruthy(h.note),
      h.location,
      KeepTruthy(h.locationType),
      KeepTruthy(h.highlightedAt),
      if h.tags.Some? && |h.tags.value| > 0 then Some(TagsOf(h.tags.value)) else None)
  }

  /** Wire records `ToWire` can produce: no empty string, no empty tag list. */
  predicate Canonical(w: ReadwiseHighlight) {
    && (w.author.Some? ==> w.author.value != "")
    && (w.sourceUrl.Some? ==> w.sourceUrl.value != "")
    && (w.sourceType.Some? ==> w.sourceType.value != "")
    && (w.category.Some? ==> w.category.value != "")
    && (w.note.Some? ==> w.note.value != "")
    && (w.locationType.Some? ==> w.locationType.value != "")
    && (w.highlightedAt.Some? ==> w.highlightedAt.value != "")
    && (w.highlightTags.Some? ==> |w.highlightTags.value| > 0)
  }

  /** Reading a wire record back as a highlight; an omitted category reads
      as the empty string, the one category value `ToWire` omits. */
  function FromWire(w: ReadwiseHighlight): Highlight {
    Highlight(
      w.text, w.title, w.author, w.sourceUrl, w.sourceType, w.category.GetOr(""), w.note,
      w.location, w.locationType, w.highlightedAt,
      if w.highlightTags.Some? then Some(Names(w.highlightTags.value)) else None)
  }

  /** A highlight with every falsy optional string and an empty tag list
      replaced by "absent": exactly the information `ToWire` discards. */
  function Normalize(h: Highlight): Highlight {
    Highlight(
      h.text, h.title, KeepTruthy(h.author), KeepTruthy(h.sourceUrl), KeepTruthy(h.sourceType),
      h.category, KeepTruthy(h.note), h.location, KeepTruthy(h.locationType),
      KeepTruthy(h.highlightedAt),
      if h.tags.Some? && |h.tags.value| > 0 then h.tags else None)
  }

  /** `ToWire` loses nothing but falsy optional strings and empty tag lists. */
  lemma ToWireThenFromWire(h: Highlight)
    ensures Canonical(ToWire(h))
    ensures FromWire(ToWire(h)) == Normalize(h)
  {
    if h.tags.Some? && |h.tags.value| > 0 {
      assert Names(TagsOf(h.tags.value)) == h.tags.value;
    }
  }

  /** Every canonical wire record is the image of some highlight. */
  lemma FromWireThenToWire(w: ReadwiseHighlight)
    requires Canonical(w)
    ensures ToWire(FromWire(w)) == w
  {
    if w.highlightTags.Some? {
      assert TagsOf(Names(w.highlightTags.value)) == w.highlightTags.value;
    }
  }

  // ---------------------------------------------------------------------
  // The JSON body: absent fields are omitted, never sent as null.

  function TagsToJson(tags: seq<Tag>): (r: seq<Value>)
    ensures |r| == |tags|
    ensures forall i :: 0 <= i < |tags| ==> r[i] == Single("name", Str(tags[i].name))
  {
    seq(|tags|, i requires 0 <= i < |tags| => Single("name", Str(tags[i].name)))
  }

  /** The JSON field names of the wire record, in declaration order. */
  const WireFieldNames: seq<string> :=
    ["text", "title", "author", "source_url", "source_type", "category", "note",
     "location", "location_type", "highlighted_at", "highlight_tags"]

  function StrField(o: Option<string>): Option<Value> {
    if o.Some? then Some(Str(o.value)) else None
  }

  /** The JSON value sent under `key`, or `None` when the key is left out. */
  function WireField(w: ReadwiseHighlight, key: string): (r: Option<Value>)
    ensures r.Some? ==> key in WireFieldNames && r.value != Null
  {
    if key == "text" then Some(Str(w.text))
    else if key == "title" then Some(Str(w.title))
    else if key == "author" then StrField(w.author)
    else if key == "source_url" then StrField(w.sourceUrl)
    else if key == "source_type" then StrField(w.sourceType)
    else if key == "category" then StrField(w.category)
    else if key == "note" then StrField(w.note)
    else if key == "location" then (if w.location.Some? then Some(Num(w.location.value)) else None)
    else if key == "location_type" then StrField(w.locationType)
    else if key == "highlighted_at" then StrField(w.highlightedAt)
    else if key == "highlight_tags" then
      (if w.highlightTags.Some? then Some(Arr(TagsToJson(w.highlightTags.value))) else None)
    else None
  }

  /** The JSON object of a wire record: exactly the present fields, none of
      them `null`. */
  function WireToJson(w: ReadwiseHighlight): (v: Value)
    ensures v.Obj?
    ensures forall k :: k in v.fields <==> WireField(w, k).Some?
    ensures forall k :: k in v.fields ==> v.fields[k] == WireField(w, k).value && v.fields[k] != Null
  {
    Obj(map k | k in WireFieldNames && WireField(w, k).Some? :: WireField(w, k).value)
  }

  /** An optional string field of a JSON object: `Some(None)` when absent,
      `None` when present with another type. */
  function FieldString(f: map<string, Value>, key: string): Option<Option<string>> {
    if key !in f then Some(None)
    else if f[key].Str? then Some(Some(f[key].s))
    else None
  }

  function DecodeTags(items: seq<Value>): (r: Option<seq<Tag>>)
    ensures r.Some? ==> |r.value| == |items|
  {
    if |items| == 0 then Some([])
    else if !(items[0].Obj? && "name" in items[0].fields && items[0].fields["name"].Str?) then None
    else
      var rest :- DecodeTags(items[1..]);
      Some([Tag(items[0].fields["name"].s)] + rest)
  }

  function FieldNumber(f: map<string, Value>, key: string): Option<Option<int>> {
    if key !in f then Some(None)
    else if f[key].Num? then Some(Some(f[key].n))
    else None
  }

  function FieldTags(f: map<string, Value>, key: string): Option<Option<seq<Tag>>> {
    if key !in f then Some(None)
    else if !f[key].Arr? then None
    else match DecodeTags(f[key].items)
         case None => None
         case Some(ts) => Some(Some(ts))
  }

  /** Reads a wire record back from its JSON object. */
  function WireFromJson(v: Value): Option<ReadwiseHighlight> {
    if !v.Obj? then None
    else
      var f := v.fields;
      var author := FieldString(f, "author");
      var sourceUrl := FieldString(f, "source_url");
      var sourceType := FieldString(f, "source_type");
      var category := FieldString(f, "category");
      var note := FieldString(f, "note");
      var location := FieldNumber(f, "location");
      var locationType := FieldString(f, "location_type");
      var highlightedAt := FieldString(f, "highlighted_at");
      var tags := FieldTags(f, "highlight_tags");
      if && RequiredString(f, "text") && RequiredString(f, "title")
         && author.Some? && sourceUrl.Some? && sourceType.Some? && category.Some? && note.Some?
         && location.Some? && locationType.Some? && highlightedAt.Some? && tags.Some?
      then Some(ReadwiseHighlight(f["text"].s, f["title"].s, author.value, sourceUrl.value,
                                  sourceType.value, category.value, note.value, location.value,
                                  locationType.value, highlightedAt.value, tags.value))
      else None
  }

  lemma {:induction false} DecodeTagsRoundTrip(tags: seq<Tag>)
    ensures DecodeTags(TagsToJson(tags)) == Some(tags)
    decreases |tags|
  {
    if |tags| > 0 {
      assert TagsToJson(tags)[1..] == TagsToJson(tags[1..]);
      DecodeTagsRoundTrip(tags[1..]);
      assert [tags[0]] + tags[1..] == tags;
    }
  }

  lemma StringFieldRoundTrip(w: ReadwiseHighlight, key: string, o: Option<string>)
    requires WireField(w, key) == StrField(o)
    ensures FieldString(WireToJson(w).fields, key) == Some(o)
  {
  }

  /** The JSON object of a wire record reads back as that record. */
  lemma WireJsonRoundTrip(w: ReadwiseHighlight)
    ensures WireFromJson(WireToJson(w)) == Some(w)
  {
    var f := WireToJson(w).fields;
    assert f["text"] == Str(w.text) by { assert WireField(w, "text").Some?; }
    assert f["title"] == Str(w.title) by { assert WireField(w, "title").Some?; }
    StringFieldRoundTrip(w, "author", w.author);
    StringFieldRoundTrip(w, "source_url", w.sourceUrl);
    StringFieldRoundTrip(w, "source_type", w.sourceType);
    StringFieldRoundTrip(w, "category", w.category);
    StringFieldRoundTrip(w, "note", w.note);
    StringFieldRoundTrip(w, "location_type", w.locationType);
    StringFieldRoundTrip(w, "highlighted_at", w.highlightedAt);
    assert FieldNumber(f, "location") == Some(w.location) by {
      assert WireField(w, "location") == if w.location.Some? then Some(Num(w.location.value)) else None;
    }
    assert FieldTags(f, "highlight_tags") == Some(w.highlightTags) by {
      assert WireField(w, "highlight_tags") ==
        if w.highlightTags.Some? then Some(Arr(TagsToJson(w.highlightTags.value))) else None;
      if w.highlightTags.Some? {
        DecodeTagsRoundTrip(w.highlightTags.value);
      }
    }
  }

  /** `highlights.map(toReadwiseHighlight)`. */
  function Records(hs: seq<Highlight>): (r: seq<ReadwiseHighlight>)
    ensures |r| == |hs|
    ensures forall i :: 0 <= i < |hs| ==> r[i] == ToWire(hs[i])
  {
    if |hs| == 0 then [] else [ToWire(hs[0])] + Records(hs[1..])
  }

  /** The records as `JSON.stringify` lays them out, one object each. */
  function RecordsToJson(rs: seq<ReadwiseHighlight>): (r: seq<Value>)
    ensures |r| == |rs|
    ensures forall i :: 0 <= i < |rs| ==> r[i] == WireToJson(rs[i])
  {
    if |rs| == 0 then [] else [WireToJson(rs[0])] + RecordsToJson(rs[1..])
  }

  function DecodeRecords(items: seq<Value>): Option<seq<ReadwiseHighlight>> {
    if |items| == 0 then Some([])
    else
      var first :- WireFromJson(items[0]);
      var rest :- DecodeRecords(items[1..]);
      Some([first] + rest)
  }

  /** `{ highlights: [...] }` as a JSON value. */
  function Body(rs: seq<ReadwiseHighlight>): Value {
    Single("highlights", Arr(RecordsToJson(rs)))
  }

  function DecodeBody(v: Value): Option<seq<ReadwiseHighlight>> {
    if v.Obj? && "highlights" in v.fields && v.fields["highlights"].Arr?
    then DecodeRecords(v.fields["highlights"].items)
    else None
  }

  lemma {:induction false} DecodeRecordsRoundTrip(rs: seq<ReadwiseHighlight>)
    ensures DecodeRecords(RecordsToJson(rs)) == Some(rs)
    decreases |rs|
  {
    if |rs| > 0 {
      var items := RecordsToJson(rs);
      assert items[0] == WireToJson(rs[0]);
      assert items[1..] == RecordsToJson(rs[1..]);
      WireJsonRoundTrip(rs[0]);
      DecodeRecordsRoundTrip(rs[1..]);
      assert [rs[0]] + rs[1..] == rs;
    }
  }

  // ---------------------------------------------------------------------
  // createHighlights

  datatype Request = Request(url: string, verb: string, headers: map<string, string>, body: Value)

  /** The single batched POST `createHighlights` issues. */
  function BuildRequest(hs: seq<Highlight>, token: string): (req: Request)
    ensures req.url == ApiUrl && req.verb == "POST"
    ensures req.headers.Keys == {"Authorization", "Content-Type"}
    ensures req.headers["Authorization"] == "Token " + token
    ensures req.headers["Content-Type"] == "application/json"
    ensures DecodeBody(req.body) == Some(Records(hs))
    ensures req.body.Obj? && req.body.fields.Keys == {"highlights"}
    ensures req.body.fields["highlights"].Arr?
    ensures var items := req.body.fields["highlights"].items;
      |items| == |hs| && forall i :: 0 <= i < |hs| ==> items[i] == WireToJson(ToWire(hs[i]))
  {
    DecodeRecordsRoundTrip(Records(hs));
    Request(ApiUrl, "POST",
            map["Authorization" := "Token " + token, "Content-Type" := "application/json"],
            Body(Records(hs)))
  }

  /** What `fetch` answered: status, raw body text, and the parsed list. */
  datatype HttpResponse = HttpResponse(status: int, bodyText: string, json: seq<CreateResponse>)

  /** `response.ok`. */
  predicate IsOkStatus(status: int) {
    200 <= status <= 299
  }

  /** The status classification of `createHighlights`. */
  function Classify(resp: HttpResponse): (r: Result<seq<CreateResponse>, ReadwiseError>)
    ensures r.Ok? <==> IsOkStatus(resp.status)
    ensures r.Ok? ==> r.value == resp.json
    ensures r.Err? ==> r.error.statusCode == resp.status && r.error.response == Some(resp.bodyText)
    ensures r.Err? && resp.status == 401 ==> r.error.message == InvalidTokenMessage
    ensures r.Err? && resp.status == 429 ==> r.error.message == RateLimitMessage
    ensures r.Err? && resp.status != 401 && resp.status != 429 ==>
      r.error.message == GenericErrorPrefix + Decimal.IntToString(resp.status)
  {
    if IsOkStatus(resp.status) then Ok(resp.json)
    else if resp.status == 401 then Err(ReadwiseError(InvalidTokenMessage, 401, Some(resp.bodyText)))
    else if resp.status == 429 then Err(ReadwiseError(RateLimitMessage, 429, Some(resp.bodyText)))
    else Err(ReadwiseError(GenericErrorPrefix + Decimal.IntToString(resp.status), resp.status, Some(resp.bodyText)))
  }

  /** The request sent and the outcome read back. */
  datatype Exchange = Exchange(request: Request, outcome: Result<seq<CreateResponse>, ReadwiseError>)

  /** `createHighlights(highlights, token)`, with `fetch` answering `resp`. */
  function CreateHighlights(hs: seq<Highlight>, token: string, resp: HttpResponse): (x: Exchange)
    ensures x.request.url == ApiUrl
    ensures "Authorization" in x.request.headers && x.request.headers["Authorization"] == "Token " + token
    ensures DecodeBody(x.request.body) == Some(Records(hs))
    ensures x.request == BuildRequest(hs, token)
    ensures x.outcome == Classify(resp)
    ensures x.outcome.Ok? <==> IsOkStatus(resp.status)
    ensures x.outcome.Ok? ==> x.outcome.value == resp.json
    ensures x.outcome.Err? ==> x.outcome.error.statusCode == resp.status
  {
    Exchange(BuildRequest(hs, token), Classify(resp))
  }

  /** The status of a generic classified error can be read back from its
      message, so the message identifies the status. */
  lemma GenericMessageCarriesStatus(resp: HttpResponse)
    requires !IsOkStatus(resp.status) && resp.status != 401 && resp.status != 429
    ensures var m := Classify(resp).error.message;
      && |m| > |GenericErrorPrefix|
      && m[..|GenericErrorPrefix|] == GenericErrorPrefix
      && Decimal.ParseInt(m[|GenericErrorPrefix|..]) == resp.status
  {
    var m := Classify(resp).error.message;
    assert m[|GenericErrorPrefix|..] == Decimal.IntToString(resp.status);
    Decimal.IntToStringRoundTrip(resp.status);
  }

  /** The tag example of the test suite: two tags become two `{ name }`
      objects in order, and of the optional fields only the category and the
      tags are sent. */
  lemma TagExample(text: string, title: string, t1: string, t2: string)
    ensures var w := ToWire(Highlight(text, title, None, None, None, DefaultCategory,
                                      None, None, None, None, Some([t1, t2])));
      && w.highlightTags == Some([Tag(t1), Tag(t2)])
      && WireToJson(w).fields.Keys == {"text", "title", "category", "highlight_tags"}
      && WireToJson(w).fields["category"] == Str(DefaultCategory)
      && WireToJson(w).fields["highlight_tags"] == Arr([Single("name", Str(t1)), Single("name", Str(t2))])
  {
    var w := ToWire(Highlight(text, title, None, None, None, DefaultCategory,
                              None, None, None, None, Some([t1, t2])));
    assert w.highlightTags.value == [Tag(t1), Tag(t2)];
    assert TagsToJson(w.highlightTags.value) == [Single("name", Str(t1)), Single("name", Str(t2))];
  }

  /** A validated element `{ text, title, tags: ["a", "b"] }` is sent with its
      two tags as `{ name }` objects and with the defaulted category; no other
      optional field is sent. */
  lemma ValidatedTagsExample(text: string, title: string)
    ensures var h := Highlight(text, title, None, None, None, DefaultCategory, None, None, None, None, Some(["a", "b"]));
      && Validate(Single("highlights", Arr([Tagged(text, title)]))) == Ok([h])
      && WireToJson(ToWire(h)).fields.Keys == {"text", "title", "category", "highlight_tags"}
  {
    TaggedInputAccepted(text, title);
    TagExample(text, title, "a", "b");
  }
}
