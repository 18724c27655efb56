/** The tool handler (src/tools/savewise.ts): an ordered, short-circuiting
    pipeline (downstream token present, input valid, remote call, count) that
    turns every outcome, failures included, into one text result. The remote
    call is not performed here: the handler reports the call it would make and
    consumes the outcome of that call as an input. */
module Savewise {
  import opened Wrappers
  import opened Json
  import opened Highlights
  import Readwise
  import Decimal

  datatype Content = Text(text: string)

  /** `{ content, isError? }`; `isError` is absent on success. */
  datatype ToolResult = ToolResult(content: seq<Content>, isError: Option<bool>)

  /** What `createHighlights` can reject with: a classified `ReadwiseError`,
      another `Error` with its message, or a thrown non-`Error` value. */
  datatype Failure =
    | ApiFailure(err: Readwise.ReadwiseError)
    | OtherError(message: string)
    | NonErrorThrown

  type RemoteOutcome = Result<seq<CreateResponse>, Failure>

  /** The arguments `createHighlights` is invoked with. */
  datatype Call = Call(highlights: seq<Highlight>, token: string)

  /** The handler's result together with the remote call it made, if any. */
  datatype Handled = Handled(result: ToolResult, call: Option<Call>)

  const TokenVariable := "READWISE_TOKEN"
  const TokenMissingText := "Error: " + TokenVariable + " environment variable is not set"
  const ValidationPrefix := "Validation error: "
  const SavedPrefix := "Successfully saved "
  const SavedSuffix := " highlight(s) to Readwise."
  const SaveErrorPrefix := "Error saving to Readwise: "
  const UnknownErrorMessage := "Unknown error"

  /** `!token`: the variable is unset or empty. */
  predicate TokenMissing(token: Option<string>) {
    token.None? || token.value == ""
  }

  /** A readable rendering of a schema violation (the exact zod wording is
      not modelled). */
  function DescribeValidationError(e: ValidationError): (m: string)
    ensures |m| > 0
  {
    match e
    case InputNotObject => "Expected object"
    case HighlightsMissing => "highlights: Required"
    case HighlightsNotArray => "highlights: Expected array"
    case HighlightsEmpty => "highlights: Array must contain at least 1 element(s)"
    case ElementNotObject(i) => "highlights." + Decimal.NatToString(i) + ": Expected object"
    case FieldMissing(i, f) => "highlights." + Decimal.NatToString(i) + "." + f + ": Required"
    case FieldWrongType(i, f) => "highlights." + Decimal.NatToString(i) + "." + f + ": Invalid type"
  }

  /** The total the remote reports: the sum of `num_highlights`. */
  function TotalSaved(rs: seq<CreateResponse>): int {
    if |rs| == 0 then 0 else rs[0].numHighlights + TotalSaved(rs[1..])
  }

  /** `result.reduce((acc, r) => acc + r.num_highlights, acc)`: a left fold. */
  function SumFrom(rs: seq<CreateResponse>, acc: int): int {
    if |rs| == 0 then acc else SumFrom(rs[1..], acc + rs[0].numHighlights)
  }

  /** The left fold the source computes agrees with the total. */
  lemma {:induction false} SumFromIsTotal(rs: seq<CreateResponse>, acc: int)
    ensures SumFrom(rs, acc) == acc + TotalSaved(rs)
    decreases |rs|
  {
    if |rs| > 0 {
      SumFromIsTotal(rs[1..], acc + rs[0].numHighlights);
    }
  }

  function ErrorResult(text: string): (r: ToolResult)
    ensures r.content == [Text(text)] && r.isError == Some(true)
  {
    ToolResult([Text(text)], Some(true))
  }

  /** The text reported for a failed remote call. */
  function FailureText(f: Failure): string {
    match f
    case ApiFailure(e) => "Readwise API error (" + Decimal.IntToString(e.statusCode) + "): " + e.message
    case OtherError(m) => SaveErrorPrefix + m
    case NonErrorThrown => SaveErrorPrefix + UnknownErrorMessage
  }

  /** `handleSavewise(args)` with `READWISE_TOKEN` = `token`; `remote` is what
      `createHighlights` yields if it is called. */
  function HandleSavewise(token: Option<string>, args: Value, remote: RemoteOutcome): (h: Handled)
    // every path yields exactly one text item, and only success omits isError
    ensures |h.result.content| == 1
    ensures h.result.isError.None? || h.result.isError == Some(true)
    ensures h.result.isError.None? <==> h.call.Some? && remote.Ok?
    // the token check comes first
    ensures TokenMissing(token) ==>
      && h.call.None?
      && h.result == ErrorResult(TokenMissingText)
    // then validation, still without a remote call
    ensures !TokenMissing(token) && Validate(args).Err? ==>
      && h.call.None?
      && h.result == ErrorResult(ValidationPrefix + DescribeValidationError(Validate(args).error))
    // the validated list and the token are passed on unchanged
    ensures h.call.Some? <==> !TokenMissing(token) && Validate(args).Ok?
    ensures h.call.Some? ==> h.call.value == Call(Validate(args).value, token.value)
    // success reports the remote's total, not the input length
    ensures h.call.Some? && remote.Ok? ==>
      h.result.content[0].text == SavedPrefix + Decimal.IntToString(TotalSaved(remote.value)) + SavedSuffix
    ensures h.call.Some? && remote.Err? ==> h.result == ErrorResult(FailureText(remote.error))
  {
    if TokenMissing(token) then Handled(ErrorResult(TokenMissingText), None)
    else
      match Validate(args)
      case Err(e) => Handled(ErrorResult(ValidationPrefix + DescribeValidationError(e)), None)
      case Ok(highlights) =>
        var call := Call(highlights, token.value);
        match remote
        case Ok(result) =>
          var savedCount := SumFrom(result, 0);
          SumFromIsTotal(result, 0);
          Handled(ToolResult([Text(SavedPrefix + Decimal.IntToString(savedCount) + SavedSuffix)], None), Some(call))
        case Err(f) => Handled(ErrorResult(FailureText(f)), Some(call))
  }

  /** The configuration error names the missing variable. */
  lemma TokenMessageNamesVariable()
    ensures TokenMissingText[7..7 + |TokenVariable|] == TokenVariable
  {
    assert |"Error: "| == 7;
  }

  /** The token check precedes validation: without a token the result does
      not depend on the payload at all. */
  lemma TokenCheckFirst(token: Option<string>, a1: Value, a2: Value, r1: RemoteOutcome, r2: RemoteOutcome)
    requires TokenMissing(token)
    ensures HandleSavewise(token, a1, r1) == HandleSavewise(token, a2, r2)
  {
  }

  /** Without a remote call the remote outcome is irrelevant. */
  lemma NoCallNoDependence(token: Option<string>, args: Value, r1: RemoteOutcome, r2: RemoteOutcome)
    requires HandleSavewise(token, args, r1).call.None?
    ensures HandleSavewise(token, args, r1) == HandleSavewise(token, args, r2)
  {
  }

  /** A classified remote error is reported as "Readwise API error (code): message". */
  lemma ApiErrorText(token: string, args: Value, resp: Readwise.HttpResponse)
    requires token != "" && Validate(args).Ok? && !Readwise.IsOkStatus(resp.status)
    ensures var e := Readwise.Classify(resp).error;
      HandleSavewise(Some(token), args, Err(ApiFailure(e))).result.content[0].text ==
        "Readwise API error (" + Decimal.IntToString(resp.status) + "): " + e.message
  {
  }

  /** A 401 from the remote, end to end. */
  lemma UnauthorizedEndToEnd(token: string, args: Value, body: string, json: seq<CreateResponse>)
    requires token != "" && Validate(args).Ok?
    ensures var e := Readwise.Classify(Readwise.HttpResponse(401, body, json)).error;
      HandleSavewise(Some(token), args, Err(ApiFailure(e))).result.content[0].text ==
        "Readwise API error (" + "401" + "): " + Readwise.InvalidTokenMessage
  {
    var e := Readwise.Classify(Readwise.HttpResponse(401, body, json)).error;
    assert e == Readwise.ReadwiseError(Readwise.InvalidTokenMessage, 401, Some(body));
    var h := HandleSavewise(Some(token), args, Err(ApiFailure(e)));
    assert h.result == ErrorResult(FailureText(ApiFailure(e)));
    assert Decimal.IntToString(401) == "401";
    assert FailureText(ApiFailure(e)) == "Readwise API error (" + "401" + "): " + Readwise.InvalidTokenMessage;
  }

  /** The test-suite scenario: two highlights in, one batch reporting two saved. */
  lemma TwoSavedExample(token: string, args: Value)
    requires token != "" && Validate(args).Ok?
    ensures var batch := CreateResponse(1, "Test Title", None, "articles", 2, None,
                                        [SavedHighlight(1, "Test highlight"), SavedHighlight(2, "Another highlight")]);
      var h := HandleSavewise(Some(token), args, Ok([batch]));
      && h.result.isError.None?
      && h.result.content[0].text == SavedPrefix + "2" + SavedSuffix
  {
    var batch := CreateResponse(1, "Test Title", None, "articles", 2, None,
                                [SavedHighlight(1, "Test highlight"), SavedHighlight(2, "Another highlight")]);
    var h := HandleSavewise(Some(token), args, Ok([batch]));
    assert TotalSaved([batch]) == 2;
    assert Decimal.IntToString(2) == "2";
    assert h.result.content[0].text == SavedPrefix + "2" + SavedSuffix;
  }

  /** The count is the remote's, whatever the input length: a remote that
      merged the input into fewer saved highlights is reported faithfully. */
  lemma CountIsRemoteTotal(token: string, args: Value, rs: seq<CreateResponse>)
    requires token != "" && Validate(args).Ok?
    ensures var h := HandleSavewise(Some(token), args, Ok(rs));
      Decimal.ParseInt(h.result.content[0].text[|SavedPrefix|..|h.result.content[0].text| - |SavedSuffix|])
        == TotalSaved(rs)
  {
    var n := Decimal.IntToString(TotalSaved(rs));
    var text := SavedPrefix + n + SavedSuffix;
    assert text[|SavedPrefix|..|text| - |SavedSuffix|] == n;
    Decimal.IntToStringRoundTrip(TotalSaved(rs));
  }
}
