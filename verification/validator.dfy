/** The generic validator of src/composable/useValidator.ts: run a schema's
    `safeParse` and, on failure, fold its issues into an error map keyed by
    the dotted issue path. */
module Validator {
  import opened Issues

  /** `{ok: true, data}` or `{ok: false, errors}`. */
  datatype ValidationResult<+T> = Ok(data: T) | Errors(errors: map<string, string>)

  /** The key an issue is recorded under: its path segments joined with
      '.', or 'form' when that text is empty. */
  function FieldOf(issue: Issue): (k: string)
    ensures k != ""
    ensures issue.path == [] ==> k == "form"
    ensures |issue.path| == 1 && SegmentText(issue.path[0]) != "" ==> k == SegmentText(issue.path[0])
  {
    var joined := Join(issue.path, ".");
    if joined == "" then "form" else joined
  }

  /** `validate(schema, data)`. On success the parsed data is returned; on
      failure every issue is recorded under `FieldOf`, a later issue
      overwriting an earlier one with the same key, so the map has one entry
      per distinct key, each entry is the message of the last issue with
      that key, and there are never more entries than issues. */
  method Validate<X, T>(schema: X -> ParseOutcome<T>, data: X) returns (r: ValidationResult<T>)
    ensures schema(data).Parsed? <==> r.Ok?
    ensures schema(data).Parsed? ==> r.data == schema(data).data
    ensures schema(data).Rejected? ==> r.errors == LastWins(schema(data).issues, FieldOf)
    ensures r.Errors? ==> r.errors.Keys == KeysOf(schema(data).issues, FieldOf)
    ensures r.Errors? ==> |r.errors| <= |schema(data).issues|
    ensures r.Errors? ==>
              forall j :: 0 <= j < |schema(data).issues| && IsLastFor(schema(data).issues, FieldOf, j)
                ==> r.errors[FieldOf(schema(data).issues[j])] == schema(data).issues[j].message
  {
    var result := schema(data);
    match result
    case Parsed(d) =>
      r := Ok(d);
    case Rejected(issues) =>
      var errors := RecordIssues(issues);
      LastWinsSpec(issues, FieldOf);
      r := Errors(errors);
  }

  /** The loop of `validate`: `errors[FieldOf(issue)] = issue.message` for
      each issue in order. */
  method RecordIssues(issues: seq<Issue>) returns (errors: map<string, string>)
    ensures errors == LastWins(issues, FieldOf)
  {
    errors := map[];
    for i := 0 to |issues|
      invariant errors == LastWins(issues[..i], FieldOf)
    {
      LastWinsSnoc(issues[..i], issues[i], FieldOf);
      assert issues[..i + 1] == issues[..i] + [issues[i]];
      errors := errors[FieldOf(issues[i]) := issues[i].message];
    }
    assert issues[..|issues|] == issues;
  }
}
