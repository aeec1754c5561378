/** The part of the zod schema language that the repository's schemas use,
    as an interpreter over JavaScript values: strings with length, email,
    datetime and pattern checks, enums, arrays, optional fields and objects.
    What zod decides without showing it here (whether a string is an email
    or an ISO datetime, and the text of its default messages) is supplied by
    an `Oracle`. */
module Zod {
  import opened Wrappers
  import opened Issues

  /** A JavaScript value, as far as these schemas tell values apart:
      strings, arrays, and everything else (numbers, booleans, null,
      objects). */
  datatype JsValue = Str(s: string) | Arr(items: seq<JsValue>) | Other

  /** The type a failing value was expected to have. */
  datatype Expected = StringType | ArrayType | EnumType(options: seq<string>)

  /** The kinds of issue whose default message zod writes itself. */
  datatype Code =
    | InvalidType(expected: Expected, received: Option<JsValue>)
    | TooSmall(minimum: nat)
    | InvalidEmail
    | InvalidDatetime
    | InvalidRegex
    | InvalidEnumValue(options: seq<string>, value: string)

  /** What this model leaves uninterpreted: zod's email and datetime tests
      and its default message texts. */
  datatype Oracle = Oracle(isEmail: string -> bool, isDatetime: string -> bool, text: Code -> string)

  /** One refinement of `z.string()`, with its custom message if any. */
  datatype StringCheck =
    | Min(length: nat, message: Option<string>)
    | Email(message: Option<string>)
    | Datetime
    | Regex(matches: string -> bool)

  /** A field schema: `z.string()` with checks, `z.enum([...])`,
      `z.array(element)`, `inner.optional()`. */
  datatype Rule =
    | ZString(checks: seq<StringCheck>)
    | ZEnum(options: seq<string>)
    | ZArray(element: Rule)
    | ZOptional(inner: Rule)

  /** One entry of a `z.object({...})` shape. */
  datatype Field = Field(name: string, rule: Rule)

  /** A string's `length` in JavaScript: UTF-16 code units, so a character
      outside the Basic Multilingual Plane counts twice. */
  function Utf16Length(s: string): (n: nat)
    ensures |s| <= n <= 2 * |s|
    decreases |s|
  {
    if s == [] then 0
    else Utf16Length(s[..|s| - 1]) + (if s[|s| - 1] as int >= 0x10000 then 2 else 1)
  }

  /** A single issue at the value itself (empty path). */
  function Here(message: string): Issue {
    Issue([], message)
  }

  /** Issues of a nested value, re-rooted under `seg`. */
  function Under(seg: Segment, issues: seq<Issue>): (r: seq<Issue>)
    ensures |r| == |issues|
    ensures forall i :: 0 <= i < |r| ==> r[i] == Issue([seg] + issues[i].path, issues[i].message)
  {
    seq(|issues|, i requires 0 <= i < |issues| => Issue([seg] + issues[i].path, issues[i].message))
  }

  /** The issues one string check raises on `s`. */
  function CheckIssues(z: Oracle, c: StringCheck, s: string): seq<Issue> {
    match c
    case Min(n, message) =>
      if Utf16Length(s) < n then [Here(message.GetOr(z.text(TooSmall(n))))] else []
    case Email(message) =>
      if z.isEmail(s) then [] else [Here(message.GetOr(z.text(InvalidEmail)))]
    case Datetime =>
      if z.isDatetime(s) then [] else [Here(z.text(InvalidDatetime))]
    case Regex(matches) =>
      if matches(s) then [] else [Here(z.text(InvalidRegex))]
  }

  /** All checks run, in order; none stops the others. */
  function StringIssues(z: Oracle, checks: seq<StringCheck>, s: string): seq<Issue>
    decreases |checks|
  {
    if checks == [] then [] else CheckIssues(z, checks[0], s) + StringIssues(z, checks[1..], s)
  }

  /** The issues of every array element, each under its index. */
  function ElementIssues(items: seq<JsValue>, run: JsValue -> seq<Issue>): seq<Issue>
    decreases |items|
  {
    if items == [] then []
    else
      var n := |items| - 1;
      ElementIssues(items[..n], run) + Under(Index(n), run(items[n]))
  }

  function IsStr(v: Option<JsValue>): bool {
    v.Some? && v.value.Str?
  }

  /** `rule.safeParse(v)`'s issues; none means the value passes. */
  function Run(z: Oracle, rule: Rule, v: Option<JsValue>): seq<Issue>
    decreases rule
  {
    match rule
    case ZOptional(inner) =>
      if v.None? then [] else Run(z, inner, v)
    case ZString(checks) =>
      if IsStr(v) then StringIssues(z, checks, v.value.s)
      else [Here(z.text(InvalidType(StringType, v)))]
    case ZEnum(options) =>
      if !IsStr(v) then [Here(z.text(InvalidType(EnumType(options), v)))]
      else if v.value.s in options then []
      else [Here(z.text(InvalidEnumValue(options, v.value.s)))]
    case ZArray(element) =>
      if v.Some? && v.value.Arr? then ElementIssues(v.value.items, x => Run(z, element, Some(x)))
      else [Here(z.text(InvalidType(ArrayType, v)))]
  }

  function Names(shape: seq<Field>): set<string> {
    set i | 0 <= i < |shape| :: shape[i].name
  }

  /** The issues `z.object(shape)` reports on an object: each field's
      issues in shape order, each under the field's name. */
  function ObjectIssues(z: Oracle, shape: seq<Field>, values: map<string, JsValue>): seq<Issue>
    decreases |shape|
  {
    if shape == [] then []
    else
      var n := |shape| - 1;
      ObjectIssues(z, shape[..n], values)
        + Under(Key(shape[n].name), Run(z, shape[n].rule, Lookup(values, shape[n].name)))
  }

  /** `z.object(shape).safeParse(values)`: the properties the shape names
      (unknown keys are stripped) when no field raises an issue. */
  function ParseObject(z: Oracle, shape: seq<Field>, values: map<string, JsValue>)
    : ParseOutcome<map<string, JsValue>>
  {
    var issues := ObjectIssues(z, shape, values);
    if issues == [] then Parsed(map k | k in values && k in Names(shape) :: values[k])
    else Rejected(issues)
  }

  predicate DistinctNames(shape: seq<Field>) {
    forall i, j :: 0 <= i < j < |shape| ==> shape[i].name != shape[j].name
  }

  /** An array passes exactly when every element passes. */
  lemma {:induction false} ElementIssuesEmpty(items: seq<JsValue>, run: JsValue -> seq<Issue>)
    ensures ElementIssues(items, run) == [] <==> forall i :: 0 <= i < |items| ==> run(items[i]) == []
    decreases |items|
  {
    if items != [] {
      var n := |items| - 1;
      ElementIssuesEmpty(items[..n], run);
      var last := Under(Index(n), run(items[n]));
      assert ElementIssues(items, run) == ElementIssues(items[..n], run) + last;
      assert last == [] <==> run(items[n]) == [];
      if ElementIssues(items, run) == [] {
        forall i | 0 <= i < |items| ensures run(items[i]) == [] {
          if i < n { assert items[..n][i] == items[i]; }
        }
      } else if ElementIssues(items[..n], run) != [] {
        var i :| 0 <= i < n && run(items[..n][i]) != [];
        assert items[..n][i] == items[i];
      }
    }
  }

  /** A string with a single check raises exactly that check's issues. */
  lemma SingleCheck(z: Oracle, c: StringCheck, s: string)
    ensures Run(z, ZString([c]), Some(Str(s))) == CheckIssues(z, c, s)
  {
    assert [c][1..] == [];
    assert StringIssues(z, [c], s) == CheckIssues(z, c, s) + StringIssues(z, [], s);
  }

  /** One more field appends that field's issues, under its name. */
  lemma ObjectIssuesSnoc(z: Oracle, shape: seq<Field>, f: Field, values: map<string, JsValue>)
    ensures ObjectIssues(z, shape + [f], values) ==
              ObjectIssues(z, shape, values) + Under(Key(f.name), Run(z, f.rule, Lookup(values, f.name)))
  {
    assert (shape + [f])[..|shape|] == shape;
  }

  /** The issues of a two-field object, field by field. */
  lemma ObjectIssues2(z: Oracle, a: Field, b: Field, values: map<string, JsValue>)
    ensures ObjectIssues(z, [a, b], values) ==
              Under(Key(a.name), Run(z, a.rule, Lookup(values, a.name)))
              + Under(Key(b.name), Run(z, b.rule, Lookup(values, b.name)))
  {
    ObjectIssuesSnoc(z, [], a, values);
    ObjectIssuesSnoc(z, [a], b, values);
    assert [] + [a] == [a];
    assert [a] + [b] == [a, b];
  }

  /** The issues of a three-field object, field by field. */
  lemma ObjectIssues3(z: Oracle, a: Field, b: Field, c: Field, values: map<string, JsValue>)
    ensures ObjectIssues(z, [a, b, c], values) ==
              Under(Key(a.name), Run(z, a.rule, Lookup(values, a.name)))
              + Under(Key(b.name), Run(z, b.rule, Lookup(values, b.name)))
              + Under(Key(c.name), Run(z, c.rule, Lookup(values, c.name)))
  {
    ObjectIssues2(z, a, b, values);
    ObjectIssuesSnoc(z, [a, b], c, values);
    assert [a, b] + [c] == [a, b, c];
  }

  /** An object passes exactly when every field passes. */
  lemma {:induction false} ObjectIssuesEmpty(z: Oracle, shape: seq<Field>, values: map<string, JsValue>)
    ensures ObjectIssues(z, shape, values) == [] <==>
              forall i :: 0 <= i < |shape| ==> Run(z, shape[i].rule, Lookup(values, shape[i].name)) == []
    decreases |shape|
  {
    if shape != [] {
      var n := |shape| - 1;
      ObjectIssuesEmpty(z, shape[..n], values);
      assert forall i :: 0 <= i < n ==> shape[..n][i] == shape[i];
    }
  }

  /** Each issue a field raises appears in the object's issues, under the
      field's name. */
  lemma {:induction false} ObjectIssuesHas(z: Oracle, shape: seq<Field>, values: map<string, JsValue>,
                                           i: nat, x: Issue)
    requires i < |shape|
    requires x in Run(z, shape[i].rule, Lookup(values, shape[i].name))
    ensures Issue([Key(shape[i].name)] + x.path, x.message) in ObjectIssues(z, shape, values)
    decreases |shape|
  {
    var n := |shape| - 1;
    var own := Run(z, shape[n].rule, Lookup(values, shape[n].name));
    if i == n {
      var k :| 0 <= k < |own| && own[k] == x;
      assert Under(Key(shape[n].name), own)[k] == Issue([Key(shape[i].name)] + x.path, x.message);
    } else {
      assert shape[..n][i] == shape[i];
      ObjectIssuesHas(z, shape[..n], values, i, x);
    }
  }

  /** Every issue of an object is filed under the name of one of its
      fields, and comes from that field's rule. */
  lemma {:induction false} ObjectIssuesFrom(z: Oracle, shape: seq<Field>, values: map<string, JsValue>, x: Issue)
    requires x in ObjectIssues(z, shape, values)
    ensures exists i :: 0 <= i < |shape| && |x.path| >= 1 && x.path[0] == Key(shape[i].name) &&
              Issue(x.path[1..], x.message) in Run(z, shape[i].rule, Lookup(values, shape[i].name))
    decreases |shape|
  {
    var n := |shape| - 1;
    var own := Run(z, shape[n].rule, Lookup(values, shape[n].name));
    if x in ObjectIssues(z, shape[..n], values) {
      ObjectIssuesFrom(z, shape[..n], values, x);
      var i :| 0 <= i < n && |x.path| >= 1 && x.path[0] == Key(shape[..n][i].name) &&
               Issue(x.path[1..], x.message) in Run(z, shape[..n][i].rule, Lookup(values, shape[..n][i].name));
      assert shape[..n][i] == shape[i];
    } else {
      var under := Under(Key(shape[n].name), own);
      assert x in under;
      var k :| 0 <= k < |under| && under[k] == x;
      assert x.path[1..] == own[k].path;
      assert Issue(x.path[1..], x.message) == own[k];
    }
  }
}
