/** The form engine of src/composable/useForm.ts: field values, an error
    map, touched flags and a submitting flag, driven by one of three
    validation policies. Values and errors are keyed by property name, as
    the JavaScript objects they model are. */
module Form {
  import opened Wrappers
  import opened Issues

  /** When validation runs on its own. */
  datatype Mode = OnSubmit | OnBlur | OnChange

  /** The abstract validator a form is built over: one rule per field the
      schema's shape names (a rule returns the issues of the value, none
      when it passes; an absent property is `None`), and a whole-object
      parse that yields canonical data or issues. */
  datatype Schema<!V, D> = Schema(
    shape: map<string, Option<V> -> seq<Issue>>,
    parse: map<string, V> -> ParseOutcome<D>)

  /** How `handleSubmit` ended: stopped at the gate (resolves without calling
      the callback), callback returned (resolves), callback threw (rejects),
      or the second parse threw before the callback ran (rejects). */
  datatype SubmitOutcome<+D> =
    | Gated
    | Submitted(data: D)
    | CallbackThrew(data: D)
    | ParseThrew(issues: seq<Issue>)

  /** The property name `issue.path[0]` becomes when used as a key: a
      missing first segment is `undefined`, which JavaScript turns into the
      key "undefined"; an index becomes its decimal text. */
  function FirstKey(issue: Issue): (k: string)
    ensures issue.path == [] ==> k == "undefined"
    ensures issue.path != [] && issue.path[0].Key? ==> k == issue.path[0].name
    ensures issue.path != [] && issue.path[0].Index? ==>
              |k| > 0 && forall i :: 0 <= i < |k| ==> '0' <= k[i] <= '9'
  {
    if issue.path == [] then "undefined" else SegmentText(issue.path[0])
  }

  /** `err.issues[0]?.message || 'Invalid'`. */
  function FirstMessage(issues: seq<Issue>): (m: string)
    ensures m != ""
    ensures issues != [] && issues[0].message != "" ==> m == issues[0].message
    ensures (issues == [] || issues[0].message == "") ==> m == "Invalid"
  {
    if issues != [] && issues[0].message != "" then issues[0].message else "Invalid"
  }

  /** The error map after validating field `key` of `values` against its
      rule: a field without a rule leaves the map as it was (the lookup
      fails with an error that is not a validation error and is swallowed);
      otherwise the field's entry is removed when the rule passes and set to
      the first issue's message when it fails. No other key changes. */
  function FieldErrors<V, D>(schema: Schema<V, D>, values: map<string, V>,
                             errors: map<string, string>, key: string): (r: map<string, string>)
    ensures key !in schema.shape ==> r == errors
    ensures key in schema.shape ==>
              (key in r <==> schema.shape[key](Lookup(values, key)) != [])
    ensures key in schema.shape && key in r ==>
              r[key] == FirstMessage(schema.shape[key](Lookup(values, key))) && r[key] != ""
    ensures forall k :: k != key ==> (k in r <==> k in errors)
    ensures forall k :: k != key && k in errors ==> r[k] == errors[k]
  {
    if key !in schema.shape then errors
    else
      var issues := schema.shape[key](Lookup(values, key));
      if issues == [] then errors - {key} else errors[key := FirstMessage(issues)]
  }

  /** The error map whole-form validation of `values` produces, whatever the
      map was before: empty when the parse succeeds, otherwise one entry per
      distinct first path segment, holding the LAST message for that key. */
  function FormErrors<V, D>(schema: Schema<V, D>, values: map<string, V>): (r: map<string, string>)
    ensures schema.parse(values).Parsed? ==> r == map[]
    ensures schema.parse(values).Rejected? ==> r.Keys == KeysOf(schema.parse(values).issues, FirstKey)
    ensures schema.parse(values).Rejected? ==>
              forall j :: 0 <= j < |schema.parse(values).issues| &&
                          IsLastFor(schema.parse(values).issues, FirstKey, j)
                ==> r[FirstKey(schema.parse(values).issues[j])] == schema.parse(values).issues[j].message
  {
    match schema.parse(values)
    case Parsed(_) => map[]
    case Rejected(issues) =>
      LastWinsSpec(issues, FirstKey);
      LastWins(issues, FirstKey)
  }

  /** Whole-form validation leaves errors empty exactly when the parse
      succeeds or rejects without a single issue. */
  lemma FormErrorsEmpty<V, D>(schema: Schema<V, D>, values: map<string, V>)
    ensures FormErrors(schema, values) == map[] <==>
              (schema.parse(values).Parsed? || schema.parse(values).issues == [])
  {
    match schema.parse(values)
    case Parsed(_) =>
    case Rejected(issues) =>
      if issues != [] {
        assert FirstKey(issues[0]) in KeysOf(issues, FirstKey);
      }
  }

  /** A plain JavaScript object that the caller owns and may go on
      changing, such as the `initial` object handed to `useForm`: its own
      properties, by name. */
  class PlainObject<V> {
    var props: map<string, V>

    constructor (props: map<string, V>)
      ensures this.props == props
    {
      this.props := props;
    }

    /** `obj[k] = v`, done by the object's owner. */
    method Put(k: string, v: V)
      modifies this
      ensures props == old(props)[k := v]
    {
      props := props[k := v];
    }
  }

  class FormEngine<V(==), D> {
    const schema: Schema<V, D>
    /** The caller's object itself, not a copy of it: `reset()` reads it
        as it is at that moment. */
    const initial: PlainObject<V>
    const mode: Mode

    var values: map<string, V>
    var errors: map<string, string>
    /** The fields that have been blurred since the last reset. */
    var touched: set<string>
    var isSubmitting: bool
    /** The deep watcher on `values` that the onChange policy installs;
        while it is set, every change of `values` is followed by whole-form
        validation. */
    var watching: bool

    ghost predicate Valid()
      reads this
    {
      watching ==> mode.OnChange?
    }

    /** `useForm(schema, initial, mode = 'onSubmit')`: values are a shallow
        copy of `initial`'s properties, no errors, nothing touched, not
        submitting; the watcher exists only under onChange. The form keeps
        `initial` itself. */
    constructor (schema: Schema<V, D>, initial: PlainObject<V>, mode: Mode := OnSubmit)
      ensures Valid()
      ensures this.schema == schema && this.initial == initial && this.mode == mode
      ensures values == initial.props && errors == map[] && touched == {} && !isSubmitting
      ensures watching <==> mode.OnChange?
    {
      this.schema := schema;
      this.initial := initial;
      this.mode := mode;
      values := initial.props;
      errors := map[];
      touched := {};
      isSubmitting := false;
      watching := mode.OnChange?;
    }

    /** `validateField(key)`. */
    method ValidateField(key: string)
      modifies this`errors
      ensures errors == FieldErrors(schema, values, old(errors), key)
    {
      if key in schema.shape {
        var issues := schema.shape[key](Lookup(values, key));
        if issues == [] {
          errors := errors - {key};
        } else {
          errors := errors[key := FirstMessage(issues)];
        }
      }
    }

    /** Deletes every error entry, one key at a time. */
    method ClearErrors()
      modifies this`errors
      ensures errors == map[]
    {
      var keys := errors.Keys;
      while keys != {}
        invariant keys == errors.Keys
        decreases keys
      {
        var k :| k in keys;
        errors := errors - {k};
        keys := keys - {k};
      }
      assert errors.Keys == {};
      assert errors == map[];
    }

    /** `validateCurrent()`: parse the whole form; clear the error map and,
        on failure, refill it from the issues in order. The result does not
        depend on the errors before, so running it twice on the same values
        gives the same map. */
    method ValidateCurrent()
      modifies this`errors
      ensures errors == FormErrors(schema, values)
    {
      var result := schema.parse(values);
      match result
      case Parsed(_) =>
        ClearErrors();
      case Rejected(issues) =>
        ClearErrors();
        for i := 0 to |issues|
          invariant errors == LastWins(issues[..i], FirstKey)
        {
          LastWinsSnoc(issues[..i], issues[i], FirstKey);
          assert issues[..i + 1] == issues[..i] + [issues[i]];
          errors := errors[FirstKey(issues[i]) := issues[i].message];
        }
        assert issues[..|issues|] == issues;
    }

    /** The onChange watcher firing after an operation: whole-form
        validation runs when the watcher is installed and `values` differs
        from `before`. */
    method Watch(before: map<string, V>)
      modifies this`errors
      ensures errors == if watching && values != before then FormErrors(schema, values) else old(errors)
    {
      if watching && values != before {
        ValidateCurrent();
      }
    }

    /** `setValue(key, value)`: write the value and drop the field's error;
        under onBlur, re-validate the field if it was touched; under onChange,
        the watcher then re-validates the whole form if the value changed. */
    method SetValue(key: string, value: V)
      requires Valid()
      modifies this`values, this`errors
      ensures Valid()
      ensures values == old(values)[key := value]
      ensures var cleared := old(errors) - {key};
              var direct := if mode.OnBlur? && key in touched
                            then FieldErrors(schema, values, cleared, key) else cleared;
              errors == if watching && values != old(values) then FormErrors(schema, values) else direct
      ensures (mode.OnSubmit? || (mode.OnBlur? && key !in touched)) ==>
                key !in errors && errors == old(errors) - {key}
    {
      var before := values;
      values := values[key := value];
      errors := errors - {key};
      if mode.OnBlur? && key in touched {
        ValidateField(key);
      }
      Watch(before);
    }

    /** `onBlur(key)`: mark the field touched; under onBlur, validate it. */
    method OnBlur(key: string)
      modifies this`touched, this`errors
      ensures touched == old(touched) + {key}
      ensures errors == if mode.OnBlur? then FieldErrors(schema, values, old(errors), key) else old(errors)
    {
      touched := touched + {key};
      if mode.OnBlur? {
        ValidateField(key);
      }
    }

    /** Deletes every touched flag, one key at a time. */
    method ClearTouched()
      modifies this`touched
      ensures touched == {}
    {
      var keys := touched;
      while keys != {}
        invariant keys == touched
        decreases keys
      {
        var k :| k in keys;
        touched := touched - {k};
        keys := keys - {k};
      }
    }

    /** `reset(newInitial?)`: copy every property of the source (`newInitial`,
        else the caller's `initial` object as it is now, with any changes the
        caller made since construction) over `values` without deleting
        any other property, clear errors and touched, and stop submitting.
        Under onChange the watcher fires afterwards when values changed, and
        then refills the errors from a whole-form validation. */
    method Reset(newInitial: Option<map<string, V>>)
      requires Valid()
      modifies this`values, this`errors, this`touched, this`isSubmitting
      ensures Valid()
      ensures initial.props == old(initial.props)
      ensures var source := newInitial.GetOr(initial.props);
              values == old(values) + source &&
              (forall k :: k in source ==> values[k] == source[k]) &&
              (forall k :: k in old(values) && k !in source ==> k in values && values[k] == old(values)[k])
      ensures touched == {} && !isSubmitting
      ensures errors == if watching && values != old(values) then FormErrors(schema, values) else map[]
    {
      var source := newInitial.GetOr(initial.props);
      var before := values;
      values := values + source;
      ClearErrors();
      ClearTouched();
      isSubmitting := false;
      Watch(before);
    }

    /** `handleSubmit(cb)`. Under onSubmit the whole form is validated
        first. With errors present it returns at once, without calling `cb`
        and without touching `isSubmitting`. Otherwise it parses the form
        again and calls `cb` with the parsed data; on every exit from there,
        `isSubmitting` ends false. */
    method HandleSubmit(cb: D -> Completion) returns (outcome: SubmitOutcome<D>)
      requires Valid()
      modifies this`errors, this`isSubmitting
      ensures Valid()
      ensures errors == if mode.OnSubmit? then FormErrors(schema, old(values)) else old(errors)
      ensures |errors| > 0 ==> outcome == Gated && isSubmitting == old(isSubmitting)
      ensures |errors| == 0 ==> !isSubmitting && outcome != Gated
      ensures |errors| == 0 && schema.parse(values).Parsed? ==>
                var d := schema.parse(values).data;
                outcome == if cb(d) == Returned then Submitted(d) else CallbackThrew(d)
      ensures |errors| == 0 && schema.parse(values).Rejected? ==>
                outcome == ParseThrew(schema.parse(values).issues)
      ensures mode.OnSubmit? && outcome.ParseThrew? ==> outcome.issues == []
    {
      if mode.OnSubmit? {
        ValidateCurrent();
        FormErrorsEmpty(schema, values);
      }
      if |errors| > 0 {
        return Gated;
      }
      isSubmitting := true;
      var parsed := schema.parse(values);
      match parsed {
        case Rejected(issues) =>
          outcome := ParseThrew(issues);
        case Parsed(d) =>
          var completion := cb(d);
          outcome := if completion == Returned then Submitted(d) else CallbackThrew(d);
      }
      isSubmitting := false;
    }

    /** `stopValidationWatcher()`: remove the watcher if there is one. */
    method StopValidationWatcher()
      requires Valid()
      modifies this`watching
      ensures Valid() && !watching
      ensures !mode.OnChange? ==> watching == old(watching)
    {
      watching := false;
    }
  }

  /** Under onBlur, submitting a form whose fields were never touched finds
      the error map still empty, passes the gate, and the second parse then
      throws before the callback runs. */
  method StaleGateUnderOnBlur() returns (outcome: SubmitOutcome<int>)
    ensures outcome == ParseThrew([Issue([Key("name")], "Required")])
  {
    var missing := [Issue([Key("name")], "Required")];
    var schema: Schema<int, int> := Schema(
      map["name" := (v: Option<int>) => if v.None? then missing else []],
      (m: map<string, int>) => if "name" in m then Parsed(m["name"]) else Rejected(missing));
    var initial := new PlainObject<int>(map[]);
    var form := new FormEngine(schema, initial, OnBlur);
    outcome := form.HandleSubmit((d: int) => Returned);
  }

  /** `reset()` reads the caller's `initial` object when it runs, not when
      the form was made: a property the caller changed in between is what the
      field goes back to, and an edit of the form's own values never reaches
      the caller's object. */
  method ResetReadsCallerObject() returns (field: Option<int>, callers: Option<int>)
    ensures field == Some(2) && callers == Some(2)
  {
    var schema: Schema<int, int> := Schema(map[], (m: map<string, int>) => Parsed(0));
    var initial := new PlainObject(map["name" := 1]);
    var form := new FormEngine(schema, initial);
    form.SetValue("name", 5);
    initial.Put("name", 2);
    form.Reset(None);
    field := Lookup(form.values, "name");
    callers := Lookup(initial.props, "name");
  }
}
