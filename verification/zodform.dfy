/** A zod object schema seen as the validator the form engine of
    src/composable/useForm.ts is built over: `schema.shape` as the map from
    field names to rules, and `safeParse` as the whole-object parse. */
module ZodForm {
  import opened Wrappers
  import opened Issues
  import opened Zod
  import Form

  /** `schema.shape`: each field name bound to its rule. */
  function ShapeMap(z: Oracle, shape: seq<Field>): map<string, Option<JsValue> -> seq<Issue>>
    decreases |shape|
  {
    if shape == [] then map[]
    else
      var n := |shape| - 1;
      var rule := shape[n].rule;
      ShapeMap(z, shape[..n])[shape[n].name := v => Run(z, rule, v)]
  }

  /** A zod object schema as the validator the form engine is built over. */
  function FormSchema(z: Oracle, shape: seq<Field>): Form.Schema<JsValue, map<string, JsValue>> {
    Form.Schema(ShapeMap(z, shape), values => ParseObject(z, shape, values))
  }

  /** The form-engine view of the shape names exactly the shape's fields,
      and with distinct names each field's entry runs that field's rule. */
  lemma {:induction false} ShapeMapAt(z: Oracle, shape: seq<Field>, i: nat, v: Option<JsValue>)
    requires DistinctNames(shape) && i < |shape|
    ensures ShapeMap(z, shape).Keys == Names(shape)
    ensures shape[i].name in ShapeMap(z, shape)
    ensures ShapeMap(z, shape)[shape[i].name](v) == Run(z, shape[i].rule, v)
    decreases |shape|
  {
    var n := |shape| - 1;
    ShapeMapKeys(z, shape);
    if i < n {
      assert shape[..n][i] == shape[i];
      assert DistinctNames(shape[..n]);
      ShapeMapAt(z, shape[..n], i, v);
    }
  }

  lemma {:induction false} ShapeMapKeys(z: Oracle, shape: seq<Field>)
    ensures ShapeMap(z, shape).Keys == Names(shape)
    decreases |shape|
  {
    if shape != [] {
      var n := |shape| - 1;
      ShapeMapKeys(z, shape[..n]);
      assert Names(shape) == Names(shape[..n]) + {shape[n].name} by {
        forall k | k in Names(shape) ensures k in Names(shape[..n]) + {shape[n].name} {
          var i :| 0 <= i < |shape| && shape[i].name == k;
          if i < n { assert shape[..n][i] == shape[i]; }
        }
        forall k | k in Names(shape[..n]) ensures k in Names(shape) {
          var i :| 0 <= i < n && shape[..n][i].name == k;
          assert shape[i] == shape[..n][i];
        }
      }
    }
  }

  /** Whole-form validation over a zod object schema only ever files errors
      under the names of the shape's fields. */
  lemma FormErrorsAreFields(z: Oracle, shape: seq<Field>, values: map<string, JsValue>)
    ensures Form.FormErrors(FormSchema(z, shape), values).Keys <= Names(shape)
  {
    var schema := FormSchema(z, shape);
    match schema.parse(values)
    case Parsed(_) =>
    case Rejected(issues) =>
      forall k | k in Form.FormErrors(schema, values) ensures k in Names(shape) {
        var j :| 0 <= j < |issues| && Form.FirstKey(issues[j]) == k;
        ObjectIssuesFrom(z, shape, values, issues[j]);
      }
  }
}
