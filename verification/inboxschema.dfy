/** The inbox task schema of src/schemas/inbox.schema.ts as a zod object
    shape, with the `plannerDate` pattern `^\d{4}-\d{2}-\d{2}$` written out. */
module InboxSchema {
  import opened Wrappers
  import opened Issues
  import opened Zod

  const StatusOptions: seq<string> := ["inbox", "archived", "done"]
  const PriorityOptions: seq<string> := ["low", "medium", "high"]

  /** `\d` without the `u` flag: an ASCII digit. */
  predicate IsDigit(c: char) {
    '0' <= c <= '9'
  }

  predicate AllDigits(s: string) {
    forall i :: 0 <= i < |s| ==> IsDigit(s[i])
  }

  /** `/^\d{4}-\d{2}-\d{2}$/.test(s)`. */
  predicate IsPlannerDate(s: string) {
    |s| == 10 && AllDigits(s[..4]) && s[4] == '-' && AllDigits(s[5..7]) && s[7] == '-' && AllDigits(s[8..])
  }

  const TitleRule: Rule := ZString([Min(1, None)])
  const DescriptionRule: Rule := ZOptional(ZString([]))
  const CreatedAtRule: Rule := ZOptional(ZString([Datetime]))
  const UpdatedAtRule: Rule := ZOptional(ZString([Datetime]))
  const StatusRule: Rule := ZEnum(StatusOptions)
  const TagsRule: Rule := ZOptional(ZArray(ZString([])))
  const PriorityRule: Rule := ZOptional(ZEnum(PriorityOptions))
  const PlannerDateRule: Rule := ZOptional(ZString([Regex(IsPlannerDate)]))

  /** `InboxTaskSchema`, fields in declaration order. */
  const InboxTaskShape: seq<Field> := [
    Field("title", TitleRule),
    Field("description", DescriptionRule),
    Field("createdAt", CreatedAtRule),
    Field("updatedAt", UpdatedAtRule),
    Field("status", StatusRule),
    Field("tags", TagsRule),
    Field("priority", PriorityRule),
    Field("plannerDate", PlannerDateRule)
  ]

  function Pow10(w: nat): (p: nat)
    ensures p >= 1
  {
    if w == 0 then 1 else 10 * Pow10(w - 1)
  }

  /** `n` written with exactly `w` decimal digits, zero-padded on the left. */
  function Padded(n: nat, w: nat): (s: string)
    requires n < Pow10(w)
    ensures |s| == w && AllDigits(s)
    decreases w
  {
    if w == 0 then "" else Padded(n / 10, w - 1) + [DigitChar(n % 10)]
  }

  /** The number a string of digits denotes. */
  function DigitsValue(s: string): (n: nat)
    requires AllDigits(s)
    ensures n < Pow10(|s|)
    decreases |s|
  {
    if s == [] then 0
    else
      assert AllDigits(s[..|s| - 1]);
      DigitsValue(s[..|s| - 1]) * 10 + (s[|s| - 1] as int - '0' as int)
  }

  /** Reading back a padded number gives the number. */
  lemma {:induction false} PaddedValue(n: nat, w: nat)
    requires n < Pow10(w)
    ensures DigitsValue(Padded(n, w)) == n
    decreases w
  {
    if w > 0 {
      var s := Padded(n, w);
      assert s[..w - 1] == Padded(n / 10, w - 1);
      PaddedValue(n / 10, w - 1);
      assert s[w - 1] == DigitChar(n % 10);
      DivMod10(n / 10, n % 10);
    }
  }

  /** Appending a digit `d` to a number below `p` stays below `10 p`, and
      dividing by ten takes the digit off again. */
  lemma DivMod10(v: nat, d: nat)
    requires d < 10
    ensures (v * 10 + d) / 10 == v && (v * 10 + d) % 10 == d
    ensures forall p: nat :: v < p ==> v * 10 + d < 10 * p
  {
  }

  /** Padding the value of a digit string gives the string back. */
  lemma {:induction false} ValuePadded(s: string)
    requires AllDigits(s)
    ensures Padded(DigitsValue(s), |s|) == s
    decreases |s|
  {
    if s != [] {
      var n := |s| - 1;
      assert AllDigits(s[..n]);
      ValuePadded(s[..n]);
      var v := DigitsValue(s[..n]);
      var d := s[n] as int - '0' as int;
      assert DigitsValue(s) == v * 10 + d;
      DivMod10(v, d);
      assert Padded(v * 10 + d, n + 1) == Padded(v, n) + [DigitChar(d)];
      assert DigitChar(d) == s[n];
      assert s == s[..n] + [s[n]];
    }
  }

  /** The text `yyyy-mm-dd` for any year below 10000 and any month and day
      below 100. */
  function DateText(y: nat, m: nat, d: nat): (s: string)
    requires y < 10000 && m < 100 && d < 100
    ensures |s| == 10
  {
    assert Pow10(4) == 10000 && Pow10(2) == 100;
    Padded(y, 4) + "-" + Padded(m, 2) + "-" + Padded(d, 2)
  }

  /** Every such text matches the pattern: there is no calendar check. */
  lemma DateTextMatches(y: nat, m: nat, d: nat)
    requires y < 10000 && m < 100 && d < 100
    ensures IsPlannerDate(DateText(y, m, d))
  {
    assert Pow10(4) == 10000 && Pow10(2) == 100;
    DigitGroupsMatch(Padded(y, 4), Padded(m, 2), Padded(d, 2));
  }

  /** Four, two and two digits joined by dashes match the pattern. */
  lemma DigitGroupsMatch(a: string, b: string, c: string)
    requires |a| == 4 && |b| == 2 && |c| == 2
    requires AllDigits(a) && AllDigits(b) && AllDigits(c)
    ensures IsPlannerDate(a + "-" + b + "-" + c)
  {
    var s := a + "-" + b + "-" + c;
    assert s[..4] == a;
    assert s[5..7] == b;
    assert s[8..] == c;
  }

  /** Every string the pattern accepts is such a text. */
  lemma PlannerDateIsDateText(s: string)
    requires IsPlannerDate(s)
    ensures DigitsValue(s[..4]) < 10000 && DigitsValue(s[5..7]) < 100 && DigitsValue(s[8..]) < 100
    ensures s == DateText(DigitsValue(s[..4]), DigitsValue(s[5..7]), DigitsValue(s[8..]))
  {
    assert Pow10(4) == 10000 && Pow10(2) == 100;
    ValuePadded(s[..4]);
    ValuePadded(s[5..7]);
    ValuePadded(s[8..]);
    assert s == s[..4] + "-" + s[5..7] + "-" + s[8..];
  }

  /** Month 99, day 99 passes. */
  lemma NoRangeCheck()
    ensures IsPlannerDate("2024-99-99")
  {
    DateTextMatches(2024, 99, 99);
    assert Pow10(4) == 10000 && Pow10(2) == 100;
    assert Padded(2024, 4) == "2024";
    assert Padded(99, 2) == "99";
    assert DateText(2024, 99, 99) == "2024-99-99";
  }

  /** `title` passes exactly when it is a string of length at least 1. */
  lemma TitleSpec(z: Oracle, v: Option<JsValue>)
    ensures Run(z, TitleRule, v) == [] <==> IsStr(v) && Utf16Length(v.value.s) >= 1
  {
    if IsStr(v) { SingleCheck(z, Min(1, None), v.value.s); }
  }

  /** `status` passes exactly when it is one of inbox, archived, done. */
  lemma StatusSpec(z: Oracle, v: Option<JsValue>)
    ensures Run(z, StatusRule, v) == [] <==> IsStr(v) && v.value.s in StatusOptions
  {
  }

  /** `priority` passes exactly when absent or one of low, medium, high. */
  lemma PrioritySpec(z: Oracle, v: Option<JsValue>)
    ensures Run(z, PriorityRule, v) == [] <==> v.None? || (IsStr(v) && v.value.s in PriorityOptions)
  {
  }

  /** `plannerDate` passes exactly when absent or a string matching the pattern. */
  lemma PlannerDateSpec(z: Oracle, v: Option<JsValue>)
    ensures Run(z, PlannerDateRule, v) == [] <==> v.None? || (IsStr(v) && IsPlannerDate(v.value.s))
  {
    if IsStr(v) { SingleCheck(z, Regex(IsPlannerDate), v.value.s); }
  }

  /** `description` passes exactly when absent or a string. */
  lemma DescriptionSpec(z: Oracle, v: Option<JsValue>)
    ensures Run(z, DescriptionRule, v) == [] <==> v.None? || IsStr(v)
  {
  }

  /** `createdAt` and `updatedAt` pass exactly when absent or a string the
      datetime test accepts. */
  lemma TimestampSpec(z: Oracle, v: Option<JsValue>)
    ensures Run(z, CreatedAtRule, v) == [] <==> v.None? || (IsStr(v) && z.isDatetime(v.value.s))
    ensures Run(z, UpdatedAtRule, v) == Run(z, CreatedAtRule, v)
  {
    if IsStr(v) { SingleCheck(z, Datetime, v.value.s); }
  }

  /** `tags` passes exactly when absent or an array of strings. */
  lemma TagsSpec(z: Oracle, v: Option<JsValue>)
    ensures Run(z, TagsRule, v) == [] <==>
              v.None? || (v.value.Arr? && forall i :: 0 <= i < |v.value.items| ==> v.value.items[i].Str?)
  {
    if v.Some? && v.value.Arr? {
      var run := (x: JsValue) => Run(z, ZString([]), Some(x));
      ElementIssuesEmpty(v.value.items, run);
      forall x: JsValue ensures run(x) == [] <==> x.Str? {
        if x.Str? { assert StringIssues(z, [], x.s) == []; }
      }
    }
  }

  /** An inbox task passes exactly when every field does; the optional
      fields may be absent. */
  lemma InboxTaskParse(z: Oracle, values: map<string, JsValue>)
    ensures ParseObject(z, InboxTaskShape, values).Parsed? <==>
              && Run(z, TitleRule, Lookup(values, "title")) == []
              && Run(z, DescriptionRule, Lookup(values, "description")) == []
              && Run(z, CreatedAtRule, Lookup(values, "createdAt")) == []
              && Run(z, UpdatedAtRule, Lookup(values, "updatedAt")) == []
              && Run(z, StatusRule, Lookup(values, "status")) == []
              && Run(z, TagsRule, Lookup(values, "tags")) == []
              && Run(z, PriorityRule, Lookup(values, "priority")) == []
              && Run(z, PlannerDateRule, Lookup(values, "plannerDate")) == []
  {
    ObjectIssuesEmpty(z, InboxTaskShape, values);
    var sh := InboxTaskShape;
    assert sh[0] == Field("title", TitleRule);
    assert sh[1] == Field("description", DescriptionRule);
    assert sh[2] == Field("createdAt", CreatedAtRule);
    assert sh[3] == Field("updatedAt", UpdatedAtRule);
    assert sh[4] == Field("status", StatusRule);
    assert sh[5] == Field("tags", TagsRule);
    assert sh[6] == Field("priority", PriorityRule);
    assert sh[7] == Field("plannerDate", PlannerDateRule);
    assert |sh| == 8;
  }

  /** The optional fields may be left out. */
  lemma OptionalFieldsMayBeAbsent(z: Oracle)
    ensures Run(z, DescriptionRule, None) == []
    ensures Run(z, CreatedAtRule, None) == [] && Run(z, UpdatedAtRule, None) == []
    ensures Run(z, TagsRule, None) == []
    ensures Run(z, PriorityRule, None) == [] && Run(z, PlannerDateRule, None) == []
  {
  }
}
