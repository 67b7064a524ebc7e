/** The JSON values a campaign definition is made of, and JavaScript's reading of them as text. */
module JsonValues {
  import opened JavaScriptNumbers
  import opened Options

  /** A number is a whole double (-0 and 0 are one value, as in JSON), infinite, or another with its text. */
  datatype Json =
    | Null
    | Boolean(b: bool)
    | Number(n: int)
    | Infinite(negative: bool)
    | OtherNumber(text: string)
    | Str(s: string)
    | Arr(items: seq<Json>)
    | Obj(fields: map<string, Json>)

  /** `value?.name`: undefined for anything that is not an object with that field. */
  function Field(value: Json, name: string): Option<Json> {
    if value.Obj? && name in value.fields then Some(value.fields[name]) else None
  }

  /** As Field, on a value that may itself be undefined. */
  function FieldOf(value: Option<Json>, name: string): Option<Json> {
    if value.Some? then Field(value.value, name) else None
  }

  /** Number(text), for the text of a whole number. */
  function NumberOf(n: int): Json {
    var d := Double(n);
    if Magnitude(d) >= OVERFLOW then Infinite(d < 0) else Number(d)
  }

  /**
   String(value) gives a text. An object's own toString, being JSON, is no function; String then falls
   back on valueOf, which is inherited or no function either, and throws.
   */
  predicate HasText(value: Json) {
    match value
    case Arr(items) => AllHaveText(items)
    case Obj(fields) => "toString" !in fields
    case _ => true
  }

  predicate AllHaveText(items: seq<Json>) {
    forall i :: 0 <= i < |items| ==> HasText(items[i])
  }

  /** String(value), where it gives one. */
  function TextOf(value: Json): string
    decreases value, 0
  {
    match value
    case Null => "null"
    case Boolean(b) => if b then "true" else "false"
    case Number(n) => NumberText(n)
    case Infinite(negative) => if negative then "-Infinity" else "Infinity"
    case OtherNumber(text) => text
    case Str(s) => s
    case Arr(items) => ListText(items)
    case Obj(_) => "[object Object]"
  }

  /** An array as text: items joined by commas, null items empty. */
  function ListText(items: seq<Json>): string
    decreases items, 1
  {
    if |items| == 0 then ""
    else
      var head := if items[0].Null? then "" else TextOf(items[0]);
      if |items| == 1 then head else head + "," + ListText(items[1..])
  }

  /** stringOf: empty for null and undefined. */
  function StringOf(value: Option<Json>): string {
    if value.None? || value.value.Null? then "" else TextOf(value.value)
  }

  predicate StringReads(value: Option<Json>) {
    value.Some? ==> HasText(value.value)
  }

  function Strings(items: seq<string>): (r: seq<Json>)
    ensures |r| == |items|
  {
    seq(|items|, i requires 0 <= i < |items| => Str(items[i]))
  }

  function Texts(items: seq<Json>): (r: seq<string>)
    ensures |r| == |items|
  {
    seq(|items|, i requires 0 <= i < |items| => TextOf(items[i]))
  }

  lemma TextsOfStrings(items: seq<string>)
    ensures Texts(Strings(items)) == items
  {
  }
}

/**
 The admin panel's campaign form and the rule definition it is printed to and read from
 (apps/admin/lib/campaign-rules.ts). The shared catalogue is a parameter.
 */
module CampaignRules {
  import opened JavaScriptNumbers
  import opened Options
  import opened Sequences
  import opened Text
  import opened JsonValues

  // ---- the catalogue ----

  datatype ArgSpec = IntegerArg | EnumArg(values: seq<string>) | EnumListArg | SlugListArg

  datatype ArgEntry = ArgEntry(name: string, spec: ArgSpec)

  /** `inherited` are the names every object inherits, which JavaScript's `in` accepts as well. */
  datatype Catalog = Catalog(
    conditions: map<string, seq<ArgEntry>>,
    inherited: set<string>,
    triggers: seq<string>,
    eligibilityTrigger: string,
    facts: seq<string>,
    benefitType: string,
    creditProducingTypes: seq<string>,
    spendPriorities: seq<string>,
    adminDeductPolicies: seq<string>,
    defaultSpendPriority: string,
    defaultAdminDeductPolicy: string,
    stackPolicy: string,
    defaultPriority: int,
    channels: seq<string>,
    defaultChannel: string)

  /** `name in CONDITIONS` */
  predicate IsConditionName(cat: Catalog, name: string) {
    name in cat.conditions || name in cat.inherited
  }

  function ArgumentSpecsOf(cat: Catalog, kind: string): seq<ArgEntry> {
    if kind in cat.conditions then cat.conditions[kind] else []
  }

  predicate DistinctNames(entries: seq<ArgEntry>) {
    forall i, j :: 0 <= i < j < |entries| ==> entries[i].name != entries[j].name
  }

  /**
   An object literal cannot repeat a key, no argument hides a condition's own fields, and the
   default credit policy is one of those on offer.
   */
  predicate CatalogOk(cat: Catalog) {
    && cat.defaultSpendPriority in cat.spendPriorities
    && cat.defaultAdminDeductPolicy in cat.adminDeductPolicies
    && forall kind :: kind in cat.conditions ==>
      && DistinctNames(cat.conditions[kind])
      && forall i :: 0 <= i < |cat.conditions[kind]| ==>
           cat.conditions[kind][i].name != "type" && cat.conditions[kind][i].name != "any"
  }

  // ---- the form ----

  datatype Group = All | Any

  datatype ArgInput = TextInput(text: string) | ListInput(items: seq<string>)

  /** One condition row; an empty kind is a row whose condition is not chosen yet. */
  datatype Row = Row(id: string, kind: string, group: Group, args: map<string, ArgInput>)

  datatype Form = Form(
    trigger: string,
    facts: seq<Json>,
    conditions: seq<Row>,
    credits: string,
    expiresInDays: string,
    maxRedemptionsPerProvider: string,
    maxRedemptionsGlobal: string,
    maxRedemptionsPerDay: string,
    budgetCredits: string,
    maxRevokesPerDay: string,
    windowStartAt: string,
    windowEndAt: string,
    priority: string,
    channel: string,
    spendPriority: string,
    adminDeductPolicy: string)

  function EmptyForm(cat: Catalog): Form {
    Form("PACKAGE_PAYMENT_SUCCEEDED", [], [], "", "30", "1", "", "", "", "", "", "",
         NumberText(cat.defaultPriority), cat.defaultChannel, cat.defaultSpendPriority, cat.defaultAdminDeductPolicy)
  }

  // ---- one field each way ----

  /** ^-?\d+$ */
  predicate IsIntegerText(t: string) {
    || (t != "" && AllDigits(t))
    || (|t| > 1 && t[0] == '-' && AllDigits(t[1..]))
  }

  function IntegerOf(t: string): int
    requires IsIntegerText(t)
  {
    if t[0] == '-' then -(Value(t[1..]) as int) else Value(t)
  }

  function NumberOrRaw(value: string): Json {
    var trimmed := Trim(value);
    if trimmed == "" then Null
    else if IsIntegerText(trimmed) then NumberOf(IntegerOf(trimmed))
    else Str(trimmed)
  }

  /** The sixteen characters of YYYY-MM-DDTHH:mm: digits but for the separators. */
  predicate IsMinute(t: string) {
    && |t| == 16
    && t[4] == '-' && t[7] == '-' && t[10] == 'T' && t[13] == ':'
    && forall k :: 0 <= k < 16 && k !in {4, 7, 10, 13} ==> IsDigit(t[k])
  }

  function InstantOrRaw(value: string): Json {
    var trimmed := Trim(value);
    if trimmed == "" then Null
    else if IsMinute(trimmed) then Str(trimmed + ":00Z")
    else Str(trimmed)
  }

  function InstantToLocalInput(value: Option<Json>): string {
    if value.None? || !value.value.Str? then ""
    else
      var s := value.value.s;
      if |s| >= 16 && IsMinute(s[..16]) then s[..16] else s
  }

  function NonEmpty(items: seq<string>): seq<string> {
    if items == [] then []
    else if items[0] == "" then NonEmpty(items[1..])
    else [items[0]] + NonEmpty(items[1..])
  }

  function ListArgument(raw: Option<ArgInput>): seq<string> {
    match raw
    case None => []
    case Some(ListInput(items)) => items
    case Some(TextInput(text)) => NonEmpty(TrimAll(Split(text, ',')))
  }

  function ArgumentJson(spec: ArgSpec, raw: Option<ArgInput>): Json {
    match spec
    case IntegerArg =>
      NumberOrRaw(if raw.Some? && raw.value.TextInput? then raw.value.text else "")
    case EnumArg(values) =>
      if raw.Some? && raw.value.TextInput? && raw.value.text != "" then Str(raw.value.text)
      else if |values| == 1 then Str(values[0])
      else (match raw
            case None => Null
            case Some(TextInput(text)) => Str(text)
            case Some(ListInput(items)) => Arr(Strings(items)))
    case EnumListArg => Arr(Strings(ListArgument(raw)))
    case SlugListArg => Arr(Strings(ListArgument(raw)))
  }

  /** What the reader puts in the row for one argument of the stored condition. */
  function ArgumentInput(spec: ArgSpec, raw: Option<Json>): ArgInput {
    match spec
    case SlugListArg =>
      if raw.Some? && raw.value.Arr? then TextInput(Join(Texts(raw.value.items), ", ")) else TextInput(StringOf(raw))
    case EnumListArg =>
      if raw.Some? && raw.value.Arr? then ListInput(Texts(raw.value.items)) else ListInput([])
    case _ => TextInput(StringOf(raw))
  }

  function Raw(row: Row, name: string): Option<ArgInput> {
    if name in row.args then Some(row.args[name]) else None
  }

  // ---- form to definition ----

  /** The arguments of a row as fields, later entries written over earlier ones. */
  function ArgumentFields(entries: seq<ArgEntry>, row: Row): map<string, Json>
    decreases |entries|
  {
    if entries == [] then map[]
    else
      var last := entries[|entries| - 1];
      ArgumentFields(entries[..|entries| - 1], row)[last.name := ArgumentJson(last.spec, Raw(row, last.name))]
  }

  function Condition(cat: Catalog, row: Row): Json {
    Obj(map["type" := Str(row.kind)] + ArgumentFields(ArgumentSpecsOf(cat, row.kind), row))
  }

  function Conditions(cat: Catalog, rows: seq<Row>): (r: seq<Json>)
    ensures |r| == |rows|
  {
    seq(|rows|, i requires 0 <= i < |rows| => Condition(cat, rows[i]))
  }

  /** The rows of one group, in row order. */
  function Only(rows: seq<Row>, group: Group): (r: seq<Row>)
    ensures forall k :: 0 <= k < |r| ==> r[k].group == group
    ensures |r| <= |rows|
    decreases |rows|
  {
    if rows == [] then []
    else Only(rows[..|rows| - 1], group) + (if rows[|rows| - 1].group == group then [rows[|rows| - 1]] else [])
  }

  /** The position of the first "any" row, or the number of rows when there is none. */
  function FirstAny(rows: seq<Row>): (k: nat)
    ensures k <= |rows|
    ensures forall i :: 0 <= i < k ==> rows[i].group == All
    ensures k < |rows| ==> rows[k].group == Any
    decreases |rows|
  {
    if rows == [] then 0
    else
      match rows[0].group
      case Any => 0
      case All =>
        var k := FirstAny(rows[1..]);
        assert forall i :: 0 < i <= |rows[1..]| ==> rows[i] == rows[1..][i - 1];
        1 + k
  }

  /**
   The root list of a definition: rows in order, with all "any" rows as one group at the
   place of the first of them.
   */
  function RootList(cat: Catalog, rows: seq<Row>, anyGroup: Json): seq<Json> {
    var k := FirstAny(rows);
    Conditions(cat, rows[..k])
    + (if k < |rows| then [anyGroup] else [])
    + Conditions(cat, Only(rows[k..], All))
  }

  function AnyGroup(cat: Catalog, rows: seq<Row>): Json {
    Obj(map["any" := Arr(Conditions(cat, Only(rows, Any)))])
  }

  function BenefitProducesCredit(cat: Catalog, kind: string): bool {
    kind in cat.creditProducingTypes
  }

  function PolicyJson(form: Form): Json {
    Obj(map["spendPriority" := Str(form.spendPriority), "adminDeductPolicy" := Str(form.adminDeductPolicy)])
  }

  function BenefitJson(cat: Catalog, form: Form): Json {
    var plain := map[
      "type" := Str(cat.benefitType),
      "credits" := NumberOrRaw(form.credits),
      "expiresInDays" := NumberOrRaw(form.expiresInDays)];
    Obj(if BenefitProducesCredit(cat, cat.benefitType) then plain["creditPolicy" := PolicyJson(form)] else plain)
  }

  function LimitsJson(form: Form): Json {
    Obj(map[
      "maxRedemptionsPerProvider" := NumberOrRaw(form.maxRedemptionsPerProvider),
      "maxRedemptionsGlobal" := NumberOrRaw(form.maxRedemptionsGlobal),
      "maxRedemptionsPerDay" := NumberOrRaw(form.maxRedemptionsPerDay),
      "budgetCredits" := NumberOrRaw(form.budgetCredits),
      "maxRevokesPerDay" := NumberOrRaw(form.maxRevokesPerDay)])
  }

  function WindowJson(form: Form): Json {
    Obj(map["startAt" := InstantOrRaw(form.windowStartAt), "endAt" := InstantOrRaw(form.windowEndAt)])
  }

  /** Every field of a definition, its condition list given. */
  function Draft(cat: Catalog, form: Form, all: seq<Json>): Json {
    var plain := map[
      "schemaVersion" := Number(2),
      "trigger" := Str(form.trigger),
      "conditions" := Obj(map["all" := Arr(all)]),
      "benefit" := BenefitJson(cat, form),
      "limits" := LimitsJson(form),
      "window" := WindowJson(form),
      "stackPolicy" := Str(cat.stackPolicy),
      "priority" := NumberOrRaw(form.priority),
      "channel" := Str(form.channel)];
    Obj(if form.trigger == cat.eligibilityTrigger then
          plain["eligibility" := Obj(map["facts" := Arr(form.facts)])]
        else plain)
  }

  function Definition(cat: Catalog, form: Form): Json {
    Draft(cat, form, RootList(cat, form.conditions, AnyGroup(cat, form.conditions)))
  }

  method ConditionArguments(cat: Catalog, row: Row) returns (out: map<string, Json>)
    ensures out == ArgumentFields(ArgumentSpecsOf(cat, row.kind), row)
  {
    var entries := ArgumentSpecsOf(cat, row.kind);
    out := map[];
    for i := 0 to |entries|
      invariant out == ArgumentFields(entries[..i], row)
    {
      assert entries[..i + 1][..i] == entries[..i];
      out := out[entries[i].name := ArgumentJson(entries[i].spec, Raw(row, entries[i].name))];
    }
    assert entries[..|entries|] == entries;
  }

  lemma {:induction false} FirstAnyOfPrefix(rows: seq<Row>, i: nat)
    requires i <= |rows|
    ensures FirstAny(rows[..i]) == if FirstAny(rows) < i then FirstAny(rows) else i
    decreases |rows|
  {
    if i > 0 && rows[0].group == All {
      FirstAnyOfPrefix(rows[1..], i - 1);
      assert rows[..i][1..] == rows[1..][..i - 1];
    }
  }

  lemma ConditionsSnoc(cat: Catalog, rows: seq<Row>, row: Row)
    ensures Conditions(cat, rows + [row]) == Conditions(cat, rows) + [Condition(cat, row)]
  {
  }

  lemma OnlySnoc(rows: seq<Row>, row: Row, group: Group)
    ensures Only(rows + [row], group) == Only(rows, group) + if row.group == group then [row] else []
  {
    assert (rows + [row])[..|rows|] == rows;
  }

  // The layout both the printer and the error paths go by.

  datatype Slot = Single(row: Row) | AnySlot

  function Singles(rows: seq<Row>): (r: seq<Slot>)
    ensures |r| == |rows|
  {
    seq(|rows|, i requires 0 <= i < |rows| => Single(rows[i]))
  }

  function Layout(rows: seq<Row>): seq<Slot> {
    var k := FirstAny(rows);
    Singles(rows[..k]) + (if k < |rows| then [AnySlot] else []) + Singles(Only(rows[k..], All))
  }

  lemma LayoutWithoutAny(rows: seq<Row>)
    requires FirstAny(rows) == |rows|
    ensures Layout(rows) == Singles(rows)
  {
    assert rows[..|rows|] == rows && rows[|rows|..] == [];
    assert Singles([]) == [];
  }

  lemma {:induction false} LayoutAfterAny(p: seq<Row>, row: Row)
    requires FirstAny(p) < |p|
    ensures Layout(p + [row]) == Layout(p) + if row.group == All then [Single(row)] else []
  {
    var k, q := FirstAny(p), p + [row];
    FirstAnyOfPrefix(q, |p|);
    assert q[..|p|] == p;
    TailSnoc(p, row, k);
  }

  lemma TailSnoc(p: seq<Row>, row: Row, k: nat)
    requires k < |p|
    ensures (p + [row])[..k] == p[..k]
    ensures Singles(Only((p + [row])[k..], All)) == Singles(Only(p[k..], All)) + if row.group == All then [Single(row)] else []
  {
    assert (p + [row])[k..] == p[k..] + [row];
    OnlySnoc(p[k..], row, All);
    SinglesSnoc(Only(p[k..], All), row);
  }

  lemma SinglesSnoc(rows: seq<Row>, row: Row)
    ensures Singles(rows + [row]) == Singles(rows) + [Single(row)]
  {
  }

  lemma LayoutFirstAny(p: seq<Row>, row: Row)
    requires FirstAny(p) == |p| && row.group == Any
    ensures Layout(p + [row]) == Singles(p) + [AnySlot]
  {
    var q := p + [row];
    FirstAnyOfPrefix(q, |p|);
    assert q[..|p|] == p && q[|p|..] == [row];
    OnlySnoc([], row, All);
    assert [] + [row] == [row];
    assert Singles([]) == [];
  }

  /** How the layout grows by one row. */
  lemma LayoutSnoc(p: seq<Row>, row: Row)
    ensures Layout(p + [row]) ==
            Layout(p)
            + (if row.group == All then [Single(row)] else if FirstAny(p) == |p| then [AnySlot] else [])
    ensures FirstAny(p + [row]) == if FirstAny(p) == |p| && row.group == All then |p| + 1 else FirstAny(p)
    ensures FirstAny(p) == |p| ==> |Layout(p)| == |p|
  {
    var q := p + [row];
    FirstAnyOfPrefix(q, |p|);
    assert q[..|p|] == p && q[|p|] == row;
    if FirstAny(p) < |p| {
      LayoutAfterAny(p, row);
    } else {
      LayoutWithoutAny(p);
      if row.group == Any {
        LayoutFirstAny(p, row);
      } else {
        LayoutWithoutAny(q);
      }
    }
  }

  function SlotJson(cat: Catalog, slot: Slot, anyGroup: Json): Json {
    match slot
    case Single(row) => Condition(cat, row)
    case AnySlot => anyGroup
  }

  /** The root list is the layout, slot by slot. */
  lemma RootListIsLayout(cat: Catalog, rows: seq<Row>, anyGroup: Json)
    ensures |RootList(cat, rows, anyGroup)| == |Layout(rows)|
    ensures forall i :: 0 <= i < |Layout(rows)| ==>
              RootList(cat, rows, anyGroup)[i] == SlotJson(cat, Layout(rows)[i], anyGroup)
  {
  }

  /** A list that shows its layout slot by slot. */
  ghost predicate Shows(cat: Catalog, all: seq<Json>, layout: seq<Slot>, group: Json) {
    |all| == |layout| && forall i :: 0 <= i < |layout| ==> all[i] == SlotJson(cat, layout[i], group)
  }

  lemma ShowsMore(cat: Catalog, all: seq<Json>, layout: seq<Slot>, now: seq<Json>, more: seq<Slot>, group: Json)
    requires Shows(cat, all, layout, group) && Shows(cat, now, layout + more, group) && |more| <= 1
    ensures now == all + if more == [] then [] else [SlotJson(cat, more[0], group)]
  {
    assert forall i :: 0 <= i < |layout| ==> (layout + more)[i] == layout[i];
  }

  lemma RootListSnoc(cat: Catalog, p: seq<Row>, row: Row, hole: Json)
    ensures RootList(cat, p + [row], hole) ==
            RootList(cat, p, hole)
            + (if row.group == All then [Condition(cat, row)] else if FirstAny(p) == |p| then [hole] else [])
    ensures FirstAny(p + [row]) == if FirstAny(p) == |p| && row.group == All then |p| + 1 else FirstAny(p)
    ensures FirstAny(p) == |p| ==> |RootList(cat, p, hole)| == |p|
  {
    LayoutSnoc(p, row);
    RootListIsLayout(cat, p, hole);
    RootListIsLayout(cat, p + [row], hole);
    var more := if row.group == All then [Single(row)] else if FirstAny(p) == |p| then [AnySlot] else [];
    ShowsMore(cat, RootList(cat, p, hole), Layout(p), RootList(cat, p + [row], hole), more, hole);
  }

  /** Filling in the group afterwards is the same as having it from the start. */
  lemma RootListFill(cat: Catalog, rows: seq<Row>, hole: Json, group: Json)
    ensures FirstAny(rows) < |rows| ==>
              && FirstAny(rows) < |RootList(cat, rows, hole)|
              && RootList(cat, rows, hole)[FirstAny(rows) := group] == RootList(cat, rows, group)
    ensures FirstAny(rows) == |rows| ==> RootList(cat, rows, hole) == RootList(cat, rows, group)
  {
  }

  /** One condition: its type, then its arguments. */
  method PrintCondition(cat: Catalog, row: Row) returns (condition: Json)
    ensures condition == Condition(cat, row)
  {
    var arguments := ConditionArguments(cat, row);
    condition := Obj(map["type" := Str(row.kind)] + arguments);
  }

  /** What the pass holds after the rows of p. */
  ghost predicate Collected(cat: Catalog, p: seq<Row>, all: seq<Json>, any: seq<Json>, anyIndex: int) {
    && all == RootList(cat, p, Null)
    && any == Conditions(cat, Only(p, Any))
    && anyIndex == if FirstAny(p) < |p| then FirstAny(p) else -1
  }

  /** One row of the pass: an "any" row goes to its group, and the first one leaves a placeholder. */
  method CollectRow(cat: Catalog, ghost p: seq<Row>, row: Row, all: seq<Json>, any: seq<Json>, anyIndex: int)
    returns (allNow: seq<Json>, anyNow: seq<Json>, indexNow: int)
    requires Collected(cat, p, all, any, anyIndex)
    ensures Collected(cat, p + [row], allNow, anyNow, indexNow)
  {
    var condition := PrintCondition(cat, row);
    allNow, anyNow, indexNow := all, any, anyIndex;
    RootListStep(cat, p, row);
    if row.group == Any {
      if anyIndex == -1 {
        indexNow := |all|;
        allNow := all + [Null];
      }
      anyNow := any + [condition];
    } else {
      allNow := all + [condition];
    }
  }

  /** One pass over the rows, with a placeholder where the "any" group will go. */
  method CollectConditions(cat: Catalog, rows: seq<Row>) returns (all: seq<Json>)
    ensures all == RootList(cat, rows, AnyGroup(cat, rows))
  {
    all := [];
    var any: seq<Json> := [];
    var anyIndex := -1;
    for i := 0 to |rows|
      invariant Collected(cat, rows[..i], all, any, anyIndex)
    {
      assert rows[..i + 1] == rows[..i] + [rows[i]];
      all, any, anyIndex := CollectRow(cat, rows[..i], rows[i], all, any, anyIndex);
    }
    assert rows[..|rows|] == rows;
    GroupFillsPlaceholder(cat, rows, all, any, anyIndex);
    if anyIndex != -1 {
      all := all[anyIndex := Obj(map["any" := Arr(any)])];
    }
  }

  /** Putting the group where its placeholder is makes the list the root list. */
  lemma GroupFillsPlaceholder(cat: Catalog, rows: seq<Row>, all: seq<Json>, any: seq<Json>, anyIndex: int)
    requires Collected(cat, rows, all, any, anyIndex)
    ensures anyIndex == -1 || 0 <= anyIndex < |all|
    ensures RootList(cat, rows, AnyGroup(cat, rows)) ==
              if anyIndex == -1 then all else all[anyIndex := Obj(map["any" := Arr(any)])]
  {
    RootListFill(cat, rows, Null, AnyGroup(cat, rows));
  }

  /** What one more row does to the three things the pass keeps. */
  lemma RootListStep(cat: Catalog, p: seq<Row>, row: Row)
    ensures var q := p + [row];
            && RootList(cat, q, Null) ==
               RootList(cat, p, Null)
               + (if row.group == All then [Condition(cat, row)] else if FirstAny(p) == |p| then [Null] else [])
            && Conditions(cat, Only(q, Any)) ==
               Conditions(cat, Only(p, Any)) + (if row.group == Any then [Condition(cat, row)] else [])
            && FirstAny(q) == (if FirstAny(p) == |p| && row.group == All then |p| + 1 else FirstAny(p))
            && (FirstAny(p) == |p| ==> |RootList(cat, p, Null)| == |p|)
  {
    RootListSnoc(cat, p, row, Null);
    OnlySnoc(p, row, Any);
    if row.group == Any {
      ConditionsSnoc(cat, Only(p, Any), row);
    }
  }

  /** buildDefinition */
  method BuildDefinition(cat: Catalog, form: Form) returns (definition: Json)
    ensures definition == Definition(cat, form)
  {
    var all := CollectConditions(cat, form.conditions);
    definition := Draft(cat, form, all);
  }

  // ---- definition to form ----

  /** The type a stored condition is read with; empty when it names none. */
  function KindOf(cat: Catalog, entry: Json): string {
    var named := Field(entry, "type");
    if named.Some? && named.value.Str? && IsConditionName(cat, named.value.s) then named.value.s else ""
  }

  /** The row read from one stored condition, its id left empty. */
  function RowOf(cat: Catalog, entry: Json, group: Group): Row {
    var kind := KindOf(cat, entry);
    Row("", kind, group, InputFields(ArgumentSpecsOf(cat, kind), entry))
  }

  /** An entry of the root list that holds alternatives instead of being a condition. */
  predicate IsGroup(entry: Json) {
    Field(entry, "any").Some? && Field(entry, "any").value.Arr?
  }

  function GroupItems(entry: Json): seq<Json>
    requires IsGroup(entry)
  {
    Field(entry, "any").value.items
  }

  function InputFields(entries: seq<ArgEntry>, entry: Json): map<string, ArgInput>
    decreases |entries|
  {
    if entries == [] then map[]
    else
      var last := entries[|entries| - 1];
      InputFields(entries[..|entries| - 1], entry)[last.name := ArgumentInput(last.spec, Field(entry, last.name))]
  }

  /** Reading the stored value of an argument throws nothing. */
  predicate ArgumentReads(spec: ArgSpec, raw: Option<Json>) {
    if spec.EnumListArg? then raw.Some? && raw.value.Arr? ==> HasText(raw.value) else StringReads(raw)
  }

  predicate ArgumentsRead(entries: seq<ArgEntry>, entry: Json) {
    forall i :: 0 <= i < |entries| ==> ArgumentReads(entries[i].spec, Field(entry, entries[i].name))
  }

  predicate ConditionReads(cat: Catalog, entry: Json) {
    ArgumentsRead(ArgumentSpecsOf(cat, KindOf(cat, entry)), entry)
  }

  predicate ConditionsRead(cat: Catalog, entries: seq<Json>) {
    forall i :: 0 <= i < |entries| ==> ConditionReads(cat, entries[i])
  }

  predicate EntryReads(cat: Catalog, entry: Json) {
    if IsGroup(entry) then ConditionsRead(cat, GroupItems(entry)) else ConditionReads(cat, entry)
  }

  predicate EntriesRead(cat: Catalog, entries: seq<Json>) {
    forall i :: 0 <= i < |entries| ==> EntryReads(cat, entries[i])
  }

  function RowsOfGroup(cat: Catalog, entries: seq<Json>, group: Group): (r: seq<Row>)
    ensures |r| == |entries|
  {
    seq(|entries|, i requires 0 <= i < |entries| => RowOf(cat, entries[i], group))
  }

  function RowsOfEntry(cat: Catalog, entry: Json): seq<Row> {
    if IsGroup(entry) then RowsOfGroup(cat, GroupItems(entry), Any) else [RowOf(cat, entry, All)]
  }

  function EntryReader(cat: Catalog): Json -> seq<Row> {
    (entry: Json) => RowsOfEntry(cat, entry)
  }

  function RowsOf(cat: Catalog, entries: seq<Json>): seq<Row> {
    FlatMap(entries, EntryReader(cat))
  }

  function KnownFacts(cat: Catalog, facts: seq<Json>): seq<Json>
    decreases |facts|
  {
    if facts == [] then []
    else KnownFacts(cat, facts[..|facts| - 1])
         + (if TextOf(facts[|facts| - 1]) in cat.facts then [facts[|facts| - 1]] else [])
  }

  function Listed(value: Option<Json>, values: seq<string>, default: string): string {
    if value.Some? && value.value.Str? && value.value.s in values then value.value.s else default
  }

  function ArrayAt(value: Option<Json>): seq<Json> {
    if value.Some? && value.value.Arr? then value.value.items else []
  }

  /** formFromDefinition on the fields that are not condition rows. */
  function PlainFields(cat: Catalog, record: Json): Form {
    var empty := EmptyForm(cat);
    var benefit := Field(record, "benefit");
    var policy := FieldOf(benefit, "creditPolicy");
    var limits := Field(record, "limits");
    var window := Field(record, "window");
    Form(
      Listed(Field(record, "trigger"), cat.triggers, empty.trigger),
      KnownFacts(cat, StoredFacts(record)),
      [],
      StringOf(FieldOf(benefit, "credits")),
      StringOf(FieldOf(benefit, "expiresInDays")),
      StringOf(FieldOf(limits, "maxRedemptionsPerProvider")),
      StringOf(FieldOf(limits, "maxRedemptionsGlobal")),
      StringOf(FieldOf(limits, "maxRedemptionsPerDay")),
      StringOf(FieldOf(limits, "budgetCredits")),
      StringOf(FieldOf(limits, "maxRevokesPerDay")),
      InstantToLocalInput(FieldOf(window, "startAt")),
      InstantToLocalInput(FieldOf(window, "endAt")),
      StringOf(Field(record, "priority")),
      Listed(Field(record, "channel"), cat.channels, empty.channel),
      Listed(FieldOf(policy, "spendPriority"), cat.spendPriorities, empty.spendPriority),
      Listed(FieldOf(policy, "adminDeductPolicy"), cat.adminDeductPolicies, empty.adminDeductPolicy))
  }

  /** The facts and the root list of a stored definition. */
  function StoredFacts(record: Json): seq<Json> {
    ArrayAt(FieldOf(Field(record, "eligibility"), "facts"))
  }

  function RootEntries(record: Json): seq<Json> {
    ArrayAt(FieldOf(Field(record, "conditions"), "all"))
  }

  /** The whole reading, row ids left empty. */
  function Parsed(cat: Catalog, record: Json): Form {
    PlainFields(cat, record).(conditions := RowsOf(cat, RootEntries(record)))
  }

  predicate NumbersRead(record: Json) {
    && StringReads(FieldOf(Field(record, "benefit"), "credits"))
    && StringReads(FieldOf(Field(record, "benefit"), "expiresInDays"))
    && var limits := Field(record, "limits");
    && StringReads(FieldOf(limits, "maxRedemptionsPerProvider"))
    && StringReads(FieldOf(limits, "maxRedemptionsGlobal"))
    && StringReads(FieldOf(limits, "maxRedemptionsPerDay"))
    && StringReads(FieldOf(limits, "budgetCredits"))
    && StringReads(FieldOf(limits, "maxRevokesPerDay"))
    && StringReads(Field(record, "priority"))
  }

  /** Every value that is read as a text has one. */
  predicate Readable(cat: Catalog, record: Json) {
    AllHaveText(StoredFacts(record)) && EntriesRead(cat, RootEntries(record)) && NumbersRead(record)
  }

  function Anonymous(rows: seq<Row>): (r: seq<Row>)
    ensures |r| == |rows|
  {
    seq(|rows|, i requires 0 <= i < |rows| => rows[i].(id := ""))
  }

  function RowId(sequence: nat, stamp: string): string {
    "c" + Decimal(sequence) + "-" + stamp
  }

  /** Row ids of different sequence numbers differ, whatever the clock said. */
  lemma RowIdInjective(m: nat, n: nat, s: string, t: string)
    requires RowId(m, s) == RowId(n, t)
    ensures m == n
  {
    var x, y := Decimal(m) + ("-" + s), Decimal(n) + ("-" + t);
    assert x == RowId(m, s)[1..] && y == RowId(n, t)[1..];
    RunStops(Decimal(m), "-" + s, IsDigit);
    RunStops(Decimal(n), "-" + t, IsDigit);
    assert x[..|Decimal(m)|] == Decimal(m) && y[..|Decimal(n)|] == Decimal(n);
    DecimalInjective(m, n);
  }

  ghost predicate HasId(row: Row, sequence: nat) {
    exists stamp :: row.id == RowId(sequence, stamp)
  }

  /** Row i of the list got sequence number first + i. */
  ghost predicate Numbered(rows: seq<Row>, first: nat) {
    forall i :: 0 <= i < |rows| ==> HasId(rows[i], first + i)
  }

  lemma NumberedAreDistinct(rows: seq<Row>, first: nat)
    requires Numbered(rows, first)
    ensures forall i, j :: 0 <= i < j < |rows| ==> rows[i].id != rows[j].id
  {
    forall i, j | 0 <= i < j < |rows| ensures rows[i].id != rows[j].id {
      var s :| rows[i].id == RowId(first + i, s);
      var t :| rows[j].id == RowId(first + j, t);
      if rows[i].id == rows[j].id {
        RowIdInjective(first + i, first + j, s, t);
      }
    }
  }

  /** What one more argument adds to what is read of a condition. */
  lemma OneMoreInput(entries: seq<ArgEntry>, i: nat, entry: Json)
    requires i < |entries|
    ensures var spec, raw := entries[i].spec, Field(entry, entries[i].name);
            && InputFields(entries[..i + 1], entry) == InputFields(entries[..i], entry)[entries[i].name := ArgumentInput(spec, raw)]
            && (ArgumentsRead(entries[..i + 1], entry) <==> ArgumentsRead(entries[..i], entry) && ArgumentReads(spec, raw))
            && (ArgumentsRead(entries, entry) ==> ArgumentReads(spec, raw))
  {
    assert entries[..i + 1][..i] == entries[..i];
    assert entries[..i + 1] == entries[..i] + [entries[i]];
  }

  /** What has been read of the first entries, the rows numbered from the given one on. */
  ghost predicate ReadSoFar(cat: Catalog, p: seq<Json>, rows: seq<Row>, first: nat) {
    EntriesRead(cat, p) && Anonymous(rows) == RowsOf(cat, p) && Numbered(rows, first)
  }

  lemma ReadOneMore(cat: Catalog, entries: seq<Json>, e: nat, rows: seq<Row>, more: seq<Row>, first: nat)
    requires e < |entries| && ReadSoFar(cat, entries[..e], rows, first) && EntryReads(cat, entries[e])
    requires rows <= more && Anonymous(more) == Anonymous(rows) + RowsOfEntry(cat, entries[e])
    requires forall i :: |rows| <= i < |more| ==> HasId(more[i], first + i)
    ensures ReadSoFar(cat, entries[..e + 1], more, first)
  {
    OneMoreEntry(cat, entries, e);
  }

  lemma OneMoreEntry(cat: Catalog, entries: seq<Json>, e: nat)
    requires e < |entries|
    ensures RowsOf(cat, entries[..e + 1]) == RowsOf(cat, entries[..e]) + RowsOfEntry(cat, entries[e])
    ensures EntriesRead(cat, entries[..e + 1]) <==> EntriesRead(cat, entries[..e]) && EntryReads(cat, entries[e])
    ensures EntriesRead(cat, entries) ==> EntryReads(cat, entries[e])
  {
    assert entries[..e + 1] == entries[..e] + [entries[e]];
    FlatMapSnoc(entries[..e], entries[e], EntryReader(cat));
  }

  lemma OneMoreChild(cat: Catalog, children: seq<Json>, c: nat)
    requires c < |children|
    ensures RowsOfGroup(cat, children[..c + 1], Any) == RowsOfGroup(cat, children[..c], Any) + [RowOf(cat, children[c], Any)]
    ensures ConditionsRead(cat, children[..c + 1]) <==> ConditionsRead(cat, children[..c]) && ConditionReads(cat, children[c])
    ensures ConditionsRead(cat, children) ==> ConditionReads(cat, children[c])
  {
    assert children[..c + 1] == children[..c] + [children[c]];
  }

  /** The builder's module state: the counter every new row takes its id from. */
  class RowBuilder {
    var rowSequence: nat

    constructor ()
      ensures rowSequence == 0
    {
      rowSequence := 0;
    }

    /** Date.now().toString(36): whatever the clock says. */
    method ClockText() returns (stamp: string)
    {
      stamp := *;
    }

    method NewConditionRow(kind: string) returns (row: Row)
      modifies this`rowSequence
      ensures rowSequence == old(rowSequence) + 1
      ensures row == Row(row.id, kind, All, map[])
      ensures HasId(row, rowSequence)
    {
      rowSequence := rowSequence + 1;
      var stamp := ClockText();
      row := Row(RowId(rowSequence, stamp), kind, All, map[]);
    }

    /** No row when reading an argument throws. */
    method RowFromCondition(cat: Catalog, entry: Json, group: Group) returns (row: Option<Row>)
      modifies this`rowSequence
      ensures rowSequence == old(rowSequence) + 1
      ensures row.Some? <==> ConditionReads(cat, entry)
      ensures row.Some? ==> row.value.(id := "") == RowOf(cat, entry, group) && HasId(row.value, rowSequence)
    {
      var named := Field(entry, "type");
      var kind := if named.Some? && named.value.Str? && IsConditionName(cat, named.value.s) then named.value.s else "";
      var made := NewConditionRow(kind);
      made := made.(group := group);
      var entries := ArgumentSpecsOf(cat, kind);
      for i := 0 to |entries|
        invariant made == Row(made.id, kind, group, InputFields(entries[..i], entry))
        invariant rowSequence == old(rowSequence) + 1 && HasId(made, rowSequence)
        invariant ArgumentsRead(entries[..i], entry)
      {
        var raw := Field(entry, entries[i].name);
        OneMoreInput(entries, i, entry);
        if !ArgumentReads(entries[i].spec, raw) {
          return None;
        }
        made := made.(args := made.args[entries[i].name := ArgumentInput(entries[i].spec, raw)]);
      }
      assert entries[..|entries|] == entries;
      row := Some(made);
    }

    /** The rows one root entry adds to the form: a group's children, or the entry itself. */
    method PushRows(cat: Catalog, entry: Json, rows: seq<Row>) returns (more: Option<seq<Row>>)
      modifies this`rowSequence
      ensures old(rowSequence) <= rowSequence
      ensures more.Some? <==> EntryReads(cat, entry)
      ensures more.Some? ==>
                && rows <= more.value
                && Anonymous(more.value) == Anonymous(rows) + RowsOfEntry(cat, entry)
                && rowSequence == old(rowSequence) + |more.value| - |rows|
                && forall i :: |rows| <= i < |more.value| ==> HasId(more.value[i], old(rowSequence) + 1 + i - |rows|)
    {
      var grown := rows;
      var any := Field(entry, "any");
      if any.Some? && any.value.Arr? {
        var children := any.value.items;
        for c := 0 to |children|
          invariant rows <= grown && |grown| == |rows| + c
          invariant ConditionsRead(cat, children[..c])
          invariant Anonymous(grown) == Anonymous(rows) + RowsOfGroup(cat, children[..c], Any)
          invariant rowSequence == old(rowSequence) + c
          invariant forall i :: |rows| <= i < |grown| ==> HasId(grown[i], old(rowSequence) + 1 + i - |rows|)
        {
          OneMoreChild(cat, children, c);
          var row := RowFromCondition(cat, children[c], Any);
          if row.None? {
            return None;
          }
          AnonymousSnoc(grown, row.value);
          grown := grown + [row.value];
        }
        assert children[..|children|] == children;
      } else {
        var row := RowFromCondition(cat, entry, All);
        if row.None? {
          return None;
        }
        AnonymousSnoc(grown, row.value);
        grown := grown + [row.value];
      }
      more := Some(grown);
    }

    /** The rows of a root list, numbered in order. */
    method ReadRows(cat: Catalog, entries: seq<Json>) returns (rows: Option<seq<Row>>)
      modifies this`rowSequence
      ensures old(rowSequence) <= rowSequence
      ensures rows.Some? <==> EntriesRead(cat, entries)
      ensures rows.Some? ==>
                && Anonymous(rows.value) == RowsOf(cat, entries)
                && rowSequence == old(rowSequence) + |rows.value|
                && Numbered(rows.value, old(rowSequence) + 1)
    {
      var read: seq<Row> := [];
      for e := 0 to |entries|
        invariant ReadSoFar(cat, entries[..e], read, old(rowSequence) + 1)
        invariant rowSequence == old(rowSequence) + |read|
      {
        OneMoreEntry(cat, entries, e);
        var more := PushRows(cat, entries[e], read);
        if more.None? {
          return None;
        }
        ReadOneMore(cat, entries, e, read, more.value, old(rowSequence) + 1);
        read := more.value;
      }
      assert entries[..|entries|] == entries;
      rows := Some(read);
    }

    /** formFromDefinition; no form when reading some value as a text throws. */
    method FormFromDefinition(cat: Catalog, definition: Json) returns (form: Option<Form>)
      modifies this`rowSequence
      ensures old(rowSequence) <= rowSequence
      ensures form.Some? <==> Readable(cat, definition)
      ensures form.Some? ==>
                && form.value.(conditions := Anonymous(form.value.conditions)) == Parsed(cat, definition)
                && rowSequence == old(rowSequence) + |form.value.conditions|
                && forall i, j :: 0 <= i < j < |form.value.conditions| ==> form.value.conditions[i].id != form.value.conditions[j].id
    {
      if !AllHaveText(StoredFacts(definition)) {
        return None;
      }
      var rows := ReadRows(cat, RootEntries(definition));
      if rows.None? || !NumbersRead(definition) {
        return None;
      }
      NumberedAreDistinct(rows.value, old(rowSequence) + 1);
      form := Some(PlainFields(cat, definition).(conditions := rows.value));
    }
  }

  lemma AnonymousSnoc(rows: seq<Row>, row: Row)
    ensures Anonymous(rows + [row]) == Anonymous(rows) + [row.(id := "")]
  {
  }
}
