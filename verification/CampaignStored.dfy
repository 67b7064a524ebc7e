/**
 Stored campaign definitions opened for a new revision (apps/admin/lib/campaign-rules.ts): which of
 them come back unchanged when the form is printed again, and what is read of condition types.
 */
module CampaignStored {
  import opened JavaScriptNumbers
  import opened Options
  import opened Sequences
  import opened Text
  import opened JsonValues
  import opened CampaignRules
  import opened CampaignRoundTrip
  import opened CampaignForms

  // ---- condition types ----

  /** The stored type is none of the catalogue's, but a name every object inherits. */
  predicate InheritedType(cat: Catalog, entry: Json) {
    var named := Field(entry, "type");
    named.Some? && named.value.Str? && named.value.s !in cat.conditions && named.value.s in cat.inherited
  }

  /** Some condition of a root entry, or of its alternatives, has such a type. */
  predicate HoldsInheritedType(cat: Catalog, entry: Json) {
    if IsGroup(entry) then exists i :: 0 <= i < |GroupItems(entry)| && InheritedType(cat, GroupItems(entry)[i])
    else InheritedType(cat, entry)
  }

  predicate ListedKind(cat: Catalog, row: Row) {
    row.kind == "" || row.kind in cat.conditions
  }

  predicate ListedKinds(cat: Catalog, rows: seq<Row>) {
    forall i :: 0 <= i < |rows| ==> ListedKind(cat, rows[i])
  }

  lemma KindIsListed(cat: Catalog, entry: Json, group: Group)
    requires "" !in cat.inherited
    ensures ListedKind(cat, RowOf(cat, entry, group)) <==> !InheritedType(cat, entry)
  {
  }

  lemma EntryKindsListed(cat: Catalog, entry: Json)
    requires "" !in cat.inherited
    ensures ListedKinds(cat, RowsOfEntry(cat, entry)) <==> !HoldsInheritedType(cat, entry)
  {
    if IsGroup(entry) {
      var items := GroupItems(entry);
      forall i | 0 <= i < |items|
        ensures ListedKind(cat, RowsOfEntry(cat, entry)[i]) <==> !InheritedType(cat, items[i])
      {
        KindIsListed(cat, items[i], Any);
      }
    } else {
      KindIsListed(cat, entry, All);
      assert RowsOfEntry(cat, entry)[0] == RowOf(cat, entry, All);
    }
  }

  lemma {:induction false} KindsListed(cat: Catalog, entries: seq<Json>)
    requires "" !in cat.inherited
    ensures ListedKinds(cat, RowsOf(cat, entries))
            <==> forall i :: 0 <= i < |entries| ==> !HoldsInheritedType(cat, entries[i])
    decreases |entries|
  {
    if entries != [] {
      var n := |entries| - 1;
      var front, last := RowsOf(cat, entries[..n]), RowsOfEntry(cat, entries[n]);
      KindsListed(cat, entries[..n]);
      EntryKindsListed(cat, entries[n]);
      KindsAppend(cat, front, last);
      assert forall i :: 0 <= i < n ==> entries[..n][i] == entries[i];
    }
  }

  lemma KindsAppend(cat: Catalog, a: seq<Row>, b: seq<Row>)
    ensures ListedKinds(cat, a + b) <==> ListedKinds(cat, a) && ListedKinds(cat, b)
  {
    if ListedKinds(cat, a + b) {
      assert forall i :: 0 <= i < |a| ==> (a + b)[i] == a[i];
      assert forall i :: 0 <= i < |b| ==> (a + b)[|a| + i] == b[i];
    }
  }

  /**
   Every condition read from a definition is an empty row or of a type the catalogue lists exactly when
   no stored condition, alternatives included, has an inherited name for a type.
   */
  lemma KindsAreListedExactly(cat: Catalog, d: Json)
    requires "" !in cat.inherited
    ensures ListedKinds(cat, Parsed(cat, d).conditions)
            <==> forall i :: 0 <= i < |RootEntries(d)| ==> !HoldsInheritedType(cat, RootEntries(d)[i])
  {
    KindsListed(cat, RootEntries(d));
  }

  /** A definition of one condition without arguments. */
  function OneCondition(kind: string): Json {
    Obj(map["conditions" := Obj(map["all" := Arr([Obj(map["type" := Str(kind)])])])])
  }

  lemma OneConditionRoot(kind: string)
    ensures RootEntries(OneCondition(kind)) == [Obj(map["type" := Str(kind)])]
    ensures StoredFacts(OneCondition(kind)) == [] && NumbersRead(OneCondition(kind))
  {
  }

  lemma BareConditionReads(cat: Catalog, kind: string)
    requires kind !in cat.conditions && kind in cat.inherited
    ensures var entry := Obj(map["type" := Str(kind)]);
            EntryReads(cat, entry) && RowsOfEntry(cat, entry) == [Row("", kind, All, map[])]
  {
  }

  lemma OneConditionReads(cat: Catalog, kind: string)
    requires kind !in cat.conditions && kind in cat.inherited
    ensures Readable(cat, OneCondition(kind))
    ensures Parsed(cat, OneCondition(kind)).conditions == [Row("", kind, All, map[])]
  {
    var entry := Obj(map["type" := Str(kind)]);
    OneConditionRoot(kind);
    BareConditionReads(cat, kind);
    RowsOfSnoc(cat, [], entry);
    assert [] + [entry] == [entry];
  }

  /** A stored condition of the unknown type "toString" does not become an empty row. */
  lemma InheritedTypeIsKept()
    ensures "toString" !in SHIPPED.conditions && Readable(SHIPPED, OneCondition("toString"))
    ensures Parsed(SHIPPED, OneCondition("toString")).conditions == [Row("", "toString", All, map[])]
  {
    OneConditionReads(SHIPPED, "toString");
  }

  // ---- one stored value ----

  /** A number as the form prints it: null, a double below 10^21, or a trimmed text that is no whole number. */
  predicate PrintedNumber(v: Json) {
    match v
    case Null => true
    case Number(n) => Double(n) == n && Magnitude(n) < EXPONENT_FROM
    case Str(s) => s != "" && Trimmed(s) && !IsIntegerText(s)
    case _ => false
  }

  /** An instant as the form prints it: null, a minute in full, or a trimmed text that starts with no minute. */
  predicate PrintedInstant(v: Json) {
    match v
    case Null => true
    case Str(s) =>
      if |s| >= 16 && IsMinute(s[..16]) then s == s[..16] + ":00Z" else s != "" && Trimmed(s)
    case _ => false
  }

  lemma StoredNumber(v: Option<Json>)
    ensures v == Some(NumberOrRaw(StringOf(v))) <==> v.Some? && PrintedNumber(v.value)
  {
    TrimIsTrimmed("");
    if v.Some? && v.value.Str? {
      StoredText(v.value.s);
    } else if v.Some? && v.value.Number? {
      StoredDouble(v.value.n);
    } else if v.Some? && v.value.Infinite? {
      InfinityIsRaw(v.value.negative);
    }
  }

  lemma StoredText(s: string)
    ensures NumberOrRaw(s) == Str(s) <==> PrintedNumber(Str(s))
  {
    TrimIsTrimmed(s);
  }

  lemma StoredDouble(n: int)
    ensures NumberOrRaw(NumberText(n)) == Number(n) <==> PrintedNumber(Number(n))
  {
    var text := NumberText(n);
    if Magnitude(n) >= EXPONENT_FROM {
      ExponentIsRaw(n);
    } else if Double(n) == n {
      PlainNumberReads(n);
      IntegerIsTrimmed(text);
    } else if NumberOrRaw(text) == Number(n) {
      SignedDoubleStays(IntegerOf(Trim(text)));
    }
  }

  lemma MinuteComesFirst(t: string)
    requires IsMinute(t)
    ensures |t + ":00Z"| >= 16 && (t + ":00Z")[..16] == t
  {
  }

  lemma StoredInstant(v: Option<Json>)
    ensures v == Some(InstantOrRaw(InstantToLocalInput(v))) <==> v.Some? && PrintedInstant(v.value)
  {
    TrimIsTrimmed("");
    if v.Some? && v.value.Str? {
      var s := v.value.s;
      TrimIsTrimmed(s);
      if |s| >= 16 && IsMinute(s[..16]) {
        MinuteIsTrimmed(s[..16]);
      } else if IsMinute(Trim(s)) && s == Trim(s) + ":00Z" {
        MinuteComesFirst(Trim(s));
      }
    }
  }

  /** A choice as the form prints it: one on offer, or the default. */
  predicate PrintedChoice(v: Option<Json>, values: seq<string>, default: string) {
    v.Some? && v.value.Str? && (v.value.s in values || v.value.s == default)
  }

  lemma StoredChoice(v: Option<Json>, values: seq<string>, default: string)
    ensures v == Some(Str(Listed(v, values, default))) <==> PrintedChoice(v, values, default)
  {
  }

  /** An object is one with given fields exactly when it has those names and each value. */
  lemma ObjectsAgree(v: Json, m: map<string, Json>)
    ensures v == Obj(m) <==> v.Obj? && v.fields.Keys == m.Keys && forall k :: k in m ==> Field(v, k) == Some(m[k])
  {
    if v.Obj? && v.fields.Keys == m.Keys && forall k :: k in m ==> Field(v, k) == Some(m[k]) {
      forall k | k in m ensures v.fields[k] == m[k] {
        assert Field(v, k) == Some(m[k]);
      }
      assert v.fields == m;
    }
  }

  // ---- one stored condition ----

  predicate AllTexts(items: seq<Json>) {
    forall i :: 0 <= i < |items| ==> items[i].Str?
  }

  predicate PrintedArgument(spec: ArgSpec, v: Json) {
    match spec
    case IntegerArg => PrintedNumber(v)
    case EnumArg(values) => v.Str? && (v.s != "" || |values| != 1 || values[0] == "")
    case EnumListArg => v.Arr? && AllTexts(v.items)
    case SlugListArg => v.Arr? && AllTexts(v.items) && CleanItems(Texts(v.items))
  }

  lemma TextsAreStrings(items: seq<Json>)
    ensures Strings(Texts(items)) == items <==> AllTexts(items)
  {
    if AllTexts(items) {
      assert forall i :: 0 <= i < |items| ==> Strings(Texts(items))[i] == items[i];
    } else {
      var i :| 0 <= i < |items| && !items[i].Str?;
      assert Strings(Texts(items))[i].Str?;
    }
  }

  lemma StoredSlugs(items: seq<Json>)
    ensures Strings(ListArgument(Some(TextInput(Join(Texts(items), ", "))))) == items
            <==> AllTexts(items) && CleanItems(Texts(items))
  {
    var list := ListArgument(Some(TextInput(Join(Texts(items), ", "))));
    ListRoundTrip(Texts(items));
    TextsAreStrings(items);
    TextsOfStrings(list);
  }

  lemma StoredArgument(spec: ArgSpec, v: Option<Json>)
    ensures v == Some(ArgumentJson(spec, Some(ArgumentInput(spec, v)))) <==> v.Some? && PrintedArgument(spec, v.value)
  {
    match spec
    case IntegerArg => StoredNumber(v);
    case EnumArg(values) =>
    case EnumListArg => if v.Some? && v.value.Arr? { TextsAreStrings(v.value.items); }
    case SlugListArg => if v.Some? && v.value.Arr? { StoredSlugs(v.value.items); }
  }

  function ArgumentNames(entries: seq<ArgEntry>): set<string> {
    set i | 0 <= i < |entries| :: entries[i].name
  }

  predicate PrintedArguments(entries: seq<ArgEntry>, e: Json) {
    forall i :: 0 <= i < |entries| ==>
      Field(e, entries[i].name).Some? && PrintedArgument(entries[i].spec, Field(e, entries[i].name).value)
  }

  /** A condition as the form prints it: a type it knows, exactly that type's arguments, each as printed. */
  predicate PrintedCondition(cat: Catalog, e: Json) {
    var entries := ArgumentSpecsOf(cat, KindOf(cat, e));
    && e.Obj? && e.fields.Keys == {"type"} + ArgumentNames(entries)
    && Field(e, "type") == Some(Str(KindOf(cat, e)))
    && PrintedArguments(entries, e)
  }

  lemma RowArguments(entries: seq<ArgEntry>, e: Json, row: Row)
    requires DistinctNames(entries) && row.args == InputFields(entries, e)
    ensures ArgumentFields(entries, row).Keys == ArgumentNames(entries)
    ensures forall i :: 0 <= i < |entries| ==>
              ArgumentFields(entries, row)[entries[i].name]
              == ArgumentJson(entries[i].spec, Some(ArgumentInput(entries[i].spec, Field(e, entries[i].name))))
  {
    InputFieldsAt(entries, e);
    ArgumentFieldsAt(entries, row);
  }

  lemma StoredArguments(entries: seq<ArgEntry>, e: Json, row: Row)
    requires DistinctNames(entries) && row.args == InputFields(entries, e)
    ensures var fields := ArgumentFields(entries, row);
            (forall k :: k in fields ==> Field(e, k) == Some(fields[k])) <==> PrintedArguments(entries, e)
  {
    var fields := ArgumentFields(entries, row);
    RowArguments(entries, e, row);
    forall i | 0 <= i < |entries|
      ensures entries[i].name in fields
      ensures Field(e, entries[i].name) == Some(fields[entries[i].name])
              <==> Field(e, entries[i].name).Some? && PrintedArgument(entries[i].spec, Field(e, entries[i].name).value)
    {
      assert entries[i].name in ArgumentNames(entries);
      StoredArgument(entries[i].spec, Field(e, entries[i].name));
    }
  }

  /** A stored condition, read and printed again, is itself exactly when it is as printed. */
  lemma StoredCondition(cat: Catalog, e: Json, group: Group)
    requires CatalogOk(cat)
    ensures Condition(cat, RowOf(cat, e, group)) == e <==> PrintedCondition(cat, e)
  {
    var row := RowOf(cat, e, group);
    var entries := ArgumentSpecsOf(cat, row.kind);
    RowArguments(entries, e, row);
    StoredArguments(entries, e, row);
    ConditionFields(row.kind, ArgumentFields(entries, row), e);
  }

  lemma ConditionFields(kind: string, fields: map<string, Json>, e: Json)
    requires "type" !in fields
    ensures e == Obj(map["type" := Str(kind)] + fields)
            <==> && e.Obj? && e.fields.Keys == {"type"} + fields.Keys
                 && Field(e, "type") == Some(Str(kind)) && forall k :: k in fields ==> Field(e, k) == Some(fields[k])
  {
    ObjectsAgree(e, map["type" := Str(kind)] + fields);
  }

  // ---- the stored root list ----

  predicate PrintedConditions(cat: Catalog, entries: seq<Json>) {
    forall i :: 0 <= i < |entries| ==> PrintedCondition(cat, entries[i])
  }

  predicate NoGroup(entries: seq<Json>) {
    forall i :: 0 <= i < |entries| ==> !IsGroup(entries[i])
  }

  /** The place of the first group, or the number of entries when there is none. */
  function FirstGroup(entries: seq<Json>): (k: nat)
    ensures k <= |entries| && NoGroup(entries[..k])
    ensures k < |entries| ==> IsGroup(entries[k])
    decreases |entries|
  {
    if entries == [] || IsGroup(entries[0]) then 0
    else
      var k := FirstGroup(entries[1..]);
      assert forall i :: 0 <= i < k ==> entries[1..][..k][i] == entries[i + 1];
      1 + k
  }

  /** A group as the form prints it: nothing but its alternatives, of which there is at least one. */
  predicate PrintedGroup(cat: Catalog, e: Json) {
    IsGroup(e) && e == Obj(map["any" := Arr(GroupItems(e))]) && GroupItems(e) != [] && PrintedConditions(cat, GroupItems(e))
  }

  /** A root list as the form prints it: conditions, and at most one group among them. */
  predicate PrintedRoot(cat: Catalog, entries: seq<Json>) {
    var k := FirstGroup(entries);
    && PrintedConditions(cat, entries[..k])
    && (k < |entries| ==> PrintedGroup(cat, entries[k]) && PrintedConditions(cat, entries[k + 1..]))
  }

  lemma PrintedIsNoGroup(cat: Catalog, entries: seq<Json>)
    requires CatalogOk(cat) && PrintedConditions(cat, entries)
    ensures NoGroup(entries)
  {
    forall i | 0 <= i < |entries|
      ensures !IsGroup(entries[i])
    {
      StoredCondition(cat, entries[i], All);
      ConditionHead(cat, RowOf(cat, entries[i], All));
    }
  }

  lemma StoredConditions(cat: Catalog, entries: seq<Json>, group: Group)
    requires CatalogOk(cat)
    ensures Conditions(cat, RowsOfGroup(cat, entries, group)) == entries <==> PrintedConditions(cat, entries)
  {
    var again := Conditions(cat, RowsOfGroup(cat, entries, group));
    forall i | 0 <= i < |entries|
      ensures again[i] == entries[i] <==> PrintedCondition(cat, entries[i])
    {
      StoredCondition(cat, entries[i], group);
    }
  }

  lemma {:induction false} RowsWithoutGroup(cat: Catalog, entries: seq<Json>)
    requires NoGroup(entries)
    ensures RowsOf(cat, entries) == RowsOfGroup(cat, entries, All)
    decreases |entries|
  {
    if entries != [] {
      var n := |entries| - 1;
      RowsWithoutGroup(cat, entries[..n]);
      assert !IsGroup(entries[n]);
      assert RowsOfGroup(cat, entries, All) == RowsOfGroup(cat, entries[..n], All) + [RowOf(cat, entries[n], All)];
    }
  }

  /** A root list with one group reads as the rows before it, its alternatives, and the rows after it. */
  lemma RowsWithGroup(cat: Catalog, before: seq<Json>, group: Json, after: seq<Json>)
    requires NoGroup(before) && IsGroup(group) && NoGroup(after)
    ensures RowsOf(cat, before + [group] + after)
            == RowsOfGroup(cat, before, All) + RowsOfGroup(cat, GroupItems(group), Any) + RowsOfGroup(cat, after, All)
  {
    RowsOfAppend(cat, before + [group], after);
    RowsOfSnoc(cat, before, group);
    RowsWithoutGroup(cat, before);
    RowsWithoutGroup(cat, after);
  }

  predicate AllOf(rows: seq<Row>, group: Group) {
    forall i :: 0 <= i < |rows| ==> rows[i].group == group
  }

  lemma PartsFirstAny(before: seq<Row>, anys: seq<Row>, after: seq<Row>)
    requires anys != [] && AllOf(before, All) && AllOf(anys, Any)
    ensures FirstAny(before + anys + after) == |before|
  {
    assert (before + anys + after)[|before|] == anys[0];
    FirstAnyIs(before + anys + after, |before|);
  }

  lemma PartsAnyGroup(cat: Catalog, before: seq<Row>, anys: seq<Row>, after: seq<Row>)
    requires AllOf(before, All) && AllOf(anys, Any) && AllOf(after, All)
    ensures AnyGroup(cat, before + anys + after) == Obj(map["any" := Arr(Conditions(cat, anys))])
  {
    OnlyOfThree(before, anys, after, Any);
    OnlyOfGroup(before, All);
    OnlyOfGroup(anys, Any);
    OnlyOfGroup(after, All);
    assert [] + anys + [] == anys;
  }

  lemma PartsAfter(anys: seq<Row>, after: seq<Row>)
    requires AllOf(anys, Any) && AllOf(after, All)
    ensures Only(anys + after, All) == after
  {
    OnlyAppend(anys, after, All);
    OnlyOfGroup(anys, Any);
    OnlyOfGroup(after, All);
    assert [] + after == after;
  }

  /** Rows before, alternatives and rows after are printed in just these three parts. */
  lemma RootInParts(cat: Catalog, before: seq<Row>, anys: seq<Row>, after: seq<Row>, group: Json)
    requires anys != [] && AllOf(before, All) && AllOf(anys, Any) && AllOf(after, All)
    ensures RootList(cat, before + anys + after, group) == Conditions(cat, before) + [group] + Conditions(cat, after)
  {
    var rows := before + anys + after;
    PartsFirstAny(before, anys, after);
    PartsAfter(anys, after);
    assert rows[..|before|] == before && rows[|before|..] == anys + after;
  }

  lemma {:induction false} RootWithoutAny(cat: Catalog, rows: seq<Row>, group: Json)
    requires forall i :: 0 <= i < |rows| ==> rows[i].group == All
    ensures FirstAny(rows) == |rows| && RootList(cat, rows, group) == Conditions(cat, rows)
  {
    assert FirstAny(rows) == |rows|;
    assert rows[..|rows|] == rows && rows[|rows|..] == [];
    assert Conditions(cat, []) == [];
  }

  function RootAgain(cat: Catalog, entries: seq<Json>): seq<Json> {
    RootList(cat, RowsOf(cat, entries), AnyGroup(cat, RowsOf(cat, entries)))
  }

  lemma OneGroupAgain(cat: Catalog, before: seq<Json>, group: Json, after: seq<Json>)
    requires CatalogOk(cat) && NoGroup(before) && IsGroup(group) && NoGroup(after) && GroupItems(group) != []
    ensures RootAgain(cat, before + [group] + after) == before + [group] + after
            <==> PrintedConditions(cat, before) && PrintedGroup(cat, group) && PrintedConditions(cat, after)
  {
    var items := GroupItems(group);
    var anyRows := RowsOfGroup(cat, items, Any);
    var again := Obj(map["any" := Arr(Conditions(cat, anyRows))]);
    RowsWithGroup(cat, before, group, after);
    PartsAnyGroup(cat, RowsOfGroup(cat, before, All), anyRows, RowsOfGroup(cat, after, All));
    RootInParts(cat, RowsOfGroup(cat, before, All), anyRows, RowsOfGroup(cat, after, All), again);
    StoredConditions(cat, before, All);
    StoredConditions(cat, items, Any);
    StoredConditions(cat, after, All);
    ConcatenationsAgree(Conditions(cat, RowsOfGroup(cat, before, All)), [again], Conditions(cat, RowsOfGroup(cat, after, All)),
                        before, [group], after);
    AnyGroupsAgree(Conditions(cat, anyRows), items);
    if again == group { assert Field(again, "any") == Some(Arr(Conditions(cat, anyRows))); }
  }

  lemma NoGroupAgain(cat: Catalog, entries: seq<Json>)
    requires CatalogOk(cat) && NoGroup(entries)
    ensures RootAgain(cat, entries) == entries <==> PrintedConditions(cat, entries)
  {
    RowsWithoutGroup(cat, entries);
    RootWithoutAny(cat, RowsOf(cat, entries), AnyGroup(cat, RowsOf(cat, entries)));
    StoredConditions(cat, entries, All);
  }

  /** What is printed holds at most one group, at the place of the first "any" row, and it is not empty. */
  lemma PrintedRootShape(cat: Catalog, rows: seq<Row>)
    requires CatalogOk(cat)
    ensures var all, k := RootList(cat, rows, AnyGroup(cat, rows)), FirstAny(rows);
            && k <= |all| && NoGroup(all[..k])
            && (k < |rows| ==> k < |all| && IsGroup(all[k]) && GroupItems(all[k]) != [] && NoGroup(all[k + 1..]))
            && (k == |rows| ==> all[..k] == all)
  {
    var k := FirstAny(rows);
    ConditionsAreNoGroup(cat, rows[..k]);
    ConditionsAreNoGroup(cat, Only(rows[k..], All));
    if k < |rows| {
      OnlyKeeps(rows, k);
      assert RootList(cat, rows, AnyGroup(cat, rows))[k + 1..] == Conditions(cat, Only(rows[k..], All));
    } else {
      assert rows[k..] == [];
    }
  }

  lemma ConditionsAreNoGroup(cat: Catalog, rows: seq<Row>)
    requires CatalogOk(cat)
    ensures NoGroup(Conditions(cat, rows))
  {
    forall i | 0 <= i < |rows|
      ensures !IsGroup(Conditions(cat, rows)[i])
    {
      ConditionHead(cat, rows[i]);
    }
  }

  lemma {:induction false} FirstGroupIs(entries: seq<Json>, k: nat)
    requires k <= |entries| && NoGroup(entries[..k]) && (k < |entries| ==> IsGroup(entries[k]))
    ensures FirstGroup(entries) == k
    decreases |entries|
  {
    if k > 0 {
      assert !IsGroup(entries[..k][0]);
      assert entries[1..][..k - 1] == entries[..k][1..];
      FirstGroupIs(entries[1..], k - 1);
    }
  }

  /** The first group is the only one, and it is not empty. */
  predicate OneGroup(entries: seq<Json>) {
    var k := FirstGroup(entries);
    k < |entries| ==> GroupItems(entries[k]) != [] && NoGroup(entries[k + 1..])
  }

  lemma PrintedHasOneGroup(cat: Catalog, entries: seq<Json>)
    requires CatalogOk(cat) && PrintedRoot(cat, entries)
    ensures OneGroup(entries)
  {
    if FirstGroup(entries) < |entries| { PrintedIsNoGroup(cat, entries[FirstGroup(entries) + 1..]); }
  }

  lemma AgainHasOneGroup(cat: Catalog, entries: seq<Json>, rows: seq<Row>)
    requires CatalogOk(cat) && RootList(cat, rows, AnyGroup(cat, rows)) == entries
    ensures OneGroup(entries)
  {
    PrintedRootShape(cat, rows);
    FirstGroupIs(entries, FirstAny(rows));
  }

  lemma {:induction false} StoredRootWithGroup(cat: Catalog, entries: seq<Json>)
    requires CatalogOk(cat) && FirstGroup(entries) < |entries| && OneGroup(entries)
    ensures RootAgain(cat, entries) == entries <==> PrintedRoot(cat, entries)
  {
    var k := FirstGroup(entries);
    assert entries == entries[..k] + [entries[k]] + entries[k + 1..];
    OneGroupAgain(cat, entries[..k], entries[k], entries[k + 1..]);
  }

  lemma StoredRootWithoutGroup(cat: Catalog, entries: seq<Json>)
    requires CatalogOk(cat) && FirstGroup(entries) == |entries|
    ensures RootAgain(cat, entries) == entries <==> PrintedRoot(cat, entries)
  {
    assert entries[..|entries|] == entries;
    NoGroupAgain(cat, entries);
  }

  /** A stored root list, read and printed again, is itself exactly when it is as printed. */
  lemma StoredRoot(cat: Catalog, entries: seq<Json>)
    requires CatalogOk(cat)
    ensures RootAgain(cat, entries) == entries <==> PrintedRoot(cat, entries)
  {
    if FirstGroup(entries) == |entries| {
      StoredRootWithoutGroup(cat, entries);
    } else {
      if RootAgain(cat, entries) == entries { AgainHasOneGroup(cat, entries, RowsOf(cat, entries)); }
      if PrintedRoot(cat, entries) { PrintedHasOneGroup(cat, entries); }
      if OneGroup(entries) { StoredRootWithGroup(cat, entries); }
    }
  }

  // ---- the stored definition ----

  /** An object with exactly the given names. */
  predicate HasExactly(v: Option<Json>, names: set<string>) {
    v.Some? && v.value.Obj? && v.value.fields.Keys == names
  }

  predicate NumberAt(v: Option<Json>, name: string) {
    FieldOf(v, name).Some? && PrintedNumber(FieldOf(v, name).value)
  }

  predicate InstantAt(v: Option<Json>, name: string) {
    FieldOf(v, name).Some? && PrintedInstant(FieldOf(v, name).value)
  }

  predicate PrintedPolicy(cat: Catalog, policy: Option<Json>) {
    && HasExactly(policy, {"spendPriority", "adminDeductPolicy"})
    && PrintedChoice(FieldOf(policy, "spendPriority"), cat.spendPriorities, cat.defaultSpendPriority)
    && PrintedChoice(FieldOf(policy, "adminDeductPolicy"), cat.adminDeductPolicies, cat.defaultAdminDeductPolicy)
  }

  predicate PrintedBenefit(cat: Catalog, benefit: Option<Json>) {
    var credit := BenefitProducesCredit(cat, cat.benefitType);
    && HasExactly(benefit, {"type", "credits", "expiresInDays"} + if credit then {"creditPolicy"} else {})
    && FieldOf(benefit, "type") == Some(Str(cat.benefitType))
    && NumberAt(benefit, "credits") && NumberAt(benefit, "expiresInDays")
    && (credit ==> PrintedPolicy(cat, FieldOf(benefit, "creditPolicy")))
  }

  predicate PrintedLimits(limits: Option<Json>) {
    && HasExactly(limits, {"maxRedemptionsPerProvider", "maxRedemptionsGlobal", "maxRedemptionsPerDay", "budgetCredits", "maxRevokesPerDay"})
    && NumberAt(limits, "maxRedemptionsPerProvider") && NumberAt(limits, "maxRedemptionsGlobal")
    && NumberAt(limits, "maxRedemptionsPerDay") && NumberAt(limits, "budgetCredits") && NumberAt(limits, "maxRevokesPerDay")
  }

  predicate PrintedWindow(window: Option<Json>) {
    HasExactly(window, {"startAt", "endAt"}) && InstantAt(window, "startAt") && InstantAt(window, "endAt")
  }

  /** The facts are a list of ones the catalogue has. */
  predicate PrintedEligibility(cat: Catalog, eligibility: Option<Json>) {
    && HasExactly(eligibility, {"facts"})
    && var facts := FieldOf(eligibility, "facts");
    && facts.Some? && facts.value.Arr?
    && forall i :: 0 <= i < |facts.value.items| ==> HasText(facts.value.items[i]) && TextOf(facts.value.items[i]) in cat.facts
  }

  predicate PrintedConditionSection(cat: Catalog, conditions: Option<Json>) {
    && HasExactly(conditions, {"all"})
    && var all := FieldOf(conditions, "all");
    && all.Some? && all.value.Arr? && PrintedRoot(cat, all.value.items)
  }

  const HEADS := {"schemaVersion", "trigger", "conditions", "benefit", "limits", "window", "stackPolicy", "priority", "channel"}

  /** The sections every definition has, as the form prints them. */
  predicate CommonPrinted(cat: Catalog, d: Json) {
    && PrintedChoice(Field(d, "trigger"), cat.triggers, EmptyForm(cat).trigger)
    && Field(d, "schemaVersion") == Some(Number(2))
    && PrintedConditionSection(cat, Field(d, "conditions"))
    && PrintedBenefit(cat, Field(d, "benefit"))
    && PrintedLimits(Field(d, "limits"))
    && PrintedWindow(Field(d, "window"))
    && Field(d, "stackPolicy") == Some(Str(cat.stackPolicy))
    && NumberAt(Some(d), "priority")
    && PrintedChoice(Field(d, "channel"), cat.channels, EmptyForm(cat).channel)
  }

  /** The names of a definition, with the facts exactly under the eligibility trigger. */
  predicate PrintedNames(cat: Catalog, d: Json) {
    var eligible := Field(d, "trigger") == Some(Str(cat.eligibilityTrigger));
    && HasExactly(Some(d), HEADS + if eligible then {"eligibility"} else {})
    && (eligible ==> PrintedEligibility(cat, Field(d, "eligibility")))
  }

  /** A definition as the form prints it: these sections and nothing else. */
  predicate PrintedDefinition(cat: Catalog, d: Json) {
    CommonPrinted(cat, d) && PrintedNames(cat, d)
  }

  lemma NumberAgainAt(v: Option<Json>, name: string)
    ensures FieldOf(v, name) == Some(NumberOrRaw(StringOf(FieldOf(v, name)))) <==> NumberAt(v, name)
  {
    StoredNumber(FieldOf(v, name));
  }

  lemma LimitsAre(form: Form, l: Option<Json>)
    ensures l == Some(LimitsJson(form))
            <==> && HasExactly(l, {"maxRedemptionsPerProvider", "maxRedemptionsGlobal", "maxRedemptionsPerDay", "budgetCredits", "maxRevokesPerDay"})
                 && PrintsLimits(form, l)
  {
    LimitsFields(form);
    if l.Some? { ObjectsAgree(l.value, LimitsJson(form).fields); }
  }

  lemma StoredLimits(form: Form, l: Option<Json>)
    requires form.maxRedemptionsPerProvider == StringOf(FieldOf(l, "maxRedemptionsPerProvider"))
    requires form.maxRedemptionsGlobal == StringOf(FieldOf(l, "maxRedemptionsGlobal"))
    requires form.maxRedemptionsPerDay == StringOf(FieldOf(l, "maxRedemptionsPerDay"))
    requires form.budgetCredits == StringOf(FieldOf(l, "budgetCredits"))
    requires form.maxRevokesPerDay == StringOf(FieldOf(l, "maxRevokesPerDay"))
    ensures l == Some(LimitsJson(form)) <==> PrintedLimits(l)
  {
    LimitsAre(form, l);
    NumberAgainAt(l, "maxRedemptionsPerProvider");
    NumberAgainAt(l, "maxRedemptionsGlobal");
    NumberAgainAt(l, "maxRedemptionsPerDay");
    NumberAgainAt(l, "budgetCredits");
    NumberAgainAt(l, "maxRevokesPerDay");
  }

  lemma StoredWindow(form: Form, w: Option<Json>)
    requires form.windowStartAt == InstantToLocalInput(FieldOf(w, "startAt"))
    requires form.windowEndAt == InstantToLocalInput(FieldOf(w, "endAt"))
    ensures w == Some(WindowJson(form)) <==> PrintedWindow(w)
  {
    StoredInstant(FieldOf(w, "startAt"));
    StoredInstant(FieldOf(w, "endAt"));
    if w.Some? { ObjectsAgree(w.value, WindowJson(form).fields); }
  }

  lemma StoredPolicy(cat: Catalog, form: Form, policy: Option<Json>)
    requires form.spendPriority == Listed(FieldOf(policy, "spendPriority"), cat.spendPriorities, cat.defaultSpendPriority)
    requires form.adminDeductPolicy
             == Listed(FieldOf(policy, "adminDeductPolicy"), cat.adminDeductPolicies, cat.defaultAdminDeductPolicy)
    ensures policy == Some(PolicyJson(form)) <==> PrintedPolicy(cat, policy)
  {
    StoredChoice(FieldOf(policy, "spendPriority"), cat.spendPriorities, cat.defaultSpendPriority);
    StoredChoice(FieldOf(policy, "adminDeductPolicy"), cat.adminDeductPolicies, cat.defaultAdminDeductPolicy);
    if policy.Some? { ObjectsAgree(policy.value, PolicyJson(form).fields); }
  }

  lemma BenefitIs(cat: Catalog, form: Form, b: Option<Json>)
    ensures var credit := BenefitProducesCredit(cat, cat.benefitType);
            b == Some(BenefitJson(cat, form))
            <==> && HasExactly(b, {"type", "credits", "expiresInDays"} + if credit then {"creditPolicy"} else {})
                 && FieldOf(b, "type") == Some(Str(cat.benefitType))
                 && FieldOf(b, "credits") == Some(NumberOrRaw(form.credits))
                 && FieldOf(b, "expiresInDays") == Some(NumberOrRaw(form.expiresInDays))
                 && (credit ==> FieldOf(b, "creditPolicy") == Some(PolicyJson(form)))
  {
    if b.Some? { ObjectsAgree(b.value, BenefitJson(cat, form).fields); }
  }

  lemma StoredBenefit(cat: Catalog, form: Form, b: Option<Json>)
    requires form.credits == StringOf(FieldOf(b, "credits")) && form.expiresInDays == StringOf(FieldOf(b, "expiresInDays"))
    requires var policy := FieldOf(b, "creditPolicy");
             && form.spendPriority == Listed(FieldOf(policy, "spendPriority"), cat.spendPriorities, cat.defaultSpendPriority)
             && form.adminDeductPolicy
                == Listed(FieldOf(policy, "adminDeductPolicy"), cat.adminDeductPolicies, cat.defaultAdminDeductPolicy)
    ensures b == Some(BenefitJson(cat, form)) <==> PrintedBenefit(cat, b)
  {
    BenefitIs(cat, form, b);
    NumberAgainAt(b, "credits");
    NumberAgainAt(b, "expiresInDays");
    StoredPolicy(cat, form, FieldOf(b, "creditPolicy"));
  }

  lemma {:induction false} StoredFactList(cat: Catalog, facts: seq<Json>)
    ensures |KnownFacts(cat, facts)| <= |facts|
    ensures KnownFacts(cat, facts) == facts <==> forall i :: 0 <= i < |facts| ==> TextOf(facts[i]) in cat.facts
    decreases |facts|
  {
    if facts != [] {
      var n := |facts| - 1;
      StoredFactList(cat, facts[..n]);
      assert facts == facts[..n] + [facts[n]];
      assert (forall i :: 0 <= i < |facts| ==> TextOf(facts[i]) in cat.facts)
             <==> (forall i :: 0 <= i < n ==> TextOf(facts[..n][i]) in cat.facts) && TextOf(facts[n]) in cat.facts;
    }
  }

  /** A section that holds nothing but a list. */
  lemma ListSectionIs(v: Option<Json>, name: string, items: seq<Json>)
    ensures v == Some(Obj(map[name := Arr(items)])) <==> HasExactly(v, {name}) && FieldOf(v, name) == Some(Arr(items))
  {
    if v.Some? { ObjectsAgree(v.value, map[name := Arr(items)]); }
  }

  lemma StoredEligibility(cat: Catalog, e: Option<Json>)
    requires AllHaveText(ArrayAt(FieldOf(e, "facts")))
    ensures e == Some(Obj(map["facts" := Arr(KnownFacts(cat, ArrayAt(FieldOf(e, "facts"))))])) <==> PrintedEligibility(cat, e)
  {
    var facts := ArrayAt(FieldOf(e, "facts"));
    StoredFactList(cat, facts);
    ListSectionIs(e, "facts", KnownFacts(cat, facts));
  }

  lemma StoredConditionSection(cat: Catalog, c: Option<Json>)
    requires CatalogOk(cat)
    ensures c == Some(Obj(map["all" := Arr(RootAgain(cat, ArrayAt(FieldOf(c, "all"))))])) <==> PrintedConditionSection(cat, c)
  {
    var all := ArrayAt(FieldOf(c, "all"));
    StoredRoot(cat, all);
    ListSectionIs(c, "all", RootAgain(cat, all));
  }

  /** The sections every definition has are those a form prints. */
  ghost predicate CommonSections(cat: Catalog, form: Form, all: seq<Json>, d: Json) {
    && Field(d, "trigger") == Some(Str(form.trigger))
    && Field(d, "schemaVersion") == Some(Number(2))
    && Field(d, "conditions") == Some(Obj(map["all" := Arr(all)]))
    && Field(d, "benefit") == Some(BenefitJson(cat, form))
    && Field(d, "limits") == Some(LimitsJson(form))
    && Field(d, "window") == Some(WindowJson(form))
    && Field(d, "stackPolicy") == Some(Str(cat.stackPolicy))
    && Field(d, "priority") == Some(NumberOrRaw(form.priority))
    && Field(d, "channel") == Some(Str(form.channel))
  }

  /** Its names are those a form prints, with the form's facts under the eligibility trigger. */
  ghost predicate NamesOf(cat: Catalog, form: Form, d: Json) {
    var eligible := form.trigger == cat.eligibilityTrigger;
    && HasExactly(Some(d), HEADS + if eligible then {"eligibility"} else {})
    && (eligible ==> Field(d, "eligibility") == Some(Obj(map["facts" := Arr(form.facts)])))
  }

  lemma DraftConstants(cat: Catalog, form: Form, all: seq<Json>)
    ensures Field(Draft(cat, form, all), "schemaVersion") == Some(Number(2))
    ensures Field(Draft(cat, form, all), "stackPolicy") == Some(Str(cat.stackPolicy))
  {
  }

  lemma SectionsTogether(cat: Catalog, form: Form, all: seq<Json>, d: Json)
    requires PrintsHeads(cat, form, all, d)
    requires Field(d, "schemaVersion") == Some(Number(2)) && Field(d, "stackPolicy") == Some(Str(cat.stackPolicy))
    requires Field(d, "benefit") == Some(BenefitJson(cat, form))
    requires Field(d, "limits") == Some(LimitsJson(form)) && Field(d, "window") == Some(WindowJson(form))
    ensures CommonSections(cat, form, all, d)
  {
  }

  lemma DraftHasSections(cat: Catalog, form: Form, all: seq<Json>, d: Json)
    requires d == Draft(cat, form, all)
    ensures CommonSections(cat, form, all, d)
  {
    DraftHeads(cat, form, all);
    DraftConstants(cat, form, all);
    DraftSections(cat, form, all);
    SectionsTogether(cat, form, all, d);
  }

  lemma DraftHasNames(cat: Catalog, form: Form, all: seq<Json>)
    ensures NamesOf(cat, form, Draft(cat, form, all))
  {
  }

  lemma SameSectionsSameDraft(cat: Catalog, form: Form, all: seq<Json>, d: Json, e: Json)
    requires CommonSections(cat, form, all, d) && CommonSections(cat, form, all, e)
    requires NamesOf(cat, form, d) && NamesOf(cat, form, e)
    ensures d == e
  {
    forall k | k in d.fields
      ensures Field(d, k) == Field(e, k)
    {
      assert k in HEADS || k == "eligibility";
    }
    assert forall k :: k in d.fields ==> d.fields[k] == e.fields[k] by {
      forall k | k in d.fields ensures d.fields[k] == e.fields[k] { assert Field(d, k) == Field(e, k); }
    }
    assert d.fields == e.fields;
  }

  /** A definition is a draft exactly when it has the draft's names and sections. */
  lemma DraftIs(cat: Catalog, form: Form, all: seq<Json>, d: Json)
    ensures d == Draft(cat, form, all) <==> CommonSections(cat, form, all, d) && NamesOf(cat, form, d)
  {
    DraftHasSections(cat, form, all, Draft(cat, form, all));
    DraftHasNames(cat, form, all);
    if CommonSections(cat, form, all, d) && NamesOf(cat, form, d) {
      SameSectionsSameDraft(cat, form, all, d, Draft(cat, form, all));
    }
  }

  /** Section by section, what is printed again is what was stored exactly when it was as printed. */
  lemma SectionsAgain(cat: Catalog, d: Json)
    requires CatalogOk(cat) && Readable(cat, d)
    ensures var form := Parsed(cat, d);
            && (Field(d, "trigger") == Some(Str(form.trigger)) <==> PrintedChoice(Field(d, "trigger"), cat.triggers, EmptyForm(cat).trigger))
            && (Field(d, "channel") == Some(Str(form.channel)) <==> PrintedChoice(Field(d, "channel"), cat.channels, EmptyForm(cat).channel))
            && (Field(d, "priority") == Some(NumberOrRaw(form.priority)) <==> NumberAt(Some(d), "priority"))
            && (Field(d, "benefit") == Some(BenefitJson(cat, form)) <==> PrintedBenefit(cat, Field(d, "benefit")))
            && (Field(d, "limits") == Some(LimitsJson(form)) <==> PrintedLimits(Field(d, "limits")))
            && (Field(d, "window") == Some(WindowJson(form)) <==> PrintedWindow(Field(d, "window")))
            && (Field(d, "eligibility") == Some(Obj(map["facts" := Arr(form.facts)])) <==> PrintedEligibility(cat, Field(d, "eligibility")))
            && (Field(d, "conditions") == Some(Obj(map["all" := Arr(RootAgain(cat, RootEntries(d)))]))
                <==> PrintedConditionSection(cat, Field(d, "conditions")))
  {
    var form := Parsed(cat, d);
    StoredChoice(Field(d, "trigger"), cat.triggers, EmptyForm(cat).trigger);
    StoredChoice(Field(d, "channel"), cat.channels, EmptyForm(cat).channel);
    StoredNumber(Field(d, "priority"));
    StoredBenefit(cat, form, Field(d, "benefit"));
    StoredLimits(form, Field(d, "limits"));
    StoredWindow(form, Field(d, "window"));
    StoredEligibility(cat, Field(d, "eligibility"));
    StoredConditionSection(cat, Field(d, "conditions"));
  }

  lemma CommonAgain(cat: Catalog, d: Json)
    requires CatalogOk(cat) && Readable(cat, d)
    ensures CommonSections(cat, Parsed(cat, d), RootAgain(cat, RootEntries(d)), d) <==> CommonPrinted(cat, d)
  {
    SectionsAgain(cat, d);
  }

  lemma NamesAgain(cat: Catalog, d: Json)
    requires CatalogOk(cat) && Readable(cat, d) && Field(d, "trigger") == Some(Str(Parsed(cat, d).trigger))
    ensures NamesOf(cat, Parsed(cat, d), d) <==> PrintedNames(cat, d)
  {
    StoredEligibility(cat, Field(d, "eligibility"));
  }

  lemma ReadableSurvives(cat: Catalog, d: Json)
    requires CatalogOk(cat) && Readable(cat, d)
    ensures Definition(cat, Parsed(cat, d)) == d <==> PrintedDefinition(cat, d)
  {
    var form, all := Parsed(cat, d), RootAgain(cat, RootEntries(d));
    assert Definition(cat, form) == Draft(cat, form, all);
    DraftIs(cat, form, all, d);
    CommonAgain(cat, d);
    if CommonPrinted(cat, d) { NamesAgain(cat, d); }
  }

  // ---- what is as printed can be read ----

  lemma PrintedArgumentReads(spec: ArgSpec, v: Json)
    requires PrintedArgument(spec, v)
    ensures HasText(v)
  {
    if v.Arr? { assert forall i :: 0 <= i < |v.items| ==> v.items[i].Str? && HasText(v.items[i]); }
  }

  lemma PrintedConditionReads(cat: Catalog, e: Json)
    requires PrintedCondition(cat, e)
    ensures ConditionReads(cat, e)
  {
    var entries := ArgumentSpecsOf(cat, KindOf(cat, e));
    forall i | 0 <= i < |entries|
      ensures ArgumentReads(entries[i].spec, Field(e, entries[i].name))
    {
      PrintedArgumentReads(entries[i].spec, Field(e, entries[i].name).value);
    }
  }

  lemma PrintedConditionsRead(cat: Catalog, entries: seq<Json>)
    requires PrintedConditions(cat, entries)
    ensures ConditionsRead(cat, entries)
  {
    forall i | 0 <= i < |entries|
      ensures ConditionReads(cat, entries[i])
    {
      PrintedConditionReads(cat, entries[i]);
    }
  }

  /** Conditions that are no groups are read one by one. */
  lemma SinglesRead(cat: Catalog, entries: seq<Json>)
    requires CatalogOk(cat) && PrintedConditions(cat, entries)
    ensures EntriesRead(cat, entries)
  {
    PrintedIsNoGroup(cat, entries);
    PrintedConditionsRead(cat, entries);
  }

  lemma PrintedRootReads(cat: Catalog, entries: seq<Json>)
    requires CatalogOk(cat) && PrintedRoot(cat, entries)
    ensures EntriesRead(cat, entries)
  {
    var k := FirstGroup(entries);
    SinglesRead(cat, entries[..k]);
    if k < |entries| {
      PrintedConditionsRead(cat, GroupItems(entries[k]));
      SinglesRead(cat, entries[k + 1..]);
    }
    forall i | 0 <= i < |entries|
      ensures EntryReads(cat, entries[i])
    {
      if i < k {
        assert entries[i] == entries[..k][i];
      } else if i > k {
        assert entries[i] == entries[k + 1..][i - k - 1];
      }
    }
  }

  lemma PrintedIsReadable(cat: Catalog, d: Json)
    requires CatalogOk(cat) && PrintedDefinition(cat, d)
    ensures Readable(cat, d)
  {
    PrintedRootReads(cat, RootEntries(d));
  }

  /**
   Exactly which stored definitions survive being opened for a new revision: reading one throws nothing
   and printing the form gives it back if and only if it is as the form prints it - every section there
   and nothing else, the choices on offer, numbers below 10^21, instants to the minute, at most one
   group of alternatives, and each condition with just the arguments of its type.
   */
  lemma StoredSurvivesExactly(cat: Catalog, d: Json)
    requires CatalogOk(cat)
    ensures Readable(cat, d) && Definition(cat, Parsed(cat, d)) == d <==> PrintedDefinition(cat, d)
  {
    if PrintedDefinition(cat, d) { PrintedIsReadable(cat, d); }
    if Readable(cat, d) { ReadableSurvives(cat, d); }
  }

  /** An instant stored with seconds or an offset is cut to its minute by opening it. */
  lemma InstantIsCut(cat: Catalog, d: Json, minute: string, rest: string)
    requires IsMinute(minute) && rest != ":00Z"
    requires FieldOf(Field(d, "window"), "startAt") == Some(Str(minute + rest))
    ensures FieldOf(Field(Definition(cat, Parsed(cat, d)), "window"), "startAt") == Some(Str(minute + ":00Z"))
    ensures Definition(cat, Parsed(cat, d)) != d
  {
    var form := Parsed(cat, d);
    assert (minute + rest)[..16] == minute && (minute + rest)[16..] == rest;
    assert (minute + ":00Z")[16..] == ":00Z";
    MinuteIsTrimmed(minute);
    DraftSections(cat, form, RootAgain(cat, RootEntries(d)));
  }

  // ---- what is printed can be read ----

  lemma ArgumentIsReadable(spec: ArgSpec, raw: Option<ArgInput>)
    ensures HasText(ArgumentJson(spec, raw))
  {
  }

  lemma ConditionIsReadable(cat: Catalog, row: Row)
    requires CatalogOk(cat) && KnownKind(cat, row)
    ensures ConditionReads(cat, Condition(cat, row)) && !IsGroup(Condition(cat, row))
  {
    var entries := ArgumentSpecsOf(cat, row.kind);
    ConditionHead(cat, row);
    ArgumentFieldsAt(entries, row);
    forall i | 0 <= i < |entries|
      ensures ArgumentReads(entries[i].spec, Field(Condition(cat, row), entries[i].name))
    {
      ArgumentIsReadable(entries[i].spec, Raw(row, entries[i].name));
    }
  }

  lemma ConditionsAreReadable(cat: Catalog, rows: seq<Row>)
    requires CatalogOk(cat) && KnownKinds(cat, rows)
    ensures ConditionsRead(cat, Conditions(cat, rows)) && EntriesRead(cat, Conditions(cat, rows))
  {
    forall i | 0 <= i < |rows|
      ensures ConditionReads(cat, Conditions(cat, rows)[i]) && !IsGroup(Conditions(cat, rows)[i])
    {
      ConditionIsReadable(cat, rows[i]);
    }
  }

  lemma RootIsReadable(cat: Catalog, rows: seq<Row>)
    requires CatalogOk(cat) && KnownKinds(cat, rows)
    ensures EntriesRead(cat, RootList(cat, rows, AnyGroup(cat, rows)))
  {
    KnownSegments(cat, rows);
    ConditionsAreReadable(cat, rows[..FirstAny(rows)]);
    ConditionsAreReadable(cat, Only(rows, Any));
    ConditionsAreReadable(cat, Only(rows[FirstAny(rows)..], All));
    assert EntryReads(cat, AnyGroup(cat, rows));
  }

  lemma NumbersAreReadable(cat: Catalog, form: Form, all: seq<Json>)
    ensures NumbersRead(Draft(cat, form, all))
  {
    DraftHeads(cat, form, all);
    DraftSections(cat, form, all);
    BenefitFields(cat, form);
    LimitsFields(form);
  }

  /** No form prints a definition whose reading throws. */
  lemma DefinitionIsReadable(cat: Catalog, form: Form)
    requires CatalogOk(cat) && WellTyped(cat, form)
    ensures Readable(cat, Definition(cat, form))
  {
    var all := RootList(cat, form.conditions, AnyGroup(cat, form.conditions));
    DraftHeads(cat, form, all);
    NumbersAreReadable(cat, form, all);
    RootIsReadable(cat, form.conditions);
    assert RootEntries(Draft(cat, form, all)) == all;
  }

  /** The definition a form prints is of that shape exactly when the form is stable. */
  lemma StableFormsPrintIt(cat: Catalog, form: Form)
    requires CatalogOk(cat) && WellTyped(cat, form)
    ensures PrintedDefinition(cat, Definition(cat, form)) <==> Stable(cat, form)
  {
    DefinitionIsReadable(cat, form);
    ReadableSurvives(cat, Definition(cat, form));
    DefinitionRoundTrip(cat, form);
  }
}
