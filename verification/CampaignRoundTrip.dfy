/**
 Printing a form and reading it back (apps/admin/lib/campaign-rules.ts): which forms survive,
 exactly, and what happens to their condition rows.
 */
module CampaignRoundTrip {
  import opened JavaScriptNumbers
  import opened Options
  import opened Sequences
  import opened Text
  import opened JsonValues
  import opened CampaignRules

  // ---- numbers ----

  lemma IntegerIsTrimmed(t: string)
    requires IsIntegerText(t)
    ensures Trimmed(t) && Trim(t) == t
  {
    TrimIsTrimmed(t);
    assert |t| > 1 ==> t[|t| - 1] == t[1..][|t| - 2];
  }

  lemma DigitsRead(text: string)
    requires text != "" && AllDigits(text)
    ensures IsIntegerText(text) && IntegerOf(text) == Value(text)
  {
    assert IsDigit(text[0]);
  }

  lemma NegativeReads(text: string)
    requires text != "" && AllDigits(text)
    ensures IsIntegerText("-" + text) && IntegerOf("-" + text) == -(Value(text) as int)
  {
    assert ("-" + text)[1..] == text;
  }

  /** Below 10^21 a double is printed as a whole number that reads as that double. */
  lemma PlainNumberReads(n: int)
    requires Double(n) == n && Magnitude(n) < EXPONENT_FROM
    ensures IsIntegerText(NumberText(n)) && Double(IntegerOf(NumberText(n))) == n
  {
    var text := MagnitudeText(Magnitude(n));
    PrintedMagnitudeReads(Magnitude(n));
    SafeIsExact(0);
    if n < 0 { NegativeReads(text); } else { DigitsRead(text); }
  }

  /** A text with a character inside that is no digit, and no space at either end, stays a text. */
  lemma TextIsRaw(t: string, i: nat)
    requires 0 < i < |t| && !IsDigit(t[i]) && !IsSpace(t[0]) && !IsSpace(t[|t| - 1])
    ensures NumberOrRaw(t) == Str(t)
  {
    assert t[1..][i - 1] == t[i];
    TrimIsTrimmed(t);
  }

  /** From there on its text has an exponent, and no whole-number field reads it as a number. */
  lemma ExponentIsRaw(n: int)
    requires Magnitude(n) >= EXPONENT_FROM
    ensures NumberOrRaw(NumberText(n)) == Str(NumberText(n))
  {
    var m := Magnitude(n);
    var text := MagnitudeText(m);
    ExponentShows(Decimal(Shortest(m, |Decimal(m)|)));
    var i :| 0 < i < |text| && text[i] == 'e';
    SignedTextIsRaw(text, i, n < 0);
  }

  lemma SignedTextIsRaw(text: string, i: nat, negative: bool)
    requires 0 < i < |text| && text[i] == 'e' && IsDigit(text[0]) && IsDigit(text[|text| - 1])
    ensures NumberOrRaw(if negative then "-" + text else text) == Str(if negative then "-" + text else text)
  {
    if negative {
      var signed := "-" + text;
      assert signed[i + 1] == 'e' && signed[0] == '-' && signed[|signed| - 1] == text[|text| - 1];
      TextIsRaw(signed, i + 1);
    } else {
      TextIsRaw(text, i);
    }
  }

  lemma InfinityIsRaw(negative: bool)
    ensures NumberOrRaw(TextOf(Infinite(negative))) == Str(TextOf(Infinite(negative)))
  {
    var text := TextOf(Infinite(negative));
    assert text[if negative then 1 else 0] == 'I' && text[|text| - 1] == 'y' && !IsDigit(text[1]);
    TextIsRaw(text, 1);
  }

  /** Anything but a whole number whose double is 10^21 or more. */
  predicate StableNumber(value: string) {
    var t := Trim(value);
    IsIntegerText(t) ==> Magnitude(Double(IntegerOf(t))) < EXPONENT_FROM
  }

  /**
   A number field - empty, a number, or a text nobody could read as one - prints the same after being
   read back exactly when it is not a whole number from 10^21 on.
   */
  lemma NumberRoundTrip(value: string)
    ensures NumberOrRaw(StringOf(Some(NumberOrRaw(value)))) == NumberOrRaw(value) <==> StableNumber(value)
  {
    var t := Trim(value);
    TrimIsTrimmed(value);
    TrimIsTrimmed("");
    if t != "" && IsIntegerText(t) {
      WholeNumberRoundTrip(IntegerOf(t));
    }
  }

  lemma WholeNumberRoundTrip(v: int)
    ensures NumberOrRaw(StringOf(Some(NumberOf(v)))) == NumberOf(v) <==> Magnitude(Double(v)) < EXPONENT_FROM
  {
    var d := Double(v);
    SignedDoubleStays(v);
    if Magnitude(d) < EXPONENT_FROM {
      PlainNumberReads(d);
      IntegerIsTrimmed(NumberText(d));
    } else if Magnitude(d) < OVERFLOW {
      ExponentIsRaw(d);
    } else {
      InfinityIsRaw(d < 0);
    }
  }

  /** In the safe range a whole number typed is the number printed and the number shown again. */
  lemma SafeNumberIsStable(value: string)
    requires IsIntegerText(Trim(value)) && Magnitude(IntegerOf(Trim(value))) < PRECISION
    ensures NumberOrRaw(value) == Number(IntegerOf(Trim(value))) && StableNumber(value)
    ensures Magnitude(IntegerOf(Trim(value))) == IntegerOf(Trim(value)) ==>
              StringOf(Some(NumberOrRaw(value))) == Decimal(IntegerOf(Trim(value)))
  {
    var n := IntegerOf(Trim(value));
    SafeIsExact(Magnitude(n));
    SafeIsPrintedPlainly(Magnitude(n));
  }

  /** The first number that does not survive: 10^21 comes back as the text 1e+21. */
  lemma BigNumberChanges()
    ensures var typed := Decimal(EXPONENT_FROM);
            NumberOrRaw(StringOf(Some(NumberOrRaw(typed)))) != NumberOrRaw(typed)
  {
    var typed := Decimal(EXPONENT_FROM);
    ValueOfDecimal(EXPONENT_FROM);
    assert IsDigit(typed[0]);
    IntegerIsTrimmed(typed);
    assert Pow2(21) == 2097152 by { assert Pow2(7) == 128; assert Pow2(14) == 16384; }
    MantissaIsExact(476837158203125, 21);
    NumberRoundTrip(typed);
  }

  // ---- instants ----

  /** Anything but a text that starts with a minute and goes on with something else than ":00Z". */
  predicate StableInstant(value: string) {
    var t := Trim(value);
    |t| <= 16 || !IsMinute(t[..16]) || t == t[..16] + ":00Z"
  }

  lemma MinuteIsTrimmed(t: string)
    requires IsMinute(t)
    ensures Trim(t) == t
  {
    assert IsDigit(t[0]) && IsDigit(t[15]);
    TrimIsTrimmed(t);
  }

  lemma InstantRoundTrip(value: string)
    ensures InstantOrRaw(InstantToLocalInput(Some(InstantOrRaw(value)))) == InstantOrRaw(value)
            <==> StableInstant(value)
  {
    var t := Trim(value);
    TrimIsTrimmed(value);
    TrimIsTrimmed("");
    if t == "" {
    } else if IsMinute(t) {
      assert (t + ":00Z")[..16] == t;
    } else if |t| >= 16 && IsMinute(t[..16]) {
      MinuteIsTrimmed(t[..16]);
    }
  }

  // ---- lists ----

  predicate CleanItem(item: string) {
    item != "" && Trimmed(item) && Free(item, ',')
  }

  predicate CleanItems(items: seq<string>) {
    forall k :: 0 <= k < |items| ==> CleanItem(items[k])
  }

  lemma {:induction false} NonEmptyIsClean(pieces: seq<string>)
    requires forall k :: 0 <= k < |pieces| ==> Trimmed(pieces[k]) && Free(pieces[k], ',')
    ensures CleanItems(NonEmpty(pieces))
    decreases |pieces|
  {
    if pieces != [] {
      NonEmptyIsClean(pieces[1..]);
    }
  }

  lemma {:induction false} NonEmptyKeepsAll(items: seq<string>)
    requires forall k :: 0 <= k < |items| ==> items[k] != ""
    ensures NonEmpty(items) == items
    decreases |items|
  {
    if items != [] {
      NonEmptyKeepsAll(items[1..]);
    }
  }

  lemma {:induction false} TrimStartKeepsFree(s: string, c: char)
    requires Free(s, c)
    ensures Free(TrimStart(s), c)
  {
    if s != "" && IsSpace(s[0]) { TrimStartKeepsFree(s[1..], c); }
  }

  lemma {:induction false} TrimEndKeepsFree(s: string, c: char)
    requires Free(s, c)
    ensures Free(TrimEnd(s), c)
  {
    if s != "" && IsSpace(s[|s| - 1]) { TrimEndKeepsFree(s[..|s| - 1], c); }
  }

  lemma TypedListIsClean(text: string)
    ensures CleanItems(ListArgument(Some(TextInput(text))))
  {
    var pieces := Split(text, ',');
    forall k | 0 <= k < |pieces| ensures Trimmed(Trim(pieces[k])) && Free(Trim(pieces[k]), ',') {
      TrimIsTrimmed(pieces[k]);
      TrimStartKeepsFree(pieces[k], ',');
      TrimEndKeepsFree(TrimStart(pieces[k]), ',');
    }
    NonEmptyIsClean(TrimAll(pieces));
  }

  /** Splitting a joined list gives it back exactly when every item is trimmed, non-empty and free of commas. */
  lemma ListRoundTrip(items: seq<string>)
    ensures ListArgument(Some(TextInput(Join(items, ", ")))) == items <==> CleanItems(items)
  {
    TypedListIsClean(Join(items, ", "));
    if CleanItems(items) {
      if items == [] {
        TrimIsTrimmed("");
        assert Split("", ',') == [""];
        assert TrimAll([""]) == [""];
      } else {
        SplitOfJoin(items, ',');
        TrimAllOfSpaced(items);
        NonEmptyKeepsAll(items);
      }
    }
  }

  // ---- one argument ----

  /** What the value of one argument must be for it to come back unchanged. */
  predicate StableArgument(spec: ArgSpec, raw: Option<ArgInput>) {
    match spec
    case IntegerArg => raw.Some? && raw.value.TextInput? ==> StableNumber(raw.value.text)
    case EnumArg(values) => |values| == 1 || (raw.Some? && raw.value.TextInput?)
    case EnumListArg => true
    case SlugListArg => raw.Some? && raw.value.ListInput? ==> CleanItems(raw.value.items)
  }

  function ArgumentAgain(spec: ArgSpec, raw: Option<ArgInput>): Json {
    ArgumentJson(spec, Some(ArgumentInput(spec, Some(ArgumentJson(spec, raw)))))
  }

  lemma StringsInjective(a: seq<string>, b: seq<string>)
    ensures Strings(a) == Strings(b) <==> a == b
  {
    TextsOfStrings(a);
    TextsOfStrings(b);
  }

  lemma ArgumentRoundTrip(spec: ArgSpec, raw: Option<ArgInput>)
    ensures ArgumentAgain(spec, raw) == ArgumentJson(spec, raw) <==> StableArgument(spec, raw)
  {
    match spec
    case IntegerArg =>
      TrimIsTrimmed("");
      NumberRoundTrip(if raw.Some? && raw.value.TextInput? then raw.value.text else "");
    case EnumArg(values) =>
    case EnumListArg =>
      TextsOfStrings(ListArgument(raw));
    case SlugListArg =>
      var items := ListArgument(raw);
      TextsOfStrings(items);
      ListRoundTrip(items);
      StringsInjective(items, ListArgument(Some(TextInput(Join(items, ", ")))));
      if raw.Some? && raw.value.TextInput? {
        TypedListIsClean(raw.value.text);
      }
  }

  // ---- one condition ----

  lemma {:induction false} FieldComesFrom(entries: seq<ArgEntry>, row: Row, n: string)
    requires n in ArgumentFields(entries, row)
    ensures exists i :: 0 <= i < |entries| && entries[i].name == n
    decreases |entries|
  {
    var last := |entries| - 1;
    if n == entries[last].name {
      assert entries[last].name == n;
    } else {
      FieldComesFrom(entries[..last], row, n);
      var i :| 0 <= i < last && entries[..last][i].name == n;
      assert entries[i].name == n;
    }
  }

  lemma {:induction false} FieldAt(entries: seq<ArgEntry>, row: Row, i: nat)
    requires DistinctNames(entries) && i < |entries|
    ensures entries[i].name in ArgumentFields(entries, row)
    ensures ArgumentFields(entries, row)[entries[i].name] == ArgumentJson(entries[i].spec, Raw(row, entries[i].name))
    decreases |entries|
  {
    var last := |entries| - 1;
    if i < last {
      FieldAt(entries[..last], row, i);
      assert entries[i].name != entries[last].name;
    }
  }

  lemma ArgumentFieldsAt(entries: seq<ArgEntry>, row: Row)
    requires DistinctNames(entries)
    ensures forall n :: n in ArgumentFields(entries, row) ==>
              exists i :: 0 <= i < |entries| && entries[i].name == n
    ensures forall i :: 0 <= i < |entries| ==>
              && entries[i].name in ArgumentFields(entries, row)
              && ArgumentFields(entries, row)[entries[i].name]
                 == ArgumentJson(entries[i].spec, Raw(row, entries[i].name))
  {
    forall n | n in ArgumentFields(entries, row) ensures exists i :: 0 <= i < |entries| && entries[i].name == n {
      FieldComesFrom(entries, row, n);
    }
    forall i | 0 <= i < |entries|
      ensures entries[i].name in ArgumentFields(entries, row)
      ensures ArgumentFields(entries, row)[entries[i].name] == ArgumentJson(entries[i].spec, Raw(row, entries[i].name))
    {
      FieldAt(entries, row, i);
    }
  }

  lemma {:induction false} InputFieldsAt(entries: seq<ArgEntry>, entry: Json)
    requires DistinctNames(entries)
    ensures forall i :: 0 <= i < |entries| ==>
              && entries[i].name in InputFields(entries, entry)
              && InputFields(entries, entry)[entries[i].name]
                 == ArgumentInput(entries[i].spec, Field(entry, entries[i].name))
    decreases |entries|
  {
    if entries != [] {
      InputFieldsAt(entries[..|entries| - 1], entry);
    }
  }

  predicate KnownKind(cat: Catalog, row: Row) {
    row.kind == "" || row.kind in cat.conditions || row.kind in cat.inherited
  }

  ghost predicate Normalises(entries: seq<ArgEntry>, row: Row, normal: Row) {
    forall i :: 0 <= i < |entries| ==>
      Raw(normal, entries[i].name)
      == Some(ArgumentInput(entries[i].spec, Some(ArgumentJson(entries[i].spec, Raw(row, entries[i].name)))))
  }

  predicate StableArguments(entries: seq<ArgEntry>, row: Row) {
    forall i :: 0 <= i < |entries| ==> StableArgument(entries[i].spec, Raw(row, entries[i].name))
  }

  predicate StableRow(cat: Catalog, row: Row) {
    StableArguments(ArgumentSpecsOf(cat, row.kind), row)
  }

  /** The row a printed row is read back as: same condition, same group, arguments normalised. */
  function NormalRow(cat: Catalog, row: Row): Row {
    RowOf(cat, Condition(cat, row), row.group)
  }

  lemma ConditionHead(cat: Catalog, row: Row)
    requires CatalogOk(cat)
    ensures Field(Condition(cat, row), "type") == Some(Str(row.kind))
    ensures Field(Condition(cat, row), "any") == None
  {
    ArgumentFieldsAt(ArgumentSpecsOf(cat, row.kind), row);
  }

  lemma NormalRowMeaning(cat: Catalog, row: Row)
    requires CatalogOk(cat) && KnownKind(cat, row)
    ensures NormalRow(cat, row).kind == row.kind && NormalRow(cat, row).group == row.group
    ensures NormalRow(cat, row).id == ""
    ensures Normalises(ArgumentSpecsOf(cat, row.kind), row, NormalRow(cat, row))
  {
    var entries := ArgumentSpecsOf(cat, row.kind);
    ConditionHead(cat, row);
    ArgumentFieldsAt(entries, row);
    InputFieldsAt(entries, Condition(cat, row));
  }

  /** A condition survives exactly when each of its arguments does. */
  lemma ConditionRoundTrip(cat: Catalog, row: Row)
    requires CatalogOk(cat) && KnownKind(cat, row)
    ensures Condition(cat, NormalRow(cat, row)) == Condition(cat, row) <==> StableRow(cat, row)
  {
    var normal := NormalRow(cat, row);
    var entries := ArgumentSpecsOf(cat, row.kind);
    NormalRowMeaning(cat, row);
    FieldsRoundTrip(entries, row, normal);
    ArgumentFieldsAt(entries, row);
    ArgumentFieldsAt(entries, normal);
    FieldsUnderHead(row.kind, ArgumentFields(entries, row), ArgumentFields(entries, normal));
  }

  lemma {:induction false} FieldsRoundTrip(entries: seq<ArgEntry>, row: Row, normal: Row)
    requires DistinctNames(entries) && Normalises(entries, row, normal)
    ensures ArgumentFields(entries, normal) == ArgumentFields(entries, row) <==> StableArguments(entries, row)
    decreases |entries|
  {
    if entries != [] {
      var front, last := entries[..|entries| - 1], entries[|entries| - 1];
      FieldsRoundTrip(front, row, normal);
      ArgumentRoundTrip(last.spec, Raw(row, last.name));
      NameIsNew(entries, row);
      NameIsNew(entries, normal);
      OneMoreField(ArgumentFields(front, row), ArgumentFields(front, normal), last.name,
                   ArgumentJson(last.spec, Raw(row, last.name)), ArgumentAgain(last.spec, Raw(row, last.name)));
      OneMoreArgument(entries, row);
    }
  }

  lemma NameIsNew(entries: seq<ArgEntry>, row: Row)
    requires DistinctNames(entries) && entries != []
    ensures entries[|entries| - 1].name !in ArgumentFields(entries[..|entries| - 1], row)
  {
    ArgumentFieldsAt(entries[..|entries| - 1], row);
  }

  lemma OneMoreArgument(entries: seq<ArgEntry>, row: Row)
    requires entries != []
    ensures var last := entries[|entries| - 1];
            StableArguments(entries, row)
            <==> (StableArguments(entries[..|entries| - 1], row) && StableArgument(last.spec, Raw(row, last.name)))
  {
    var front := entries[..|entries| - 1];
    assert forall i :: 0 <= i < |front| ==> entries[i] == front[i];
  }

  lemma OneMoreField(a: map<string, Json>, b: map<string, Json>, n: string, x: Json, y: Json)
    requires n !in a && n !in b
    ensures b[n := y] == a[n := x] <==> b == a && y == x
  {
    if b[n := y] == a[n := x] {
      assert a[n := x][n] == x && b[n := y][n] == y;
      assert a == a[n := x] - {n} && b == b[n := y] - {n};
    }
  }

  lemma FieldsUnderHead(kind: string, a: map<string, Json>, b: map<string, Json>)
    requires "type" !in a && "type" !in b
    ensures Obj(map["type" := Str(kind)] + b) == Obj(map["type" := Str(kind)] + a) <==> b == a
  {
    var head := map["type" := Str(kind)];
    assert a == (head + a) - {"type"} && b == (head + b) - {"type"};
  }

  // ---- the rows ----

  /** The rows with the "any" rows moved together to the first one's place. */
  function Regrouped(rows: seq<Row>): seq<Row> {
    var k := FirstAny(rows);
    rows[..k] + Only(rows, Any) + Only(rows[k..], All)
  }

  function NormalRows(cat: Catalog, rows: seq<Row>): (r: seq<Row>)
    ensures |r| == |rows|
  {
    seq(|rows|, i requires 0 <= i < |rows| => NormalRow(cat, rows[i]))
  }

  predicate KnownKinds(cat: Catalog, rows: seq<Row>) {
    forall i :: 0 <= i < |rows| ==> KnownKind(cat, rows[i])
  }

  lemma {:induction false} OnlyCounts(rows: seq<Row>)
    ensures multiset(rows) == multiset(Only(rows, All)) + multiset(Only(rows, Any))
    decreases |rows|
  {
    if rows != [] {
      OnlyCounts(rows[..|rows| - 1]);
      OnlyCountsStep(rows, rows[..|rows| - 1], rows[|rows| - 1]);
    }
  }

  lemma OnlyCountsStep(rows: seq<Row>, front: seq<Row>, last: Row)
    requires rows == front + [last]
    requires multiset(front) == multiset(Only(front, All)) + multiset(Only(front, Any))
    ensures multiset(rows) == multiset(Only(rows, All)) + multiset(Only(rows, Any))
  {
    CountsSnoc(front, last, All);
    CountsSnoc(front, last, Any);
    match last.group
    case All =>
    case Any =>
  }

  lemma CountsSnoc(rows: seq<Row>, row: Row, group: Group)
    ensures multiset(rows + [row]) == multiset(rows) + multiset{row}
    ensures multiset(Only(rows + [row], group))
            == multiset(Only(rows, group)) + if row.group == group then multiset{row} else multiset{}
  {
    OnlySnoc(rows, row, group);
    assert Only(rows, group) + [] == Only(rows, group);
  }

  lemma {:induction false} OnlyOfGroup(rows: seq<Row>, group: Group)
    requires forall i :: 0 <= i < |rows| ==> rows[i].group == group
    ensures Only(rows, group) == rows
    ensures Only(rows, if group == All then Any else All) == []
    decreases |rows|
  {
    if rows != [] {
      OnlyOfGroup(rows[..|rows| - 1], group);
      assert rows == rows[..|rows| - 1] + [rows[|rows| - 1]];
    }
  }

  lemma {:induction false} OnlyAppend(a: seq<Row>, b: seq<Row>, group: Group)
    ensures Only(a + b, group) == Only(a, group) + Only(b, group)
    decreases |b|
  {
    if b == [] {
      assert a + b == a;
    } else {
      var front, last := b[..|b| - 1], b[|b| - 1];
      OnlyAppend(a, front, group);
      assert (a + b)[..|a + b| - 1] == a + front;
    }
  }

  /** Regrouping drops no row and adds none, and keeps the order inside both groups. */
  lemma RegroupedKeepsRows(rows: seq<Row>)
    ensures multiset(Regrouped(rows)) == multiset(rows)
    ensures Only(Regrouped(rows), All) == Only(rows, All)
    ensures Only(Regrouped(rows), Any) == Only(rows, Any)
    ensures FirstAny(Regrouped(rows)) == FirstAny(rows)
  {
    RegroupedKeepsGroup(rows, All);
    RegroupedKeepsGroup(rows, Any);
    OnlyCounts(rows);
    OnlyCounts(Regrouped(rows));
    RegroupedFirstAny(rows);
  }

  lemma OnlyOfThree(a: seq<Row>, b: seq<Row>, c: seq<Row>, group: Group)
    ensures Only(a + b + c, group) == Only(a, group) + Only(b, group) + Only(c, group)
  {
    OnlyAppend(a + b, c, group);
    OnlyAppend(a, b, group);
  }

  lemma RegroupedKeepsGroup(rows: seq<Row>, group: Group)
    ensures Only(Regrouped(rows), group) == Only(rows, group)
  {
    var k := FirstAny(rows);
    assert rows == rows[..k] + rows[k..];
    OnlyAppend(rows[..k], rows[k..], group);
    OnlyOfThree(rows[..k], Only(rows, Any), Only(rows[k..], All), group);
    PartsOfGroup(rows, group);
  }

  lemma PartsOfGroup(rows: seq<Row>, group: Group)
    ensures var k := FirstAny(rows);
            Only(rows[..k], group) + Only(Only(rows, Any), group) + Only(Only(rows[k..], All), group)
            == Only(rows[..k], group) + Only(rows[k..], group)
  {
    var k := FirstAny(rows);
    var head, rest := rows[..k], rows[k..];
    OnlyOfGroup(head, All);
    OnlyOfGroup(Only(rows, Any), Any);
    OnlyOfGroup(Only(rest, All), All);
    match group
    case All =>
      EmptyMiddle(head, Only(rest, All));
    case Any =>
      OnlyAfterHead(rows, k);
      EmptyEnds(Only(rest, Any));
  }

  lemma EmptyMiddle(a: seq<Row>, b: seq<Row>)
    ensures a + [] + b == a + b
  {
  }

  lemma EmptyEnds(a: seq<Row>)
    ensures [] + a + [] == [] + a
  {
  }

  lemma OnlyAfterHead(rows: seq<Row>, k: nat)
    requires k <= |rows| && Only(rows[..k], Any) == []
    ensures Only(rows, Any) == Only(rows[k..], Any)
  {
    OnlyAppend(rows[..k], rows[k..], Any);
    assert rows == rows[..k] + rows[k..];
  }

  lemma RegroupedFirstAny(rows: seq<Row>)
    ensures FirstAny(Regrouped(rows)) == FirstAny(rows)
  {
    var k, r := FirstAny(rows), Regrouped(rows);
    if k < |rows| {
      OnlyKeeps(rows, k);
      assert r[k] == Only(rows, Any)[0];
      assert forall i :: 0 <= i < k ==> r[i] == rows[i];
      FirstAnyIs(r, k);
    } else {
      assert rows[..k] == rows && rows[k..] == [];
      OnlyOfGroup(rows, All);
      assert r == rows;
    }
  }

  lemma {:induction false} OnlyKeeps(rows: seq<Row>, i: nat)
    requires i < |rows|
    ensures rows[i] in Only(rows, rows[i].group)
    decreases |rows|
  {
    if i < |rows| - 1 { OnlyKeeps(rows[..|rows| - 1], i); }
  }

  lemma {:induction false} FirstAnyIs(rows: seq<Row>, k: nat)
    requires k < |rows| && rows[k].group == Any
    requires forall i :: 0 <= i < k ==> rows[i].group == All
    ensures FirstAny(rows) == k
    decreases |rows|
  {
    if k > 0 {
      assert forall i :: 0 <= i < k - 1 ==> rows[1..][i] == rows[i + 1];
      FirstAnyIs(rows[1..], k - 1);
    }
  }

  lemma RowsOfSnoc(cat: Catalog, a: seq<Json>, entry: Json)
    ensures RowsOf(cat, a + [entry]) == RowsOf(cat, a) + RowsOfEntry(cat, entry)
  {
    FlatMapSnoc(a, entry, EntryReader(cat));
  }

  lemma RowsOfAppend(cat: Catalog, a: seq<Json>, b: seq<Json>)
    ensures RowsOf(cat, a + b) == RowsOf(cat, a) + RowsOf(cat, b)
  {
    FlatMapAppend(a, b, EntryReader(cat));
  }

  lemma NormalRowsAppend(cat: Catalog, a: seq<Row>, b: seq<Row>)
    ensures NormalRows(cat, a + b) == NormalRows(cat, a) + NormalRows(cat, b)
  {
  }

  lemma NormalRowsSnoc(cat: Catalog, rows: seq<Row>)
    requires rows != []
    ensures NormalRows(cat, rows) == NormalRows(cat, rows[..|rows| - 1]) + [NormalRow(cat, rows[|rows| - 1])]
  {
  }

  lemma {:induction false} RowsOfConditions(cat: Catalog, rows: seq<Row>)
    requires CatalogOk(cat)
    requires forall i :: 0 <= i < |rows| ==> rows[i].group == All
    ensures RowsOf(cat, Conditions(cat, rows)) == NormalRows(cat, rows)
    decreases |rows|
  {
    if rows == [] {
      assert Conditions(cat, rows) == [] && NormalRows(cat, rows) == [];
    } else {
      var front, last := rows[..|rows| - 1], rows[|rows| - 1];
      calc {
        RowsOf(cat, Conditions(cat, rows));
        { assert rows == front + [last]; ConditionsSnoc(cat, front, last); }
        RowsOf(cat, Conditions(cat, front) + [Condition(cat, last)]);
        { RowsOfSnoc(cat, Conditions(cat, front), Condition(cat, last)); }
        RowsOf(cat, Conditions(cat, front)) + RowsOfEntry(cat, Condition(cat, last));
        { RowsOfConditions(cat, front); ConditionHead(cat, last); }
        NormalRows(cat, front) + [NormalRow(cat, last)];
        { NormalRowsSnoc(cat, rows); }
        NormalRows(cat, rows);
      }
    }
  }

  lemma RowsOfAnyGroup(cat: Catalog, rows: seq<Row>)
    ensures RowsOf(cat, [AnyGroup(cat, rows)]) == NormalRows(cat, Only(rows, Any))
  {
    var group := AnyGroup(cat, rows);
    RowsOfSnoc(cat, [], group);
    assert [] + [group] == [group];
    assert RowsOfEntry(cat, group) == NormalRows(cat, Only(rows, Any));
  }

  /**
   Reading a printed form back neither loses nor invents a condition row: it yields the rows
   regrouped, each normalised, ids aside.
   */
  lemma RowsComeBack(cat: Catalog, rows: seq<Row>)
    requires CatalogOk(cat)
    ensures RowsOf(cat, RootList(cat, rows, AnyGroup(cat, rows))) == NormalRows(cat, Regrouped(rows))
  {
    var k := FirstAny(rows);
    var head, tail := rows[..k], Only(rows[k..], All);
    var group := if k < |rows| then [AnyGroup(cat, rows)] else [];
    RowsOfAppend(cat, Conditions(cat, head) + group, Conditions(cat, tail));
    RowsOfAppend(cat, Conditions(cat, head), group);
    RowsOfConditions(cat, head);
    RowsOfConditions(cat, tail);
    NormalRowsAppend(cat, head + Only(rows, Any), tail);
    NormalRowsAppend(cat, head, Only(rows, Any));
    GroupComesBack(cat, rows);
  }

  lemma GroupComesBack(cat: Catalog, rows: seq<Row>)
    ensures RowsOf(cat, if FirstAny(rows) < |rows| then [AnyGroup(cat, rows)] else [])
            == NormalRows(cat, Only(rows, Any))
  {
    if FirstAny(rows) < |rows| {
      RowsOfAnyGroup(cat, rows);
    } else {
      OnlyOfGroup(rows, All);
    }
  }

  lemma NormalOfOne(cat: Catalog, row: Row)
    ensures NormalRows(cat, [row]) == [NormalRow(cat, row)] && NormalRow(cat, row).group == row.group
    ensures NormalRows(cat, []) == []
  {
  }

  lemma {:induction false} NormalKeepsGroups(cat: Catalog, rows: seq<Row>, group: Group)
    ensures Only(NormalRows(cat, rows), group) == NormalRows(cat, Only(rows, group))
    decreases |rows|
  {
    if rows == [] {
      assert NormalRows(cat, rows) == [];
    } else {
      var front, last := rows[..|rows| - 1], rows[|rows| - 1];
      var kept := if last.group == group then [last] else [];
      assert rows == front + [last];
      calc {
        Only(NormalRows(cat, rows), group);
        { NormalRowsSnoc(cat, rows); OnlySnoc(NormalRows(cat, front), NormalRow(cat, last), group); }
        Only(NormalRows(cat, front), group) + (if last.group == group then [NormalRow(cat, last)] else []);
        { NormalKeepsGroups(cat, front, group); NormalOfOne(cat, last); }
        NormalRows(cat, Only(front, group)) + NormalRows(cat, kept);
        { NormalRowsAppend(cat, Only(front, group), kept); OnlySnoc(front, last, group); }
        NormalRows(cat, Only(rows, group));
      }
    }
  }

  lemma NormalKeepsFirstAny(cat: Catalog, rows: seq<Row>)
    ensures FirstAny(NormalRows(cat, rows)) == FirstAny(rows)
  {
    SameGroupsSameFirstAny(NormalRows(cat, rows), rows);
  }

  lemma {:induction false} SameGroupsSameFirstAny(a: seq<Row>, b: seq<Row>)
    requires |a| == |b| && forall i :: 0 <= i < |a| ==> a[i].group == b[i].group
    ensures FirstAny(a) == FirstAny(b)
    decreases |a|
  {
    if a != [] {
      SameGroupsSameFirstAny(a[1..], b[1..]);
      assert a[0].group == b[0].group;
    }
  }

  predicate StableRows(cat: Catalog, rows: seq<Row>) {
    forall i :: 0 <= i < |rows| ==> StableRow(cat, rows[i])
  }

  lemma ConditionsRoundTrip(cat: Catalog, rows: seq<Row>)
    requires CatalogOk(cat) && KnownKinds(cat, rows)
    ensures Conditions(cat, NormalRows(cat, rows)) == Conditions(cat, rows) <==> StableRows(cat, rows)
  {
    var was, again := Conditions(cat, rows), Conditions(cat, NormalRows(cat, rows));
    forall i | 0 <= i < |rows| ensures again[i] == was[i] <==> StableRow(cat, rows[i]) {
      ConditionRoundTrip(cat, rows[i]);
    }
  }

  /** The root list of the regrouped, normalised rows, segment by segment. */
  lemma AgainFirstAny(cat: Catalog, rows: seq<Row>)
    ensures var again := NormalRows(cat, Regrouped(rows));
            FirstAny(again) == FirstAny(rows) && |again| == |rows|
  {
    RegroupedKeepsRows(rows);
    RegroupedLength(rows);
    NormalKeepsFirstAny(cat, Regrouped(rows));
  }

  lemma AgainHead(cat: Catalog, rows: seq<Row>)
    requires |Regrouped(rows)| == |rows|
    ensures NormalRows(cat, Regrouped(rows))[..FirstAny(rows)] == NormalRows(cat, rows[..FirstAny(rows)])
  {
    assert forall i :: 0 <= i < FirstAny(rows) ==> Regrouped(rows)[i] == rows[i];
  }

  lemma AgainTail(cat: Catalog, rows: seq<Row>)
    requires |Regrouped(rows)| == |rows|
    ensures Only(NormalRows(cat, Regrouped(rows))[FirstAny(rows)..], All)
            == NormalRows(cat, Only(rows[FirstAny(rows)..], All))
  {
    var k := FirstAny(rows);
    RegroupedTail(rows);
    NormalKeepsGroups(cat, Regrouped(rows)[k..], All);
    NormalRowsFrom(cat, Regrouped(rows), k);
  }

  lemma NormalRowsFrom(cat: Catalog, rows: seq<Row>, k: nat)
    requires k <= |rows|
    ensures NormalRows(cat, rows)[k..] == NormalRows(cat, rows[k..])
  {
  }

  lemma RootListAgain(cat: Catalog, rows: seq<Row>, group: Json)
    ensures RootList(cat, NormalRows(cat, Regrouped(rows)), group) ==
            Conditions(cat, NormalRows(cat, rows[..FirstAny(rows)]))
            + (if FirstAny(rows) < |rows| then [group] else [])
            + Conditions(cat, NormalRows(cat, Only(rows[FirstAny(rows)..], All)))
  {
    RegroupedLength(rows);
    AgainFirstAny(cat, rows);
    AgainHead(cat, rows);
    AgainTail(cat, rows);
  }

  lemma AnyGroupAgain(cat: Catalog, rows: seq<Row>)
    ensures AnyGroup(cat, NormalRows(cat, Regrouped(rows)))
            == Obj(map["any" := Arr(Conditions(cat, NormalRows(cat, Only(rows, Any))))])
  {
    RegroupedKeepsRows(rows);
    NormalKeepsGroups(cat, Regrouped(rows), Any);
  }

  lemma RegroupedLength(rows: seq<Row>)
    ensures |Regrouped(rows)| == |rows|
  {
    RegroupedKeepsRows(rows);
    assert |multiset(Regrouped(rows))| == |multiset(rows)|;
  }

  lemma RegroupedTail(rows: seq<Row>)
    ensures Only(Regrouped(rows)[FirstAny(rows)..], All) == Only(rows[FirstAny(rows)..], All)
  {
    var k := FirstAny(rows);
    var anys, tail := Only(rows, Any), Only(rows[k..], All);
    assert Regrouped(rows)[k..] == anys + tail;
    OnlyAppend(anys, tail, All);
    OnlyOfGroup(anys, Any);
    OnlyOfGroup(tail, All);
  }

  lemma {:induction false} InOnly(rows: seq<Row>, group: Group, row: Row)
    requires row in Only(rows, group)
    ensures row in rows
    decreases |rows|
  {
    if rows != [] && row in Only(rows[..|rows| - 1], group) {
      InOnly(rows[..|rows| - 1], group, row);
    }
  }

  /** Every row is in exactly the segments the root list prints. */
  lemma {:induction false} StableBySegments(cat: Catalog, rows: seq<Row>)
    ensures var k := FirstAny(rows);
            StableRows(cat, rows)
            <==> (StableRows(cat, rows[..k]) && StableRows(cat, Only(rows, Any)) && StableRows(cat, Only(rows[k..], All)))
  {
    var k := FirstAny(rows);
    if StableRows(cat, rows) {
      forall row | row in Only(rows, Any) ensures StableRow(cat, row) { InOnly(rows, Any, row); }
      forall row | row in Only(rows[k..], All) ensures StableRow(cat, row) { InOnly(rows[k..], All, row); }
    }
    if StableRows(cat, rows[..k]) && StableRows(cat, Only(rows, Any)) && StableRows(cat, Only(rows[k..], All)) {
      forall i | 0 <= i < |rows| ensures StableRow(cat, rows[i]) {
        if i < k {
          assert rows[i] == rows[..k][i];
        } else if rows[i].group == Any {
          OnlyKeeps(rows, i);
        } else {
          assert rows[k..][i - k] == rows[i];
          OnlyKeeps(rows[k..], i - k);
        }
      }
    }
  }

  lemma KnownSegments(cat: Catalog, rows: seq<Row>)
    requires KnownKinds(cat, rows)
    ensures var k := FirstAny(rows);
            KnownKinds(cat, rows[..k]) && KnownKinds(cat, Only(rows, Any)) && KnownKinds(cat, Only(rows[k..], All))
  {
    var k := FirstAny(rows);
    forall row | row in Only(rows, Any) ensures KnownKind(cat, row) { InOnly(rows, Any, row); }
    forall row | row in Only(rows[k..], All) ensures KnownKind(cat, row) { InOnly(rows[k..], All, row); }
  }

  lemma ConcatenationsAgree(a: seq<Json>, b: seq<Json>, c: seq<Json>, x: seq<Json>, y: seq<Json>, z: seq<Json>)
    requires |a| == |x| && |b| == |y| && |c| == |z|
    ensures a + b + c == x + y + z <==> (a == x && b == y && c == z)
  {
    if a + b + c == x + y + z {
      assert a == (a + b + c)[..|a|] && x == (x + y + z)[..|a|];
      assert b == (a + b + c)[|a|..|a| + |b|] && y == (x + y + z)[|a|..|a| + |b|];
      assert c == (a + b + c)[|a| + |b|..] && z == (x + y + z)[|a| + |b|..];
    }
  }

  /** The condition list survives exactly when every row does. */
  lemma RootListRoundTrip(cat: Catalog, rows: seq<Row>)
    requires CatalogOk(cat) && KnownKinds(cat, rows)
    ensures var again := NormalRows(cat, Regrouped(rows));
            RootList(cat, again, AnyGroup(cat, again)) == RootList(cat, rows, AnyGroup(cat, rows))
            <==> StableRows(cat, rows)
  {
    var again := NormalRows(cat, Regrouped(rows));
    var k := FirstAny(rows);
    var head, anys, tail := rows[..k], Only(rows, Any), Only(rows[k..], All);
    RootListAgain(cat, rows, AnyGroup(cat, again));
    AnyGroupAgain(cat, rows);
    KnownSegments(cat, rows);
    ConditionsRoundTrip(cat, head);
    ConditionsRoundTrip(cat, anys);
    ConditionsRoundTrip(cat, tail);
    StableBySegments(cat, rows);
    ConcatenationsAgree(
      Conditions(cat, NormalRows(cat, head)), if k < |rows| then [AnyGroup(cat, again)] else [],
      Conditions(cat, NormalRows(cat, tail)),
      Conditions(cat, head), if k < |rows| then [AnyGroup(cat, rows)] else [], Conditions(cat, tail));
    AnyGroupsAgree(Conditions(cat, NormalRows(cat, anys)), Conditions(cat, anys));
    if k == |rows| {
      assert rows == head;
      OnlyOfGroup(rows, All);
    }
  }

  lemma AnyGroupsAgree(a: seq<Json>, b: seq<Json>)
    ensures Obj(map["any" := Arr(a)]) == Obj(map["any" := Arr(b)]) <==> a == b
  {
    assert map["any" := Arr(a)]["any"] == Arr(a);
    assert map["any" := Arr(b)]["any"] == Arr(b);
  }
}
