/**
 What the form is filled with from any stored definition, whole or not, and what each of its fields
 prints (apps/admin/lib/campaign-rules.ts).
 */
module CampaignReading {
  import opened JavaScriptNumbers
  import opened Options
  import opened Sequences
  import opened Text
  import opened JsonValues
  import opened CampaignRules
  import opened CampaignRoundTrip
  import opened CampaignForms
  import opened CampaignStored

  // ---- one stored value ----

  /** What String() says of a value that is neither a number nor an object. */
  lemma PlainTexts(b: bool, s: string)
    ensures TextOf(Null) == "null" && TextOf(Str(s)) == s
    ensures TextOf(Boolean(b)) == if b then "true" else "false"
  {
  }

  /** An array as text: its items' texts joined by commas, null items empty. */
  lemma {:induction false} ArrayText(items: seq<Json>, parts: seq<string>)
    requires |parts| == |items|
    requires forall i :: 0 <= i < |items| ==> parts[i] == if items[i] == Null then "" else TextOf(items[i])
    ensures TextOf(Arr(items)) == Join(parts, ",")
    decreases |items|
  {
    if |items| > 1 {
      ArrayText(items[1..], parts[1..]);
      assert TextOf(Arr(items[1..])) == ListText(items[1..]);
    }
  }

  /** The text a field of the form takes from a stored value. */
  ghost predicate IsTextFrom(text: string, v: Option<Json>) {
    if v == None || v == Some(Null) then text == ""
    else match v.value
         case Str(s) => text == s
         case Number(n) => 0 <= n < PRECISION ==> text == Decimal(n)
         case other => text == TextOf(other)
  }

  lemma TextIsFrom(v: Option<Json>)
    ensures IsTextFrom(StringOf(v), v)
  {
    if v.Some? && v.value.Number? && 0 <= v.value.n < PRECISION { SafeIsPrintedPlainly(v.value.n); }
  }

  /** A choice taken from a stored value: that value, if it is a text on the list, and the default otherwise. */
  ghost predicate IsChoiceFrom(choice: string, v: Option<Json>, values: seq<string>, default: string) {
    || (choice in values && v == Some(Str(choice)))
    || (choice == default && forall t :: t in values ==> v != Some(Str(t)))
  }

  /** The text of a minute. */
  function MinuteText(year: string, month: string, day: string, hour: string, minute: string): string {
    year + "-" + (month + "-" + (day + "T" + (hour + ":" + minute)))
  }

  predicate AreParts(year: string, month: string, day: string, hour: string, minute: string) {
    |year| == 4 && |month| == |day| == |hour| == |minute| == 2
  }

  /** Four digits, a dash, two, a dash, two, a T, two, a colon and two are a minute; so is nothing with another character among them. */
  lemma MinuteIsWritten(year: string, month: string, day: string, hour: string, minute: string)
    requires AreParts(year, month, day, hour, minute)
    ensures IsMinute(MinuteText(year, month, day, hour, minute))
            <==> AllDigits(year) && AllDigits(month) && AllDigits(day) && AllDigits(hour) && AllDigits(minute)
  {
    var t := MinuteText(year, month, day, hour, minute);
    assert t[..4] == year && t[5..7] == month && t[8..10] == day && t[11..13] == hour && t[14..] == minute;
    if IsMinute(t) {
      MinuteDigits(t);
    } else {
      assert t[4] == '-' && t[7] == '-' && t[10] == 'T' && t[13] == ':';
    }
  }

  lemma MinuteDigits(t: string)
    requires IsMinute(t)
    ensures AllDigits(t[..4]) && AllDigits(t[5..7]) && AllDigits(t[8..10]) && AllDigits(t[11..13]) && AllDigits(t[14..])
  {
  }

  /** And every minute is written that way. */
  lemma EveryMinuteIs(t: string) returns (year: string, month: string, day: string, hour: string, minute: string)
    requires IsMinute(t)
    ensures AreParts(year, month, day, hour, minute) && t == MinuteText(year, month, day, hour, minute)
  {
    year, month, day, hour, minute := t[..4], t[5..7], t[8..10], t[11..13], t[14..];
  }

  /** The wall time taken from a stored instant: the minute it begins with, or the whole of any other text. */
  ghost predicate IsWallTimeFrom(text: string, v: Option<Json>) {
    && ((forall s :: v != Some(Str(s))) ==> text == "")
    && forall s :: v == Some(Str(s)) ==>
         if exists minute :: IsMinute(minute) && minute <= s then IsMinute(text) && text <= s else text == s
  }

  lemma BeginsWithMinute(s: string)
    ensures (exists minute :: IsMinute(minute) && minute <= s) <==> |s| >= 16 && IsMinute(s[..16])
  {
    if |s| >= 16 && IsMinute(s[..16]) { assert s[..16] <= s; }
  }

  lemma WallTimeIsFrom(v: Option<Json>)
    ensures IsWallTimeFrom(InstantToLocalInput(v), v)
  {
    if v.Some? && v.value.Str? { BeginsWithMinute(v.value.s); }
  }

  // ---- the plain fields, from any definition ----

  /** Each choice of the form is the stored one when that is a text on offer, and the default otherwise. */
  lemma ChoicesAreRead(cat: Catalog, d: Json)
    ensures var form := Parsed(cat, d); var policy := FieldOf(Field(d, "benefit"), "creditPolicy");
            && (forall s :: form.channel == s <==> IsChoiceFrom(s, Field(d, "channel"), cat.channels, cat.defaultChannel))
            && (forall s :: form.trigger == s <==> IsChoiceFrom(s, Field(d, "trigger"), cat.triggers, "PACKAGE_PAYMENT_SUCCEEDED"))
            && (forall s :: form.spendPriority == s
                  <==> IsChoiceFrom(s, FieldOf(policy, "spendPriority"), cat.spendPriorities, cat.defaultSpendPriority))
            && (forall s :: form.adminDeductPolicy == s
                  <==> IsChoiceFrom(s, FieldOf(policy, "adminDeductPolicy"), cat.adminDeductPolicies, cat.defaultAdminDeductPolicy))
  {
  }

  /** Each number field is the text of the value stored under its own name, empty when there is none. */
  lemma NumbersAreRead(cat: Catalog, d: Json)
    ensures var form, benefit, limits := Parsed(cat, d), Field(d, "benefit"), Field(d, "limits");
            && IsTextFrom(form.credits, FieldOf(benefit, "credits"))
            && IsTextFrom(form.expiresInDays, FieldOf(benefit, "expiresInDays"))
            && IsTextFrom(form.maxRedemptionsPerProvider, FieldOf(limits, "maxRedemptionsPerProvider"))
            && IsTextFrom(form.maxRedemptionsGlobal, FieldOf(limits, "maxRedemptionsGlobal"))
            && IsTextFrom(form.maxRedemptionsPerDay, FieldOf(limits, "maxRedemptionsPerDay"))
            && IsTextFrom(form.budgetCredits, FieldOf(limits, "budgetCredits"))
            && IsTextFrom(form.maxRevokesPerDay, FieldOf(limits, "maxRevokesPerDay"))
            && IsTextFrom(form.priority, Field(d, "priority"))
  {
    var benefit, limits := Field(d, "benefit"), Field(d, "limits");
    TextIsFrom(FieldOf(benefit, "credits"));
    TextIsFrom(FieldOf(benefit, "expiresInDays"));
    TextIsFrom(FieldOf(limits, "maxRedemptionsPerProvider"));
    TextIsFrom(FieldOf(limits, "maxRedemptionsGlobal"));
    TextIsFrom(FieldOf(limits, "maxRedemptionsPerDay"));
    TextIsFrom(FieldOf(limits, "budgetCredits"));
    TextIsFrom(FieldOf(limits, "maxRevokesPerDay"));
    TextIsFrom(Field(d, "priority"));
  }

  lemma WindowIsRead(cat: Catalog, d: Json)
    ensures IsWallTimeFrom(Parsed(cat, d).windowStartAt, FieldOf(Field(d, "window"), "startAt"))
    ensures IsWallTimeFrom(Parsed(cat, d).windowEndAt, FieldOf(Field(d, "window"), "endAt"))
  {
    WallTimeIsFrom(FieldOf(Field(d, "window"), "startAt"));
    WallTimeIsFrom(FieldOf(Field(d, "window"), "endAt"));
  }

  /** The places of a list whose item the catalogue knows as a fact, in order. */
  ghost predicate ArePlacesOfFacts(cat: Catalog, stored: seq<Json>, places: seq<nat>) {
    && (forall i :: 0 <= i < |places| ==> places[i] < |stored|)
    && (forall i, j :: 0 <= i < j < |places| ==> places[i] < places[j])
    && forall p: nat :: p < |stored| ==> (p in places <==> TextOf(stored[p]) in cat.facts)
  }

  /** The items at the given places. */
  ghost predicate AreAt(kept: seq<Json>, stored: seq<Json>, places: seq<nat>) {
    |kept| == |places| && forall i :: 0 <= i < |places| ==> places[i] < |stored| && kept[i] == stored[places[i]]
  }

  lemma OneMoreFact(cat: Catalog, stored: seq<Json>, fact: Json, places: seq<nat>)
    requires ArePlacesOfFacts(cat, stored, places)
    ensures ArePlacesOfFacts(cat, stored + [fact], if TextOf(fact) in cat.facts then places + [|stored|] else places)
  {
    var more := if TextOf(fact) in cat.facts then places + [|stored|] else places;
    forall p: nat | p < |stored| + 1
      ensures p in more <==> TextOf((stored + [fact])[p]) in cat.facts
    {
      assert |stored| !in places;
    }
  }

  lemma OneMoreKept(cat: Catalog, stored: seq<Json>, fact: Json, places: seq<nat>)
    requires AreAt(KnownFacts(cat, stored), stored, places)
    ensures AreAt(KnownFacts(cat, stored + [fact]), stored + [fact], if TextOf(fact) in cat.facts then places + [|stored|] else places)
  {
    assert (stored + [fact])[..|stored|] == stored;
    assert KnownFacts(cat, stored + [fact]) == KnownFacts(cat, stored) + if TextOf(fact) in cat.facts then [fact] else [];
  }

  lemma OneMorePlace(cat: Catalog, stored: seq<Json>, fact: Json, longer: seq<Json>, places: seq<nat>) returns (more: seq<nat>)
    requires ArePlacesOfFacts(cat, stored, places) && AreAt(KnownFacts(cat, stored), stored, places)
    requires longer == stored + [fact]
    ensures ArePlacesOfFacts(cat, longer, more) && AreAt(KnownFacts(cat, longer), longer, more)
  {
    OneMoreFact(cat, stored, fact, places);
    OneMoreKept(cat, stored, fact, places);
    more := if TextOf(fact) in cat.facts then places + [|stored|] else places;
  }

  /** The facts kept are the stored ones the catalogue knows, in order and as often as they are stored. */
  lemma {:induction false} FactsAreRead(cat: Catalog, stored: seq<Json>) returns (places: seq<nat>)
    ensures ArePlacesOfFacts(cat, stored, places) && AreAt(KnownFacts(cat, stored), stored, places)
    decreases |stored|
  {
    if stored == [] {
      places := [];
    } else {
      var rest, last := stored[..|stored| - 1], stored[|stored| - 1];
      var front := FactsAreRead(cat, rest);
      assert stored == rest + [last];
      places := OneMorePlace(cat, rest, last, stored, front);
    }
  }

  /** A definition with no fields, or one that is no object at all: empty texts, no rows, no facts, the defaults. */
  lemma NothingStored(cat: Catalog, d: Json)
    requires !d.Obj? || d.fields == map[]
    ensures Readable(cat, d)
    ensures Parsed(cat, d) == Form("PACKAGE_PAYMENT_SUCCEEDED", [], [], "", "", "", "", "", "", "", "", "", "",
                                   cat.defaultChannel, cat.defaultSpendPriority, cat.defaultAdminDeductPolicy)
  {
    NothingUnderneath(d);
    NothingPlain(cat, d);
  }

  lemma NothingUnderneath(d: Json)
    requires forall name :: Field(d, name) == None
    ensures StoredFacts(d) == [] && RootEntries(d) == [] && NumbersRead(d)
    ensures forall section, name :: FieldOf(Field(d, section), name) == None
  {
  }

  lemma NothingPlain(cat: Catalog, d: Json)
    requires StoredFacts(d) == [] && forall name :: Field(d, name) == None
    ensures PlainFields(cat, d) == Form("PACKAGE_PAYMENT_SUCCEEDED", [], [], "", "", "", "", "", "", "", "", "", "",
                                        cat.defaultChannel, cat.defaultSpendPriority, cat.defaultAdminDeductPolicy)
  {
    assert StringOf(None) == "" && InstantToLocalInput(None) == "" && KnownFacts(cat, []) == [];
  }

  /** A definition saved before there was a channel is read as one for every channel. */
  lemma NoChannelIsAll()
    ensures Parsed(SHIPPED, Obj(map["trigger" := Str("PROVIDER_APPROVED")])).channel == "ALL"
  {
    ChoicesAreRead(SHIPPED, Obj(map["trigger" := Str("PROVIDER_APPROVED")]));
  }

  // ---- the rows, from any root list ----

  /** What a stored argument fills its input with. */
  ghost predicate IsInputFrom(input: ArgInput, spec: ArgSpec, v: Option<Json>) {
    match spec
    case EnumListArg =>
      input == ListInput(if v.Some? && v.value.Arr? then Texts(v.value.items) else [])
    case SlugListArg =>
      input.TextInput? && if v.Some? && v.value.Arr? then input.text == Join(Texts(v.value.items), ", ") else IsTextFrom(input.text, v)
    case _ => input.TextInput? && IsTextFrom(input.text, v)
  }

  /** The row a stored condition becomes: its group, its type if it has one that is known, and that type's arguments. */
  ghost predicate IsRowFrom(cat: Catalog, row: Row, entry: Json, group: Group) {
    && row.group == group
    && (forall kind :: row.kind == kind <==>
          || (Field(entry, "type") == Some(Str(kind)) && (kind in cat.conditions || kind in cat.inherited))
          || (kind == "" && forall known :: Field(entry, "type") == Some(Str(known)) ==> known !in cat.conditions && known !in cat.inherited))
    && var entries := ArgumentSpecsOf(cat, row.kind);
    && row.args.Keys == ArgumentNames(entries)
    && forall i :: 0 <= i < |entries| ==> IsInputFrom(row.args[entries[i].name], entries[i].spec, Field(entry, entries[i].name))
  }

  lemma InputIsFrom(spec: ArgSpec, v: Option<Json>)
    ensures IsInputFrom(ArgumentInput(spec, v), spec, v)
  {
    TextIsFrom(v);
  }

  lemma {:induction false} InputNames(entries: seq<ArgEntry>, entry: Json)
    ensures InputFields(entries, entry).Keys == ArgumentNames(entries)
    decreases |entries|
  {
    if entries != [] {
      var n := |entries| - 1;
      InputNames(entries[..n], entry);
      assert ArgumentNames(entries) == ArgumentNames(entries[..n]) + {entries[n].name} by {
        assert forall i :: 0 <= i < n ==> entries[..n][i] == entries[i];
      }
    }
  }

  lemma RowIsFrom(cat: Catalog, entry: Json, group: Group)
    requires CatalogOk(cat)
    ensures IsRowFrom(cat, RowOf(cat, entry, group), entry, group)
  {
    var row := RowOf(cat, entry, group);
    var entries := ArgumentSpecsOf(cat, row.kind);
    InputFieldsAt(entries, entry);
    InputNames(entries, entry);
    forall i | 0 <= i < |entries|
      ensures IsInputFrom(row.args[entries[i].name], entries[i].spec, Field(entry, entries[i].name))
    {
      InputIsFrom(entries[i].spec, Field(entry, entries[i].name));
    }
  }

  /** The rows one root entry becomes: one per alternative of a group, or the one of a condition. */
  ghost predicate AreRowsFrom(cat: Catalog, rows: seq<Row>, entry: Json) {
    if Field(entry, "any").Some? && Field(entry, "any").value.Arr? then
      var items := Field(entry, "any").value.items;
      |rows| == |items| && forall i :: 0 <= i < |items| ==> IsRowFrom(cat, rows[i], items[i], Any)
    else |rows| == 1 && IsRowFrom(cat, rows[0], entry, All)
  }

  lemma EntryRowsAreFrom(cat: Catalog, entry: Json)
    requires CatalogOk(cat)
    ensures AreRowsFrom(cat, RowsOfEntry(cat, entry), entry)
  {
    if IsGroup(entry) {
      var items := GroupItems(entry);
      forall i | 0 <= i < |items| ensures IsRowFrom(cat, RowsOfEntry(cat, entry)[i], items[i], Any) {
        RowIsFrom(cat, items[i], Any);
      }
    } else {
      RowIsFrom(cat, entry, All);
    }
  }

  /** Wherever an entry stands in the root list, its rows stand between those of the entries before and after it. */
  lemma RowsAreRead(cat: Catalog, before: seq<Json>, entry: Json, after: seq<Json>) returns (own: seq<Row>)
    requires CatalogOk(cat)
    ensures RowsOf(cat, []) == []
    ensures RowsOf(cat, before + [entry] + after) == RowsOf(cat, before) + own + RowsOf(cat, after)
    ensures AreRowsFrom(cat, own, entry)
  {
    own := RowsOfEntry(cat, entry);
    RowsOfAppend(cat, before + [entry], after);
    RowsOfSnoc(cat, before, entry);
    EntryRowsAreFrom(cat, entry);
  }

  // ---- which definitions throw ----

  /** String() of an object is the same text for all of them, and throws if the object has a toString of its own. */
  lemma ObjectText(fields: map<string, Json>)
    ensures TextOf(Obj(fields)) == "[object Object]"
    ensures HasText(Obj(fields)) <==> "toString" !in fields
  {
  }

  /** String() throws: the value is such an object, or an array with such an item at any depth. */
  ghost predicate NoText(v: Json) {
    match v
    case Obj(fields) => "toString" in fields
    case Arr(items) => exists i :: 0 <= i < |items| && NoText(items[i])
    case _ => false
  }

  lemma {:induction false} NoTextExactly(v: Json)
    ensures NoText(v) <==> !HasText(v)
    decreases v
  {
    if v.Arr? {
      forall i | 0 <= i < |v.items| ensures NoText(v.items[i]) <==> !HasText(v.items[i]) { NoTextExactly(v.items[i]); }
    }
  }

  /** The value stands where a number is stored. */
  ghost predicate AtNumber(d: Json, v: Json) {
    || FieldOf(Field(d, "benefit"), "credits") == Some(v)
    || FieldOf(Field(d, "benefit"), "expiresInDays") == Some(v)
    || (exists name :: name in LIMIT_NAMES && FieldOf(Field(d, "limits"), name) == Some(v))
    || Field(d, "priority") == Some(v)
  }

  const LIMIT_NAMES := {"maxRedemptionsPerProvider", "maxRedemptionsGlobal", "maxRedemptionsPerDay", "budgetCredits", "maxRevokesPerDay"}

  /** The value is one of the stored facts. */
  ghost predicate AtFact(d: Json, v: Json) {
    var stored := FieldOf(Field(d, "eligibility"), "facts");
    stored.Some? && stored.value.Arr? && v in stored.value.items
  }

  /** The value is an entry of the root list, or an alternative of one that is a group. */
  ghost predicate AtCondition(d: Json, c: Json) {
    var stored := FieldOf(Field(d, "conditions"), "all");
    && stored.Some? && stored.value.Arr?
    && exists e :: e in stored.value.items
         && match Field(e, "any")
            case Some(Arr(alternatives)) => c in alternatives
            case _ => c == e
  }

  /** The value is stored for an argument of a condition, under a type the reader knows; a choice of several only counts as a list. */
  ghost predicate AtArgument(cat: Catalog, c: Json, v: Json) {
    exists entry :: entry in ArgumentSpecsOf(cat, KindOf(cat, c))
                    && Field(c, entry.name) == Some(v) && (entry.spec.EnumListArg? ==> v.Arr?)
  }

  lemma StringReadsExactly(v: Option<Json>)
    ensures StringReads(v) <==> forall w :: v == Some(w) ==> !NoText(w)
  {
    if v.Some? { NoTextExactly(v.value); }
  }

  lemma NumbersReadExactly(d: Json)
    ensures NumbersRead(d) <==> forall v :: AtNumber(d, v) ==> !NoText(v)
  {
    var benefit, limits := Field(d, "benefit"), Field(d, "limits");
    StringReadsExactly(FieldOf(benefit, "credits"));
    StringReadsExactly(FieldOf(benefit, "expiresInDays"));
    StringReadsExactly(Field(d, "priority"));
    forall name
      ensures StringReads(FieldOf(limits, name)) <==> forall w :: FieldOf(limits, name) == Some(w) ==> !NoText(w)
      ensures FieldOf(limits, name).Some? && name in LIMIT_NAMES ==> AtNumber(d, FieldOf(limits, name).value)
    {
      StringReadsExactly(FieldOf(limits, name));
    }
    assert FieldOf(benefit, "credits").Some? ==> AtNumber(d, FieldOf(benefit, "credits").value);
    assert FieldOf(benefit, "expiresInDays").Some? ==> AtNumber(d, FieldOf(benefit, "expiresInDays").value);
    assert Field(d, "priority").Some? ==> AtNumber(d, Field(d, "priority").value);
    LimitsRead(d);
  }

  lemma LimitsRead(d: Json)
    ensures NumbersRead(d) <==>
              && StringReads(FieldOf(Field(d, "benefit"), "credits")) && StringReads(FieldOf(Field(d, "benefit"), "expiresInDays"))
              && (forall name :: name in LIMIT_NAMES ==> StringReads(FieldOf(Field(d, "limits"), name)))
              && StringReads(Field(d, "priority"))
  {
  }

  lemma FactsReadExactly(d: Json)
    ensures AllHaveText(StoredFacts(d)) <==> forall v :: AtFact(d, v) ==> !NoText(v)
  {
    forall v ensures NoText(v) <==> !HasText(v) { NoTextExactly(v); }
    assert forall i :: 0 <= i < |StoredFacts(d)| ==> AtFact(d, StoredFacts(d)[i]);
  }

  lemma ConditionReadsExactly(cat: Catalog, c: Json)
    ensures ConditionReads(cat, c) <==> forall v :: AtArgument(cat, c, v) ==> !NoText(v)
  {
    var entries := ArgumentSpecsOf(cat, KindOf(cat, c));
    forall i | 0 <= i < |entries|
      ensures var raw := Field(c, entries[i].name);
              raw.Some? && (entries[i].spec.EnumListArg? ==> raw.value.Arr?) ==> AtArgument(cat, c, raw.value)
      ensures ArgumentReads(entries[i].spec, Field(c, entries[i].name))
              <==> forall v :: Field(c, entries[i].name) == Some(v) && (entries[i].spec.EnumListArg? ==> v.Arr?) ==> !NoText(v)
    {
      assert entries[i] in entries;
      StringReadsExactly(Field(c, entries[i].name));
    }
  }

  lemma EntryReadsExactly(cat: Catalog, e: Json)
    ensures EntryReads(cat, e) <==>
              match Field(e, "any")
              case Some(Arr(alternatives)) => forall c :: c in alternatives ==> ConditionReads(cat, c)
              case _ => ConditionReads(cat, e)
  {
    if IsGroup(e) {
      assert forall i :: 0 <= i < |GroupItems(e)| ==> GroupItems(e)[i] in GroupItems(e);
    }
  }

  lemma ConditionsReadExactly(cat: Catalog, d: Json)
    ensures EntriesRead(cat, RootEntries(d)) <==> forall c :: AtCondition(d, c) ==> ConditionReads(cat, c)
  {
    var entries := RootEntries(d);
    assert forall i :: 0 <= i < |entries| ==> entries[i] in entries;
    forall e ensures EntryReads(cat, e) <==>
              match Field(e, "any")
              case Some(Arr(alternatives)) => forall c :: c in alternatives ==> ConditionReads(cat, c)
              case _ => ConditionReads(cat, e)
    {
      EntryReadsExactly(cat, e);
    }
  }

  /** The reader turns the value into a text: it stands for a number, a fact or an argument of a condition. */
  ghost predicate ReadAsText(cat: Catalog, d: Json, v: Json) {
    AtNumber(d, v) || AtFact(d, v) || exists c :: AtCondition(d, c) && AtArgument(cat, c, v)
  }

  /** Reading throws exactly when a value that is turned into a text has none. */
  lemma ThrowsExactly(cat: Catalog, d: Json)
    ensures !Readable(cat, d) <==> exists v :: ReadAsText(cat, d, v) && NoText(v)
  {
    NumbersReadExactly(d);
    FactsReadExactly(d);
    ConditionsReadExactly(cat, d);
    if !Readable(cat, d) {
      Thrower(cat, d);
    }
    forall c ensures ConditionReads(cat, c) <==> forall v :: AtArgument(cat, c, v) ==> !NoText(v) { ConditionReadsExactly(cat, c); }
  }

  lemma Thrower(cat: Catalog, d: Json)
    requires !Readable(cat, d)
    ensures exists v :: ReadAsText(cat, d, v) && NoText(v)
  {
    NumbersReadExactly(d);
    FactsReadExactly(d);
    ConditionsReadExactly(cat, d);
    if v :| AtNumber(d, v) && NoText(v) {
      assert ReadAsText(cat, d, v);
    } else if v :| AtFact(d, v) && NoText(v) {
      assert ReadAsText(cat, d, v);
    } else {
      var c :| AtCondition(d, c) && !ConditionReads(cat, c);
      ConditionReadsExactly(cat, c);
      var v :| AtArgument(cat, c, v) && NoText(v);
      assert ReadAsText(cat, d, v);
    }
  }

  // ---- what each field prints ----

  lemma {:induction false} LeadingZeros(zeros: string, s: string)
    requires AllDigits(s) && forall k :: 0 <= k < |zeros| ==> zeros[k] == '0'
    ensures AllDigits(zeros + s) && Value(zeros + s) == Value(s)
    decreases |zeros|
  {
    if zeros == "" {
      assert zeros + s == s;
    } else {
      assert (zeros + s)[1..] == zeros[1..] + s && (zeros + s)[0] == '0';
      LeadingZeros(zeros[1..], s);
      ValueIgnoresLeadingZero(zeros + s);
    }
  }

  lemma SafeIsPrinted(front: string, typed: string, back: string)
    requires Blank(front) && Blank(back) && Trimmed(typed) && IsIntegerText(typed) && Magnitude(IntegerOf(typed)) < PRECISION
    ensures NumberOrRaw(front + typed + back) == Number(IntegerOf(typed))
  {
    TrimIsMiddle(front, typed, back);
    SafeNumberIsStable(front + typed + back);
  }

  /** A safe whole number, with leading zeros and white space around it, is printed as that number. */
  lemma WholeIsPrinted(front: string, zeros: string, n: nat, back: string)
    requires Blank(front) && Blank(back) && n < PRECISION
    requires forall k :: 0 <= k < |zeros| ==> zeros[k] == '0'
    ensures NumberOrRaw(front + (zeros + Decimal(n)) + back) == Number(n)
    ensures NumberOrRaw(front + ("-" + (zeros + Decimal(n))) + back) == Number(0 - n)
  {
    var digits := zeros + Decimal(n);
    LeadingZeros(zeros, Decimal(n));
    ValueOfDecimal(n);
    SignedDigits(digits);
    SafeIsPrinted(front, digits, back);
    SafeIsPrinted(front, "-" + digits, back);
  }

  lemma SignedDigits(digits: string)
    requires digits != "" && AllDigits(digits)
    ensures Trimmed(digits) && IsIntegerText(digits) && IntegerOf(digits) == Value(digits)
    ensures Trimmed("-" + digits) && IsIntegerText("-" + digits) && IntegerOf("-" + digits) == 0 - Value(digits)
  {
    var signed := "-" + digits;
    assert signed[1..] == digits && IsDigit(digits[0]) && IsDigit(digits[|digits| - 1]);
    assert signed[|signed| - 1] == digits[|digits| - 1] && signed[0] == '-';
  }

  /** Nothing but white space prints null, and whatever holds a character that is no digit, sign aside, prints itself. */
  lemma OtherIsPrinted(front: string, s: string, back: string, k: nat)
    requires Blank(front) && Blank(back) && Trimmed(s) && k < |s|
    requires !IsDigit(s[k]) && (k == 0 ==> s[0] != '-' || |s| == 1)
    ensures NumberOrRaw(front + s + back) == Str(s)
    ensures NumberOrRaw(front + back) == Null && InstantOrRaw(front + back) == Null
  {
    TrimIsMiddle(front, s, back);
    TrimIsMiddle(front, "", back);
    assert front + "" + back == front + back;
    assert k > 0 ==> s[1..][k - 1] == s[k];
  }

  /** A wall time is printed as that minute in UTC, and any other text as it is. */
  lemma WallTimeIsPrinted(front: string, s: string, back: string)
    requires Blank(front) && Blank(back) && Trimmed(s) && s != ""
    ensures InstantOrRaw(front + s + back) == Str(if IsMinute(s) then s + ":00Z" else s)
  {
    TrimIsMiddle(front, s, back);
  }

  lemma {:induction false} NonEmptyAppends(a: seq<string>, b: seq<string>)
    ensures NonEmpty(a + b) == NonEmpty(a) + NonEmpty(b)
    decreases |a|
  {
    if a == [] {
      assert a + b == b;
    } else {
      assert (a + b)[1..] == a[1..] + b && (a + b)[0] == a[0];
      NonEmptyAppends(a[1..], b);
    }
  }

  lemma OneOrNone(piece: string)
    ensures NonEmpty([piece]) == if piece == "" then [] else [piece]
  {
    assert [piece][1..] == [] && NonEmpty([]) == [];
  }

  lemma TrimOneMore(first: string, pieces: seq<string>)
    ensures TrimAll([first]) == [Trim(first)]
    ensures TrimAll([first] + pieces) == [Trim(first)] + TrimAll(pieces)
  {
  }

  /** The items of a typed list: the text up to a comma without the white space around it, if any is left, then the rest's. */
  lemma TypedListIsRead(first: string, rest: string)
    requires Free(first, ',')
    ensures var item := if Trim(first) == "" then [] else [Trim(first)];
            && ListArgument(Some(TextInput(first))) == item
            && ListArgument(Some(TextInput(first + [','] + rest))) == item + ListArgument(Some(TextInput(rest)))
  {
    var pieces, word := Split(rest, ','), Trim(first);
    SplitWhole(first, ',');
    SplitFirst(first, ',', rest);
    TrimOneMore(first, pieces);
    NonEmptyAppends([word], TrimAll(pieces));
    OneOrNone(word);
  }

  /** What an argument of a condition prints from what was typed or chosen. */
  ghost predicate IsArgumentFrom(v: Json, spec: ArgSpec, raw: Option<ArgInput>) {
    match spec
    case IntegerArg =>
      match raw { case Some(TextInput(text)) => v == NumberOrRaw(text) case _ => v == Null }
    case EnumArg(values) =>
      && ((raw == None || raw.value.ListInput? || raw.value.text == "") && |values| == 1 ==> v == Str(values[0]))
      && (|values| != 1 && raw == None ==> v == Null)
      && forall text :: raw == Some(TextInput(text)) && (text != "" || |values| != 1) ==> v == Str(text)
    case _ =>
      && (raw == None ==> v == Arr([]))
      && (forall items :: raw == Some(ListInput(items)) ==> v == Arr(Strings(items)))
      && forall text :: raw == Some(TextInput(text)) ==> v == Arr(Strings(ListArgument(raw)))
  }

  /** Each argument of a row's type is printed under its name, from what stands in the row under that name. */
  lemma ArgumentsArePrinted(cat: Catalog, row: Row)
    requires CatalogOk(cat)
    ensures var entries, d := ArgumentSpecsOf(cat, row.kind), Condition(cat, row);
            && Field(d, "type") == Some(Str(row.kind))
            && forall i :: 0 <= i < |entries| ==>
                 && Field(d, entries[i].name).Some?
                 && IsArgumentFrom(Field(d, entries[i].name).value, entries[i].spec,
                                   if entries[i].name in row.args then Some(row.args[entries[i].name]) else None)
  {
    var entries := ArgumentSpecsOf(cat, row.kind);
    ConditionHead(cat, row);
    forall i | 0 <= i < |entries|
      ensures Field(Condition(cat, row), entries[i].name).Some?
      ensures IsArgumentFrom(Field(Condition(cat, row), entries[i].name).value, entries[i].spec, Raw(row, entries[i].name))
    {
      ArgumentAt(cat, row, entries, i);
      ArgumentIsFrom(entries[i].spec, Raw(row, entries[i].name));
    }
  }

  lemma ArgumentAt(cat: Catalog, row: Row, entries: seq<ArgEntry>, i: nat)
    requires CatalogOk(cat) && entries == ArgumentSpecsOf(cat, row.kind) && i < |entries|
    ensures Field(Condition(cat, row), entries[i].name) == Some(ArgumentJson(entries[i].spec, Raw(row, entries[i].name)))
  {
    ArgumentFieldsAt(entries, row);
  }

  lemma ArgumentIsFrom(spec: ArgSpec, raw: Option<ArgInput>)
    ensures IsArgumentFrom(ArgumentJson(spec, raw), spec, raw)
  {
  }

  lemma PlainIsPrinted(n: nat)
    requires n < PRECISION
    ensures NumberOrRaw(Decimal(n)) == Number(n)
  {
    WholeIsPrinted("", "", n, "");
    assert "" + ("" + Decimal(n)) + "" == Decimal(n);
  }

  lemma BlankIsPrinted()
    ensures NumberOrRaw("") == Null && InstantOrRaw("") == Null
  {
    TrimIsTrimmed("");
  }

  lemma NoRowsPrinted(cat: Catalog, group: Json)
    ensures RootList(cat, [], group) == []
  {
    assert Only([], All) == [];
  }

  lemma SectionsArePrinted(cat: Catalog, form: Form, d: Json)
    requires form.conditions == [] && d == Definition(cat, form)
    ensures PrintsHeads(cat, form, [], d)
    ensures Field(d, "benefit") == Some(BenefitJson(cat, form))
    ensures Field(d, "limits") == Some(LimitsJson(form)) && Field(d, "window") == Some(WindowJson(form))
  {
    NoRowsPrinted(cat, AnyGroup(cat, form.conditions));
    DraftHeads(cat, form, []);
    DraftSections(cat, form, []);
  }

  /** A benefit, limits and a window in which nothing but the two preset numbers was typed. */
  lemma PresetsArePrinted(cat: Catalog, form: Form)
    requires form.expiresInDays == Decimal(30) && form.maxRedemptionsPerProvider == Decimal(1)
    requires form.credits == form.maxRedemptionsGlobal == form.maxRedemptionsPerDay == form.budgetCredits == ""
    requires form.maxRevokesPerDay == form.windowStartAt == form.windowEndAt == ""
    ensures var benefit, limits, window := BenefitJson(cat, form), LimitsJson(form), WindowJson(form);
            && Field(benefit, "credits") == Some(Null) && Field(benefit, "expiresInDays") == Some(Number(30))
            && Field(limits, "maxRedemptionsPerProvider") == Some(Number(1))
            && (forall name :: name in {"maxRedemptionsGlobal", "maxRedemptionsPerDay", "budgetCredits", "maxRevokesPerDay"} ==>
                  Field(limits, name) == Some(Null))
            && Field(window, "startAt") == Some(Null) && Field(window, "endAt") == Some(Null)
  {
    BlankIsPrinted();
    PlainIsPrinted(30);
    PresetLimits(form);
  }

  lemma PresetLimits(form: Form)
    requires form.maxRedemptionsPerProvider == Decimal(1) && NumberOrRaw("") == Null
    requires form.maxRedemptionsGlobal == form.maxRedemptionsPerDay == form.budgetCredits == form.maxRevokesPerDay == ""
    ensures Field(LimitsJson(form), "maxRedemptionsPerProvider") == Some(Number(1))
    ensures forall name :: name in {"maxRedemptionsGlobal", "maxRedemptionsPerDay", "budgetCredits", "maxRevokesPerDay"} ==>
              Field(LimitsJson(form), name) == Some(Null)
  {
    PlainIsPrinted(1);
  }

  lemma PresetTexts()
    ensures Decimal(30) == "30" && Decimal(1) == "1"
  {
  }

  /** A new form prints one redemption per provider, thirty days, the default choices, and no other number, instant or row. */
  lemma NewFormPrints(cat: Catalog, form: Form)
    requires form == EmptyForm(cat)
    ensures var d := Definition(cat, form); var benefit, limits, window := Field(d, "benefit"), Field(d, "limits"), Field(d, "window");
            && Field(d, "trigger") == Some(Str("PACKAGE_PAYMENT_SUCCEEDED"))
            && Field(d, "channel") == Some(Str(cat.defaultChannel))
            && FieldOf(Field(d, "conditions"), "all") == Some(Arr([]))
            && FieldOf(benefit, "credits") == Some(Null)
            && FieldOf(benefit, "expiresInDays") == Some(Number(30))
            && FieldOf(limits, "maxRedemptionsPerProvider") == Some(Number(1))
            && (forall name :: name in {"maxRedemptionsGlobal", "maxRedemptionsPerDay", "budgetCredits", "maxRevokesPerDay"} ==>
                  FieldOf(limits, name) == Some(Null))
            && FieldOf(window, "startAt") == Some(Null) && FieldOf(window, "endAt") == Some(Null)
            && (0 <= cat.defaultPriority < PRECISION ==> Field(d, "priority") == Some(Number(cat.defaultPriority)))
  {
    PresetTexts();
    SectionsArePrinted(cat, form, Definition(cat, form));
    PresetsArePrinted(cat, form);
    if 0 <= cat.defaultPriority < PRECISION {
      SafeIsPrintedPlainly(cat.defaultPriority);
      PlainIsPrinted(cat.defaultPriority);
    }
  }
}
