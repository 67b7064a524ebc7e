/**
 The whole campaign form: printing, reading back, printing again
 (apps/admin/lib/campaign-rules.ts, packages/shared/campaign-rules.json).
 */
module CampaignForms {
  import opened JavaScriptNumbers
  import opened Options
  import opened Text
  import opened JsonValues
  import opened CampaignRules
  import opened CampaignRoundTrip

  predicate KnownFactList(cat: Catalog, facts: seq<Json>) {
    forall i :: 0 <= i < |facts| ==> facts[i].Str? && facts[i].s in cat.facts
  }

  /** What the form's TypeScript type promises: every choice is one the catalogue lists. */
  predicate WellTyped(cat: Catalog, form: Form) {
    && form.trigger in cat.triggers
    && KnownFactList(cat, form.facts)
    && KnownKinds(cat, form.conditions)
    && form.channel in cat.channels
    && form.spendPriority in cat.spendPriorities
    && form.adminDeductPolicy in cat.adminDeductPolicies
  }

  /** Every number field holds something that prints the same after being read back. */
  predicate StableNumbers(form: Form) {
    && StableNumber(form.credits) && StableNumber(form.expiresInDays)
    && StableLimits(form) && StableNumber(form.priority)
  }

  predicate StableLimits(form: Form) {
    && StableNumber(form.maxRedemptionsPerProvider) && StableNumber(form.maxRedemptionsGlobal)
    && StableNumber(form.maxRedemptionsPerDay) && StableNumber(form.budgetCredits) && StableNumber(form.maxRevokesPerDay)
  }

  predicate StableWindow(form: Form) {
    StableInstant(form.windowStartAt) && StableInstant(form.windowEndAt)
  }

  /** The fields a round trip can change: numbers from 10^21 on, two instants, and the arguments of the rows. */
  predicate Stable(cat: Catalog, form: Form) {
    StableNumbers(form) && StableWindow(form) && StableRows(cat, form.conditions)
  }

  function Again(cat: Catalog, form: Form): Form {
    Parsed(cat, Definition(cat, form))
  }

  lemma {:induction false} KnownFactsKeepsAll(cat: Catalog, facts: seq<Json>)
    requires KnownFactList(cat, facts)
    ensures KnownFacts(cat, facts) == facts
    decreases |facts|
  {
    if facts != [] {
      KnownFactsKeepsAll(cat, facts[..|facts| - 1]);
    }
  }

  // ---- the sections of a printed definition ----

  ghost predicate PrintsHeads(cat: Catalog, form: Form, all: seq<Json>, d: Json) {
    && Field(d, "trigger") == Some(Str(form.trigger))
    && Field(d, "conditions") == Some(Obj(map["all" := Arr(all)]))
    && Field(d, "priority") == Some(NumberOrRaw(form.priority))
    && Field(d, "channel") == Some(Str(form.channel))
    && Field(d, "eligibility")
       == if form.trigger == cat.eligibilityTrigger then Some(Obj(map["facts" := Arr(form.facts)])) else None
  }

  ghost predicate PrintsBenefit(cat: Catalog, form: Form, b: Option<Json>) {
    && FieldOf(b, "credits") == Some(NumberOrRaw(form.credits))
    && FieldOf(b, "expiresInDays") == Some(NumberOrRaw(form.expiresInDays))
    && var policy := FieldOf(b, "creditPolicy");
       if BenefitProducesCredit(cat, cat.benefitType) then
         && FieldOf(policy, "spendPriority") == Some(Str(form.spendPriority))
         && FieldOf(policy, "adminDeductPolicy") == Some(Str(form.adminDeductPolicy))
       else policy == None
  }

  ghost predicate PrintsLimits(form: Form, l: Option<Json>) {
    && FieldOf(l, "maxRedemptionsPerProvider") == Some(NumberOrRaw(form.maxRedemptionsPerProvider))
    && FieldOf(l, "maxRedemptionsGlobal") == Some(NumberOrRaw(form.maxRedemptionsGlobal))
    && FieldOf(l, "maxRedemptionsPerDay") == Some(NumberOrRaw(form.maxRedemptionsPerDay))
    && FieldOf(l, "budgetCredits") == Some(NumberOrRaw(form.budgetCredits))
    && FieldOf(l, "maxRevokesPerDay") == Some(NumberOrRaw(form.maxRevokesPerDay))
  }

  ghost predicate PrintsWindow(form: Form, w: Option<Json>) {
    && FieldOf(w, "startAt") == Some(InstantOrRaw(form.windowStartAt))
    && FieldOf(w, "endAt") == Some(InstantOrRaw(form.windowEndAt))
  }

  lemma DraftHeads(cat: Catalog, form: Form, all: seq<Json>)
    ensures PrintsHeads(cat, form, all, Draft(cat, form, all))
  {
  }

  lemma DraftSections(cat: Catalog, form: Form, all: seq<Json>)
    ensures var d := Draft(cat, form, all);
            && Field(d, "benefit") == Some(BenefitJson(cat, form))
            && Field(d, "limits") == Some(LimitsJson(form))
            && Field(d, "window") == Some(WindowJson(form))
  {
  }

  lemma BenefitFields(cat: Catalog, form: Form)
    ensures PrintsBenefit(cat, form, Some(BenefitJson(cat, form)))
  {
  }

  lemma LimitsFields(form: Form)
    ensures PrintsLimits(form, Some(LimitsJson(form)))
  {
  }

  /** A numeric field as it reads after a round trip. */
  function NumberAgain(text: string): string {
    StringOf(Some(NumberOrRaw(text)))
  }

  function InstantAgain(text: string): string {
    InstantToLocalInput(Some(InstantOrRaw(text)))
  }

  /** What a round trip makes of a form, field by field. */
  function NormalForm(cat: Catalog, form: Form): Form {
    var credit := BenefitProducesCredit(cat, cat.benefitType);
    Form(
      form.trigger,
      if form.trigger == cat.eligibilityTrigger then form.facts else [],
      NormalRows(cat, Regrouped(form.conditions)),
      NumberAgain(form.credits),
      NumberAgain(form.expiresInDays),
      NumberAgain(form.maxRedemptionsPerProvider),
      NumberAgain(form.maxRedemptionsGlobal),
      NumberAgain(form.maxRedemptionsPerDay),
      NumberAgain(form.budgetCredits),
      NumberAgain(form.maxRevokesPerDay),
      InstantAgain(form.windowStartAt),
      InstantAgain(form.windowEndAt),
      NumberAgain(form.priority),
      form.channel,
      if credit then form.spendPriority else cat.defaultSpendPriority,
      if credit then form.adminDeductPolicy else cat.defaultAdminDeductPolicy)
  }

  lemma PlainFieldsOf(cat: Catalog, form: Form, all: seq<Json>, d: Json)
    requires WellTyped(cat, form)
    requires PrintsHeads(cat, form, all, d)
    requires PrintsBenefit(cat, form, Field(d, "benefit"))
    requires PrintsLimits(form, Field(d, "limits"))
    requires PrintsWindow(form, Field(d, "window"))
    ensures PlainFields(cat, d) == NormalForm(cat, form).(conditions := [])
  {
    KnownFactsKeepsAll(cat, form.facts);
  }

  lemma PlainFieldsAgain(cat: Catalog, form: Form, all: seq<Json>)
    requires WellTyped(cat, form)
    ensures PlainFields(cat, Draft(cat, form, all)) == NormalForm(cat, form).(conditions := [])
  {
    DraftHeads(cat, form, all);
    DraftSections(cat, form, all);
    BenefitFields(cat, form);
    LimitsFields(form);
    PlainFieldsOf(cat, form, all, Draft(cat, form, all));
  }

  /**
   A form printed and read back: its plain fields normalised, and its rows all there, the "any"
   rows together at the first one's place, each with the same condition and group.
   */
  lemma ReadsBackNormalised(cat: Catalog, form: Form)
    requires CatalogOk(cat) && WellTyped(cat, form)
    ensures Again(cat, form) == NormalForm(cat, form)
  {
    var all := RootList(cat, form.conditions, AnyGroup(cat, form.conditions));
    DraftHeads(cat, form, all);
    PlainFieldsAgain(cat, form, all);
    RowsComeBack(cat, form.conditions);
  }

  // ---- printing again ----

  lemma BenefitAgain(cat: Catalog, form: Form)
    ensures BenefitJson(cat, NormalForm(cat, form)) == BenefitJson(cat, form)
            <==> StableNumber(form.credits) && StableNumber(form.expiresInDays)
  {
    NumberRoundTrip(form.credits);
    NumberRoundTrip(form.expiresInDays);
    BenefitFields(cat, form);
    BenefitFields(cat, NormalForm(cat, form));
  }

  lemma LimitsAgain(cat: Catalog, form: Form)
    ensures LimitsJson(NormalForm(cat, form)) == LimitsJson(form) <==> StableLimits(form)
  {
    NumberRoundTrip(form.maxRedemptionsPerProvider);
    NumberRoundTrip(form.maxRedemptionsGlobal);
    NumberRoundTrip(form.maxRedemptionsPerDay);
    NumberRoundTrip(form.budgetCredits);
    NumberRoundTrip(form.maxRevokesPerDay);
    LimitsFields(form);
    LimitsFields(NormalForm(cat, form));
  }

  lemma WindowAgain(cat: Catalog, form: Form)
    ensures WindowJson(NormalForm(cat, form)) == WindowJson(form)
            <==> StableInstant(form.windowStartAt) && StableInstant(form.windowEndAt)
  {
    InstantRoundTrip(form.windowStartAt);
    InstantRoundTrip(form.windowEndAt);
    var was, again := WindowJson(form).fields, WindowJson(NormalForm(cat, form)).fields;
    assert was["startAt"] == InstantOrRaw(form.windowStartAt) && was["endAt"] == InstantOrRaw(form.windowEndAt);
    assert again["startAt"] == InstantOrRaw(InstantAgain(form.windowStartAt));
    assert again["endAt"] == InstantOrRaw(InstantAgain(form.windowEndAt));
  }

  /** Two drafts of one trigger and channel are equal exactly when each of their sections is. */
  lemma DraftsAgree(cat: Catalog, f: Form, g: Form, all: seq<Json>, also: seq<Json>)
    requires g.trigger == f.trigger && g.channel == f.channel
    requires f.trigger == cat.eligibilityTrigger ==> g.facts == f.facts
    ensures Draft(cat, g, also) == Draft(cat, f, all)
            <==> && BenefitJson(cat, g) == BenefitJson(cat, f) && LimitsJson(g) == LimitsJson(f)
                 && NumberOrRaw(g.priority) == NumberOrRaw(f.priority)
                 && WindowJson(g) == WindowJson(f) && also == all
  {
    if Draft(cat, g, also) == Draft(cat, f, all) {
      DraftHeads(cat, f, all);
      DraftHeads(cat, g, also);
      DraftSections(cat, f, all);
      DraftSections(cat, g, also);
      assert map["all" := Arr(all)]["all"] == Arr(all);
      assert map["all" := Arr(also)]["all"] == Arr(also);
    }
  }

  /** Two drafts of one form and its normal form are equal exactly when the plain fields and the root lists are. */
  lemma SectionsAgree(cat: Catalog, form: Form, all: seq<Json>, also: seq<Json>)
    ensures Draft(cat, NormalForm(cat, form), also) == Draft(cat, form, all)
            <==> StableNumbers(form) && StableWindow(form) && also == all
  {
    BenefitAgain(cat, form);
    LimitsAgain(cat, form);
    NumberRoundTrip(form.priority);
    WindowAgain(cat, form);
    DraftsAgree(cat, form, NormalForm(cat, form), all, also);
  }

  /**
   The definition a form prints survives being read back and printed again exactly when its numbers,
   its two instants and its rows' arguments are stable.
   */
  lemma DefinitionRoundTrip(cat: Catalog, form: Form)
    requires CatalogOk(cat) && WellTyped(cat, form)
    ensures Definition(cat, Again(cat, form)) == Definition(cat, form) <==> Stable(cat, form)
  {
    var again := NormalForm(cat, form);
    ReadsBackNormalised(cat, form);
    RootListRoundTrip(cat, form.conditions);
    SectionsAgree(cat, form, RootList(cat, form.conditions, AnyGroup(cat, form.conditions)),
                  RootList(cat, again.conditions, AnyGroup(cat, again.conditions)));
  }

  // ---- the second round trip ----

  lemma InstantAgainStable(text: string)
    ensures StableInstant(InstantAgain(text))
  {
    var t := Trim(text);
    TrimIsTrimmed(text);
    TrimIsTrimmed("");
    if IsMinute(t) {
      assert (t + ":00Z")[..16] == t;
      MinuteIsTrimmed(t);
    } else if |t| >= 16 && IsMinute(t[..16]) {
      MinuteIsTrimmed(t[..16]);
    }
  }

  /** A number field read back once holds a text that stays as it is. */
  lemma NumberAgainStable(text: string)
    ensures StableNumber(NumberAgain(text))
  {
    var t := Trim(text);
    TrimIsTrimmed(text);
    TrimIsTrimmed("");
    if t != "" && IsIntegerText(t) {
      WholeNumberAgainStable(IntegerOf(t));
    }
  }

  lemma WholeNumberAgainStable(v: int)
    ensures StableNumber(StringOf(Some(NumberOf(v))))
  {
    var d := Double(v);
    var text := StringOf(Some(NumberOf(v)));
    SignedDoubleStays(v);
    if Magnitude(d) < EXPONENT_FROM {
      PlainNumberReads(d);
      IntegerIsTrimmed(text);
    } else if Magnitude(d) < OVERFLOW {
      ExponentIsRaw(d);
    } else {
      InfinityIsRaw(d < 0);
    }
  }

  lemma NormalFormStable(cat: Catalog, form: Form)
    requires CatalogOk(cat) && WellTyped(cat, form)
    ensures Stable(cat, NormalForm(cat, form))
  {
    NumberAgainStable(form.credits);
    NumberAgainStable(form.expiresInDays);
    NumberAgainStable(form.maxRedemptionsPerProvider);
    NumberAgainStable(form.maxRedemptionsGlobal);
    NumberAgainStable(form.maxRedemptionsPerDay);
    NumberAgainStable(form.budgetCredits);
    NumberAgainStable(form.maxRevokesPerDay);
    NumberAgainStable(form.priority);
    InstantAgainStable(form.windowStartAt);
    InstantAgainStable(form.windowEndAt);
    NormalRowsStable(cat, form.conditions);
  }

  lemma ArgumentAgainStable(spec: ArgSpec, json: Json)
    requires spec.IntegerArg? ==> exists text :: json == NumberOrRaw(text)
    ensures StableArgument(spec, Some(ArgumentInput(spec, Some(json))))
  {
    if spec.IntegerArg? {
      var text :| json == NumberOrRaw(text);
      NumberAgainStable(text);
    }
  }

  lemma NormalRowStable(cat: Catalog, row: Row)
    requires CatalogOk(cat) && KnownKind(cat, row)
    ensures KnownKind(cat, NormalRow(cat, row)) && StableRow(cat, NormalRow(cat, row))
  {
    NormalRowMeaning(cat, row);
    var entries := ArgumentSpecsOf(cat, row.kind);
    forall i | 0 <= i < |entries|
      ensures StableArgument(entries[i].spec, Raw(NormalRow(cat, row), entries[i].name))
    {
      var raw := Raw(row, entries[i].name);
      if entries[i].spec.IntegerArg? {
        assert ArgumentJson(entries[i].spec, raw) == NumberOrRaw(if raw.Some? && raw.value.TextInput? then raw.value.text else "");
      }
      ArgumentAgainStable(entries[i].spec, ArgumentJson(entries[i].spec, raw));
    }
  }

  lemma NormalListStable(cat: Catalog, rows: seq<Row>)
    requires CatalogOk(cat) && KnownKinds(cat, rows)
    ensures KnownKinds(cat, NormalRows(cat, rows)) && StableRows(cat, NormalRows(cat, rows))
  {
    forall i | 0 <= i < |rows|
      ensures KnownKind(cat, NormalRows(cat, rows)[i]) && StableRow(cat, NormalRows(cat, rows)[i])
    {
      NormalRowStable(cat, rows[i]);
    }
  }

  lemma RegroupedKnown(cat: Catalog, rows: seq<Row>)
    requires KnownKinds(cat, rows)
    ensures KnownKinds(cat, Regrouped(rows))
  {
    RegroupedKeepsRows(rows);
    forall i | 0 <= i < |Regrouped(rows)|
      ensures KnownKind(cat, Regrouped(rows)[i])
    {
      assert Regrouped(rows)[i] in multiset(rows);
    }
  }

  lemma NormalRowsStable(cat: Catalog, rows: seq<Row>)
    requires CatalogOk(cat) && KnownKinds(cat, rows)
    ensures KnownKinds(cat, NormalRows(cat, Regrouped(rows))) && StableRows(cat, NormalRows(cat, Regrouped(rows)))
  {
    RegroupedKnown(cat, rows);
    NormalListStable(cat, Regrouped(rows));
  }

  /** Whatever was typed, a form that has been read back once prints a definition that stays as it is. */
  lemma SecondRoundTripIsIdentity(cat: Catalog, form: Form)
    requires CatalogOk(cat) && WellTyped(cat, form)
    ensures var once := Again(cat, form);
            Definition(cat, Again(cat, once)) == Definition(cat, once)
  {
    ReadsBackNormalised(cat, form);
    NormalRowsStable(cat, form.conditions);
    NormalFormStable(cat, form);
    DefinitionRoundTrip(cat, NormalForm(cat, form));
  }

  // ---- the shipped catalogue ----

  const SHIPPED := Catalog(
    map[
      "FIRST_PROVIDER_APPROVAL" := [],
      "EMAIL_VERIFIED" := [],
      "PHONE_VERIFIED" := [],
      "FIRST_SUCCESSFUL_PAID_PURCHASE" := [],
      "PACKAGE_SLUG_IN" := [ArgEntry("slugs", SlugListArg)],
      "PACKAGE_TYPE_IN" := [ArgEntry("types", EnumListArg)],
      "PURCHASE_KIND_IN" := [ArgEntry("kinds", EnumListArg)],
      "MIN_PAID_AMOUNT" := [ArgEntry("minor", IntegerArg), ArgEntry("currency", EnumArg(["TRY"]))],
      "NO_PRIOR_REVOCATION" := [],
      "PROVIDER_APPROVED_WITHIN_DAYS" := [ArgEntry("days", IntegerArg)]
    ],
    {"constructor", "hasOwnProperty", "isPrototypeOf", "propertyIsEnumerable", "toLocaleString", "toString", "valueOf",
     "__proto__", "__defineGetter__", "__defineSetter__", "__lookupGetter__", "__lookupSetter__"},
    ["PROVIDER_APPROVED", "PACKAGE_PAYMENT_SUCCEEDED", "PROVIDER_ELIGIBILITY_REACHED"],
    "PROVIDER_ELIGIBILITY_REACHED",
    ["PROVIDER_APPROVED", "EMAIL_VERIFIED", "PHONE_VERIFIED"],
    "PROMO_CREDITS",
    ["PROMO_CREDITS"],
    ["PROMO_FIRST", "PAID_FIRST"],
    ["PAID_ONLY", "ALLOW_PROMO"],
    "PROMO_FIRST",
    "PAID_ONLY",
    "EXCLUSIVE_CREDIT_BONUS",
    100,
    ["WEB", "MOBILE", "ALL"],
    "ALL")

  lemma ShippedCatalogOk()
    ensures CatalogOk(SHIPPED)
  {
  }

  predicate TypedStable(row: Row, name: string) {
    var raw := Raw(row, name);
    raw.Some? && raw.value.TextInput? ==> StableNumber(raw.value.text)
  }

  /** What keeps a row of the shipped catalogue stable: numbers below 10^21, and lists of clean items. */
  predicate ShippedStable(row: Row) {
    && (row.kind == "PACKAGE_SLUG_IN" && Raw(row, "slugs").Some? && Raw(row, "slugs").value.ListInput?
        ==> CleanItems(Raw(row, "slugs").value.items))
    && (row.kind == "MIN_PAID_AMOUNT" ==> TypedStable(row, "minor"))
    && (row.kind == "PROVIDER_APPROVED_WITHIN_DAYS" ==> TypedStable(row, "days"))
  }

  lemma ShippedRowsStable(row: Row)
    requires KnownKind(SHIPPED, row)
    ensures StableRow(SHIPPED, row) <==> ShippedStable(row)
  {
    var entries := ArgumentSpecsOf(SHIPPED, row.kind);
    if row.kind == "PACKAGE_SLUG_IN" {
      assert entries == [ArgEntry("slugs", SlugListArg)];
      assert StableRow(SHIPPED, row) <==> StableArgument(entries[0].spec, Raw(row, entries[0].name));
    } else if row.kind == "MIN_PAID_AMOUNT" {
      assert entries == [ArgEntry("minor", IntegerArg), ArgEntry("currency", EnumArg(["TRY"]))];
      assert StableArgument(entries[1].spec, Raw(row, entries[1].name));
      assert StableRow(SHIPPED, row) <==> StableArgument(entries[0].spec, Raw(row, entries[0].name));
    } else if row.kind == "PROVIDER_APPROVED_WITHIN_DAYS" {
      assert entries == [ArgEntry("days", IntegerArg)];
      assert StableRow(SHIPPED, row) <==> StableArgument(entries[0].spec, Raw(row, entries[0].name));
    } else {
      assert forall i :: 0 <= i < |entries| ==> entries[i].spec.EnumListArg?;
    }
  }

  lemma ShippedRowsAllStable(rows: seq<Row>)
    requires KnownKinds(SHIPPED, rows)
    ensures StableRows(SHIPPED, rows) <==> forall i :: 0 <= i < |rows| ==> ShippedStable(rows[i])
  {
    forall i | 0 <= i < |rows|
      ensures StableRow(SHIPPED, rows[i]) <==> ShippedStable(rows[i])
    {
      ShippedRowsStable(rows[i]);
    }
  }

  /** With the shipped catalogue, exactly which definitions survive being read back and printed again. */
  lemma ShippedRoundTrip(form: Form)
    requires WellTyped(SHIPPED, form)
    ensures Definition(SHIPPED, Again(SHIPPED, form)) == Definition(SHIPPED, form)
            <==> && StableNumbers(form) && StableWindow(form)
                 && forall i :: 0 <= i < |form.conditions| ==> ShippedStable(form.conditions[i])
  {
    ShippedCatalogOk();
    DefinitionRoundTrip(SHIPPED, form);
    ShippedRowsAllStable(form.conditions);
  }
}
