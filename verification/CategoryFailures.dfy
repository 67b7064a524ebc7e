/**
 Where an import that fails stops, and what it leaves in the tables
 (prisma/category-import/import-categories.ts): the importer has no transaction around its passes.
 */
module CategoryFailures {
  import opened Options
  import opened CategoryWave
  import opened CategoryImport
  import opened CategoryConvergence

  // ---- in the first pass ----

  /** The definition names a parent that is neither in the database nor earlier in the wave. */
  predicate ParentUnknown(t: Tables, categories: seq<CategoryDef>, i: nat)
    requires i < |categories|
  {
    !ParentKnown(categories[i], t.categories.Keys + Slugs(categories[..i]))
  }

  /** The tables and counters when the first i categories have been saved and nothing else. */
  ghost predicate SavedUpTo(t: Tables, categories: seq<CategoryDef>, i: nat, p: Progress)
    requires i <= |categories|
  {
    && p.tables == t.(categories := p.tables.categories)
    && CategoriesMerged(t, categories[..i], p.tables.categories)
    && p.summary.categoriesCreated == |Slugs(categories[..i]) - t.categories.Keys|
    && p.summary.categoriesCreated + p.summary.categoriesUpdated == i
  }

  lemma SavedBefore(t: Tables, categories: seq<CategoryDef>, n: nat)
    requires DistinctSlugs(categories) && n <= |categories| && AllSaveOk(t, categories[..n])
    ensures SavedUpTo(t, categories, n, SaveCategories(t, categories[..n])) && SaveCategories(t, categories[..n]).failure.None?
  {
    PassOne(t, categories[..n]);
    CategoriesCounted(t, categories[..n]);
  }

  /** The first pass stops at the first category that cannot be saved, with those before it saved. */
  lemma {:induction false} FirstPassStops(t: Tables, categories: seq<CategoryDef>) returns (i: nat)
    requires DistinctSlugs(categories) && !AllSaveOk(t, categories)
    ensures i < |categories| && !SaveOk(t, categories, i) && AllSaveOk(t, categories[..i])
    ensures var p := SaveCategories(t, categories); var d := categories[i];
            && p.failure == Some(if ParentUnknown(t, categories, i) then ParentMissing(d.slug) else PriceRefused(d.slug))
            && SavedUpTo(t, categories, i, p)
    decreases |categories|
  {
    var n := |categories| - 1;
    PrefixSaves(t, categories);
    if AllSaveOk(t, categories[..n]) {
      i := n;
      StopsAtLast(t, categories);
    } else {
      i := FirstPassStops(t, categories[..n]);
      SameInFront(t, categories, n, i);
    }
  }

  lemma StopsAtLast(t: Tables, categories: seq<CategoryDef>)
    requires categories != [] && DistinctSlugs(categories)
    requires AllSaveOk(t, categories[..|categories| - 1]) && !SaveOk(t, categories, |categories| - 1)
    ensures var n := |categories| - 1; var p := SaveCategories(t, categories); var d := categories[n];
            && p.failure == Some(if ParentUnknown(t, categories, n) then ParentMissing(d.slug) else PriceRefused(d.slug))
            && SavedUpTo(t, categories, n, p)
  {
    var n := |categories| - 1;
    SavedBefore(t, categories, n);
    LastRefused(t, categories, SaveCategories(t, categories[..n]));
  }

  lemma SameInFront(t: Tables, categories: seq<CategoryDef>, n: nat, i: nat)
    requires i < n <= |categories|
    ensures categories[..n][i] == categories[i] && categories[..n][..i] == categories[..i]
    ensures SaveOk(t, categories[..n], i) == SaveOk(t, categories, i)
    ensures ParentUnknown(t, categories[..n], i) == ParentUnknown(t, categories, i)
    ensures forall p :: SavedUpTo(t, categories[..n], i, p) == SavedUpTo(t, categories, i, p)
  {
    assert categories[..n][..i] == categories[..i];
  }

  /** The last category cannot be saved on top of those before it: the tables stay as they are. */
  lemma LastRefused(t: Tables, categories: seq<CategoryDef>, p: Progress)
    requires categories != [] && DistinctSlugs(categories) && !SaveOk(t, categories, |categories| - 1)
    requires p.failure.None? && SavedUpTo(t, categories, |categories| - 1, p)
    ensures var n := |categories| - 1;
            SaveCategory(p, categories[n])
            == p.(failure := Some(if ParentUnknown(t, categories, n) then ParentMissing(categories[n].slug) else PriceRefused(categories[n].slug)))
  {
    var n := |categories| - 1;
    SlugIsNew(categories);
    SaveRefused(t, p, categories[..n], categories[n]);
  }

  lemma SaveRefused(t: Tables, p: Progress, before: seq<CategoryDef>, d: CategoryDef)
    requires CategoriesMerged(t, before, p.tables.categories) && d.slug !in Slugs(before)
    requires !ParentKnown(d, t.categories.Keys + Slugs(before)) || !PriceFits(RowAt(t, d.slug), d)
    ensures SaveCategory(p, d)
            == p.(failure := Some(if ParentKnown(d, t.categories.Keys + Slugs(before)) then PriceRefused(d.slug) else ParentMissing(d.slug)))
  {
    assert RowAt(p.tables, d.slug) == RowAt(t, d.slug);
  }

  /**
   An import that cannot save one of its categories stops at the first such one: the categories before it
   are in the database, merged, and nothing else has changed.
   */
  lemma ImportStopsAtCategory(t: Tables, wave: Wave) returns (i: nat)
    requires Coherent(wave) && !AllSaveOk(t, wave.categories)
    ensures i < |wave.categories| && !SaveOk(t, wave.categories, i) && AllSaveOk(t, wave.categories[..i])
    ensures var p := Import(t, wave); var d := wave.categories[i];
            && p.failure == Some(if ParentUnknown(t, wave.categories, i) then ParentMissing(d.slug) else PriceRefused(d.slug))
            && SavedUpTo(t, wave.categories, i, p)
            && p.tables.questions == t.questions && p.tables.conditions == t.conditions && p.tables.rules == t.rules
  {
    i := FirstPassStops(t, wave.categories);
  }

  // ---- in the third pass ----

  /** The question's conditions stop before condition n, whose source repeats an earlier one. */
  lemma {:induction false} ConditionsStop(ids: map<string, QuestionId>, a: Asked, m: nat) returns (n: nat)
    requires m <= |a.question.conditions| && Faithful(ids) && SourcesIn(ids, a)
    requires WriteConditions(ids, a, m).failure.Some?
    ensures n < m && WriteConditions(ids, a, n).failure.None?
    ensures exists k :: 0 <= k < n && a.question.conditions[k].source == a.question.conditions[n].source
    ensures WriteConditions(ids, a, m)
            == Written(WriteConditions(ids, a, n).rows, Some(SourceRepeated(a.slug, a.question.key, a.question.conditions[n].source)))
    decreases m
  {
    ConditionsWritten(ids, a, m - 1);
    ConditionsWritten(ids, a, m);
    if WriteConditions(ids, a, m - 1).failure.Some? {
      n := ConditionsStop(ids, a, m - 1);
    } else {
      n := m - 1;
    }
  }

  /** The question's rules stop before rule n: its target is unknown, or its option repeats an earlier one. */
  lemma {:induction false} RulesStop(targets: set<string>, a: Asked, m: nat) returns (n: nat)
    requires m <= |a.question.rules| && WriteRules(targets, a, m).failure.Some?
    ensures n < m && WriteRules(targets, a, n).failure.None?
    ensures a.question.rules[n].target in targets ==> exists k :: 0 <= k < n && a.question.rules[k].option == a.question.rules[n].option
    ensures var r := a.question.rules[n];
            WriteRules(targets, a, m)
            == Written(WriteRules(targets, a, n).rows,
                       Some(if r.target !in targets then TargetMissing(a.slug, a.question.key, r.target)
                            else OptionRepeated(a.slug, a.question.key, r.option)))
    decreases m
  {
    RulesWritten(targets, a, m - 1);
    RulesWritten(targets, a, m);
    if WriteRules(targets, a, m - 1).failure.Some? {
      n := RulesStop(targets, a, m - 1);
    } else {
      n := m - 1;
    }
  }

  /** The progress with a question's conditions, or its rules too, replaced by the first few of the file's. */
  function PartWritten(p: Progress, ids: map<string, QuestionId>, a: Asked, conditions: nat, rules: Option<nat>, failure: Failure): Progress
    requires KeyOf(a) in ids && conditions <= |a.question.conditions| && (rules.Some? ==> rules.value <= |a.question.rules|)
  {
    var id, targets := ids[KeyOf(a)], p.tables.categories.Keys;
    var c := WriteConditions(ids, a, conditions).rows;
    match rules
    case None =>
      Progress(p.tables.(conditions := p.tables.conditions[id := c]),
               p.summary.(conditionsWritten := p.summary.conditionsWritten + conditions), Some(failure))
    case Some(m) =>
      Progress(p.tables.(conditions := p.tables.conditions[id := c], rules := p.tables.rules[id := WriteRules(targets, a, m).rows]),
               p.summary.(conditionsWritten := p.summary.conditionsWritten + conditions, rulesWritten := p.summary.rulesWritten + m),
               Some(failure))
  }

  /**
   A question that cannot be attached: its conditions up to the first repeated source, its old rules kept;
   or all of its conditions and its rules up to the first that is refused.
   */
  ghost predicate StopsInside(p: Progress, ids: map<string, QuestionId>, a: Asked, q: Progress)
    requires KeyOf(a) in ids
  {
    var slug, key, targets := a.slug, a.question.key, p.tables.categories.Keys;
    if DistinctSources(a.question) then
      exists m: nat :: m < |a.question.rules|
        && var r := a.question.rules[m];
           q == PartWritten(p, ids, a, |a.question.conditions|, Some(m),
                            if r.target !in targets then TargetMissing(slug, key, r.target) else OptionRepeated(slug, key, r.option))
    else
      exists n: nat :: n < |a.question.conditions|
        && (exists k :: 0 <= k < n && a.question.conditions[k].source == a.question.conditions[n].source)
        && q == PartWritten(p, ids, a, n, None, SourceRepeated(slug, key, a.question.conditions[n].source))
  }

  lemma AttachStops(p: Progress, ids: map<string, QuestionId>, a: Asked)
    requires p.failure.None? && Faithful(ids) && KeyOf(a) in ids && SourcesIn(ids, a)
    requires !AttachOk(p.tables.categories.Keys, a)
    ensures StopsInside(p, ids, a, Attach(p, ids, a))
  {
    if DistinctSources(a.question) { StopsAtRule(p, ids, a); } else { StopsAtCondition(p, ids, a); }
  }

  lemma StopsAtRule(p: Progress, ids: map<string, QuestionId>, a: Asked)
    requires p.failure.None? && Faithful(ids) && KeyOf(a) in ids && SourcesIn(ids, a)
    requires DistinctSources(a.question) && !AttachOk(p.tables.categories.Keys, a)
    ensures StopsInside(p, ids, a, Attach(p, ids, a))
  {
    var targets := p.tables.categories.Keys;
    ConditionsWritten(ids, a, |a.question.conditions|);
    RulesWritten(targets, a, |a.question.rules|);
    var m := RulesStop(targets, a, |a.question.rules|);
    RulesWritten(targets, a, m);
  }

  lemma StopsAtCondition(p: Progress, ids: map<string, QuestionId>, a: Asked)
    requires p.failure.None? && Faithful(ids) && KeyOf(a) in ids && SourcesIn(ids, a) && !DistinctSources(a.question)
    ensures StopsInside(p, ids, a, Attach(p, ids, a))
  {
    var c := |a.question.conditions|;
    ConditionsWritten(ids, a, c);
    var n := ConditionsStop(ids, a, c);
    ConditionsWritten(ids, a, n);
  }

  /** The third pass stops inside the first question that cannot be attached, those before it attached. */
  lemma {:induction false} ThirdPassStops(p: Progress, ids: map<string, QuestionId>, asked: seq<Asked>) returns (i: nat)
    requires p.failure.None? && Resolved(ids, asked) && !AllAttachOk(p.tables.categories.Keys, asked)
    ensures i < |asked| && AllAttachOk(p.tables.categories.Keys, asked[..i]) && !AttachOk(p.tables.categories.Keys, asked[i])
    ensures StopsInside(AttachAll(p, ids, asked[..i]), ids, asked[i], AttachAll(p, ids, asked))
    decreases |asked|
  {
    var n := |asked| - 1;
    var front := asked[..n];
    PrefixAttaches(p.tables.categories.Keys, ids, asked);
    PassThree(p, ids, front);
    if AllAttachOk(p.tables.categories.Keys, front) {
      i := n;
      AttachStops(AttachAll(p, ids, front), ids, asked[n]);
    } else {
      i := ThirdPassStops(p, ids, front);
      assert front[..i] == asked[..i];
    }
  }

  /**
   An import whose categories can all be saved but not all of its questions attached: every category and
   question is saved, the questions before the first refused one are attached, and that one stops where
   its row was refused.
   */
  lemma ImportStopsAtQuestion(t: Tables, wave: Wave) returns (i: nat)
    requires Coherent(wave) && AllSaveOk(t, wave.categories)
    requires !AllAttachOk(t.categories.Keys + SlugsOf(wave), QuestionsOf(wave))
    ensures var asked, ids := QuestionsOf(wave), SavedIds(QuestionsOf(wave));
            && i < |asked| && !AttachOk(t.categories.Keys + SlugsOf(wave), asked[i])
            && AllAttachOk(t.categories.Keys + SlugsOf(wave), asked[..i])
            && KeyOf(asked[i]) in ids
            && StopsInside(AttachAll(Saved(t, wave), ids, asked[..i]), ids, asked[i], Import(t, wave))
  {
    ThirdPassIsImport(t, wave, Saved(t, wave), SavedIds(QuestionsOf(wave)));
    i := ThirdPassStops(Saved(t, wave), SavedIds(QuestionsOf(wave)), QuestionsOf(wave));
  }

  lemma ThirdPassIsImport(t: Tables, wave: Wave, p: Progress, ids: map<string, QuestionId>)
    requires Coherent(wave) && AllSaveOk(t, wave.categories) && p == Saved(t, wave) && ids == SavedIds(QuestionsOf(wave))
    ensures Import(t, wave) == AttachAll(p, ids, QuestionsOf(wave)) && p.failure.None? && Resolved(ids, QuestionsOf(wave))
    ensures p.tables.categories.Keys == t.categories.Keys + SlugsOf(wave)
  {
    SavedShape(t, wave);
    SourcesResolve(wave);
    PassOne(t, wave.categories);
    ImportSaves(t, wave);
  }

  lemma ImportSaves(t: Tables, wave: Wave)
    requires Coherent(wave) && SaveCategories(t, wave.categories).failure.None?
    ensures Import(t, wave) == AttachAll(Saved(t, wave), SavedIds(QuestionsOf(wave)), QuestionsOf(wave))
  {
  }
}
