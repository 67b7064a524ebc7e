/**
 What an import leaves behind (prisma/category-import/import-categories.ts): exactly when it
 succeeds, that the structure then is the file's, what it never touches even when it fails, and that
 a second import changes nothing.
 */
module CategoryConvergence {
  import opened Options
  import opened CategoryWave
  import opened CategoryImport

  function Slugs(categories: seq<CategoryDef>): set<string> {
    set d | d in categories :: d.slug
  }

  function Ids(asked: seq<Asked>): set<QuestionId> {
    set a | a in asked :: Id(a)
  }

  function SlugsOf(wave: Wave): set<string> {
    Slugs(wave.categories)
  }

  function QuestionsOf(wave: Wave): seq<Asked> {
    AllAsked(wave.categories)
  }

  lemma SlugsSnoc(categories: seq<CategoryDef>)
    requires categories != []
    ensures var n := |categories| - 1; Slugs(categories) == Slugs(categories[..n]) + {categories[n].slug}
  {
    var n := |categories| - 1;
    assert categories == categories[..n] + [categories[n]];
  }

  lemma IdsSnoc(asked: seq<Asked>)
    requires asked != []
    ensures var n := |asked| - 1; Ids(asked) == Ids(asked[..n]) + {Id(asked[n])}
  {
    var n := |asked| - 1;
    assert asked == asked[..n] + [asked[n]];
  }

  // ---- pass one ----

  /** No parent, named by nothing or by the empty text, or a known one. */
  predicate ParentKnown(d: CategoryDef, known: set<string>) {
    match d.parent
    case None => true
    case Some(slug) => slug == "" || slug in known
  }

  /** The price the row ends up with, its own if it has one and the file's otherwise, is none or at least one credit. */
  predicate PriceFits(found: Option<CategoryRow>, d: CategoryDef) {
    var kept := if found.Some? then found.value.price else None;
    if kept.Some? then kept.value >= 1 else d.price.Some? ==> d.price.value >= 1
  }

  /** The parent is in the database or earlier in the wave, and the row's price passes the CHECK. */
  predicate SaveOk(t: Tables, categories: seq<CategoryDef>, i: nat)
    requires i < |categories|
  {
    var d := categories[i];
    ParentKnown(d, t.categories.Keys + Slugs(categories[..i])) && PriceFits(RowAt(t, d.slug), d)
  }

  ghost predicate AllSaveOk(t: Tables, categories: seq<CategoryDef>) {
    forall i :: 0 <= i < |categories| ==> SaveOk(t, categories, i)
  }

  /** The wave's categories are merged into the rows found; every other row is as it was. */
  ghost predicate CategoriesMerged(t: Tables, categories: seq<CategoryDef>, after: map<string, CategoryRow>) {
    && after.Keys == t.categories.Keys + Slugs(categories)
    && (forall i :: 0 <= i < |categories| ==>
          after[categories[i].slug] == Merged(RowAt(t, categories[i].slug), categories[i]))
    && (forall s :: s in t.categories && s !in Slugs(categories) ==> after[s] == t.categories[s])
  }

  lemma SlugIsNew(categories: seq<CategoryDef>)
    requires categories != [] && DistinctSlugs(categories)
    ensures var n := |categories| - 1;
            categories[n].slug !in Slugs(categories[..n]) && DistinctSlugs(categories[..n])
  {
  }

  /** One save, on tables where the earlier categories are merged. */
  lemma MergeStep(t: Tables, p: Progress, before: seq<CategoryDef>, d: CategoryDef)
    requires p.tables == t.(categories := p.tables.categories) && p.failure.None?
    requires CategoriesMerged(t, before, p.tables.categories) && d.slug !in Slugs(before)
    ensures var q := SaveCategory(p, d);
            && (q.failure.None? <==>
                ParentKnown(d, t.categories.Keys + Slugs(before)) && PriceFits(RowAt(t, d.slug), d))
            && q.tables == t.(categories := q.tables.categories)
            && (q.failure.None? ==> q.tables.categories == p.tables.categories[d.slug := Merged(RowAt(t, d.slug), d)])
  {
    assert RowAt(p.tables, d.slug) == RowAt(t, d.slug);
  }

  lemma MergedWith(t: Tables, categories: seq<CategoryDef>, rows: map<string, CategoryRow>, row: CategoryRow)
    requires categories != [] && DistinctSlugs(categories)
    requires CategoriesMerged(t, categories[..|categories| - 1], rows)
    requires row == Merged(RowAt(t, categories[|categories| - 1].slug), categories[|categories| - 1])
    ensures CategoriesMerged(t, categories, rows[categories[|categories| - 1].slug := row])
  {
    var n := |categories| - 1;
    var slug := categories[n].slug;
    var after := rows[slug := row];
    SlugIsNew(categories);
    SlugsSnoc(categories);
    forall i | 0 <= i < |categories|
      ensures categories[i].slug in after && (if i == n then after[slug] == row else after[categories[i].slug] == rows[categories[i].slug])
      ensures after[categories[i].slug] == Merged(RowAt(t, categories[i].slug), categories[i])
    {
      if i < n { assert categories[..n][i] == categories[i]; }
    }
  }

  lemma MergedSnoc(t: Tables, categories: seq<CategoryDef>, rows: map<string, CategoryRow>)
    requires categories != [] && DistinctSlugs(categories)
    requires CategoriesMerged(t, categories[..|categories| - 1], rows)
    ensures var d := categories[|categories| - 1];
            CategoriesMerged(t, categories, rows[d.slug := Merged(RowAt(t, d.slug), d)])
  {
    var d := categories[|categories| - 1];
    MergedWith(t, categories, rows, Merged(RowAt(t, d.slug), d));
  }

  lemma {:induction false} PassOne(t: Tables, categories: seq<CategoryDef>)
    requires DistinctSlugs(categories)
    ensures var p := SaveCategories(t, categories);
            && (p.failure.None? <==> AllSaveOk(t, categories))
            && p.tables == t.(categories := p.tables.categories)
            && (p.failure.None? ==> CategoriesMerged(t, categories, p.tables.categories))
    decreases |categories|
  {
    if categories != [] {
      var n := |categories| - 1;
      SlugIsNew(categories);
      PassOne(t, categories[..n]);
      PrefixSaves(t, categories);
      var p := SaveCategories(t, categories[..n]);
      if p.failure.None? {
        MergeStep(t, p, categories[..n], categories[n]);
        MergedSnoc(t, categories, p.tables.categories);
      }
    }
  }

  lemma PrefixSaves(t: Tables, categories: seq<CategoryDef>)
    requires categories != []
    ensures AllSaveOk(t, categories) <==>
              AllSaveOk(t, categories[..|categories| - 1]) && SaveOk(t, categories, |categories| - 1)
  {
    var n := |categories| - 1;
    forall i | 0 <= i < n
      ensures SaveOk(t, categories[..n], i) == SaveOk(t, categories, i)
    {
      assert categories[..n][..i] == categories[..i];
    }
  }

  lemma SaveCounts(p: Progress, d: CategoryDef)
    requires SaveCategory(p, d).failure.None?
    ensures SaveCategory(p, d).summary ==
              if d.slug in p.tables.categories then p.summary.(categoriesUpdated := p.summary.categoriesUpdated + 1)
              else p.summary.(categoriesCreated := p.summary.categoriesCreated + 1)
  {
  }

  lemma NewOnes<T>(before: set<T>, x: T, known: set<T>)
    requires x !in before
    ensures |(before + {x}) - known| == |before - known| + if x in known then 0 else 1
  {
    if x in known {
      assert (before + {x}) - known == before - known;
    } else {
      assert (before + {x}) - known == (before - known) + {x};
    }
  }

  /** One row is created for each slug the database did not have; the rest are updates. */
  lemma {:induction false} CategoriesCounted(t: Tables, categories: seq<CategoryDef>)
    requires DistinctSlugs(categories) && SaveCategories(t, categories).failure.None?
    ensures var s := SaveCategories(t, categories).summary;
            && s.categoriesCreated == |Slugs(categories) - t.categories.Keys|
            && s.categoriesCreated + s.categoriesUpdated == |categories|
            && s.questionsCreated == 0
    decreases |categories|
  {
    if categories == [] {
      assert Slugs(categories) == {};
    } else {
      var n := |categories| - 1;
      SlugIsNew(categories);
      SlugsSnoc(categories);
      PassOne(t, categories[..n]);
      CategoriesCounted(t, categories[..n]);
      SaveCounts(SaveCategories(t, categories[..n]), categories[n]);
      NewOnes(Slugs(categories[..n]), categories[n].slug, t.categories.Keys);
    }
  }

  // ---- pass two ----

  ghost predicate DistinctIds(asked: seq<Asked>) {
    forall i, j :: 0 <= i < j < |asked| ==> Id(asked[i]) != Id(asked[j])
  }

  lemma {:induction false} AskedHaveTheirSlug(categories: seq<CategoryDef>, a: Asked)
    ensures a in AllAsked(categories) <==> exists d :: d in categories && a.slug == d.slug && a.question in d.questions
    decreases |categories|
  {
    if categories != [] {
      var n := |categories| - 1;
      var last := categories[n];
      AskedHaveTheirSlug(categories[..n], a);
      assert categories == categories[..n] + [last];
      var all := Tagged(last, |last.questions|);
      if a.slug == last.slug && a.question in last.questions {
        var j :| 0 <= j < |last.questions| && last.questions[j] == a.question;
        assert all[j] == a;
      }
    }
  }

  lemma {:induction false} AskedDistinct(categories: seq<CategoryDef>)
    requires DistinctSlugs(categories)
    requires forall i :: 0 <= i < |categories| ==> DistinctKeys(categories[i].questions)
    ensures DistinctIds(AllAsked(categories))
    decreases |categories|
  {
    if categories != [] {
      var n := |categories| - 1;
      SlugIsNew(categories);
      AskedDistinct(categories[..n]);
      var before := AllAsked(categories[..n]);
      var all := AllAsked(categories);
      forall i, j | 0 <= i < j < |all|
        ensures Id(all[i]) != Id(all[j])
      {
        if i < |before| {
          assert all[i] == before[i];
          if j < |before| {
            assert all[j] == before[j];
          } else {
            AskedHaveTheirSlug(categories[..n], before[i]);
            assert all[j].slug == categories[n].slug;
          }
        } else {
          assert all[i] == Asked(categories[n].slug, categories[n].questions[i - |before|]);
          assert all[j] == Asked(categories[n].slug, categories[n].questions[j - |before|]);
        }
      }
    }
  }

  lemma CoherentIds(wave: Wave)
    requires Coherent(wave)
    ensures DistinctIds(QuestionsOf(wave))
  {
    AskedDistinct(wave.categories);
  }

  ghost predicate QuestionsSaved(before: map<QuestionId, QuestionRow>, asked: seq<Asked>, after: map<QuestionId, QuestionRow>) {
    && after.Keys == before.Keys + Ids(asked)
    && (forall i :: 0 <= i < |asked| ==> after[Id(asked[i])] == QuestionRowOf(asked[i].question))
    && (forall id :: id in before && id !in Ids(asked) ==> after[id] == before[id])
  }

  lemma QuestionsSavedSnoc(before: map<QuestionId, QuestionRow>, asked: seq<Asked>, after: map<QuestionId, QuestionRow>)
    requires asked != [] && DistinctIds(asked)
    requires QuestionsSaved(before, asked[..|asked| - 1], after)
    ensures var a := asked[|asked| - 1]; QuestionsSaved(before, asked, after[Id(a) := QuestionRowOf(a.question)])
  {
    var n := |asked| - 1;
    var now := after[Id(asked[n]) := QuestionRowOf(asked[n].question)];
    IdsSnoc(asked);
    forall i | 0 <= i < |asked|
      ensures now[Id(asked[i])] == QuestionRowOf(asked[i].question)
    {
      if i < n { assert asked[..n][i] == asked[i]; }
    }
  }

  lemma {:induction false} PassTwo(p: Progress, asked: seq<Asked>)
    requires DistinctIds(asked)
    ensures var q := SaveQuestions(p, asked);
            && q.failure == p.failure
            && q.tables == p.tables.(questions := q.tables.questions)
            && QuestionsSaved(p.tables.questions, asked, q.tables.questions)
    decreases |asked|
  {
    if asked == [] {
      assert Ids(asked) == {};
    } else {
      PassTwo(p, asked[..|asked| - 1]);
      QuestionsSavedSnoc(p.tables.questions, asked, SaveQuestions(p, asked[..|asked| - 1]).tables.questions);
    }
  }

  lemma QuestionCounts(p: Progress, a: Asked)
    ensures SaveQuestion(p, a).summary ==
              if Id(a) in p.tables.questions then p.summary.(questionsUpdated := p.summary.questionsUpdated + 1)
              else p.summary.(questionsCreated := p.summary.questionsCreated + 1)
  {
  }

  lemma {:induction false} QuestionsCounted(p: Progress, asked: seq<Asked>)
    requires DistinctIds(asked)
    ensures var s := SaveQuestions(p, asked).summary;
            && s.questionsCreated == p.summary.questionsCreated + |Ids(asked) - p.tables.questions.Keys|
            && s.questionsCreated + s.questionsUpdated ==
               p.summary.questionsCreated + p.summary.questionsUpdated + |asked|
            && s.categoriesCreated == p.summary.categoriesCreated
    decreases |asked|
  {
    if asked == [] {
      assert Ids(asked) == {};
    } else {
      var n := |asked| - 1;
      IdsSnoc(asked);
      PassTwo(p, asked[..n]);
      QuestionsCounted(p, asked[..n]);
      QuestionCounts(SaveQuestions(p, asked[..n]), asked[n]);
      assert Id(asked[n]) !in Ids(asked[..n]);
      NewOnes(Ids(asked[..n]), Id(asked[n]), p.tables.questions.Keys);
    }
  }

  // ---- the names questions are remembered under ----

  /** Every remembered id bears the name it is remembered under and is one of the wave's. */
  lemma {:induction false} SavedIdsFaithful(asked: seq<Asked>)
    ensures var ids := SavedIds(asked);
            && (forall s :: s in ids ==> QuestionKey(ids[s].category, ids[s].key) == s && ids[s] in Ids(asked))
            && (forall i :: 0 <= i < |asked| ==> KeyOf(asked[i]) in ids)
    decreases |asked|
  {
    if asked != [] {
      var n := |asked| - 1;
      SavedIdsFaithful(asked[..n]);
      IdsSnoc(asked);
      forall i | 0 <= i < |asked|
        ensures KeyOf(asked[i]) in SavedIds(asked)
      {
        if i < n { assert asked[..n][i] == asked[i]; }
      }
    }
  }

  /** No two questions of the list are remembered under one name. */
  ghost predicate NoKeyClash(asked: seq<Asked>) {
    forall i, j :: 0 <= i < |asked| && 0 <= j < |asked| && KeyOf(asked[i]) == KeyOf(asked[j]) ==> Id(asked[i]) == Id(asked[j])
  }

  lemma SavedIdsExact(asked: seq<Asked>)
    requires NoKeyClash(asked)
    ensures forall i :: 0 <= i < |asked| ==> KeyOf(asked[i]) in SavedIds(asked) && SavedIds(asked)[KeyOf(asked[i])] == Id(asked[i])
  {
    SavedIdsFaithful(asked);
    forall i | 0 <= i < |asked|
      ensures SavedIds(asked)[KeyOf(asked[i])] == Id(asked[i])
    {
      var id := SavedIds(asked)[KeyOf(asked[i])];
      var a :| a in asked && Id(a) == id;
      var j :| 0 <= j < |asked| && asked[j] == a;
      assert KeyOf(asked[j]) == KeyOf(asked[i]);
    }
  }

  /** Slugs without a colon cannot clash. */
  lemma PlainSlugsDoNotClash(asked: seq<Asked>)
    requires forall i :: 0 <= i < |asked| ==> ':' !in asked[i].slug
    ensures NoKeyClash(asked)
  {
    forall i, j | 0 <= i < |asked| && 0 <= j < |asked| && KeyOf(asked[i]) == KeyOf(asked[j])
      ensures Id(asked[i]) == Id(asked[j])
    {
      SplitAtColon(asked[i].slug, asked[i].question.key, asked[j].slug, asked[j].question.key);
    }
  }

  lemma SplitAtColon(s: string, k: string, s2: string, k2: string)
    requires ':' !in s && ':' !in s2 && QuestionKey(s, k) == QuestionKey(s2, k2)
    ensures s == s2 && k == k2
  {
    var text := QuestionKey(s, k);
    assert text[|s|] == ':' && text[|s2|] == ':';
    assert forall i :: 0 <= i < |s| ==> text[i] != ':';
    assert forall i :: 0 <= i < |s2| ==> text[i] == QuestionKey(s2, k2)[i] != ':';
    assert s == text[..|s|] && s2 == text[..|s2|];
    assert k == text[|s| + 2..] && k2 == text[|s2| + 2..];
  }

  // ---- pass three ----

  predicate DistinctSources(q: QuestionDef) {
    forall i, j :: 0 <= i < j < |q.conditions| ==> q.conditions[i].source != q.conditions[j].source
  }

  predicate DistinctRuleOptions(q: QuestionDef) {
    forall i, j :: 0 <= i < j < |q.rules| ==> q.rules[i].option != q.rules[j].option
  }

  predicate TargetsIn(q: QuestionDef, targets: set<string>) {
    forall i :: 0 <= i < |q.rules| ==> q.rules[i].target in targets
  }

  predicate SourcesIn(ids: map<string, QuestionId>, a: Asked) {
    forall i :: 0 <= i < |a.question.conditions| ==> QuestionKey(a.slug, a.question.conditions[i].source) in ids
  }

  ghost predicate Faithful(ids: map<string, QuestionId>) {
    forall s :: s in ids ==> QuestionKey(ids[s].category, ids[s].key) == s
  }

  lemma KeysDiffer(slug: string, k: string, k2: string)
    ensures QuestionKey(slug, k) == QuestionKey(slug, k2) <==> k == k2
  {
    var text := QuestionKey(slug, k);
    var text2 := QuestionKey(slug, k2);
    assert k == text[|slug| + 2..] && k2 == text2[|slug| + 2..];
  }

  /** What condition i of the question becomes, given where its source's name leads. */
  function ConditionRowAt(ids: map<string, QuestionId>, a: Asked, i: nat): ConditionRow
    requires i < |a.question.conditions| && SourcesIn(ids, a)
  {
    var c := a.question.conditions[i];
    ConditionRow(ids[QuestionKey(a.slug, c.source)], c.expected, c.mode.GetOr(ANY))
  }

  lemma {:induction false} ConditionsWritten(ids: map<string, QuestionId>, a: Asked, n: nat)
    requires n <= |a.question.conditions| && Faithful(ids) && SourcesIn(ids, a)
    ensures var w := WriteConditions(ids, a, n);
            && (w.failure.Some? ==> w.failure.value.SourceRepeated?)
            && (w.failure.None? <==>
                forall i, j :: 0 <= i < j < n ==> a.question.conditions[i].source != a.question.conditions[j].source)
            && (w.failure.None? ==> |w.rows| == n && forall i :: 0 <= i < n ==> w.rows[i] == ConditionRowAt(ids, a, i))
    decreases n
  {
    if n > 0 {
      ConditionsWritten(ids, a, n - 1);
      var w := WriteConditions(ids, a, n - 1);
      var c := a.question.conditions[n - 1];
      if w.failure.None? {
        forall i | 0 <= i < n - 1
          ensures w.rows[i].source == ids[QuestionKey(a.slug, c.source)] <==> a.question.conditions[i].source == c.source
        {
          KeysDiffer(a.slug, a.question.conditions[i].source, c.source);
        }
      }
    }
  }

  lemma {:induction false} RulesWritten(targets: set<string>, a: Asked, n: nat)
    requires n <= |a.question.rules|
    ensures var w := WriteRules(targets, a, n); var rules := a.question.rules;
            && (w.failure.Some? ==> w.failure.value.TargetMissing? || w.failure.value.OptionRepeated?)
            && (w.failure.None? <==>
                && (forall i :: 0 <= i < n ==> rules[i].target in targets)
                && (forall i, j :: 0 <= i < j < n ==> rules[i].option != rules[j].option))
            && (w.failure.None? ==> |w.rows| == n && forall i :: 0 <= i < n ==>
                  w.rows[i] == RuleRow(rules[i].option, rules[i].target, i * 10))
    decreases n
  {
    if n > 0 {
      RulesWritten(targets, a, n - 1);
      var w := WriteRules(targets, a, n - 1);
      if w.failure.None? {
        assert forall i :: 0 <= i < n - 1 ==> w.rows[i].option == a.question.rules[i].option;
      }
    }
  }

  /** The question's rules can all be created. */
  predicate AttachOk(targets: set<string>, a: Asked) {
    DistinctSources(a.question) && DistinctRuleOptions(a.question) && TargetsIn(a.question, targets)
  }

  ghost predicate AllAttachOk(targets: set<string>, asked: seq<Asked>) {
    forall i :: 0 <= i < |asked| ==> AttachOk(targets, asked[i])
  }

  /** The saved questions every condition and rule needs. */
  ghost predicate Resolved(ids: map<string, QuestionId>, asked: seq<Asked>) {
    && Faithful(ids)
    && forall i :: 0 <= i < |asked| ==> KeyOf(asked[i]) in ids && SourcesIn(ids, asked[i])
  }

  /** The ways the third pass of a coherent wave can fail. */
  predicate RowRefused(f: Failure) {
    f.SourceRepeated? || f.TargetMissing? || f.OptionRepeated?
  }

  lemma AttachOne(p: Progress, ids: map<string, QuestionId>, a: Asked)
    requires p.failure.None? && Faithful(ids) && KeyOf(a) in ids && SourcesIn(ids, a)
    ensures var q := Attach(p, ids, a); var id := ids[KeyOf(a)];
            && (q.failure.None? <==> AttachOk(p.tables.categories.Keys, a))
            && (q.failure.Some? ==> RowRefused(q.failure.value))
            && q.tables == p.tables.(conditions := q.tables.conditions, rules := q.tables.rules)
            && (q.failure.None? ==>
                && q.tables.conditions == p.tables.conditions[id := WriteConditions(ids, a, |a.question.conditions|).rows]
                && q.tables.rules == p.tables.rules[id := WriteRules(p.tables.categories.Keys, a, |a.question.rules|).rows]
                && q.summary == p.summary.(conditionsWritten := p.summary.conditionsWritten + |a.question.conditions|,
                                           rulesWritten := p.summary.rulesWritten + |a.question.rules|))
  {
    ConditionsWritten(ids, a, |a.question.conditions|);
    RulesWritten(p.tables.categories.Keys, a, |a.question.rules|);
  }

  /** A third pass over the given questions went as it should: it failed exactly when one cannot be attached. */
  ghost predicate Attached(p: Progress, asked: seq<Asked>, q: Progress) {
    && (q.failure.None? <==> AllAttachOk(p.tables.categories.Keys, asked))
    && (q.failure.Some? ==> RowRefused(q.failure.value))
    && q.tables == p.tables.(conditions := q.tables.conditions, rules := q.tables.rules)
  }

  lemma AttachedStep(p: Progress, ids: map<string, QuestionId>, asked: seq<Asked>, q: Progress)
    requires asked != [] && Resolved(ids, asked)
    requires Attached(p, asked[..|asked| - 1], q)
    ensures Attached(p, asked, if q.failure.Some? then q else Attach(q, ids, asked[|asked| - 1]))
  {
    PrefixAttaches(p.tables.categories.Keys, ids, asked);
    if q.failure.None? { AttachOne(q, ids, asked[|asked| - 1]); }
  }

  lemma {:induction false} PassThree(p: Progress, ids: map<string, QuestionId>, asked: seq<Asked>)
    requires p.failure.None? && Resolved(ids, asked)
    ensures Attached(p, asked, AttachAll(p, ids, asked))
    decreases |asked|
  {
    if asked != [] {
      PrefixAttaches(p.tables.categories.Keys, ids, asked);
      PassThree(p, ids, asked[..|asked| - 1]);
      AttachedStep(p, ids, asked, AttachAll(p, ids, asked[..|asked| - 1]));
    }
  }

  /** Where the third pass writes. */
  function Touched(ids: map<string, QuestionId>, asked: seq<Asked>): set<QuestionId> {
    set a | a in asked && KeyOf(a) in ids :: ids[KeyOf(a)]
  }

  lemma TouchedSnoc(ids: map<string, QuestionId>, asked: seq<Asked>)
    requires asked != [] && KeyOf(asked[|asked| - 1]) in ids
    ensures var n := |asked| - 1; Touched(ids, asked) == Touched(ids, asked[..n]) + {ids[KeyOf(asked[n])]}
  {
    var n := |asked| - 1;
    assert asked == asked[..n] + [asked[n]];
  }

  /** `c` and `d` agree where the third pass wrote; elsewhere `c` is what it started from. */
  ghost predicate Replaced<T>(start: map<QuestionId, T>, touched: set<QuestionId>, c: map<QuestionId, T>, d: map<QuestionId, T>) {
    && c.Keys == start.Keys + touched
    && touched <= d.Keys
    && (forall id :: id in touched ==> c[id] == d[id])
    && (forall id :: id in start && id !in touched ==> c[id] == start[id])
  }

  lemma ReplacedSnoc<T>(start: map<QuestionId, T>, touched: set<QuestionId>, c: map<QuestionId, T>,
                                           d: map<QuestionId, T>, id: QuestionId, rows: T)
    requires Replaced(start, touched, c, d)
    ensures Replaced(start, touched + {id}, c[id := rows], d[id := rows])
  {
  }

  /**
   A completed third pass forgets what it replaced: from two databases with the same categories it
   writes the same rows where it writes, and leaves every other question's rows alone.
   */
  lemma {:induction false} PassThreeForgets(p: Progress, p2: Progress, ids: map<string, QuestionId>, asked: seq<Asked>)
    requires p.failure.None? && p2.failure.None? && Resolved(ids, asked)
    requires p.tables.categories.Keys == p2.tables.categories.Keys
    requires AllAttachOk(p.tables.categories.Keys, asked)
    ensures AttachAll(p, ids, asked).failure.None? && AttachAll(p2, ids, asked).failure.None?
    ensures var c := AttachAll(p, ids, asked).tables; var d := AttachAll(p2, ids, asked).tables;
            && Replaced(p.tables.conditions, Touched(ids, asked), c.conditions, d.conditions)
            && Replaced(p.tables.rules, Touched(ids, asked), c.rules, d.rules)
    decreases |asked|
  {
    PassThree(p, ids, asked);
    PassThree(p2, ids, asked);
    if asked == [] {
      assert Touched(ids, asked) == {};
    } else {
      var n := |asked| - 1;
      var a := asked[n];
      PrefixAttaches(p.tables.categories.Keys, ids, asked);
      PassThreeForgets(p, p2, ids, asked[..n]);
      TouchedSnoc(ids, asked);
      var c := AttachAll(p, ids, asked[..n]);
      var d := AttachAll(p2, ids, asked[..n]);
      PassThree(p, ids, asked[..n]);
      PassThree(p2, ids, asked[..n]);
      AttachOne(c, ids, a);
      AttachOne(d, ids, a);
      ReplacedSnoc(p.tables.conditions, Touched(ids, asked[..n]), c.tables.conditions, d.tables.conditions,
                   ids[KeyOf(a)], WriteConditions(ids, a, |a.question.conditions|).rows);
      ReplacedSnoc(p.tables.rules, Touched(ids, asked[..n]), c.tables.rules, d.tables.rules,
                   ids[KeyOf(a)], WriteRules(p.tables.categories.Keys, a, |a.question.rules|).rows);
    }
  }

  lemma PrefixAttaches(targets: set<string>, ids: map<string, QuestionId>, asked: seq<Asked>)
    requires asked != [] && Resolved(ids, asked)
    ensures Resolved(ids, asked[..|asked| - 1])
    ensures AllAttachOk(targets, asked) <==> AllAttachOk(targets, asked[..|asked| - 1]) && AttachOk(targets, asked[|asked| - 1])
  {
    var n := |asked| - 1;
    assert forall i :: 0 <= i < n ==> asked[..n][i] == asked[i];
  }

  // ---- exactly when an import succeeds ----

  lemma SourcesResolve(wave: Wave)
    requires Coherent(wave)
    ensures Resolved(SavedIds(QuestionsOf(wave)), QuestionsOf(wave))
  {
    var asked := QuestionsOf(wave);
    var ids := SavedIds(asked);
    SavedIdsFaithful(asked);
    forall i, c | 0 <= i < |asked| && 0 <= c < |asked[i].question.conditions|
      ensures QuestionKey(asked[i].slug, asked[i].question.conditions[c].source) in ids
    {
      AskedHaveTheirSlug(wave.categories, asked[i]);
      var d :| d in wave.categories && asked[i].slug == d.slug && asked[i].question in d.questions;
      var at := SourceIsAsked(wave, d, asked[i].question, c);
      assert KeyOf(asked[at]) in ids;
    }
  }

  /** A coherent condition's source is one of the wave's questions, in the same category and earlier. */
  lemma SourceIsAsked(wave: Wave, d: CategoryDef, q: QuestionDef, c: nat) returns (i: nat)
    requires Coherent(wave) && d in wave.categories && q in d.questions && c < |q.conditions|
    ensures i < |QuestionsOf(wave)|
    ensures var a := QuestionsOf(wave)[i];
            a.slug == d.slug && a.question in d.questions && Reads(q, q.conditions[c], a.question)
  {
    assert CategoryOk(d) && QuestionOk(d.questions, q);
    assert ConditionOk(d.questions, q, q.conditions[c]);
    var k :| 0 <= k < |d.questions| && Reads(q, q.conditions[c], d.questions[k]);
    var a := Asked(d.slug, d.questions[k]);
    assert a.question in d.questions;
    AskedHaveTheirSlug(wave.categories, a);
    i :| 0 <= i < |QuestionsOf(wave)| && QuestionsOf(wave)[i] == a;
  }

  /** What the database and the wave must offer beyond the wave's own coherence. */
  ghost predicate Importable(t: Tables, wave: Wave) {
    && AllSaveOk(t, wave.categories)
    && AllAttachOk(t.categories.Keys + SlugsOf(wave), QuestionsOf(wave))
  }

  /** The progress the third pass starts from. */
  function Saved(t: Tables, wave: Wave): Progress {
    SaveQuestions(SaveCategories(t, wave.categories), QuestionsOf(wave))
  }

  lemma SavedShape(t: Tables, wave: Wave)
    requires Coherent(wave) && AllSaveOk(t, wave.categories)
    ensures var p := Saved(t, wave);
            && p.failure.None?
            && CategoriesMerged(t, wave.categories, p.tables.categories)
            && QuestionsSaved(t.questions, QuestionsOf(wave), p.tables.questions)
            && p.tables.conditions == t.conditions && p.tables.rules == t.rules
            && p.tables.categories.Keys == t.categories.Keys + SlugsOf(wave)
  {
    PassOne(t, wave.categories);
    CoherentIds(wave);
    PassTwo(SaveCategories(t, wave.categories), QuestionsOf(wave));
  }

  lemma LaterPasses(t: Tables, wave: Wave)
    requires Coherent(wave) && AllSaveOk(t, wave.categories)
    ensures var f := AttachAll(Saved(t, wave), SavedIds(QuestionsOf(wave)), QuestionsOf(wave)).failure;
            && (f.None? <==> AllAttachOk(t.categories.Keys + SlugsOf(wave), QuestionsOf(wave)))
            && (f.Some? ==> RowRefused(f.value))
  {
    SavedShape(t, wave);
    SourcesResolve(wave);
    PassThree(Saved(t, wave), SavedIds(QuestionsOf(wave)), QuestionsOf(wave));
  }

  /**
   An import succeeds exactly when the wave is coherent, every parent and router target is known to
   the database or the wave, no price fails the CHECK, no question lists one condition source twice
   and no router lists one option twice. The first of these is what the up-front check covers; a
   coherent wave never fails for a missing condition source.
   */
  lemma ImportSucceedsExactly(t: Tables, wave: Wave)
    ensures Import(t, wave).failure.None? <==> Coherent(wave) && Importable(t, wave)
    ensures Coherent(wave) && Import(t, wave).failure.Some? ==>
              !Import(t, wave).failure.value.Refused? && !Import(t, wave).failure.value.SourceMissing?
  {
    if Coherent(wave) {
      PassOne(t, wave.categories);
      FirstPassFailures(t, wave.categories);
      if AllSaveOk(t, wave.categories) { LaterPasses(t, wave); }
    }
  }

  lemma {:induction false} FirstPassFailures(t: Tables, categories: seq<CategoryDef>)
    ensures var f := SaveCategories(t, categories).failure;
            f.Some? ==> f.value.ParentMissing? || f.value.PriceRefused?
    decreases |categories|
  {
    if categories != [] { FirstPassFailures(t, categories[..|categories| - 1]); }
  }

  /** A router whose file lists one option twice. */
  const TWICE_ROUTED :=
    Wave("w", [CategoryDef("s", "", "", ROUTER, DRAFT, false, None, None, 0, None,
      [QuestionDef("q", "", None, SELECT, true, 0, Some([OptionDef("a", "")]), None, true, [],
        [RuleDef("a", "s"), RuleDef("a", "s")])])])

  /** The up-front check is not enough: this coherent wave fails on every database, wherever its targets are. */
  lemma CheckIsNotEnough(t: Tables)
    ensures Coherent(TWICE_ROUTED) && Import(t, TWICE_ROUTED).failure.Some?
  {
    var cats := TWICE_ROUTED.categories;
    var q := cats[0].questions[0];
    assert OptionDef("a", "") in q.options.value && q.options.value[0].key in Keys(q);
    assert QuestionOk(cats[0].questions, q);
    assert cats[..0] == [];
    assert AllAsked(cats) == [Asked("s", q)];
    assert q.rules[0].option == q.rules[1].option;
    assert !AttachOk(t.categories.Keys + SlugsOf(TWICE_ROUTED), AllAsked(cats)[0]);
    ImportSucceedsExactly(t, TWICE_ROUTED);
  }

  // ---- convergence ----

  /** The conditions the file gives a question, on the question's own siblings. */
  function ConditionsInFile(a: Asked): seq<ConditionRow> {
    var cs := a.question.conditions;
    seq(|cs|, i requires 0 <= i < |cs| =>
          ConditionRow(QuestionId(a.slug, cs[i].source), cs[i].expected, cs[i].mode.GetOr(ANY)))
  }

  function RulesInFile(a: Asked): seq<RuleRow> {
    var rs := a.question.rules;
    seq(|rs|, i requires 0 <= i < |rs| => RuleRow(rs[i].option, rs[i].target, i * 10))
  }

  /** The questions and their rules are the file's. */
  ghost predicate AsksAsFile(t: Tables, asked: seq<Asked>) {
    forall a :: a in asked ==>
      && Id(a) in t.questions && ShowsQuestion(t.questions[Id(a)], a.question)
      && Id(a) in t.conditions && t.conditions[Id(a)] == ConditionsInFile(a)
      && Id(a) in t.rules && t.rules[Id(a)] == RulesInFile(a)
  }

  /** The row asks what the file says, and is active. */
  predicate ShowsQuestion(row: QuestionRow, q: QuestionDef) {
    && row.text == q.text && row.help == q.help && row.kind == q.kind && row.required == q.required
    && row.options == q.options && row.systemField == q.systemField && row.router == q.router
    && row.sortOrder == q.sortOrder && row.isActive
  }

  /** The structure the import owns is the file's. */
  ghost predicate FollowsFile(t: Tables, wave: Wave) {
    && (forall d :: d in wave.categories ==>
          && d.slug in t.categories
          && var row := t.categories[d.slug];
             row.name == d.name && row.description == Some(d.description) && row.kind == d.kind
             && row.parent == (if d.parent == Some("") then None else d.parent) && row.sortOrder == d.sortOrder && row.icon == d.icon)
    && AsksAsFile(t, QuestionsOf(wave))
  }

  ghost predicate PlainKeys(wave: Wave) {
    NoKeyClash(QuestionsOf(wave))
  }

  /** The third pass has put the question's own rows where its name leads. */
  ghost predicate HasRows(t: Tables, ids: map<string, QuestionId>, targets: set<string>, a: Asked) {
    && Id(a) in t.conditions && Id(a) in t.rules
    && t.conditions[Id(a)] == WriteConditions(ids, a, |a.question.conditions|).rows
    && t.rules[Id(a)] == WriteRules(targets, a, |a.question.rules|).rows
  }

  lemma AttachLeavesOthers(p: Progress, ids: map<string, QuestionId>, targets: set<string>, a: Asked, other: Asked)
    requires p.failure.None? && Faithful(ids) && KeyOf(a) in ids && SourcesIn(ids, a)
    requires AttachOk(p.tables.categories.Keys, a)
    requires HasRows(p.tables, ids, targets, other) && ids[KeyOf(a)] != Id(other)
    ensures HasRows(Attach(p, ids, a).tables, ids, targets, other)
  {
    AttachOne(p, ids, a);
  }

  lemma AttachWritesOwn(p: Progress, ids: map<string, QuestionId>, a: Asked)
    requires p.failure.None? && Faithful(ids) && KeyOf(a) in ids && SourcesIn(ids, a)
    requires AttachOk(p.tables.categories.Keys, a) && ids[KeyOf(a)] == Id(a)
    ensures HasRows(Attach(p, ids, a).tables, ids, p.tables.categories.Keys, a)
  {
    AttachOne(p, ids, a);
  }

  ghost predicate OwnNames(ids: map<string, QuestionId>, asked: seq<Asked>) {
    forall i :: 0 <= i < |asked| ==> KeyOf(asked[i]) in ids && ids[KeyOf(asked[i])] == Id(asked[i])
  }

  lemma PrefixNames(ids: map<string, QuestionId>, asked: seq<Asked>)
    requires asked != [] && OwnNames(ids, asked) && DistinctIds(asked)
    ensures OwnNames(ids, asked[..|asked| - 1]) && DistinctIds(asked[..|asked| - 1])
  {
  }

  /** The rows the third pass leaves on a question whose name leads to itself. */
  lemma {:induction false} AttachedRows(p: Progress, ids: map<string, QuestionId>, asked: seq<Asked>, k: nat)
    requires p.failure.None? && Resolved(ids, asked) && DistinctIds(asked) && OwnNames(ids, asked)
    requires AllAttachOk(p.tables.categories.Keys, asked)
    requires k < |asked|
    ensures HasRows(AttachAll(p, ids, asked).tables, ids, p.tables.categories.Keys, asked[k])
    decreases |asked|
  {
    var n := |asked| - 1;
    var q := AttachAll(p, ids, asked[..n]);
    PrefixAttaches(p.tables.categories.Keys, ids, asked);
    PrefixNames(ids, asked);
    PassThree(p, ids, asked[..n]);
    if k < n {
      assert asked[..n][k] == asked[k];
      AttachedRows(p, ids, asked[..n], k);
      AttachLeavesOthers(q, ids, p.tables.categories.Keys, asked[n], asked[k]);
    } else {
      AttachWritesOwn(q, ids, asked[n]);
    }
  }

  /** With no clashing names, a condition row's source is the sibling the file names. */
  lemma {:induction false} RowsAreTheFiles(wave: Wave, targets: set<string>, a: Asked)
    requires Coherent(wave) && PlainKeys(wave) && a in QuestionsOf(wave) && AttachOk(targets, a)
    ensures var ids := SavedIds(QuestionsOf(wave));
            && WriteConditions(ids, a, |a.question.conditions|).rows == ConditionsInFile(a)
            && WriteRules(targets, a, |a.question.rules|).rows == RulesInFile(a)
  {
    var asked := QuestionsOf(wave);
    var ids := SavedIds(asked);
    var n := |a.question.conditions|;
    SourcesResolve(wave);
    SavedIdsExact(asked);
    ConditionsWritten(ids, a, n);
    RulesWritten(targets, a, |a.question.rules|);
    AskedHaveTheirSlug(wave.categories, a);
    var d :| d in wave.categories && a.slug == d.slug && a.question in d.questions;
    forall c | 0 <= c < n
      ensures ids[QuestionKey(a.slug, a.question.conditions[c].source)] == QuestionId(a.slug, a.question.conditions[c].source)
    {
      var i := SourceIsAsked(wave, d, a.question, c);
      assert KeyOf(asked[i]) == QuestionKey(a.slug, a.question.conditions[c].source);
    }
  }

  lemma RowsFollow(t: Tables, wave: Wave, targets: set<string>, a: Asked)
    requires Coherent(wave) && PlainKeys(wave) && a in QuestionsOf(wave) && AttachOk(targets, a)
    requires HasRows(t, SavedIds(QuestionsOf(wave)), targets, a)
    ensures Id(a) in t.conditions && t.conditions[Id(a)] == ConditionsInFile(a)
    ensures Id(a) in t.rules && t.rules[Id(a)] == RulesInFile(a)
  {
    RowsAreTheFiles(wave, targets, a);
  }

  lemma QuestionsFollow(p: Progress, wave: Wave)
    requires Coherent(wave) && PlainKeys(wave) && p.failure.None?
    requires AllAttachOk(p.tables.categories.Keys, QuestionsOf(wave))
    requires forall i :: 0 <= i < |QuestionsOf(wave)| ==>
               Id(QuestionsOf(wave)[i]) in p.tables.questions
               && p.tables.questions[Id(QuestionsOf(wave)[i])] == QuestionRowOf(QuestionsOf(wave)[i].question)
    ensures AsksAsFile(AttachAll(p, SavedIds(QuestionsOf(wave)), QuestionsOf(wave)).tables, QuestionsOf(wave))
  {
    var asked := QuestionsOf(wave);
    var ids := SavedIds(asked);
    var q := AttachAll(p, ids, asked);
    SourcesResolve(wave);
    PassThree(p, ids, asked);
    CoherentIds(wave);
    SavedIdsExact(asked);
    forall a | a in asked
      ensures Id(a) in q.tables.questions && ShowsQuestion(q.tables.questions[Id(a)], a.question)
      ensures Id(a) in q.tables.conditions && q.tables.conditions[Id(a)] == ConditionsInFile(a)
      ensures Id(a) in q.tables.rules && q.tables.rules[Id(a)] == RulesInFile(a)
    {
      var k :| 0 <= k < |asked| && asked[k] == a;
      AttachedRows(p, ids, asked, k);
      RowsFollow(q.tables, wave, p.tables.categories.Keys, a);
    }
  }

  /** A completed import of a wave without clashing names makes the structure the file's, from any database. */
  lemma ImportConverges(t: Tables, wave: Wave)
    requires Import(t, wave).failure.None? && PlainKeys(wave)
    ensures FollowsFile(Import(t, wave).tables, wave)
  {
    ImportSucceedsExactly(t, wave);
    SavedShape(t, wave);
    SourcesResolve(wave);
    PassThree(Saved(t, wave), SavedIds(QuestionsOf(wave)), QuestionsOf(wave));
    QuestionsFollow(Saved(t, wave), wave);
  }

  /**
   What a completed import sets once: a new category gets the file's status, price and enrolment, and
   is active exactly when its status is; an existing one only a price it did not have.
   */
  lemma ImportSetsOnce(t: Tables, wave: Wave, d: CategoryDef)
    requires Import(t, wave).failure.None? && d in wave.categories
    ensures var after := Import(t, wave).tables.categories;
            && d.slug in after
            && var row := after[d.slug];
               if d.slug !in t.categories then
                 && row.status == d.status && (row.isActive <==> d.status == ACTIVE)
                 && row.price == d.price && row.enrollmentOpen == d.enrollment
               else
                 row.price == if t.categories[d.slug].price.Some? then t.categories[d.slug].price else d.price
  {
    ImportSucceedsExactly(t, wave);
    SavedShape(t, wave);
    SourcesResolve(wave);
    PassThree(Saved(t, wave), SavedIds(QuestionsOf(wave)), QuestionsOf(wave));
    var i :| 0 <= i < |wave.categories| && wave.categories[i] == d;
  }

  function ConditionsListed(asked: seq<Asked>): nat
    decreases |asked|
  {
    if asked == [] then 0 else ConditionsListed(asked[..|asked| - 1]) + |asked[|asked| - 1].question.conditions|
  }

  function RulesListed(asked: seq<Asked>): nat
    decreases |asked|
  {
    if asked == [] then 0 else RulesListed(asked[..|asked| - 1]) + |asked[|asked| - 1].question.rules|
  }

  lemma {:induction false} AttachesCounted(p: Progress, ids: map<string, QuestionId>, asked: seq<Asked>)
    requires p.failure.None? && Resolved(ids, asked) && AttachAll(p, ids, asked).failure.None?
    ensures AttachAll(p, ids, asked).summary ==
              p.summary.(conditionsWritten := p.summary.conditionsWritten + ConditionsListed(asked),
                         rulesWritten := p.summary.rulesWritten + RulesListed(asked))
    decreases |asked|
  {
    if asked != [] {
      var n := |asked| - 1;
      PrefixAttaches(p.tables.categories.Keys, ids, asked);
      AttachesCounted(p, ids, asked[..n]);
      AttachOne(AttachAll(p, ids, asked[..n]), ids, asked[n]);
    }
  }

  lemma NothingWrittenYet(t: Tables, wave: Wave)
    requires Coherent(wave) && AllSaveOk(t, wave.categories)
    ensures Saved(t, wave).summary.conditionsWritten == 0 && Saved(t, wave).summary.rulesWritten == 0
  {
    CategoriesWriteNoRules(t, wave.categories);
    QuestionsWriteNoRules(SaveCategories(t, wave.categories), QuestionsOf(wave));
  }

  lemma {:induction false} CategoriesWriteNoRules(t: Tables, categories: seq<CategoryDef>)
    ensures var s := SaveCategories(t, categories).summary; s.conditionsWritten == 0 && s.rulesWritten == 0 && s.questionsUpdated == 0
    decreases |categories|
  {
    if categories != [] { CategoriesWriteNoRules(t, categories[..|categories| - 1]); }
  }

  lemma {:induction false} QuestionsWriteNoRules(p: Progress, asked: seq<Asked>)
    ensures var s := SaveQuestions(p, asked).summary;
            && s.conditionsWritten == p.summary.conditionsWritten && s.rulesWritten == p.summary.rulesWritten
            && s.categoriesUpdated == p.summary.categoriesUpdated
    decreases |asked|
  {
    if asked != [] { QuestionsWriteNoRules(p, asked[..|asked| - 1]); }
  }

  /** What the first two passes count. */
  ghost predicate RowsCounted(t: Tables, wave: Wave, s: Summary) {
    && s.categoriesCreated == |SlugsOf(wave) - t.categories.Keys|
    && s.categoriesCreated + s.categoriesUpdated == |wave.categories|
    && s.questionsCreated == |Ids(QuestionsOf(wave)) - t.questions.Keys|
    && s.questionsCreated + s.questionsUpdated == |QuestionsOf(wave)|
  }

  lemma SavedCounted(t: Tables, wave: Wave)
    requires Coherent(wave) && AllSaveOk(t, wave.categories)
    ensures RowsCounted(t, wave, Saved(t, wave).summary)
  {
    var p := SaveCategories(t, wave.categories);
    PassOne(t, wave.categories);
    CategoriesCounted(t, wave.categories);
    CategoriesWriteNoRules(t, wave.categories);
    CoherentIds(wave);
    QuestionsCounted(p, QuestionsOf(wave));
    QuestionsWriteNoRules(p, QuestionsOf(wave));
  }

  /** The summary of a completed import counts what it says. */
  lemma ImportCounted(t: Tables, wave: Wave)
    requires Import(t, wave).failure.None?
    ensures RowsCounted(t, wave, Import(t, wave).summary)
    ensures Import(t, wave).summary.conditionsWritten == ConditionsListed(QuestionsOf(wave))
    ensures Import(t, wave).summary.rulesWritten == RulesListed(QuestionsOf(wave))
  {
    AllPassesCounted(t, wave, Saved(t, wave).summary, Import(t, wave).summary);
  }

  lemma AllPassesCounted(t: Tables, wave: Wave, s: Summary, after: Summary)
    requires Import(t, wave).failure.None? && s == Saved(t, wave).summary && after == Import(t, wave).summary
    ensures RowsCounted(t, wave, after)
    ensures after.conditionsWritten == ConditionsListed(QuestionsOf(wave)) && after.rulesWritten == RulesListed(QuestionsOf(wave))
  {
    FirstPassesCounted(t, wave, s);
    ThirdPassCounted(t, wave, s, after);
    CountsCarryOver(t, wave, s, after);
  }

  lemma FirstPassesCounted(t: Tables, wave: Wave, s: Summary)
    requires Import(t, wave).failure.None? && s == Saved(t, wave).summary
    ensures RowsCounted(t, wave, s) && s.conditionsWritten == 0 && s.rulesWritten == 0
  {
    ImportSucceedsExactly(t, wave);
    SavedCounted(t, wave);
    NothingWrittenYet(t, wave);
  }

  lemma ThirdPassCounted(t: Tables, wave: Wave, s: Summary, after: Summary)
    requires Import(t, wave).failure.None? && s == Saved(t, wave).summary && after == Import(t, wave).summary
    ensures after == s.(conditionsWritten := s.conditionsWritten + ConditionsListed(QuestionsOf(wave)),
                        rulesWritten := s.rulesWritten + RulesListed(QuestionsOf(wave)))
  {
    ImportSucceedsExactly(t, wave);
    AttachedCounted(t, wave, Saved(t, wave), Import(t, wave));
  }

  /** The third pass adds its counts and leaves those of the first two. */
  lemma CountsCarryOver(t: Tables, wave: Wave, s: Summary, after: Summary)
    requires RowsCounted(t, wave, s) && s.conditionsWritten == 0 && s.rulesWritten == 0
    requires after == s.(conditionsWritten := s.conditionsWritten + ConditionsListed(QuestionsOf(wave)),
                         rulesWritten := s.rulesWritten + RulesListed(QuestionsOf(wave)))
    ensures RowsCounted(t, wave, after)
    ensures after.conditionsWritten == ConditionsListed(QuestionsOf(wave)) && after.rulesWritten == RulesListed(QuestionsOf(wave))
  {
  }

  lemma AttachedCounted(t: Tables, wave: Wave, p: Progress, q: Progress)
    requires Coherent(wave) && AllSaveOk(t, wave.categories) && p == Saved(t, wave)
    requires q == Import(t, wave) && q.failure.None?
    ensures q.summary == p.summary.(conditionsWritten := p.summary.conditionsWritten + ConditionsListed(QuestionsOf(wave)),
                                    rulesWritten := p.summary.rulesWritten + RulesListed(QuestionsOf(wave)))
  {
    SavedShape(t, wave);
    SourcesResolve(wave);
    assert q == AttachAll(p, SavedIds(QuestionsOf(wave)), QuestionsOf(wave));
    AttachesCounted(p, SavedIds(QuestionsOf(wave)), QuestionsOf(wave));
  }

  // ---- hands off ----

  /** What every import keeps of the rows it finds, whether it completes or not. */
  ghost predicate HandsOff(t: Tables, wave: Wave, after: Tables) {
    && t.categories.Keys <= after.categories.Keys <= t.categories.Keys + SlugsOf(wave)
    && (forall s :: s in t.categories ==> KeepsOperatorColumns(t.categories[s], after.categories[s]))
    && (forall s :: s in t.categories && s !in SlugsOf(wave) ==> after.categories[s] == t.categories[s])
    && var ids := Ids(QuestionsOf(wave));
    && t.questions.Keys <= after.questions.Keys <= t.questions.Keys + ids
    && (forall id :: id in t.questions && id !in ids ==> after.questions[id] == t.questions[id])
    && SameOutside(t.conditions, after.conditions, ids)
    && SameOutside(t.rules, after.rules, ids)
  }

  /** The columns people decide about: the last four are never written, a price only when there is none. */
  predicate KeepsOperatorColumns(row: CategoryRow, after: CategoryRow) {
    && after.status == row.status && after.isActive == row.isActive
    && after.enrollmentOpen == row.enrollmentOpen && after.extras == row.extras
    && (row.price.Some? ==> after.price == row.price)
  }

  ghost predicate SameOutside<T>(rows: map<QuestionId, T>, after: map<QuestionId, T>, ids: set<QuestionId>) {
    && rows.Keys <= after.Keys <= rows.Keys + ids
    && forall id :: id in rows && id !in ids ==> after[id] == rows[id]
  }

  lemma SaveHandsOff(p: Progress, d: CategoryDef)
    ensures var q := SaveCategory(p, d).tables;
            && q == p.tables.(categories := q.categories)
            && p.tables.categories.Keys <= q.categories.Keys <= p.tables.categories.Keys + {d.slug}
            && (d.slug in p.tables.categories ==> KeepsOperatorColumns(p.tables.categories[d.slug], q.categories[d.slug]))
            && (forall s :: s in p.tables.categories && s != d.slug ==> q.categories[s] == p.tables.categories[s])
  {
  }

  ghost predicate CategoriesKept(t: Tables, slugs: set<string>, u: Tables) {
    && u == t.(categories := u.categories)
    && t.categories.Keys <= u.categories.Keys <= t.categories.Keys + slugs
    && (forall s :: s in t.categories ==> KeepsOperatorColumns(t.categories[s], u.categories[s]))
    && (forall s :: s in t.categories && s !in slugs ==> u.categories[s] == t.categories[s])
  }

  lemma {:induction false} CategoriesHandsOff(t: Tables, categories: seq<CategoryDef>)
    ensures CategoriesKept(t, Slugs(categories), SaveCategories(t, categories).tables)
    decreases |categories|
  {
    if categories != [] {
      var n := |categories| - 1;
      SlugsSnoc(categories);
      CategoriesHandsOff(t, categories[..n]);
      SaveHandsOff(SaveCategories(t, categories[..n]), categories[n]);
    }
  }

  lemma {:induction false} AttachesHandsOff(p: Progress, ids: map<string, QuestionId>, asked: seq<Asked>, own: set<QuestionId>)
    requires forall s :: s in ids ==> ids[s] in own
    ensures var q := AttachAll(p, ids, asked).tables;
            && q == p.tables.(conditions := q.conditions, rules := q.rules)
            && SameOutside(p.tables.conditions, q.conditions, own)
            && SameOutside(p.tables.rules, q.rules, own)
    decreases |asked|
  {
    if asked != [] { AttachesHandsOff(p, ids, asked[..|asked| - 1], own); }
  }

  /**
   Every import, completed, refused or stopped half-way: rows the wave does not name are unchanged,
   no row disappears, and of the rows it does name the operator's columns are.
   */
  lemma ImportHandsOff(t: Tables, wave: Wave)
    ensures HandsOff(t, wave, Import(t, wave).tables)
  {
    if Coherent(wave) {
      var asked := QuestionsOf(wave);
      CategoriesHandsOff(t, wave.categories);
      if SaveCategories(t, wave.categories).failure.None? {
        CoherentIds(wave);
        PassTwo(SaveCategories(t, wave.categories), asked);
        SavedIdsFaithful(asked);
        AttachesHandsOff(Saved(t, wave), SavedIds(asked), asked, Ids(asked));
      }
    }
  }

  // ---- a second import ----

  lemma MergedTwice(found: Option<CategoryRow>, d: CategoryDef)
    ensures Merged(Some(Merged(found, d)), d) == Merged(found, d)
  {
  }

  lemma CategoriesSettle(t: Tables, categories: seq<CategoryDef>, u: Tables)
    requires DistinctSlugs(categories) && AllSaveOk(t, categories)
    requires CategoriesMerged(t, categories, u.categories)
    ensures AllSaveOk(u, categories)
    ensures CategoriesMerged(u, categories, u.categories)
  {
    forall i | 0 <= i < |categories|
      ensures u.categories[categories[i].slug] == Merged(RowAt(u, categories[i].slug), categories[i])
      ensures SaveOk(u, categories, i)
    {
      MergedTwice(RowAt(t, categories[i].slug), categories[i]);
      assert SaveOk(t, categories, i);
      assert categories[i] in categories;
    }
  }

  lemma MergedOnce(t: Tables, categories: seq<CategoryDef>, a: map<string, CategoryRow>, b: map<string, CategoryRow>)
    requires CategoriesMerged(t, categories, a) && CategoriesMerged(t, categories, b)
    ensures a == b
  {
    forall s | s in a
      ensures a[s] == b[s]
    {
      if s in Slugs(categories) {
        var d :| d in categories && d.slug == s;
        var i :| 0 <= i < |categories| && categories[i] == d;
      }
    }
  }

  lemma QuestionsSettle(before: map<QuestionId, QuestionRow>, asked: seq<Asked>,
                                           a: map<QuestionId, QuestionRow>, b: map<QuestionId, QuestionRow>)
    requires QuestionsSaved(before, asked, a) && QuestionsSaved(a, asked, b)
    ensures b == a
  {
    forall id | id in a
      ensures b[id] == a[id]
    {
      if id in Ids(asked) {
        var x :| x in asked && Id(x) == id;
        var i :| 0 <= i < |asked| && asked[i] == x;
      }
    }
  }

  /** A second import right after a completed one succeeds, creates nothing and changes nothing. */
  lemma SecondImportChangesNothing(t: Tables, wave: Wave)
    requires Import(t, wave).failure.None?
    ensures var first := Import(t, wave).tables; var second := Import(first, wave);
            && second.failure.None?
            && second.tables == first
            && second.summary.categoriesCreated == 0 && second.summary.questionsCreated == 0
  {
    var asked := QuestionsOf(wave);
    var ids := SavedIds(asked);
    var p := Saved(t, wave);
    var first := AttachAll(p, ids, asked).tables;
    ImportSucceedsExactly(t, wave);
    SavedShape(t, wave);
    SourcesResolve(wave);
    PassThree(p, ids, asked);
    CategoriesSettle(t, wave.categories, first);
    SavedShape(first, wave);
    var p2 := Saved(first, wave);
    MergedOnce(first, wave.categories, first.categories, p2.tables.categories);
    QuestionsSettle(t.questions, asked, first.questions, p2.tables.questions);
    SecondAttach(p, p2, ids, asked);
    NothingNew(first, wave);
    AttachKeepsCounts(p2, ids, asked);
    ImportSucceedsExactly(first, wave);
  }

  lemma SecondAttach(p: Progress, p2: Progress, ids: map<string, QuestionId>, asked: seq<Asked>)
    requires p.failure.None? && p2.failure.None? && Resolved(ids, asked)
    requires p.tables.categories.Keys == p2.tables.categories.Keys
    requires AllAttachOk(p.tables.categories.Keys, asked)
    requires p2.tables == AttachAll(p, ids, asked).tables
    ensures AttachAll(p2, ids, asked).tables == p2.tables
  {
    PassThreeForgets(p, p2, ids, asked);
    PassThreeForgets(p2, p, ids, asked);
    PassThree(p2, ids, asked);
    assert AttachAll(p2, ids, asked).tables.conditions == p2.tables.conditions;
    assert AttachAll(p2, ids, asked).tables.rules == p2.tables.rules;
  }

  lemma {:induction false} AttachKeepsCounts(p: Progress, ids: map<string, QuestionId>, asked: seq<Asked>)
    ensures var s := AttachAll(p, ids, asked).summary;
            s.categoriesCreated == p.summary.categoriesCreated && s.questionsCreated == p.summary.questionsCreated
    decreases |asked|
  {
    if asked != [] { AttachKeepsCounts(p, ids, asked[..|asked| - 1]); }
  }

  lemma NothingNew(t: Tables, wave: Wave)
    requires Coherent(wave) && AllSaveOk(t, wave.categories)
    requires SlugsOf(wave) <= t.categories.Keys && Ids(QuestionsOf(wave)) <= t.questions.Keys
    ensures Saved(t, wave).summary.categoriesCreated == 0 && Saved(t, wave).summary.questionsCreated == 0
  {
    var asked := QuestionsOf(wave);
    var p := SaveCategories(t, wave.categories);
    PassOne(t, wave.categories);
    CategoriesCounted(t, wave.categories);
    CoherentIds(wave);
    QuestionsCounted(p, asked);
    assert SlugsOf(wave) - t.categories.Keys == {};
    assert Ids(asked) - p.tables.questions.Keys == {};
  }

  // ---- clashing names ----

  /** A wave with two questions remembered under one name leaves the rows of one of them as it finds them. */
  lemma ClashedQuestion(asked: seq<Asked>) returns (k: nat)
    requires !NoKeyClash(asked)
    ensures k < |asked| && Id(asked[k]) !in Touched(SavedIds(asked), asked)
  {
    var ids := SavedIds(asked);
    SavedIdsFaithful(asked);
    var i, j :| 0 <= i < |asked| && 0 <= j < |asked| && KeyOf(asked[i]) == KeyOf(asked[j]) && Id(asked[i]) != Id(asked[j]);
    k := if ids[KeyOf(asked[i])] == Id(asked[i]) then j else i;
    assert KeyOf(asked[k]) == KeyOf(asked[i]) && ids[KeyOf(asked[k])] != Id(asked[k]);
    forall s | s in ids
      ensures ids[s] != Id(asked[k])
    {
      assert QuestionKey(ids[s].category, ids[s].key) == s;
    }
  }

  /** The database with other router rules on one question. */
  function WithRules(t: Tables, id: QuestionId, rows: seq<RuleRow>): Tables {
    t.(rules := t.rules[id := rows])
  }

  lemma SavesIgnoreRules(t: Tables, id: QuestionId, rows: seq<RuleRow>, categories: seq<CategoryDef>)
    ensures AllSaveOk(WithRules(t, id, rows), categories) == AllSaveOk(t, categories)
  {
    var u := WithRules(t, id, rows);
    forall i | 0 <= i < |categories|
      ensures SaveOk(u, categories, i) == SaveOk(t, categories, i)
    {
      assert RowAt(u, categories[i].slug) == RowAt(t, categories[i].slug);
    }
  }

  /** Rules on a question the third pass never reaches stay. */
  lemma UnreachedRulesStay(u: Tables, wave: Wave, id: QuestionId)
    requires Import(u, wave).failure.None? && id in u.rules
    requires id !in Touched(SavedIds(QuestionsOf(wave)), QuestionsOf(wave))
    ensures id in Import(u, wave).tables.rules && Import(u, wave).tables.rules[id] == u.rules[id]
  {
    ImportSucceedsExactly(u, wave);
    SavedShape(u, wave);
    SourcesResolve(wave);
    PassThreeForgets(Saved(u, wave), Saved(u, wave), SavedIds(QuestionsOf(wave)), QuestionsOf(wave));
  }

  lemma OtherRulesImport(t: Tables, wave: Wave, id: QuestionId, rows: seq<RuleRow>)
    requires Import(t, wave).failure.None?
    ensures Import(WithRules(t, id, rows), wave).failure.None?
  {
    ImportSucceedsExactly(t, wave);
    SavesIgnoreRules(t, id, rows, wave.categories);
    ImportSucceedsExactly(WithRules(t, id, rows), wave);
  }

  /** A wave whose names clash keeps some leftover rule of some database it can be imported into. */
  lemma ClashLeavesRules(t: Tables, wave: Wave) returns (u: Tables)
    requires Import(t, wave).failure.None? && !PlainKeys(wave)
    ensures Import(u, wave).failure.None? && !FollowsFile(Import(u, wave).tables, wave)
  {
    var k := ClashedQuestion(QuestionsOf(wave));
    var a := QuestionsOf(wave)[k];
    var stale := RulesInFile(a) + [RuleRow("", "", 0)];
    u := WithRules(t, Id(a), stale);
    OtherRulesImport(t, wave, Id(a), stale);
    assert Id(a) in u.rules && u.rules[Id(a)] == stale;
    UnreachedRulesStay(u, wave, Id(a));
    StaleIsNotTheFile(Import(u, wave).tables, wave, a, stale);
  }

  lemma StaleIsNotTheFile(t: Tables, wave: Wave, a: Asked, stale: seq<RuleRow>)
    requires a in QuestionsOf(wave) && |stale| != |RulesInFile(a)|
    requires Id(a) in t.rules && t.rules[Id(a)] == stale
    ensures !FollowsFile(t, wave)
  {
    assert FollowsFile(t, wave) ==> AsksAsFile(t, QuestionsOf(wave));
  }

  /**
   For a coherent wave some database accepts, the import converges from every database that accepts
   it exactly when no two of its questions are remembered under one name.
   */
  lemma ConvergesExactly(t: Tables, wave: Wave)
    requires Import(t, wave).failure.None?
    ensures PlainKeys(wave) <==> forall u: Tables :: Import(u, wave).failure.None? ==> FollowsFile(Import(u, wave).tables, wave)
  {
    if PlainKeys(wave) {
      forall u: Tables | Import(u, wave).failure.None?
        ensures FollowsFile(Import(u, wave).tables, wave)
      {
        ImportConverges(u, wave);
      }
    } else {
      var u := ClashLeavesRules(t, wave);
    }
  }

  function TextQuestion(key: string): QuestionDef {
    QuestionDef(key, "", None, TEXT, false, 0, None, None, false, [], [])
  }

  function DraftLeaf(slug: string, key: string): CategoryDef {
    CategoryDef(slug, "", "", LEAF, DRAFT, false, None, None, 0, None, [TextQuestion(key)])
  }

  /** Both questions are remembered as a::b::c. */
  const CLASHING := Wave("w", [DraftLeaf("a", "b::c"), DraftLeaf("a::b", "c")])

  const NO_ROWS := Tables(map[], map[], map[], map[])

  lemma DraftLeafOk(slug: string, key: string)
    ensures CategoryOk(DraftLeaf(slug, key))
  {
  }

  lemma ClashingAsked()
    ensures QuestionsOf(CLASHING) == [Asked("a", TextQuestion("b::c")), Asked("a::b", TextQuestion("c"))]
  {
    var cats := CLASHING.categories;
    assert cats[..1] == [cats[0]] && cats[..1][..0] == [];
    assert AllAsked(cats[..1]) == [Asked("a", TextQuestion("b::c"))];
  }

  lemma ClashingIsCoherent()
    ensures Coherent(CLASHING)
  {
    DraftLeafOk("a", "b::c");
    DraftLeafOk("a::b", "c");
  }

  lemma DraftLeafSaves(categories: seq<CategoryDef>, i: nat, slug: string, key: string)
    requires i < |categories| && categories[i] == DraftLeaf(slug, key)
    ensures SaveOk(NO_ROWS, categories, i)
  {
  }

  lemma ClashingSaves()
    ensures AllSaveOk(NO_ROWS, CLASHING.categories)
  {
    DraftLeafSaves(CLASHING.categories, 0, "a", "b::c");
    DraftLeafSaves(CLASHING.categories, 1, "a::b", "c");
  }

  lemma ClashingAttaches()
    ensures AllAttachOk(NO_ROWS.categories.Keys + SlugsOf(CLASHING), QuestionsOf(CLASHING))
  {
    ClashingAsked();
  }

  lemma ClashingImports()
    ensures Import(NO_ROWS, CLASHING).failure.None?
  {
    ClashingIsCoherent();
    ClashingSaves();
    ClashingAttaches();
    ImportSucceedsExactly(NO_ROWS, CLASHING);
  }

  lemma ClashingClashes()
    ensures !PlainKeys(CLASHING)
  {
    var asked := QuestionsOf(CLASHING);
    ClashingAsked();
    assert KeyOf(asked[0]) == "a::b::c" == KeyOf(asked[1]);
    assert Id(asked[0]) != Id(asked[1]);
  }

  /** A coherent wave an empty database accepts, which some database it can be imported into does not follow. */
  lemma ClashingWaveFails() returns (u: Tables)
    ensures Import(NO_ROWS, CLASHING).failure.None? && !PlainKeys(CLASHING)
    ensures Import(u, CLASHING).failure.None? && !FollowsFile(Import(u, CLASHING).tables, CLASHING)
  {
    ClashingImports();
    ClashingClashes();
    u := ClashLeavesRules(NO_ROWS, CLASHING);
  }

  // ---- conditions never form a cycle ----

  /** Each question of the path depends on the next one. */
  ghost predicate Follows(t: Tables, path: seq<QuestionId>) {
    forall i :: 0 <= i < |path| - 1 ==> path[i] in t.conditions && HasSource(t.conditions[path[i]], path[i + 1])
  }

  lemma ConditionGoesBack(wave: Wave, t: Tables, d: CategoryDef, q: QuestionDef, source: QuestionId) returns (s: QuestionDef)
    requires Coherent(wave) && FollowsFile(t, wave) && d in wave.categories && q in d.questions
    requires QuestionId(d.slug, q.key) in t.conditions && HasSource(t.conditions[QuestionId(d.slug, q.key)], source)
    ensures s in d.questions && source == QuestionId(d.slug, s.key) && s.sortOrder < q.sortOrder
  {
    var a := Asked(d.slug, q);
    AskedHaveTheirSlug(wave.categories, a);
    assert a in QuestionsOf(wave) && Id(a) == QuestionId(d.slug, q.key);
    var c :| 0 <= c < |t.conditions[Id(a)]| && t.conditions[Id(a)][c].source == source;
    var i := SourceIsAsked(wave, d, q, c);
    s := QuestionsOf(wave)[i].question;
  }

  /** The questions along a chain of conditions: all of one category, strictly earlier at every step. */
  lemma {:induction false} ChainGoesBack(wave: Wave, t: Tables, d: CategoryDef, q: QuestionDef, path: seq<QuestionId>) returns (along: seq<QuestionDef>)
    requires Coherent(wave) && FollowsFile(t, wave) && d in wave.categories && q in d.questions
    requires path != [] && path[0] == QuestionId(d.slug, q.key) && Follows(t, path)
    ensures |along| == |path| && along[0] == q
    ensures forall i :: 0 <= i < |path| ==> along[i] in d.questions && path[i] == QuestionId(d.slug, along[i].key)
    ensures forall i, j :: 0 <= i < j < |path| ==> along[j].sortOrder < along[i].sortOrder
    decreases |path|
  {
    if |path| == 1 {
      along := [q];
    } else {
      var next := ConditionGoesBack(wave, t, d, q, path[1]);
      var rest := path[1..];
      forall i | 0 <= i < |rest| - 1
        ensures rest[i] in t.conditions && HasSource(t.conditions[rest[i]], rest[i + 1])
      {
        assert rest[i] == path[i + 1] && rest[i + 1] == path[i + 2];
      }
      var more := ChainGoesBack(wave, t, d, next, rest);
      along := [q] + more;
      forall i | 0 <= i < |path|
        ensures along[i] in d.questions && path[i] == QuestionId(d.slug, along[i].key)
      {
        if i > 0 { assert along[i] == more[i - 1] && path[i] == rest[i - 1]; }
      }
    }
  }

  /** Distinct members of a list are no more than the list is long. */
  lemma {:induction false} DistinctFit(along: seq<QuestionDef>, questions: seq<QuestionDef>)
    requires forall i :: 0 <= i < |along| ==> along[i] in questions
    requires forall i, j :: 0 <= i < j < |along| ==> along[i] != along[j]
    ensures |along| <= |questions|
    decreases |along|
  {
    if along != [] {
      var n := |along| - 1;
      var k :| 0 <= k < |questions| && questions[k] == along[n];
      var others := questions[..k] + questions[k + 1..];
      forall i | 0 <= i < n
        ensures along[..n][i] in others
      {
        var m :| 0 <= m < |questions| && questions[m] == along[i];
        assert m != k;
        if m < k { assert others[m] == along[i]; } else { assert others[m - 1] == along[i]; }
      }
      DistinctFit(along[..n], others);
    }
  }

  /**
   Following conditions from any of the wave's questions ends: a chain never returns to a question
   and is no longer than its category has questions.
   */
  lemma ConditionChainsEnd(wave: Wave, t: Tables, d: CategoryDef, q: QuestionDef, path: seq<QuestionId>)
    requires Coherent(wave) && FollowsFile(t, wave) && d in wave.categories && q in d.questions
    requires path != [] && path[0] == QuestionId(d.slug, q.key) && Follows(t, path)
    ensures |path| <= |d.questions|
    ensures forall i, j :: 0 <= i < j < |path| ==> path[i] != path[j]
  {
    var along := ChainGoesBack(wave, t, d, q, path);
    forall i, j | 0 <= i < j < |path|
      ensures along[i] != along[j] && path[i] != path[j]
    {
      assert CategoryOk(d);
    }
    DistinctFit(along, d.questions);
  }
}
