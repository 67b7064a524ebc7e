/**
 The three-pass category importer (prisma/category-import/import-categories.ts) over the tables it
 writes. A row is named by its unique key, which the import never changes: a category by its slug, a
 question by its category and key. The uniqueness and CHECK constraints that can refuse one of the
 importer's writes are part of the tables (prisma/schema.prisma and the price migration).
 */
module CategoryImport {
  import opened Options
  import opened CategoryWave

  // ---- the tables ----

  /** `extras` stands for the columns the importer never writes. */
  datatype CategoryRow = CategoryRow(
    name: string,
    description: Option<string>,
    kind: Kind,
    parent: Option<string>,
    sortOrder: int,
    icon: Option<string>,
    price: Option<int>,
    status: Status,
    isActive: bool,
    enrollmentOpen: bool,
    extras: string)

  datatype QuestionId = QuestionId(category: string, key: string)

  datatype QuestionRow = QuestionRow(
    text: string,
    help: Option<string>,
    kind: QuestionType,
    required: bool,
    options: Option<seq<OptionDef>>,
    systemField: Option<string>,
    router: bool,
    sortOrder: int,
    isActive: bool)

  datatype ConditionRow = ConditionRow(source: QuestionId, expected: seq<string>, mode: MatchMode)
  datatype RuleRow = RuleRow(option: string, target: string, sortOrder: int)

  /** Conditions and router rules hang on the question they govern, in the order they were created. */
  datatype Tables = Tables(
    categories: map<string, CategoryRow>,
    questions: map<QuestionId, QuestionRow>,
    conditions: map<QuestionId, seq<ConditionRow>>,
    rules: map<QuestionId, seq<RuleRow>>)

  datatype Failure =
    | Refused
    | ParentMissing(slug: string)
    | PriceRefused(slug: string)
    | SourceMissing(slug: string, key: string, source: string)
    | SourceRepeated(slug: string, key: string, source: string)
    | TargetMissing(slug: string, key: string, target: string)
    | OptionRepeated(slug: string, key: string, option: string)

  datatype Summary = Summary(
    categoriesCreated: nat,
    categoriesUpdated: nat,
    questionsCreated: nat,
    questionsUpdated: nat,
    conditionsWritten: nat,
    rulesWritten: nat)

  const NOTHING := Summary(0, 0, 0, 0, 0, 0)

  /** A run of the importer so far: the tables, the counters and what stopped it. */
  datatype Progress = Progress(tables: Tables, summary: Summary, failure: Option<Failure>)

  // ---- pass one: categories ----

  function RowAt(t: Tables, slug: string): Option<CategoryRow> {
    if slug in t.categories then Some(t.categories[slug]) else None
  }

  /** The row a definition leaves, given the row it finds. */
  function Merged(found: Option<CategoryRow>, d: CategoryDef): CategoryRow {
    match found
    case None =>
      CategoryRow(d.name, Some(d.description), d.kind, ParentOf(d), d.sortOrder, d.icon,
                  d.price, d.status, d.status == ACTIVE, d.enrollment, "")
    case Some(row) =>
      row.(name := d.name, description := Some(d.description), kind := d.kind, parent := ParentOf(d),
           sortOrder := d.sortOrder, icon := d.icon,
           price := if row.price.None? && d.price.Some? then d.price else row.price)
  }

  /** CHECK ("offerCreditCost" IS NULL OR "offerCreditCost" > 0) */
  predicate PriceOk(row: CategoryRow) {
    row.price.Some? ==> row.price.value > 0
  }

  function SaveCategory(p: Progress, d: CategoryDef): Progress {
    var found := RowAt(p.tables, d.slug);
    var row := Merged(found, d);
    if ParentOf(d).Some? && ParentOf(d).value !in p.tables.categories then
      p.(failure := Some(ParentMissing(d.slug)))
    else if !PriceOk(row) then p.(failure := Some(PriceRefused(d.slug)))
    else
      p.(tables := p.tables.(categories := p.tables.categories[d.slug := row]),
         summary := if found.None? then p.summary.(categoriesCreated := p.summary.categoriesCreated + 1)
                    else p.summary.(categoriesUpdated := p.summary.categoriesUpdated + 1))
  }

  function SaveCategories(t: Tables, categories: seq<CategoryDef>): Progress
    decreases |categories|
  {
    if categories == [] then Progress(t, NOTHING, None)
    else
      var n := |categories| - 1;
      var p := SaveCategories(t, categories[..n]);
      if p.failure.Some? then p else SaveCategory(p, categories[n])
  }

  // ---- pass two: questions ----

  /** A question of the wave with the slug of its category. */
  datatype Asked = Asked(slug: string, question: QuestionDef)

  function Id(a: Asked): QuestionId {
    QuestionId(a.slug, a.question.key)
  }

  function Tagged(d: CategoryDef, n: nat): seq<Asked>
    requires n <= |d.questions|
  {
    seq(n, i requires 0 <= i < n => Asked(d.slug, d.questions[i]))
  }

  function AllAsked(categories: seq<CategoryDef>): seq<Asked>
    decreases |categories|
  {
    if categories == [] then []
    else
      var d := categories[|categories| - 1];
      AllAsked(categories[..|categories| - 1]) + Tagged(d, |d.questions|)
  }

  function QuestionRowOf(q: QuestionDef): QuestionRow {
    QuestionRow(q.text, q.help, q.kind, q.required, q.options, q.systemField, q.router, q.sortOrder, true)
  }

  function SaveQuestion(p: Progress, a: Asked): Progress {
    p.(tables := p.tables.(questions := p.tables.questions[Id(a) := QuestionRowOf(a.question)]),
       summary := if Id(a) !in p.tables.questions then p.summary.(questionsCreated := p.summary.questionsCreated + 1)
                  else p.summary.(questionsUpdated := p.summary.questionsUpdated + 1))
  }

  function SaveQuestions(p: Progress, asked: seq<Asked>): Progress
    decreases |asked|
  {
    if asked == [] then p else SaveQuestion(SaveQuestions(p, asked[..|asked| - 1]), asked[|asked| - 1])
  }

  /** The name a saved question is remembered under between the second pass and the third. */
  function QuestionKey(slug: string, key: string): string {
    slug + "::" + key
  }

  function KeyOf(a: Asked): string {
    QuestionKey(a.slug, a.question.key)
  }

  /** The Map of saved question ids: a later question under the same name replaces an earlier one. */
  function SavedIds(asked: seq<Asked>): map<string, QuestionId>
    decreases |asked|
  {
    if asked == [] then map[]
    else SavedIds(asked[..|asked| - 1])[KeyOf(asked[|asked| - 1]) := Id(asked[|asked| - 1])]
  }

  // ---- pass three: conditions and router rules ----

  datatype Written<T> = Written(rows: seq<T>, failure: Option<Failure>)

  /** The first `n` conditions of a question, created one by one on a question that has none. */
  function WriteConditions(ids: map<string, QuestionId>, a: Asked, n: nat): Written<ConditionRow>
    requires n <= |a.question.conditions|
    decreases n
  {
    if n == 0 then Written([], None)
    else
      var w := WriteConditions(ids, a, n - 1);
      var c := a.question.conditions[n - 1];
      var key := QuestionKey(a.slug, c.source);
      if w.failure.Some? then w
      else if key !in ids then w.(failure := Some(SourceMissing(a.slug, a.question.key, c.source)))
      else if HasSource(w.rows, ids[key]) then w.(failure := Some(SourceRepeated(a.slug, a.question.key, c.source)))
      else w.(rows := w.rows + [ConditionRow(ids[key], c.expected, c.mode.GetOr(ANY))])
  }

  /** @@unique([questionId, sourceQuestionId]) would refuse another row. */
  predicate HasSource(rows: seq<ConditionRow>, source: QuestionId) {
    exists i :: 0 <= i < |rows| && rows[i].source == source
  }

  /** @@unique([questionId, optionKey]) would refuse another row. */
  predicate HasOption(rows: seq<RuleRow>, option: string) {
    exists i :: 0 <= i < |rows| && rows[i].option == option
  }

  function WriteRules(targets: set<string>, a: Asked, n: nat): Written<RuleRow>
    requires n <= |a.question.rules|
    decreases n
  {
    if n == 0 then Written([], None)
    else
      var w := WriteRules(targets, a, n - 1);
      var r := a.question.rules[n - 1];
      if w.failure.Some? then w
      else if r.target !in targets then w.(failure := Some(TargetMissing(a.slug, a.question.key, r.target)))
      else if HasOption(w.rows, r.option) then w.(failure := Some(OptionRepeated(a.slug, a.question.key, r.option)))
      else w.(rows := w.rows + [RuleRow(r.option, r.target, (n - 1) * 10)])
  }

  function ReplaceConditions(p: Progress, id: QuestionId, w: Written<ConditionRow>): Progress {
    Progress(p.tables.(conditions := p.tables.conditions[id := w.rows]),
             p.summary.(conditionsWritten := p.summary.conditionsWritten + |w.rows|),
             w.failure)
  }

  function ReplaceRules(p: Progress, id: QuestionId, w: Written<RuleRow>): Progress {
    Progress(p.tables.(rules := p.tables.rules[id := w.rows]),
             p.summary.(rulesWritten := p.summary.rulesWritten + |w.rows|),
             w.failure)
  }

  function Attach(p: Progress, ids: map<string, QuestionId>, a: Asked): Progress {
    if KeyOf(a) !in ids then p
    else
      var id := ids[KeyOf(a)];
      var c := ReplaceConditions(p, id, WriteConditions(ids, a, |a.question.conditions|));
      if c.failure.Some? then c
      else ReplaceRules(c, id, WriteRules(p.tables.categories.Keys, a, |a.question.rules|))
  }

  function AttachAll(p: Progress, ids: map<string, QuestionId>, asked: seq<Asked>): Progress
    decreases |asked|
  {
    if asked == [] then p
    else
      var before := AttachAll(p, ids, asked[..|asked| - 1]);
      if before.failure.Some? then before else Attach(before, ids, asked[|asked| - 1])
  }

  /** The whole import. */
  function Import(t: Tables, wave: Wave): Progress {
    if !Coherent(wave) then Progress(t, NOTHING, Some(Refused))
    else
      var saved := SaveCategories(t, wave.categories);
      var asked := AllAsked(wave.categories);
      if saved.failure.Some? then saved else AttachAll(SaveQuestions(saved, asked), SavedIds(asked), asked)
  }

  // ---- the importer ----

  /** The database the importer is handed, with the counters of the run it is making. */
  class Importer {
    var categories: map<string, CategoryRow>
    var questions: map<QuestionId, QuestionRow>
    var conditions: map<QuestionId, seq<ConditionRow>>
    var rules: map<QuestionId, seq<RuleRow>>
    var summary: Summary

    function Stored(): Tables
      reads this
    {
      Tables(categories, questions, conditions, rules)
    }

    function Now(failure: Option<Failure>): Progress
      reads this
    {
      Progress(Stored(), summary, failure)
    }

    constructor (t: Tables)
      ensures Stored() == t
    {
      categories, questions, conditions, rules := t.categories, t.questions, t.conditions, t.rules;
      summary := NOTHING;
    }

    /** The row to write: the structure over what is there, or a whole new row. */
    static method MergeRow(existing: Option<CategoryRow>, parent: Option<string>, d: CategoryDef) returns (row: CategoryRow)
      requires parent == ParentOf(d)
      ensures row == Merged(existing, d)
    {
      if existing.Some? {
        row := existing.value.(name := d.name, description := Some(d.description), kind := d.kind,
                               parent := parent, sortOrder := d.sortOrder, icon := d.icon);
        if existing.value.price.None? && d.price.Some? {
          row := row.(price := d.price);
        }
      } else {
        row := CategoryRow(d.name, Some(d.description), d.kind, parent, d.sortOrder, d.icon,
                           d.price, d.status, d.status == ACTIVE, d.enrollment, "");
      }
    }

    method SaveOneCategory(d: CategoryDef, bySlug: map<string, CategoryRow>) returns (failure: Option<Failure>)
      requires bySlug.Keys <= categories.Keys
      modifies this`categories, this`summary
      ensures Now(failure) == SaveCategory(old(Now(None)), d)
    {
      var existing := RowAt(Stored(), d.slug);
      var parent: Option<string> := None;
      if d.parent.Some? && d.parent.value != "" {
        if d.parent.value !in bySlug && d.parent.value !in categories {
          return Some(ParentMissing(d.slug));
        }
        parent := d.parent;
      }
      var row := MergeRow(existing, parent, d);
      if !PriceOk(row) {
        return Some(PriceRefused(d.slug));
      }
      categories := categories[d.slug := row];
      if existing.Some? {
        summary := summary.(categoriesUpdated := summary.categoriesUpdated + 1);
      } else {
        summary := summary.(categoriesCreated := summary.categoriesCreated + 1);
      }
      failure := None;
    }

    method SaveOneQuestion(a: Asked)
      modifies this`questions, this`summary
      ensures Now(None) == SaveQuestion(old(Now(None)), a)
    {
      if Id(a) in questions {
        summary := summary.(questionsUpdated := summary.questionsUpdated + 1);
      } else {
        summary := summary.(questionsCreated := summary.questionsCreated + 1);
      }
      questions := questions[Id(a) := QuestionRowOf(a.question)];
    }

    /** Deletes the question's conditions and creates the wave's, one row at a time. */
    method WriteAllConditions(ids: map<string, QuestionId>, a: Asked, id: QuestionId) returns (failure: Option<Failure>)
      modifies this`conditions, this`summary
      ensures Now(failure) ==
              ReplaceConditions(old(Now(None)), id, WriteConditions(ids, a, |a.question.conditions|))
    {
      ghost var start := Now(None);
      conditions := conditions[id := []];
      var wanted := a.question.conditions;
      for n := 0 to |wanted|
        invariant WriteConditions(ids, a, n).failure.None?
        invariant Now(None) == ReplaceConditions(start, id, WriteConditions(ids, a, n))
      {
        var key := QuestionKey(a.slug, wanted[n].source);
        ghost var next := WriteConditions(ids, a, n + 1);
        if key !in ids {
          failure := Some(SourceMissing(a.slug, a.question.key, wanted[n].source));
          FailuresLast(ids, a, n + 1, |wanted|);
          return;
        }
        if HasSource(conditions[id], ids[key]) {
          failure := Some(SourceRepeated(a.slug, a.question.key, wanted[n].source));
          FailuresLast(ids, a, n + 1, |wanted|);
          return;
        }
        conditions := conditions[id := conditions[id] + [ConditionRow(ids[key], wanted[n].expected, wanted[n].mode.GetOr(ANY))]];
        summary := summary.(conditionsWritten := summary.conditionsWritten + 1);
      }
      failure := None;
    }

    /** Deletes the question's router rules and creates the wave's, one row at a time. */
    method WriteAllRules(a: Asked, id: QuestionId) returns (failure: Option<Failure>)
      modifies this`rules, this`summary
      ensures Now(failure) ==
              ReplaceRules(old(Now(None)), id, WriteRules(categories.Keys, a, |a.question.rules|))
    {
      ghost var start := Now(None);
      rules := rules[id := []];
      var wanted := a.question.rules;
      for n := 0 to |wanted|
        invariant WriteRules(categories.Keys, a, n).failure.None?
        invariant Now(None) == ReplaceRules(start, id, WriteRules(categories.Keys, a, n))
      {
        ReplaceOneMoreRule(start, id, WriteRules(categories.Keys, a, n), RuleRow(wanted[n].option, wanted[n].target, n * 10));
        if wanted[n].target !in categories {
          failure := Some(TargetMissing(a.slug, a.question.key, wanted[n].target));
          RuleFailuresLast(categories.Keys, a, n + 1, |wanted|);
          return;
        }
        if HasOption(rules[id], wanted[n].option) {
          failure := Some(OptionRepeated(a.slug, a.question.key, wanted[n].option));
          RuleFailuresLast(categories.Keys, a, n + 1, |wanted|);
          return;
        }
        rules := rules[id := rules[id] + [RuleRow(wanted[n].option, wanted[n].target, n * 10)]];
        summary := summary.(rulesWritten := summary.rulesWritten + 1);
      }
      failure := None;
    }

    method SaveAllCategories(cats: seq<CategoryDef>) returns (bySlug: map<string, CategoryRow>, failure: Option<Failure>)
      requires summary == NOTHING
      modifies this
      ensures Now(failure) == SaveCategories(old(Stored()), cats)
      ensures failure.None? ==> forall d :: d in cats ==> d.slug in bySlug
    {
      ghost var start := Stored();
      bySlug := map[];
      for i := 0 to |cats|
        invariant Now(None) == SaveCategories(start, cats[..i])
        invariant bySlug.Keys <= categories.Keys
        invariant forall k :: 0 <= k < i ==> cats[k].slug in bySlug
      {
        assert cats[..i + 1][..i] == cats[..i];
        failure := SaveOneCategory(cats[i], bySlug);
        if failure.Some? {
          CategoryFailuresLast(start, cats, i + 1);
          return;
        }
        bySlug := bySlug[cats[i].slug := categories[cats[i].slug]];
      }
      assert cats[..|cats|] == cats;
      failure := None;
    }

    method SaveQuestionsOf(d: CategoryDef, known: map<string, QuestionId>, ghost start: Progress, ghost before: seq<Asked>)
      returns (ids: map<string, QuestionId>)
      requires Now(None) == SaveQuestions(start, before) && known == SavedIds(before)
      modifies this`questions, this`summary
      ensures Now(None) == SaveQuestions(start, before + Tagged(d, |d.questions|))
      ensures ids == SavedIds(before + Tagged(d, |d.questions|))
    {
      ids := known;
      assert before + Tagged(d, 0) == before;
      for j := 0 to |d.questions|
        invariant Now(None) == SaveQuestions(start, before + Tagged(d, j))
        invariant ids == SavedIds(before + Tagged(d, j))
      {
        var a := Asked(d.slug, d.questions[j]);
        TaggedSnoc(before, d, j);
        SaveQuestionsSnoc(start, before + Tagged(d, j), a);
        SaveOneQuestion(a);
        ids := ids[KeyOf(a) := Id(a)];
      }
    }

    method SaveAllQuestions(cats: seq<CategoryDef>, bySlug: map<string, CategoryRow>) returns (ids: map<string, QuestionId>)
      requires forall d :: d in cats ==> d.slug in bySlug
      modifies this`questions, this`summary
      ensures Now(None) == SaveQuestions(old(Now(None)), AllAsked(cats))
      ensures ids == SavedIds(AllAsked(cats))
    {
      ghost var start := Now(None);
      ids := map[];
      for i := 0 to |cats|
        invariant Now(None) == SaveQuestions(start, AllAsked(cats[..i]))
        invariant ids == SavedIds(AllAsked(cats[..i]))
      {
        AskedCategory(cats, i);
        if cats[i].slug in bySlug {
          ids := SaveQuestionsOf(cats[i], ids, start, AllAsked(cats[..i]));
        }
      }
      assert cats[..|cats|] == cats;
    }

    /** Replaces one question's conditions and router rules. */
    method AttachOne(ids: map<string, QuestionId>, a: Asked) returns (failure: Option<Failure>)
      modifies this`conditions, this`rules, this`summary
      ensures Now(failure) == Attach(old(Now(None)), ids, a)
    {
      failure := None;
      if KeyOf(a) in ids {
        var id := ids[KeyOf(a)];
        failure := WriteAllConditions(ids, a, id);
        if failure.None? {
          failure := WriteAllRules(a, id);
        }
      }
    }

    method AttachEverything(cats: seq<CategoryDef>, ids: map<string, QuestionId>) returns (failure: Option<Failure>)
      modifies this`conditions, this`rules, this`summary
      ensures Now(failure) == AttachAll(old(Now(None)), ids, AllAsked(cats))
    {
      ghost var start := Now(None);
      for i := 0 to |cats|
        invariant Now(None) == AttachAll(start, ids, AllAsked(cats[..i]))
      {
        var d := cats[i];
        ghost var before := AllAsked(cats[..i]);
        assert before + Tagged(d, 0) == before;
        AskedCategory(cats, i);
        for j := 0 to |d.questions|
          invariant Now(None) == AttachAll(start, ids, before + Tagged(d, j))
        {
          TaggedSnoc(before, d, j);
          AttachSnoc(start, ids, before + Tagged(d, j), Asked(d.slug, d.questions[j]));
          failure := AttachOne(ids, Asked(d.slug, d.questions[j]));
          if failure.Some? {
            AttachFailuresLast(start, ids, cats, i, j + 1);
            return;
          }
        }
      }
      assert cats[..|cats|] == cats;
      failure := None;
    }

    /** importCategoryWave */
    method ImportCategoryWave(wave: Wave) returns (failure: Option<Failure>, complaint: Option<Complaint>)
      modifies this
      ensures Now(failure) == Import(old(Stored()), wave)
      ensures complaint.Some? <==> failure == Some(Refused)
      ensures complaint.Some? ==> Blames(wave, complaint.value)
    {
      summary := NOTHING;
      complaint := CheckWave(wave);
      if complaint.Some? {
        return Some(Refused), complaint;
      }
      var bySlug;
      bySlug, failure := SaveAllCategories(wave.categories);
      if failure.Some? {
        SavesDoNotRefuse(old(Stored()), wave.categories);
        return;
      }
      var ids := SaveAllQuestions(wave.categories, bySlug);
      ghost var saved := Now(None);
      failure := AttachEverything(wave.categories, ids);
      AttachesDoNotRefuse(saved, ids, AllAsked(wave.categories));
    }
  }

  // ---- one more item of a pass ----

  lemma AskedCategory(categories: seq<CategoryDef>, i: nat)
    requires i < |categories|
    ensures AllAsked(categories[..i + 1]) == AllAsked(categories[..i]) + Tagged(categories[i], |categories[i].questions|)
  {
    assert categories[..i + 1][..i] == categories[..i];
  }

  lemma TaggedSnoc(before: seq<Asked>, d: CategoryDef, j: nat)
    requires j < |d.questions|
    ensures before + Tagged(d, j + 1) == before + Tagged(d, j) + [Asked(d.slug, d.questions[j])]
  {
  }

  lemma SaveQuestionsSnoc(p: Progress, asked: seq<Asked>, a: Asked)
    ensures SaveQuestions(p, asked + [a]) == SaveQuestion(SaveQuestions(p, asked), a)
    ensures SavedIds(asked + [a]) == SavedIds(asked)[KeyOf(a) := Id(a)]
  {
    assert (asked + [a])[..|asked|] == asked;
  }

  lemma AttachSnoc(p: Progress, ids: map<string, QuestionId>, asked: seq<Asked>, a: Asked)
    requires AttachAll(p, ids, asked).failure.None?
    ensures AttachAll(p, ids, asked + [a]) == Attach(AttachAll(p, ids, asked), ids, a)
  {
    assert (asked + [a])[..|asked|] == asked;
  }

  // ---- a failure ends the run ----

  lemma {:induction false} FailuresLast(ids: map<string, QuestionId>, a: Asked, n: nat, m: nat)
    requires n <= m <= |a.question.conditions| && WriteConditions(ids, a, n).failure.Some?
    ensures WriteConditions(ids, a, m) == WriteConditions(ids, a, n)
    decreases m
  {
    if n < m { FailuresLast(ids, a, n, m - 1); }
  }

  /** A rule appended to the rows already written. */
  lemma ReplaceOneMoreRule(p: Progress, id: QuestionId, w: Written<RuleRow>, row: RuleRow)
    ensures var was, now := ReplaceRules(p, id, w), ReplaceRules(p, id, w.(rows := w.rows + [row]));
            && was.tables.rules[id] == w.rows
            && now.tables == was.tables.(rules := was.tables.rules[id := w.rows + [row]])
            && now.summary == was.summary.(rulesWritten := was.summary.rulesWritten + 1)
            && now.failure == was.failure
  {
  }

  lemma {:induction false} RuleFailuresLast(targets: set<string>, a: Asked, n: nat, m: nat)
    requires n <= m <= |a.question.rules| && WriteRules(targets, a, n).failure.Some?
    ensures WriteRules(targets, a, m) == WriteRules(targets, a, n)
    decreases m
  {
    if n < m { RuleFailuresLast(targets, a, n, m - 1); }
  }

  lemma {:induction false} CategoryFailuresLast(t: Tables, categories: seq<CategoryDef>, n: nat)
    requires n <= |categories| && SaveCategories(t, categories[..n]).failure.Some?
    ensures SaveCategories(t, categories) == SaveCategories(t, categories[..n])
    decreases |categories|
  {
    var last := |categories| - 1;
    if n <= last {
      assert categories[..last][..n] == categories[..n];
      CategoryFailuresLast(t, categories[..last], n);
    } else {
      assert categories[..n] == categories;
    }
  }

  lemma {:induction false} AttachFails(p: Progress, ids: map<string, QuestionId>, asked: seq<Asked>, more: seq<Asked>)
    requires AttachAll(p, ids, asked).failure.Some?
    ensures AttachAll(p, ids, asked + more) == AttachAll(p, ids, asked)
    decreases |more|
  {
    if more == [] {
      assert asked + more == asked;
    } else {
      var n := |more| - 1;
      AttachFails(p, ids, asked, more[..n]);
      assert (asked + more)[..|asked + more| - 1] == asked + more[..n];
    }
  }

  /** The questions up to the j-th of the i-th category come first among all questions. */
  lemma {:induction false} AskedPrefix(categories: seq<CategoryDef>, i: nat, j: nat) returns (rest: seq<Asked>)
    requires i < |categories| && j <= |categories[i].questions|
    ensures AllAsked(categories) == AllAsked(categories[..i]) + Tagged(categories[i], j) + rest
    decreases |categories|
  {
    var last := |categories| - 1;
    var d := categories[last];
    var all := Tagged(d, |d.questions|);
    if i == last {
      rest := all[j..];
      assert all == Tagged(d, j) + rest;
    } else {
      var more := AskedPrefix(categories[..last], i, j);
      assert categories[..last][..i] == categories[..i];
      rest := more + all;
    }
  }

  lemma AttachFailuresLast(p: Progress, ids: map<string, QuestionId>, categories: seq<CategoryDef>, i: nat, j: nat)
    requires i < |categories| && j <= |categories[i].questions|
    requires AttachAll(p, ids, AllAsked(categories[..i]) + Tagged(categories[i], j)).failure.Some?
    ensures AttachAll(p, ids, AllAsked(categories)) == AttachAll(p, ids, AllAsked(categories[..i]) + Tagged(categories[i], j))
  {
    var rest := AskedPrefix(categories, i, j);
    AttachFails(p, ids, AllAsked(categories[..i]) + Tagged(categories[i], j), rest);
  }

  lemma {:induction false} SavesDoNotRefuse(t: Tables, categories: seq<CategoryDef>)
    ensures SaveCategories(t, categories).failure != Some(Refused)
    decreases |categories|
  {
    if categories != [] { SavesDoNotRefuse(t, categories[..|categories| - 1]); }
  }

  lemma {:induction false} ConditionsDoNotRefuse(ids: map<string, QuestionId>, a: Asked, n: nat)
    requires n <= |a.question.conditions|
    ensures WriteConditions(ids, a, n).failure != Some(Refused)
    decreases n
  {
    if n > 0 { ConditionsDoNotRefuse(ids, a, n - 1); }
  }

  lemma {:induction false} RulesDoNotRefuse(targets: set<string>, a: Asked, n: nat)
    requires n <= |a.question.rules|
    ensures WriteRules(targets, a, n).failure != Some(Refused)
    decreases n
  {
    if n > 0 { RulesDoNotRefuse(targets, a, n - 1); }
  }

  lemma {:induction false} AttachesDoNotRefuse(p: Progress, ids: map<string, QuestionId>, asked: seq<Asked>)
    requires p.failure != Some(Refused)
    ensures AttachAll(p, ids, asked).failure != Some(Refused)
    decreases |asked|
  {
    if asked != [] {
      var n := |asked| - 1;
      AttachesDoNotRefuse(p, ids, asked[..n]);
      ConditionsDoNotRefuse(ids, asked[n], |asked[n].question.conditions|);
      RulesDoNotRefuse(AttachAll(p, ids, asked[..n]).tables.categories.Keys, asked[n], |asked[n].question.rules|);
    }
  }
}
