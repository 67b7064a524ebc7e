/**
 The shape a category wave is written in (prisma/category-import/types.ts) and the check the
 importer makes before it writes a row (prisma/category-import/import-categories.ts). A list the
 wave leaves out and an empty list are read alike, except for a question's options.
 */
module CategoryWave {
  import opened Options
  import opened Sequences

  datatype Kind = GROUP | LEAF | ROUTER
  datatype Status = DRAFT | ACTIVE | INACTIVE
  datatype QuestionType = TEXT | TEXTAREA | SELECT | MULTI_SELECT | NUMBER | BOOLEAN | DATE | IMAGE
  datatype MatchMode = ANY | ALL

  datatype OptionDef = OptionDef(key: string, text: string)
  datatype ConditionDef = ConditionDef(source: string, expected: seq<string>, mode: Option<MatchMode>)
  datatype RuleDef = RuleDef(option: string, target: string)

  datatype QuestionDef = QuestionDef(
    key: string,
    text: string,
    help: Option<string>,
    kind: QuestionType,
    required: bool,
    sortOrder: int,
    options: Option<seq<OptionDef>>,
    systemField: Option<string>,
    router: bool,
    conditions: seq<ConditionDef>,
    rules: seq<RuleDef>)

  datatype CategoryDef = CategoryDef(
    slug: string,
    name: string,
    description: string,
    kind: Kind,
    status: Status,
    enrollment: bool,
    parent: Option<string>,
    price: Option<int>,
    sortOrder: int,
    icon: Option<string>,
    questions: seq<QuestionDef>)

  datatype Wave = Wave(name: string, categories: seq<CategoryDef>)

  /** An empty parent slug is no parent. */
  function ParentOf(d: CategoryDef): Option<string> {
    if d.parent == Some("") then None else d.parent
  }

  function OptionKeys(options: seq<OptionDef>): set<string> {
    set o | o in options :: o.key
  }

  function Keys(q: QuestionDef): set<string> {
    OptionKeys(q.options.GetOr([]))
  }

  // ---- what a coherent wave is ----

  predicate DistinctSlugs(categories: seq<CategoryDef>) {
    forall i, j :: 0 <= i < j < |categories| ==> categories[i].slug != categories[j].slug
  }

  predicate DistinctKeys(questions: seq<QuestionDef>) {
    forall i, j :: 0 <= i < j < |questions| ==> questions[i].key != questions[j].key
  }

  predicate OneRouter(questions: seq<QuestionDef>) {
    forall i, j :: 0 <= i < j < |questions| ==> !(questions[i].router && questions[j].router)
  }

  predicate DistinctOptions(options: seq<OptionDef>) {
    forall i, j :: 0 <= i < j < |options| ==> options[i].key != options[j].key
  }

  predicate NeedsOptions(kind: QuestionType) {
    kind == SELECT || kind == MULTI_SELECT
  }

  /** The condition reads an earlier question of the category, in a way that question can answer. */
  predicate Reads(q: QuestionDef, c: ConditionDef, source: QuestionDef) {
    && source.key == c.source
    && source.sortOrder < q.sortOrder
    && (c.mode == Some(ALL) ==> source.kind == MULTI_SELECT)
    && (forall v :: v in c.expected ==> v in Keys(source))
  }

  predicate ConditionOk(questions: seq<QuestionDef>, q: QuestionDef, c: ConditionDef) {
    exists i :: 0 <= i < |questions| && Reads(q, c, questions[i])
  }

  predicate QuestionOk(questions: seq<QuestionDef>, q: QuestionDef) {
    && (NeedsOptions(q.kind) ==> Keys(q) != {})
    && DistinctOptions(q.options.GetOr([]))
    && (forall i :: 0 <= i < |q.conditions| ==> ConditionOk(questions, q, q.conditions[i]))
    && (forall i :: 0 <= i < |q.rules| ==> q.rules[i].option in Keys(q))
  }

  predicate QuestionsOk(questions: seq<QuestionDef>) {
    && DistinctKeys(questions)
    && OneRouter(questions)
    && forall i :: 0 <= i < |questions| ==> QuestionOk(questions, questions[i])
  }

  predicate CategoryOk(d: CategoryDef) {
    ParentOf(d) != Some(d.slug) && QuestionsOk(d.questions)
  }

  predicate Coherent(wave: Wave) {
    && DistinctSlugs(wave.categories)
    && forall i :: 0 <= i < |wave.categories| ==> CategoryOk(wave.categories[i])
  }

  // ---- what the check complains about ----

  datatype Complaint =
    | DuplicateSlug(slug: string)
    | OwnParent(slug: string)
    | DuplicateKey(slug: string, key: string)
    | SeveralRouters(slug: string)
    | NoOptions(slug: string, key: string)
    | OptionsRepeat(slug: string, key: string)
    | UnknownSource(slug: string, key: string, source: string)
    | SourceNotEarlier(slug: string, key: string, source: string)
    | AllNeedsMultiSelect(slug: string, key: string, source: string)
    | UnknownValue(slug: string, key: string, source: string, value: string)
    | UnknownRuleOption(slug: string, key: string, option: string)

  predicate HasKey(options: seq<OptionDef>, key: string) {
    exists i :: 0 <= i < |options| && options[i].key == key
  }

  /** This value of the condition is the first its source does not offer. */
  predicate FirstUnknown(c: ConditionDef, offered: seq<OptionDef>, v: nat) {
    && v < |c.expected|
    && !HasKey(offered, c.expected[v])
    && forall w :: 0 <= w < v ==> HasKey(offered, c.expected[w])
  }

  /** This is what the check finds wrong with the condition first. */
  ghost predicate BlamesCondition(questions: seq<QuestionDef>, q: QuestionDef, c: ConditionDef, x: Complaint) {
    match x
    case UnknownSource(_, _, source) => source == c.source && forall s :: s in questions ==> s.key != source
    case SourceNotEarlier(_, _, source) =>
      source == c.source && exists s :: s in questions && s.key == source && q.sortOrder <= s.sortOrder
    case AllNeedsMultiSelect(_, _, source) =>
      && source == c.source && c.mode == Some(ALL)
      && exists s :: s in questions && s.key == source && s.sortOrder < q.sortOrder && s.kind != MULTI_SELECT
    case UnknownValue(_, _, source, value) =>
      && source == c.source
      && exists s, v: nat :: s in questions && s.key == source && s.sortOrder < q.sortOrder
                        && (c.mode == Some(ALL) ==> s.kind == MULTI_SELECT)
                        && FirstUnknown(c, s.options.GetOr([]), v) && c.expected[v] == value
    case _ => false
  }

  /** The question offers the options its type asks for, each once. */
  predicate OptionsOk(q: QuestionDef) {
    && (q.kind == SELECT || q.kind == MULTI_SELECT ==> q.options.GetOr([]) != [])
    && DistinctOptions(q.options.GetOr([]))
  }

  /** This is what the check finds wrong with the question first: its options, then its conditions, then its rules. */
  ghost predicate BlamesQuestion(questions: seq<QuestionDef>, q: QuestionDef, x: Complaint) {
    match x
    case NoOptions(_, key) => key == q.key && (q.kind == SELECT || q.kind == MULTI_SELECT) && q.options.GetOr([]) == []
    case OptionsRepeat(_, key) => key == q.key && !DistinctOptions(q.options.GetOr([]))
    case UnknownRuleOption(_, key, option) =>
      && key == q.key && OptionsOk(q) && (forall i :: 0 <= i < |q.conditions| ==> ConditionOk(questions, q, q.conditions[i]))
      && exists n :: 0 <= n < |q.rules| && q.rules[n].option == option && !HasKey(q.options.GetOr([]), option)
                     && forall m :: 0 <= m < n ==> HasKey(q.options.GetOr([]), q.rules[m].option)
    case DuplicateSlug(_) => false
    case OwnParent(_) => false
    case DuplicateKey(_, _) => false
    case SeveralRouters(_) => false
    case _ =>
      && x.key == q.key && OptionsOk(q)
      && exists n :: 0 <= n < |q.conditions| && BlamesCondition(questions, q, q.conditions[n], x)
                     && forall m :: 0 <= m < n ==> ConditionOk(questions, q, q.conditions[m])
  }

  /** This is what the check finds wrong with the category's questions first: their keys, their routers, then each. */
  ghost predicate BlamesQuestions(d: CategoryDef, x: Complaint) {
    && x.slug == d.slug
    && match x
       case DuplicateSlug(_) => false
       case OwnParent(_) => false
       case DuplicateKey(_, key) => RepeatsFirst(KeysOf(d.questions), key)
       case SeveralRouters(_) => DistinctKeys(d.questions) && !OneRouter(d.questions)
       case _ =>
         && DistinctKeys(d.questions) && OneRouter(d.questions)
         && exists n :: 0 <= n < |d.questions| && BlamesQuestion(d.questions, d.questions[n], x)
                        && forall m :: 0 <= m < n ==> QuestionOk(d.questions, d.questions[m])
  }

  /** The first item of the list that an earlier one equals. */
  predicate RepeatsFirst(items: seq<string>, item: string) {
    exists n :: 0 <= n < |items| && items[n] == item && item in items[..n] && NoRepeats(items[..n])
  }

  function KeysOf(questions: seq<QuestionDef>): (keys: seq<string>)
    ensures |keys| == |questions| && forall i :: 0 <= i < |keys| ==> keys[i] == questions[i].key
  {
    seq(|questions|, i requires 0 <= i < |questions| => questions[i].key)
  }

  function SlugList(categories: seq<CategoryDef>): (slugs: seq<string>)
    ensures |slugs| == |categories| && forall i :: 0 <= i < |slugs| ==> slugs[i] == categories[i].slug
  {
    seq(|categories|, i requires 0 <= i < |categories| => categories[i].slug)
  }

  /** This is what the check finds wrong with the category first: a parent that is the category itself, then its questions. */
  ghost predicate BlamesCategory(d: CategoryDef, x: Complaint) {
    if d.slug != "" && d.parent == Some(d.slug) then x == OwnParent(d.slug) else BlamesQuestions(d, x)
  }

  /** This is the first thing the check finds wrong with the wave: its slugs, then its categories. */
  ghost predicate Blames(wave: Wave, x: Complaint) {
    if x.DuplicateSlug? then RepeatsFirst(SlugList(wave.categories), x.slug)
    else
      && DistinctSlugs(wave.categories)
      && exists n :: 0 <= n < |wave.categories| && BlamesCategory(wave.categories[n], x)
                     && forall m :: 0 <= m < n ==> CategoryOk(wave.categories[m])
  }

  // ---- the check ----

  function Routers(questions: seq<QuestionDef>): seq<QuestionDef>
    decreases |questions|
  {
    if questions == [] then []
    else
      var last := questions[|questions| - 1];
      Routers(questions[..|questions| - 1]) + if last.router then [last] else []
  }

  lemma {:induction false} NoRouters(questions: seq<QuestionDef>)
    ensures Routers(questions) == [] <==> forall i :: 0 <= i < |questions| ==> !questions[i].router
    decreases |questions|
  {
    if questions != [] {
      var n := |questions| - 1;
      NoRouters(questions[..n]);
      assert forall i :: 0 <= i < n ==> questions[..n][i] == questions[i];
    }
  }

  /** Filtering the routing questions and counting them asks whether two of them exist. */
  lemma {:induction false} RoutersCount(questions: seq<QuestionDef>)
    ensures |Routers(questions)| <= 1 <==> OneRouter(questions)
    decreases |questions|
  {
    if questions != [] {
      var n := |questions| - 1;
      var before := questions[..n];
      RoutersCount(before);
      NoRouters(before);
      assert forall i :: 0 <= i < n ==> before[i] == questions[i];
    }
  }

  lemma OptionKeysSnoc(options: seq<OptionDef>, o: OptionDef)
    ensures OptionKeys(options + [o]) == OptionKeys(options) + {o.key}
  {
  }

  lemma DistinctOptionsSnoc(options: seq<OptionDef>, o: OptionDef)
    ensures DistinctOptions(options + [o]) <==> DistinctOptions(options) && o.key !in OptionKeys(options)
  {
    var all := options + [o];
    assert forall i :: 0 <= i < |options| ==> all[i] == options[i];
    if o.key in OptionKeys(options) {
      var i :| 0 <= i < |options| && options[i].key == o.key;
      assert all[i].key == all[|options|].key;
    } else {
      assert forall i :: 0 <= i < |options| ==> options[i].key in OptionKeys(options);
    }
  }

  /** Comparing a set's size with its list's length asks whether the list repeats a key. */
  lemma {:induction false} OptionKeysCount(options: seq<OptionDef>)
    ensures |OptionKeys(options)| <= |options|
    ensures |OptionKeys(options)| == |options| <==> DistinctOptions(options)
    decreases |options|
  {
    if options == [] {
      assert OptionKeys(options) == {};
    } else {
      var n := |options| - 1;
      OptionKeysCount(options[..n]);
      assert options == options[..n] + [options[n]];
      OptionKeysSnoc(options[..n], options[n]);
      DistinctOptionsSnoc(options[..n], options[n]);
      OneMore(OptionKeys(options[..n]), options[n].key);
    }
  }

  lemma OneMore(s: set<string>, x: string)
    ensures |s + {x}| == |s| + if x in s then 0 else 1
  {
    if x in s { assert s + {x} == s; }
  }

  /** The Map from key to question the check builds. */
  ghost predicate Indexes(byKey: map<string, QuestionDef>, questions: seq<QuestionDef>) {
    && (forall i :: 0 <= i < |questions| ==> questions[i].key in byKey && byKey[questions[i].key] == questions[i])
    && (forall k :: k in byKey ==> byKey[k] in questions && byKey[k].key == k)
  }

  method CheckCondition(d: CategoryDef, q: QuestionDef, c: ConditionDef, byKey: map<string, QuestionDef>)
    returns (complaint: Option<Complaint>)
    requires Indexes(byKey, d.questions)
    ensures complaint.None? <==> ConditionOk(d.questions, q, c)
    ensures complaint.Some? ==>
              complaint.value.slug == d.slug && !complaint.value.DuplicateSlug? && !complaint.value.OwnParent?
              && !complaint.value.SeveralRouters? && !complaint.value.DuplicateKey?
              && complaint.value.key == q.key && BlamesCondition(d.questions, q, c, complaint.value)
  {
    if c.source !in byKey {
      return Some(UnknownSource(d.slug, q.key, c.source));
    }
    var source := byKey[c.source];
    var at :| 0 <= at < |d.questions| && d.questions[at] == source;
    assert forall i :: 0 <= i < |d.questions| && d.questions[i].key == c.source ==> d.questions[i] == source;
    if q.sortOrder <= source.sortOrder {
      return Some(SourceNotEarlier(d.slug, q.key, c.source));
    }
    if c.mode == Some(ALL) && source.kind != MULTI_SELECT {
      return Some(AllNeedsMultiSelect(d.slug, q.key, c.source));
    }
    var offered := Keys(source);
    for i := 0 to |c.expected|
      invariant forall k :: 0 <= k < i ==> c.expected[k] in offered
    {
      if c.expected[i] !in offered {
        FirstNotOffered(c, source, i);
        return Some(UnknownValue(d.slug, q.key, c.source, c.expected[i]));
      }
    }
    assert Reads(q, c, d.questions[at]);
    complaint := None;
  }

  lemma KeyOffered(options: seq<OptionDef>, key: string)
    ensures key in OptionKeys(options) <==> HasKey(options, key)
  {
  }

  lemma FirstNotOffered(c: ConditionDef, source: QuestionDef, v: nat)
    requires v < |c.expected| && c.expected[v] !in Keys(source) && forall w :: 0 <= w < v ==> c.expected[w] in Keys(source)
    ensures FirstUnknown(c, source.options.GetOr([]), v)
  {
    var offered := source.options.GetOr([]);
    forall w | 0 <= w < v ensures HasKey(offered, c.expected[w]) {
      KeyOffered(offered, c.expected[w]);
    }
    KeyOffered(offered, c.expected[v]);
  }

  lemma NoKeysNoOptions(options: seq<OptionDef>)
    ensures OptionKeys(options) == {} <==> options == []
  {
    if options != [] { assert options[0].key in OptionKeys(options); }
  }

  method CheckQuestion(d: CategoryDef, q: QuestionDef, byKey: map<string, QuestionDef>)
    returns (complaint: Option<Complaint>)
    requires Indexes(byKey, d.questions)
    ensures complaint.None? <==> QuestionOk(d.questions, q)
    ensures complaint.Some? ==>
              complaint.value.slug == d.slug && BlamesQuestion(d.questions, q, complaint.value)
  {
    var options := q.options.GetOr([]);
    var keys := OptionKeys(options);
    OptionKeysCount(options);
    NoKeysNoOptions(options);
    if NeedsOptions(q.kind) && |keys| == 0 {
      return Some(NoOptions(d.slug, q.key));
    }
    if |keys| != |options| {
      return Some(OptionsRepeat(d.slug, q.key));
    }
    for i := 0 to |q.conditions|
      invariant forall k :: 0 <= k < i ==> ConditionOk(d.questions, q, q.conditions[k])
    {
      complaint := CheckCondition(d, q, q.conditions[i], byKey);
      if complaint.Some? {
        assert q.conditions[i] in q.conditions;
        return;
      }
    }
    for i := 0 to |q.rules|
      invariant forall k :: 0 <= k < i ==> q.rules[k].option in keys
    {
      if q.rules[i].option !in keys {
        assert q.rules[i] in q.rules;
        return Some(UnknownRuleOption(d.slug, q.key, q.rules[i].option));
      }
    }
    complaint := None;
  }

  /** Builds the Map, or finds a key it already holds. */
  method IndexQuestions(d: CategoryDef) returns (byKey: map<string, QuestionDef>, complaint: Option<Complaint>)
    ensures complaint.None? <==> DistinctKeys(d.questions)
    ensures complaint.None? ==> Indexes(byKey, d.questions)
    ensures complaint.Some? ==> complaint.value.DuplicateKey? && BlamesQuestions(d, complaint.value)
  {
    byKey := map[];
    for i := 0 to |d.questions|
      invariant Indexes(byKey, d.questions[..i])
      invariant DistinctKeys(d.questions[..i])
    {
      var q := d.questions[i];
      if q.key in byKey {
        KeyTaken(d.questions, i, byKey);
        return byKey, Some(DuplicateKey(d.slug, q.key));
      }
      assert d.questions[..i + 1] == d.questions[..i] + [q];
      IndexOneMore(byKey, d.questions[..i], q);
      byKey := byKey[q.key := q];
    }
    assert d.questions[..|d.questions|] == d.questions;
    complaint := None;
  }

  lemma KeyTaken(questions: seq<QuestionDef>, i: nat, byKey: map<string, QuestionDef>)
    requires i < |questions| && Indexes(byKey, questions[..i]) && questions[i].key in byKey
    requires DistinctKeys(questions[..i])
    ensures exists k :: 0 <= k < i && questions[k].key == questions[i].key
    ensures RepeatsFirst(KeysOf(questions), questions[i].key)
  {
    var k :| 0 <= k < i && questions[..i][k] == byKey[questions[i].key];
    assert questions[k].key == questions[i].key;
    var keys := KeysOf(questions);
    assert keys[..i][k] == keys[i];
    assert forall m :: 0 <= m < i ==> keys[..i][m] == questions[..i][m].key;
  }

  lemma IndexOneMore(byKey: map<string, QuestionDef>, questions: seq<QuestionDef>, q: QuestionDef)
    requires Indexes(byKey, questions) && DistinctKeys(questions) && q.key !in byKey
    ensures Indexes(byKey[q.key := q], questions + [q]) && DistinctKeys(questions + [q])
  {
  }

  /** assertQuestionsAreCoherent: silent exactly on coherent questions, and the complaint is the first there is. */
  method CheckQuestions(d: CategoryDef) returns (complaint: Option<Complaint>)
    ensures complaint.None? <==> QuestionsOk(d.questions)
    ensures complaint.Some? ==> BlamesQuestions(d, complaint.value)
  {
    var byKey;
    byKey, complaint := IndexQuestions(d);
    if complaint.Some? {
      return;
    }
    RoutersCount(d.questions);
    if |Routers(d.questions)| > 1 {
      return Some(SeveralRouters(d.slug));
    }
    for i := 0 to |d.questions|
      invariant forall k :: 0 <= k < i ==> QuestionOk(d.questions, d.questions[k])
    {
      complaint := CheckQuestion(d, d.questions[i], byKey);
      if complaint.Some? {
        assert d.questions[i] in d.questions;
        return;
      }
    }
    complaint := None;
  }

  lemma SlugTaken(categories: seq<CategoryDef>, i: nat)
    requires i < |categories| && DistinctSlugs(categories[..i])
    requires exists k :: 0 <= k < i && categories[k].slug == categories[i].slug
    ensures RepeatsFirst(SlugList(categories), categories[i].slug)
  {
    var slugs := SlugList(categories);
    var k :| 0 <= k < i && categories[k].slug == categories[i].slug;
    assert slugs[..i][k] == slugs[i];
    assert forall m :: 0 <= m < i ==> slugs[..i][m] == categories[..i][m].slug;
  }

  /** assertWaveIsCoherent: silent exactly on coherent waves, and the complaint is the first there is. */
  method CheckWave(wave: Wave) returns (complaint: Option<Complaint>)
    ensures complaint.None? <==> Coherent(wave)
    ensures complaint.Some? ==> Blames(wave, complaint.value)
  {
    var slugs: set<string> := {};
    var cats := wave.categories;
    for i := 0 to |cats|
      invariant forall s :: s in slugs <==> exists k :: 0 <= k < i && cats[k].slug == s
      invariant DistinctSlugs(cats[..i])
    {
      if cats[i].slug in slugs {
        SlugTaken(cats, i);
        return Some(DuplicateSlug(cats[i].slug));
      }
      slugs := slugs + {cats[i].slug};
    }
    assert cats[..|cats|] == cats;
    for i := 0 to |cats|
      invariant forall k :: 0 <= k < i ==> CategoryOk(cats[k])
    {
      assert cats[i] in cats;
      if cats[i].parent.Some? && cats[i].parent.value != "" && cats[i].parent.value == cats[i].slug {
        return Some(OwnParent(cats[i].slug));
      }
      complaint := CheckQuestions(cats[i]);
      if complaint.Some? {
        return;
      }
    }
    complaint := None;
  }

  // ---- the complaint is the only one, and there is one exactly when the wave is incoherent ----

  /** The first of n numbers that does not satisfy p. */
  lemma {:induction false} FirstFailure(n: nat, p: nat -> bool) returns (k: nat)
    requires exists i: nat :: i < n && !p(i)
    ensures k < n && !p(k) && forall i: nat :: i < k ==> p(i)
    decreases n
  {
    if exists i: nat :: i < n - 1 && !p(i) {
      k := FirstFailure(n - 1, p);
    } else {
      k := n - 1;
    }
  }

  lemma ConditionComplaint(questions: seq<QuestionDef>, q: QuestionDef, c: ConditionDef, x: Complaint)
    requires DistinctKeys(questions) && BlamesCondition(questions, q, c, x)
    ensures !ConditionOk(questions, q, c)
  {
    forall i | 0 <= i < |questions|
      ensures !Reads(q, c, questions[i])
    {
      ReadWithout(questions, q, c, i, x);
    }
  }

  lemma ReadWithout(questions: seq<QuestionDef>, q: QuestionDef, c: ConditionDef, i: nat, x: Complaint)
    requires DistinctKeys(questions) && i < |questions|
    ensures Reads(q, c, questions[i]) ==> !BlamesCondition(questions, q, c, x)
  {
    var offered := questions[i].options.GetOr([]);
    forall v | v in c.expected
      ensures v in Keys(questions[i]) <==> HasKey(offered, v)
    {
      KeyOffered(offered, v);
    }
  }

  lemma SomeComplaint(questions: seq<QuestionDef>, q: QuestionDef, c: ConditionDef, slug: string) returns (x: Complaint)
    requires DistinctKeys(questions) && !ConditionOk(questions, q, c)
    ensures BlamesCondition(questions, q, c, x) && x.slug == slug && !x.DuplicateSlug? && !x.OwnParent? && !x.SeveralRouters? && !x.DuplicateKey?
    ensures x.key == q.key
  {
    if i: nat :| i < |questions| && questions[i].key == c.source {
      var s := questions[i];
      assert !Reads(q, c, s) && s in questions;
      if q.sortOrder <= s.sortOrder {
        x := SourceNotEarlier(slug, q.key, c.source);
      } else if c.mode == Some(ALL) && s.kind != MULTI_SELECT {
        x := AllNeedsMultiSelect(slug, q.key, c.source);
      } else {
        var offered := (v: nat) => v < |c.expected| ==> c.expected[v] in Keys(s);
        var w :| w in c.expected && w !in Keys(s);
        var k :| 0 <= k < |c.expected| && c.expected[k] == w;
        assert !offered(k);
        var v := FirstFailure(|c.expected|, offered);
        forall w | 0 <= w < v ensures c.expected[w] in Keys(s) { assert offered(w); }
        FirstNotOffered(c, s, v);
        x := UnknownValue(slug, q.key, c.source, c.expected[v]);
      }
    } else {
      x := UnknownSource(slug, q.key, c.source);
    }
  }

  lemma SameCondition(questions: seq<QuestionDef>, q: QuestionDef, c: ConditionDef, x: Complaint, y: Complaint)
    requires DistinctKeys(questions) && BlamesCondition(questions, q, c, x) && BlamesCondition(questions, q, c, y)
    requires x.slug == y.slug && x.key == y.key
    ensures x == y
  {
  }

  lemma OptionsAreOk(q: QuestionDef)
    ensures OptionsOk(q) <==> (NeedsOptions(q.kind) ==> Keys(q) != {}) && DistinctOptions(q.options.GetOr([]))
    ensures forall key :: key in Keys(q) <==> HasKey(q.options.GetOr([]), key)
  {
    NoKeysNoOptions(q.options.GetOr([]));
  }

  lemma QuestionComplaint(questions: seq<QuestionDef>, q: QuestionDef, x: Complaint)
    requires DistinctKeys(questions) && BlamesQuestion(questions, q, x)
    ensures !QuestionOk(questions, q)
  {
    OptionsAreOk(q);
    forall n | 0 <= n < |q.conditions| && BlamesCondition(questions, q, q.conditions[n], x)
      ensures !ConditionOk(questions, q, q.conditions[n])
    {
      ConditionComplaint(questions, q, q.conditions[n], x);
    }
  }

  lemma SomeQuestionComplaint(questions: seq<QuestionDef>, q: QuestionDef, slug: string) returns (x: Complaint)
    requires DistinctKeys(questions) && !QuestionOk(questions, q)
    ensures BlamesQuestion(questions, q, x) && x.slug == slug
  {
    OptionsAreOk(q);
    if !OptionsOk(q) {
      x := if DistinctOptions(q.options.GetOr([])) then NoOptions(slug, q.key) else OptionsRepeat(slug, q.key);
    } else if k: nat :| k < |q.conditions| && !ConditionOk(questions, q, q.conditions[k]) {
      var fine := (n: nat) => n < |q.conditions| ==> ConditionOk(questions, q, q.conditions[n]);
      assert !fine(k);
      var n := FirstFailure(|q.conditions|, fine);
      forall m | 0 <= m < n ensures ConditionOk(questions, q, q.conditions[m]) { assert fine(m); }
      x := SomeComplaint(questions, q, q.conditions[n], slug);
    } else {
      var k: nat :| k < |q.rules| && q.rules[k].option !in Keys(q);
      var fine := (n: nat) => n < |q.rules| ==> q.rules[n].option in Keys(q);
      assert !fine(k);
      var n := FirstFailure(|q.rules|, fine);
      forall m | 0 <= m < n ensures q.rules[m].option in Keys(q) { assert fine(m); }
      x := UnknownRuleOption(slug, q.key, q.rules[n].option);
    }
  }

  predicate AboutCondition(x: Complaint) {
    x.UnknownSource? || x.SourceNotEarlier? || x.AllNeedsMultiSelect? || x.UnknownValue?
  }

  lemma BlamedCondition(questions: seq<QuestionDef>, q: QuestionDef, x: Complaint) returns (n: nat)
    requires DistinctKeys(questions) && BlamesQuestion(questions, q, x) && AboutCondition(x)
    ensures n < |q.conditions| && BlamesCondition(questions, q, q.conditions[n], x) && !ConditionOk(questions, q, q.conditions[n])
    ensures forall m :: 0 <= m < n ==> ConditionOk(questions, q, q.conditions[m])
  {
    n :| n < |q.conditions| && BlamesCondition(questions, q, q.conditions[n], x)
         && forall m :: 0 <= m < n ==> ConditionOk(questions, q, q.conditions[m]);
    ConditionComplaint(questions, q, q.conditions[n], x);
  }

  lemma SameQuestion(questions: seq<QuestionDef>, q: QuestionDef, x: Complaint, y: Complaint)
    requires DistinctKeys(questions) && BlamesQuestion(questions, q, x) && BlamesQuestion(questions, q, y) && x.slug == y.slug
    ensures x == y
  {
    if AboutCondition(x) {
      var n := BlamedCondition(questions, q, x);
      if AboutCondition(y) {
        var m := BlamedCondition(questions, q, y);
        SameCondition(questions, q, q.conditions[n], x, y);
      }
    } else if AboutCondition(y) {
      var m := BlamedCondition(questions, q, y);
    }
  }

  predicate AboutQuestion(x: Complaint) {
    AboutCondition(x) || x.NoOptions? || x.OptionsRepeat? || x.UnknownRuleOption?
  }

  lemma BlamedQuestion(d: CategoryDef, x: Complaint) returns (n: nat)
    requires BlamesQuestions(d, x) && AboutQuestion(x)
    ensures DistinctKeys(d.questions) && OneRouter(d.questions)
    ensures n < |d.questions| && BlamesQuestion(d.questions, d.questions[n], x) && !QuestionOk(d.questions, d.questions[n])
    ensures forall m :: 0 <= m < n ==> QuestionOk(d.questions, d.questions[m])
  {
    n :| n < |d.questions| && BlamesQuestion(d.questions, d.questions[n], x)
         && forall m :: 0 <= m < n ==> QuestionOk(d.questions, d.questions[m]);
    QuestionComplaint(d.questions, d.questions[n], x);
  }

  lemma KeysRepeat(questions: seq<QuestionDef>)
    ensures DistinctKeys(questions) <==> NoRepeats(KeysOf(questions))
  {
  }

  lemma SlugsRepeat(categories: seq<CategoryDef>)
    ensures DistinctSlugs(categories) <==> NoRepeats(SlugList(categories))
  {
  }

  lemma RepeatIsNotBefore(items: seq<string>, n: nat, k: nat)
    requires n < |items| && k <= |items| && items[n] in items[..n]
    ensures NoRepeats(items[..k]) ==> k <= n
  {
    var m :| 0 <= m < n && items[..n][m] == items[n];
    if n < k { assert items[..k][m] == items[..k][n]; }
  }

  lemma FirstRepeatIsOne(items: seq<string>, a: string, b: string)
    requires RepeatsFirst(items, a)
    ensures !NoRepeats(items)
    ensures RepeatsFirst(items, b) ==> a == b
  {
    var n :| 0 <= n < |items| && items[n] == a && a in items[..n] && NoRepeats(items[..n]);
    RepeatIsNotBefore(items, n, |items|);
    assert items[..|items|] == items;
    if RepeatsFirst(items, b) {
      var k :| 0 <= k < |items| && items[k] == b && b in items[..k] && NoRepeats(items[..k]);
      RepeatIsNotBefore(items, n, k);
      RepeatIsNotBefore(items, k, n);
    }
  }

  lemma {:induction false} SomeRepeat(items: seq<string>) returns (a: string)
    requires !NoRepeats(items)
    ensures RepeatsFirst(items, a)
    decreases |items|
  {
    var n := |items| - 1;
    if NoRepeats(items[..n]) {
      a := items[n];
      assert items == items[..n] + [items[n]];
    } else {
      a := SomeRepeat(items[..n]);
      var k :| 0 <= k < n && items[..n][k] == a && a in items[..n][..k] && NoRepeats(items[..n][..k]);
      assert items[..n][..k] == items[..k];
    }
  }

  lemma CategoryComplaint(d: CategoryDef, x: Complaint)
    requires BlamesCategory(d, x)
    ensures !CategoryOk(d)
  {
    KeysRepeat(d.questions);
    if BlamesQuestions(d, x) {
      if AboutQuestion(x) {
        var n := BlamedQuestion(d, x);
      } else if x.DuplicateKey? {
        FirstRepeatIsOne(KeysOf(d.questions), x.key, x.key);
      }
    }
  }

  lemma SomeCategoryComplaint(d: CategoryDef) returns (x: Complaint)
    requires !CategoryOk(d)
    ensures BlamesCategory(d, x) && !x.DuplicateSlug?
  {
    KeysRepeat(d.questions);
    if d.slug != "" && d.parent == Some(d.slug) {
      x := OwnParent(d.slug);
    } else if !DistinctKeys(d.questions) {
      var key := SomeRepeat(KeysOf(d.questions));
      x := DuplicateKey(d.slug, key);
    } else if !OneRouter(d.questions) {
      x := SeveralRouters(d.slug);
    } else {
      x := SomeAmong(d);
    }
  }

  lemma SomeAmong(d: CategoryDef) returns (x: Complaint)
    requires DistinctKeys(d.questions) && OneRouter(d.questions) && !QuestionsOk(d.questions)
    ensures BlamesQuestions(d, x) && AboutQuestion(x)
  {
    var k: nat :| k < |d.questions| && !QuestionOk(d.questions, d.questions[k]);
    var fine := (n: nat) => n < |d.questions| ==> QuestionOk(d.questions, d.questions[n]);
    assert !fine(k);
    var n := FirstFailure(|d.questions|, fine);
    forall m | 0 <= m < n ensures QuestionOk(d.questions, d.questions[m]) { assert fine(m); }
    x := SomeQuestionComplaint(d.questions, d.questions[n], d.slug);
  }

  lemma SameCategory(d: CategoryDef, x: Complaint, y: Complaint)
    requires BlamesCategory(d, x) && BlamesCategory(d, y)
    ensures x == y
  {
    if BlamesQuestions(d, x) && BlamesQuestions(d, y) { SameComplaint(d, x, y); }
  }

  lemma SameComplaint(d: CategoryDef, x: Complaint, y: Complaint)
    requires BlamesQuestions(d, x) && BlamesQuestions(d, y)
    ensures x == y
  {
    if x.DuplicateKey? {
      SameRepeat(d, x, y);
    } else if y.DuplicateKey? {
      SameRepeat(d, y, x);
    } else if AboutQuestion(x) && AboutQuestion(y) {
      SameAmong(d, x, y);
    }
  }

  lemma SameAmong(d: CategoryDef, x: Complaint, y: Complaint)
    requires BlamesQuestions(d, x) && BlamesQuestions(d, y) && AboutQuestion(x) && AboutQuestion(y)
    ensures x == y
  {
    var n := BlamedQuestion(d, x);
    var m := BlamedQuestion(d, y);
    assert n == m;
    SameQuestion(d.questions, d.questions[n], x, y);
  }

  lemma SameRepeat(d: CategoryDef, x: Complaint, y: Complaint)
    requires BlamesQuestions(d, x) && BlamesQuestions(d, y) && x.DuplicateKey?
    ensures x == y
  {
    KeysRepeat(d.questions);
    FirstRepeatIsOne(KeysOf(d.questions), x.key, if y.DuplicateKey? then y.key else x.key);
  }

  lemma BlamedCategory(wave: Wave, x: Complaint) returns (n: nat)
    requires Blames(wave, x) && !x.DuplicateSlug?
    ensures DistinctSlugs(wave.categories)
    ensures n < |wave.categories| && BlamesCategory(wave.categories[n], x) && !CategoryOk(wave.categories[n])
    ensures forall m :: 0 <= m < n ==> CategoryOk(wave.categories[m])
  {
    n :| n < |wave.categories| && BlamesCategory(wave.categories[n], x)
         && forall m :: 0 <= m < n ==> CategoryOk(wave.categories[m]);
    CategoryComplaint(wave.categories[n], x);
  }

  /** There is one complaint at most, and a wave there is one about is not coherent. */
  lemma OneComplaint(wave: Wave, x: Complaint, y: Complaint)
    requires Blames(wave, x)
    ensures !Coherent(wave)
    ensures Blames(wave, y) ==> x == y
  {
    var slugs := SlugList(wave.categories);
    SlugsRepeat(wave.categories);
    if x.DuplicateSlug? {
      FirstRepeatIsOne(slugs, x.slug, y.slug);
    } else {
      var n := BlamedCategory(wave, x);
      if Blames(wave, y) {
        if y.DuplicateSlug? {
          FirstRepeatIsOne(slugs, y.slug, y.slug);
        } else {
          var m := BlamedCategory(wave, y);
          SameCategory(wave.categories[n], x, y);
        }
      }
    }
  }

  /** A wave that is not coherent has a complaint. */
  lemma ComplaintExists(wave: Wave) returns (x: Complaint)
    requires !Coherent(wave)
    ensures Blames(wave, x)
  {
    SlugsRepeat(wave.categories);
    if !DistinctSlugs(wave.categories) {
      var slug := SomeRepeat(SlugList(wave.categories));
      x := DuplicateSlug(slug);
    } else {
      var k: nat :| k < |wave.categories| && !CategoryOk(wave.categories[k]);
      var fine := (n: nat) => n < |wave.categories| ==> CategoryOk(wave.categories[n]);
      assert !fine(k);
      var n := FirstFailure(|wave.categories|, fine);
      forall m | 0 <= m < n ensures CategoryOk(wave.categories[m]) { assert fine(m); }
      x := SomeCategoryComplaint(wave.categories[n]);
    }
  }
}
