/**
 Opening a wave's draft services to provider applications
 (prisma/category-import/open-provider-enrollment.ts), and what any mix of imports and openings
 leaves of the decisions operators made.
 */
module ProviderEnrollment {
  import opened Sequences
  import opened CategoryWave
  import opened CategoryImport
  import opened CategoryConvergence

  // ---- the allow-list ----

  predicate Recruits(d: CategoryDef) {
    d.kind == LEAF && d.status == DRAFT && d.enrollment
  }

  /** waveEnrollmentSlugs: every recruiting definition's slug, once. */
  method WaveEnrollmentSlugs(waves: seq<Wave>) returns (slugs: seq<string>)
    ensures NoRepeats(slugs)
    ensures forall s :: s in slugs <==>
                          exists w, d :: 0 <= w < |waves| && 0 <= d < |waves[w].categories|
                                         && Recruits(waves[w].categories[d]) && waves[w].categories[d].slug == s
  {
    slugs := [];
    for i := 0 to |waves|
      invariant NoRepeats(slugs)
      invariant forall s :: s in slugs <==>
                              exists w, d :: 0 <= w < i && 0 <= d < |waves[w].categories|
                                             && Recruits(waves[w].categories[d]) && waves[w].categories[d].slug == s
    {
      var cats := waves[i].categories;
      ghost var before := slugs;
      for j := 0 to |cats|
        invariant NoRepeats(slugs)
        invariant forall s :: s in slugs <==> s in before || exists d :: 0 <= d < j && Recruits(cats[d]) && cats[d].slug == s
      {
        if Recruits(cats[j]) && cats[j].slug !in slugs {
          slugs := slugs + [cats[j].slug];
        }
      }
    }
  }

  // ---- opening ----

  type Table = map<string, CategoryRow>

  predicate DraftService(row: CategoryRow) {
    row.kind == LEAF && row.status == DRAFT
  }

  predicate ClosedDraft(row: CategoryRow) {
    DraftService(row) && !row.enrollmentOpen
  }

  /** The slugs of a list that have a row. */
  function Found(t: Table, slugs: seq<string>): set<string> {
    set s | s in slugs && s in t
  }

  function Drafts(t: Table, slugs: seq<string>): set<string> {
    set s | s in Found(t, slugs) && DraftService(t[s])
  }

  function Closed(t: Table, slugs: seq<string>): set<string> {
    set s | s in Drafts(t, slugs) && !t[s].enrollmentOpen
  }

  /** The guarded write: of the named rows, those that are closed drafts when it runs. */
  function StillClosed(t: Table, named: set<string>): set<string> {
    set s | s in named && s in t && ClosedDraft(t[s])
  }

  function WithOpened(t: Table, chosen: set<string>): Table {
    map s | s in t :: if s in chosen then t[s].(enrollmentOpen := true) else t[s]
  }

  datatype OpenSummary = OpenSummary(targeted: int, newlyOpen: int, alreadyOpen: int, skipped: int, missing: int, openedSlugs: seq<string>)

  function Named(slugs: seq<string>): set<string> {
    set s | s in slugs
  }

  // ---- Array.prototype.sort on slugs ----

  /** The order of two strings by their characters' codes. */
  predicate Before(a: string, b: string) {
    b != "" && (a == "" || a[0] < b[0] || (a[0] == b[0] && Before(a[1..], b[1..])))
  }

  predicate Ascending(list: seq<string>) {
    forall i, j :: 0 <= i < j < |list| ==> Before(list[i], list[j])
  }

  lemma {:induction false} BeforeIsStrict(a: string, b: string)
    ensures Before(a, b) ==> !Before(b, a) && a != b
    ensures a != b ==> Before(a, b) || Before(b, a)
    decreases |a|
  {
    if a != "" && b != "" {
      BeforeIsStrict(a[1..], b[1..]);
      assert a == [a[0]] + a[1..] && b == [b[0]] + b[1..];
    }
  }

  lemma {:induction false} BeforeIsTransitive(a: string, b: string, c: string)
    requires Before(a, b) && Before(b, c)
    ensures Before(a, c)
    decreases |a|
  {
    if a != "" && a[0] == b[0] == c[0] { BeforeIsTransitive(a[1..], b[1..], c[1..]); }
  }

  /** A new slug goes after everything before it and before everything after it. */
  method Insert(list: seq<string>, slug: string) returns (longer: seq<string>)
    requires Ascending(list) && slug !in list
    ensures Ascending(longer) && Named(longer) == Named(list) + {slug}
  {
    var k := 0;
    while k < |list| && Before(list[k], slug)
      invariant 0 <= k <= |list|
      invariant forall i :: 0 <= i < k ==> Before(list[i], slug)
    {
      k := k + 1;
    }
    forall i | k <= i < |list| ensures Before(slug, list[i]) {
      BeforeIsStrict(slug, list[k]);
      if k < i { BeforeIsTransitive(slug, list[k], list[i]); }
    }
    longer := list[..k] + [slug] + list[k..];
    assert forall s :: s in longer <==> s in list || s == slug by { assert list == list[..k] + list[k..]; }
  }

  method Sort(slugs: set<string>) returns (list: seq<string>)
    ensures Ascending(list) && Named(list) == slugs
  {
    list := [];
    var rest := slugs;
    while rest != {}
      invariant rest <= slugs && Ascending(list) && Named(list) == slugs - rest
      decreases rest
    {
      var slug :| slug in rest;
      assert slug !in Named(list);
      list := Insert(list, slug);
      rest := rest - {slug};
    }
  }

  class Catalogue {
    var categories: Table

    constructor (t: Table)
      ensures categories == t
    {
      categories := t;
    }

    /**
     openProviderEnrollment. Other transactions may commit between its read and its write: `meanwhile`
     is the table the write finds. Exactly the rows the read saw as closed drafts and the write still
     finds so are opened.
     */
    method Open(slugs: seq<string>, meanwhile: Table) returns (summary: OpenSummary)
      modifies this
      ensures categories == if slugs == [] then old(categories) else WithOpened(meanwhile, StillClosed(meanwhile, Closed(old(categories), slugs)))
      ensures summary.targeted == |slugs|
      ensures summary.newlyOpen == if slugs == [] then 0 else |StillClosed(meanwhile, Closed(old(categories), slugs))|
      ensures Named(summary.openedSlugs) == Closed(old(categories), slugs) && Ascending(summary.openedSlugs)
      ensures summary.alreadyOpen == |Drafts(old(categories), slugs) - Closed(old(categories), slugs)|
      ensures summary.skipped == |Found(old(categories), slugs) - Drafts(old(categories), slugs)|
      ensures summary.missing == |slugs| - |Found(old(categories), slugs)|
    {
      if slugs == [] {
        assert Found(categories, slugs) == {} && Drafts(categories, slugs) == {} && Closed(categories, slugs) == {};
        assert Named([]) == {};
        return OpenSummary(0, 0, 0, 0, 0, []);
      }
      var rows := Found(categories, slugs);
      var draftServices := Drafts(categories, slugs);
      var closed := Closed(categories, slugs);
      assert draftServices == closed + (draftServices - closed);
      assert rows == draftServices + (rows - draftServices);

      categories := meanwhile;
      var count := StillClosed(categories, closed);
      categories := WithOpened(categories, count);
      var inOrder := Sort(closed);
      summary := OpenSummary(|slugs|, |count|, |draftServices| - |closed|, |rows| - |draftServices|, |slugs| - |rows|, inOrder);
    }
  }

  // ---- what the summary means ----

  /** Any two lists in this order that name the same slugs are one list: the summary's is determined. */
  lemma {:induction false} AscendingIsUnique(a: seq<string>, b: seq<string>)
    requires Ascending(a) && Ascending(b) && Named(a) == Named(b)
    ensures a == b
    decreases |a|
  {
    if a == [] || b == [] {
      NamedIsEmpty(a);
      NamedIsEmpty(b);
    } else {
      SameLargest(a, b);
      var m, n := |a| - 1, |b| - 1;
      WithoutLargest(a);
      WithoutLargest(b);
      AscendingIsUnique(a[..m], b[..n]);
      assert a == a[..m] + [a[m]] && b == b[..n] + [b[n]];
    }
  }

  lemma NamedIsEmpty(slugs: seq<string>)
    ensures Named(slugs) == {} <==> slugs == []
  {
    if slugs != [] { assert slugs[0] in Named(slugs); }
  }

  lemma SameLargest(a: seq<string>, b: seq<string>)
    requires Ascending(a) && Ascending(b) && Named(a) == Named(b) && a != [] && b != []
    ensures a[|a| - 1] == b[|b| - 1]
  {
    assert a[|a| - 1] in Named(b) && b[|b| - 1] in Named(a);
    BeforeIsStrict(a[|a| - 1], b[|b| - 1]);
  }

  lemma WithoutLargest(a: seq<string>)
    requires Ascending(a) && a != []
    ensures Ascending(a[..|a| - 1]) && Named(a[..|a| - 1]) == Named(a) - {a[|a| - 1]}
  {
    var n := |a| - 1;
    forall i | 0 <= i < n ensures a[i] != a[n] { BeforeIsStrict(a[i], a[n]); }
    assert forall s :: s in a <==> s in a[..n] || s == a[n];
  }

  /** A subset as large as its superset is all of it. */
  lemma SameSize<T>(small: set<T>, large: set<T>)
    requires small <= large
    ensures |small| <= |large|
    ensures |small| == |large| <==> small == large
  {
    var rest := large - small;
    assert large == small + rest;
  }

  /**
   The four counts add up to the number of slugs named exactly when every row the read saw as a
   closed draft is still one when the write runs.
   */
  lemma CountsAddUp(read: Table, write: Table, slugs: seq<string>)
    ensures |slugs| == |StillClosed(write, Closed(read, slugs))| + |Drafts(read, slugs) - Closed(read, slugs)|
                       + |Found(read, slugs) - Drafts(read, slugs)| + (|slugs| - |Found(read, slugs)|)
            <==> forall s :: s in Closed(read, slugs) ==> s in write && ClosedDraft(write[s])
  {
    var found, drafts, closed := Found(read, slugs), Drafts(read, slugs), Closed(read, slugs);
    assert found == drafts + (found - drafts);
    assert drafts == closed + (drafts - closed);
    SameSize(StillClosed(write, closed), closed);
    assert StillClosed(write, closed) == closed <==> forall s :: s in closed ==> s in write && ClosedDraft(write[s]);
  }

  lemma {:induction false} NamedCount(slugs: seq<string>)
    ensures |Named(slugs)| <= |slugs|
    ensures |Named(slugs)| == |slugs| <==> NoRepeats(slugs)
    decreases |slugs|
  {
    if slugs == [] {
      assert Named(slugs) == {};
    } else {
      var n := |slugs| - 1;
      var before := slugs[..n];
      NamedCount(before);
      assert slugs == before + [slugs[n]];
      assert Named(slugs) == Named(before) + {slugs[n]};
      assert forall i :: 0 <= i < n ==> before[i] == slugs[i];
      if slugs[n] in before {
        assert Named(slugs) == Named(before);
        var i :| 0 <= i < n && before[i] == slugs[n];
        assert slugs[i] == slugs[n];
      }
    }
  }

  /** `missing` counts the named slugs without a row exactly when no slug is named twice. */
  lemma MissingIsExact(t: Table, slugs: seq<string>)
    ensures |slugs| - |Found(t, slugs)| == |Named(slugs) - t.Keys| <==> NoRepeats(slugs)
  {
    NamedCount(slugs);
    assert Named(slugs) == Found(t, slugs) + (Named(slugs) - t.Keys);
  }

  /** With nobody writing in between: the table after an opening. */
  function AfterOpen(t: Table, slugs: seq<string>): Table {
    WithOpened(t, StillClosed(t, Closed(t, slugs)))
  }

  /** The rows that change are the closed drafts named, and only their enrolment does. */
  lemma OpensExactly(t: Table, slugs: seq<string>)
    ensures AfterOpen(t, slugs).Keys == t.Keys
    ensures forall s :: s in t ==>
              AfterOpen(t, slugs)[s] ==
                if s in slugs && t[s].kind == LEAF && t[s].status == DRAFT && !t[s].enrollmentOpen then t[s].(enrollmentOpen := true)
                else t[s]
    ensures forall s :: s in t && s in slugs && DraftService(t[s]) ==> AfterOpen(t, slugs)[s].enrollmentOpen
  {
  }

  /** An immediate second opening opens nothing. */
  lemma SecondOpeningOpensNothing(t: Table, slugs: seq<string>)
    ensures Closed(AfterOpen(t, slugs), slugs) == {}
    ensures AfterOpen(AfterOpen(t, slugs), slugs) == AfterOpen(t, slugs)
  {
    OpensExactly(t, slugs);
    assert Closed(AfterOpen(t, slugs), slugs) == {};
    OpensExactly(AfterOpen(t, slugs), slugs);
  }

  // ---- imports and openings in any order ----

  datatype Op = ImportOp(wave: Wave) | OpenOp(slugs: seq<string>)

  function Apply(t: Tables, op: Op): Tables {
    match op
    case ImportOp(wave) => Import(t, wave).tables
    case OpenOp(slugs) => t.(categories := AfterOpen(t.categories, slugs))
  }

  function ApplyAll(t: Tables, ops: seq<Op>): Tables
    decreases |ops|
  {
    if ops == [] then t else Apply(ApplyAll(t, ops[..|ops| - 1]), ops[|ops| - 1])
  }

  /** Nothing an operator decided is taken back, and nothing opened is closed. */
  ghost predicate DecisionsStand(t: Tables, after: Tables) {
    forall s :: s in t.categories ==>
      && s in after.categories
      && var row, now := t.categories[s], after.categories[s];
         && now.status == row.status && now.isActive == row.isActive && now.extras == row.extras
         && (row.price.Some? ==> now.price == row.price)
         && (row.enrollmentOpen ==> now.enrollmentOpen)
  }

  lemma OneOpStands(t: Tables, op: Op)
    ensures DecisionsStand(t, Apply(t, op))
  {
    match op
    case ImportOp(wave) => ImportHandsOff(t, wave);
    case OpenOp(slugs) => OpensExactly(t.categories, slugs);
  }

  /** Through any mix of imports (failed ones too) and openings. */
  lemma {:induction false} DecisionsStandThroughout(t: Tables, ops: seq<Op>)
    ensures DecisionsStand(t, ApplyAll(t, ops))
    decreases |ops|
  {
    if ops != [] {
      var n := |ops| - 1;
      DecisionsStandThroughout(t, ops[..n]);
      OneOpStands(ApplyAll(t, ops[..n]), ops[n]);
    }
  }

  /** A draft service opened by name stays open whatever imports and openings follow. */
  lemma OpenedStaysOpen(t: Tables, slugs: seq<string>, s: string, ops: seq<Op>)
    requires s in slugs && s in t.categories && DraftService(t.categories[s])
    ensures var after := ApplyAll(Apply(t, OpenOp(slugs)), ops);
            s in after.categories && after.categories[s].enrollmentOpen
  {
    OpensExactly(t.categories, slugs);
    DecisionsStandThroughout(Apply(t, OpenOp(slugs)), ops);
  }

  /** A recruiting definition new to the database is created open, so opening the wave has nothing to do for it. */
  lemma FreshImportIsOpen(t: Tables, wave: Wave, d: CategoryDef)
    requires Import(t, wave).failure.None? && d in wave.categories && d.slug !in t.categories && Recruits(d)
    ensures var after := Import(t, wave).tables.categories;
            d.slug in after && DraftService(after[d.slug]) && after[d.slug].enrollmentOpen
  {
    var asked := QuestionsOf(wave);
    ImportSucceedsExactly(t, wave);
    SavedShape(t, wave);
    SourcesResolve(wave);
    PassThree(Saved(t, wave), SavedIds(asked), asked);
    var i :| 0 <= i < |wave.categories| && wave.categories[i] == d;
  }
}
