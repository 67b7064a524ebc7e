/**
 The redirect-landing judge of the end-to-end suite (e2e/src/action-redirect.ts): the trace the
 in-page recorder builds, one strictly increasing number per event, and the verdict read from it.
 */
module RouterRecorder {
  import opened Options

  /** A server action: when it was sent, when it was answered, and the redirect it was answered with. */
  datatype Action = Action(at: nat, answeredAt: Option<nat>, redirect: Option<string>)

  /** A navigation fetch; it stays unanswered while open or if it failed. */
  datatype Fetch = Fetch(at: nat, answeredAt: Option<nat>)

  datatype Traffic = Traffic(
    clock: nat,
    actions: seq<Action>,
    fetches: seq<Fetch>,
    navigations: seq<nat>,
    commits: seq<nat>,
    reactCommits: seq<nat>,
    passiveFlushes: seq<nat>)

  const NO_TRAFFIC := Traffic(0, [], [], [], [], [], [])

  datatype Event =
    | Reset
    | ActionSent
    | ActionAnswered(index: nat, redirect: Option<string>)
    | FetchSent
    | FetchAnswered(index: nat)
    | Navigation
    | HistoryWrite
    | ReactCommit
    | PassiveFlush

  // ---- the recorder ----

  /** What the recorder makes of one event; an answer to a request it has forgotten changes nothing. */
  function Record(t: Traffic, e: Event): Traffic {
    var now := t.clock + 1;
    match e
    case Reset => NO_TRAFFIC
    case ActionSent => t.(clock := now, actions := t.actions + [Action(now, None, None)])
    case ActionAnswered(i, redirect) =>
      if i < |t.actions| && t.actions[i].answeredAt.None? then
        t.(clock := now, actions := t.actions[i := t.actions[i].(answeredAt := Some(now), redirect := redirect)])
      else t
    case FetchSent => t.(clock := now, fetches := t.fetches + [Fetch(now, None)])
    case FetchAnswered(i) =>
      if i < |t.fetches| && t.fetches[i].answeredAt.None? then
        t.(clock := now, fetches := t.fetches[i := t.fetches[i].(answeredAt := Some(now))])
      else t
    case Navigation => t.(clock := now, navigations := t.navigations + [now])
    case HistoryWrite => t.(clock := now, commits := t.commits + [now])
    case ReactCommit => t.(clock := now, reactCommits := t.reactCommits + [now])
    case PassiveFlush => t.(clock := now, passiveFlushes := t.passiveFlushes + [now])
  }

  function RecordAll(t: Traffic, events: seq<Event>): Traffic
    decreases |events|
  {
    if events == [] then t else Record(RecordAll(t, events[..|events| - 1]), events[|events| - 1])
  }

  predicate Increasing(list: seq<nat>) {
    forall i, j :: 0 <= i < j < |list| ==> list[i] < list[j]
  }

  predicate UpTo(list: seq<nat>, clock: nat) {
    forall i :: 0 <= i < |list| ==> 0 < list[i] <= clock
  }

  predicate ActionsInOrder(t: Traffic) {
    && (forall i, j :: 0 <= i < j < |t.actions| ==> t.actions[i].at < t.actions[j].at)
    && forall i :: 0 <= i < |t.actions| ==>
         && 0 < t.actions[i].at <= t.clock
         && (t.actions[i].answeredAt.Some? ==> t.actions[i].at < t.actions[i].answeredAt.value <= t.clock)
         && (t.actions[i].redirect.Some? ==> t.actions[i].answeredAt.Some?)
  }

  predicate FetchesInOrder(t: Traffic) {
    && (forall i, j :: 0 <= i < j < |t.fetches| ==> t.fetches[i].at < t.fetches[j].at)
    && forall i :: 0 <= i < |t.fetches| ==>
         && 0 < t.fetches[i].at <= t.clock
         && (t.fetches[i].answeredAt.Some? ==> t.fetches[i].at < t.fetches[i].answeredAt.value <= t.clock)
  }

  /** The four plain lists of a trace are in order. */
  predicate ListsInOrder(t: Traffic) {
    && Increasing(t.navigations) && UpTo(t.navigations, t.clock)
    && Increasing(t.commits) && UpTo(t.commits, t.clock)
    && Increasing(t.reactCommits) && UpTo(t.reactCommits, t.clock)
    && Increasing(t.passiveFlushes) && UpTo(t.passiveFlushes, t.clock)
  }

  /** A trace the recorder can have built: every list in the order things happened, every number at most the last. */
  predicate Traced(t: Traffic) {
    ActionsInOrder(t) && FetchesInOrder(t) && ListsInOrder(t)
  }

  lemma OneMoreNumber(list: seq<nat>, clock: nat)
    requires Increasing(list) && UpTo(list, clock)
    ensures Increasing(list + [clock + 1]) && UpTo(list + [clock + 1], clock + 1)
    ensures UpTo(list, clock + 1)
  {
  }

  lemma ListsStayInOrder(t: Traffic, e: Event)
    requires ListsInOrder(t)
    ensures ListsInOrder(Record(t, e))
  {
    OneMoreNumber(t.navigations, t.clock);
    OneMoreNumber(t.commits, t.clock);
    OneMoreNumber(t.reactCommits, t.clock);
    OneMoreNumber(t.passiveFlushes, t.clock);
  }

  lemma ActionsStayInOrder(t: Traffic, e: Event)
    requires ActionsInOrder(t)
    ensures ActionsInOrder(Record(t, e))
  {
  }

  lemma FetchesStayInOrder(t: Traffic, e: Event)
    requires FetchesInOrder(t)
    ensures FetchesInOrder(Record(t, e))
  {
  }

  lemma RecordKeepsOrder(t: Traffic, e: Event)
    requires Traced(t)
    ensures Traced(Record(t, e))
  {
    ListsStayInOrder(t, e);
    ActionsStayInOrder(t, e);
    FetchesStayInOrder(t, e);
  }

  lemma {:induction false} EveryTraceIsOrdered(events: seq<Event>)
    ensures Traced(RecordAll(NO_TRAFFIC, events))
    decreases |events|
  {
    if events != [] {
      EveryTraceIsOrdered(events[..|events| - 1]);
      RecordKeepsOrder(RecordAll(NO_TRAFFIC, events[..|events| - 1]), events[|events| - 1]);
    }
  }

  /** The recorder's counter and lists, as the page's wrappers push onto them. */
  class Recorder {
    var clock: nat
    var actions: seq<Action>
    var fetches: seq<Fetch>
    var navigations: seq<nat>
    var commits: seq<nat>
    var reactCommits: seq<nat>
    var passiveFlushes: seq<nat>

    function Trace(): Traffic
      reads this
    {
      Traffic(clock, actions, fetches, navigations, commits, reactCommits, passiveFlushes)
    }

    constructor ()
      ensures Trace() == NO_TRAFFIC && Traced(Trace())
    {
      clock, actions, fetches := 0, [], [];
      navigations, commits, reactCommits, passiveFlushes := [], [], [], [];
    }

    method Forget()
      modifies this
      ensures Trace() == Record(old(Trace()), Reset)
    {
      clock, actions, fetches := 0, [], [];
      navigations, commits, reactCommits, passiveFlushes := [], [], [], [];
    }

    method Tick() returns (now: nat)
      modifies this`clock
      ensures now == clock == old(clock) + 1
    {
      clock := clock + 1;
      now := clock;
    }

    /** window.fetch with an action id, or for an RSC payload: the request is numbered when it is sent. */
    method SendAction() returns (index: nat)
      modifies this
      ensures Trace() == Record(old(Trace()), ActionSent) && index == old(|actions|)
    {
      var now := Tick();
      index := |actions|;
      actions := actions + [Action(now, None, None)];
    }

    method AnswerAction(index: nat, redirect: Option<string>)
      requires index < |actions| && actions[index].answeredAt.None?
      modifies this
      ensures Trace() == Record(old(Trace()), ActionAnswered(index, redirect))
    {
      actions := actions[index := actions[index].(redirect := redirect)];
      var now := Tick();
      actions := actions[index := actions[index].(answeredAt := Some(now))];
    }

    method SendFetch() returns (index: nat)
      modifies this
      ensures Trace() == Record(old(Trace()), FetchSent) && index == old(|fetches|)
    {
      var now := Tick();
      index := |fetches|;
      fetches := fetches + [Fetch(now, None)];
    }

    method AnswerFetch(index: nat)
      requires index < |fetches| && fetches[index].answeredAt.None?
      modifies this
      ensures Trace() == Record(old(Trace()), FetchAnswered(index))
    {
      var now := Tick();
      fetches := fetches[index := fetches[index].(answeredAt := Some(now))];
    }

    method Navigate()
      modifies this
      ensures Trace() == Record(old(Trace()), Navigation)
    {
      var now := Tick();
      navigations := navigations + [now];
    }

    method WriteHistory()
      modifies this
      ensures Trace() == Record(old(Trace()), HistoryWrite)
    {
      var now := Tick();
      commits := commits + [now];
    }

    method CommitReact()
      modifies this
      ensures Trace() == Record(old(Trace()), ReactCommit)
    {
      var now := Tick();
      reactCommits := reactCommits + [now];
    }

    method FlushEffects()
      modifies this
      ensures Trace() == Record(old(Trace()), PassiveFlush)
    {
      var now := Tick();
      passiveFlushes := passiveFlushes + [now];
    }
  }

  // ---- the verdict ----

  datatype Verdict =
    | AwaitingAnswer
    | AwaitingCommit
    | AwaitingEffects
    | AwaitingNavigation
    | AwaitingFetch
    | AwaitingFetchCommit
    | Landed

  predicate Redirected(a: Action) {
    a.answeredAt.Some? && a.redirect.Some? && a.redirect.value != ""
  }

  /** Action i is the one judged: of the redirecting answered actions, the last that was sent. */
  predicate Judged(t: Traffic, i: int) {
    0 <= i < |t.actions| && Redirected(t.actions[i]) && forall j :: i < j < |t.actions| ==> !Redirected(t.actions[j])
  }

  /** Something in the list happened after the given number. */
  predicate After(list: seq<nat>, at: nat) {
    exists i :: 0 <= i < |list| && at < list[i]
  }

  /** `first` is the first number of the list above `at`. */
  predicate FirstAfter(list: seq<nat>, at: nat, first: nat) {
    first in list && at < first && forall i :: 0 <= i < |list| && at < list[i] ==> first <= list[i]
  }

  /** A flush after the commit, or two React commits after it: the second one means the first one's effects ran. */
  predicate EffectsDone(t: Traffic, commit: nat) {
    After(t.passiveFlushes, commit)
    || exists i :: 0 <= i < |t.reactCommits| && commit < t.reactCommits[i] && After(t.reactCommits, t.reactCommits[i])
  }

  predicate NavigationsCommitted(t: Traffic, since: nat) {
    forall i :: 0 <= i < |t.navigations| && since < t.navigations[i] ==> After(t.commits, t.navigations[i])
  }

  predicate FetchLanded(t: Traffic, f: Fetch) {
    f.answeredAt.Some? && After(t.commits, f.answeredAt.value)
  }

  predicate FetchesLanded(t: Traffic, since: nat) {
    forall i :: 0 <= i < |t.fetches| && since < t.fetches[i].at ==> FetchLanded(t, t.fetches[i])
  }

  /** The redirect answered at `since` has landed. */
  ghost predicate LandedSince(t: Traffic, since: nat) {
    && (exists commit :: FirstAfter(t.commits, since, commit) && EffectsDone(t, commit))
    && NavigationsCommitted(t, since)
    && FetchesLanded(t, since)
  }

  ghost predicate HasLanded(t: Traffic) {
    exists i :: Judged(t, i) && LandedSince(t, t.actions[i].answeredAt.value)
  }

  /** list.find((at) => at > seq) */
  method Find(list: seq<nat>, at: nat) returns (first: Option<nat>)
    requires Increasing(list)
    ensures first.None? <==> !After(list, at)
    ensures first.Some? ==> FirstAfter(list, at, first.value)
  {
    for i := 0 to |list|
      invariant forall k :: 0 <= k < i ==> list[k] <= at
    {
      if at < list[i] {
        return Some(list[i]);
      }
    }
    first := None;
  }

  /** Which step each verdict names: the first thing missing. */
  ghost predicate Names(t: Traffic, v: Verdict) {
    match v
    case AwaitingAnswer => forall i :: 0 <= i < |t.actions| ==> !Redirected(t.actions[i])
    case AwaitingCommit => exists i :: Judged(t, i) && !After(t.commits, t.actions[i].answeredAt.value)
    case AwaitingEffects =>
      exists i, c :: Judged(t, i) && FirstAfter(t.commits, t.actions[i].answeredAt.value, c) && !EffectsDone(t, c)
    case AwaitingNavigation =>
      exists i, c :: Judged(t, i) && FirstAfter(t.commits, t.actions[i].answeredAt.value, c) && EffectsDone(t, c)
                     && !NavigationsCommitted(t, t.actions[i].answeredAt.value)
    case AwaitingFetch => exists i, f :: FetchMissing(t, i, f) && t.fetches[f].answeredAt.None?
    case AwaitingFetchCommit => exists i, f :: FetchMissing(t, i, f) && t.fetches[f].answeredAt.Some?
    case Landed => HasLanded(t)
  }

  /** All but the fetches has landed, and fetch f is the first that has not. */
  ghost predicate FetchMissing(t: Traffic, i: int, f: int) {
    && Judged(t, i)
    && var since := t.actions[i].answeredAt.value;
    && (exists c :: FirstAfter(t.commits, since, c) && EffectsDone(t, c))
    && NavigationsCommitted(t, since)
    && 0 <= f < |t.fetches| && since < t.fetches[f].at && !FetchLanded(t, t.fetches[f])
    && forall g :: 0 <= g < f && since < t.fetches[g].at ==> FetchLanded(t, t.fetches[g])
  }

  /** Of the actions answered with a redirect, the last in the list: filter(...).at(-1). */
  method LastRedirected(t: Traffic) returns (answered: Option<nat>)
    ensures answered.None? <==> forall i :: 0 <= i < |t.actions| ==> !Redirected(t.actions[i])
    ensures answered.Some? ==> Judged(t, answered.value)
  {
    answered := None;
    for i := 0 to |t.actions|
      invariant answered.None? <==> forall k :: 0 <= k < i ==> !Redirected(t.actions[k])
      invariant answered.Some? ==>
                  && answered.value < i && Redirected(t.actions[answered.value])
                  && forall k :: answered.value < k < i ==> !Redirected(t.actions[k])
    {
      if Redirected(t.actions[i]) {
        answered := Some(i);
      }
    }
  }

  /** The passive effects of a commit: flushed, or flushed for certain by a later commit. */
  method EffectsFlushed(t: Traffic, commit: nat) returns (done: bool)
    requires Traced(t)
    ensures done <==> EffectsDone(t, commit)
  {
    var flushed := Find(t.passiveFlushes, commit);
    if flushed.Some? {
      return true;
    }
    var commitEnd := Find(t.reactCommits, commit);
    if commitEnd.None? {
      NoLaterCommit(t, commit);
      return false;
    }
    var later := Find(t.reactCommits, commitEnd.value);
    SecondCommit(t, commit, commitEnd.value);
    done := later.Some?;
  }

  method AllNavigationsCommitted(t: Traffic, since: nat) returns (done: bool)
    requires Traced(t)
    ensures done <==> NavigationsCommitted(t, since)
  {
    for i := 0 to |t.navigations|
      invariant forall k :: 0 <= k < i && since < t.navigations[k] ==> After(t.commits, t.navigations[k])
    {
      if since < t.navigations[i] {
        var commit := Find(t.commits, t.navigations[i]);
        if commit.None? {
          return false;
        }
      }
    }
    done := true;
  }

  /** The first navigation fetch that is not answered and committed. */
  method FirstFetchMissing(t: Traffic, since: nat) returns (missing: Option<nat>)
    requires Traced(t)
    ensures missing.None? <==> FetchesLanded(t, since)
    ensures missing.Some? ==>
              && missing.value < |t.fetches| && since < t.fetches[missing.value].at && !FetchLanded(t, t.fetches[missing.value])
              && forall k :: 0 <= k < missing.value && since < t.fetches[k].at ==> FetchLanded(t, t.fetches[k])
  {
    for i := 0 to |t.fetches|
      invariant forall k :: 0 <= k < i && since < t.fetches[k].at ==> FetchLanded(t, t.fetches[k])
    {
      if since < t.fetches[i].at {
        if t.fetches[i].answeredAt.None? {
          return Some(i);
        }
        var commit := Find(t.commits, t.fetches[i].answeredAt.value);
        if commit.None? {
          return Some(i);
        }
      }
    }
    missing := None;
  }

  /** sameScreenRedirectStep: it names the first thing missing, and nothing is missing exactly when it says landed. */
  method SameScreenRedirectStep(t: Traffic) returns (v: Verdict)
    requires Traced(t)
    ensures Names(t, v)
    ensures v == Landed <==> HasLanded(t)
  {
    var answered := LastRedirected(t);
    if answered.None? {
      return AwaitingAnswer;
    }
    var i := answered.value;
    var since := t.actions[i].answeredAt.value;
    assert HasLanded(t) <==> LandedSince(t, since) by {
      forall j | Judged(t, j) ensures j == i { OneJudged(t, i, j); }
    }
    var actionCommit := Find(t.commits, since);
    if actionCommit.None? {
      return AwaitingCommit;
    }
    var c := actionCommit.value;
    assert forall d :: FirstAfter(t.commits, since, d) ==> d == c;
    var effectsDone := EffectsFlushed(t, c);
    if !effectsDone {
      return AwaitingEffects;
    }
    var committed := AllNavigationsCommitted(t, since);
    if !committed {
      return AwaitingNavigation;
    }
    var missing := FirstFetchMissing(t, since);
    if missing.None? {
      return Landed;
    }
    assert FetchMissing(t, i, missing.value);
    v := if t.fetches[missing.value].answeredAt.None? then AwaitingFetch else AwaitingFetchCommit;
  }

  /** Two React commits after the action's exist exactly when one follows the first of them. */
  lemma SecondCommit(t: Traffic, commit: nat, first: nat)
    requires FirstAfter(t.reactCommits, commit, first) && !After(t.passiveFlushes, commit)
    ensures EffectsDone(t, commit) <==> After(t.reactCommits, first)
  {
    var k :| 0 <= k < |t.reactCommits| && t.reactCommits[k] == first;
    if EffectsDone(t, commit) {
      var i :| 0 <= i < |t.reactCommits| && commit < t.reactCommits[i] && After(t.reactCommits, t.reactCommits[i]);
      var j :| 0 <= j < |t.reactCommits| && t.reactCommits[i] < t.reactCommits[j];
      assert first <= t.reactCommits[i];
    }
  }

  lemma NoLaterCommit(t: Traffic, commit: nat)
    requires !After(t.reactCommits, commit)
    ensures EffectsDone(t, commit) <==> After(t.passiveFlushes, commit)
  {
  }

  // ---- how long a landing lasts ----

  /** The events that reopen a landing: a navigation, a fetch, or the redirect of an action sent after the judged one. */
  ghost predicate Reopens(t: Traffic, e: Event) {
    match e
    case Reset => true
    case Navigation => true
    case FetchSent => true
    case ActionAnswered(i, redirect) =>
      && i < |t.actions| && t.actions[i].answeredAt.None?
      && redirect.Some? && redirect.value != ""
      && forall j :: Judged(t, j) ==> j < i
    case _ => false
  }

  lemma AfterGrows(list: seq<nat>, more: seq<nat>, at: nat)
    requires After(list, at)
    ensures After(list + more, at)
  {
    var i :| 0 <= i < |list| && at < list[i];
    assert (list + more)[i] == list[i];
  }

  lemma FirstStaysFirst(list: seq<nat>, now: nat, at: nat, first: nat)
    requires FirstAfter(list, at, first) && first < now
    ensures FirstAfter(list + [now], at, first)
  {
  }

  /** Everything recorded so far is before the next number. */
  lemma NothingAfterNow(list: seq<nat>, clock: nat, at: nat)
    requires UpTo(list, clock) && clock <= at
    ensures !After(list, at)
  {
  }

  /** A landing needs nothing taken away: lists that only grew keep it. */
  lemma EffectsStayDone(t: Traffic, u: Traffic, commit: nat, flushes: seq<nat>, reacts: seq<nat>)
    requires EffectsDone(t, commit)
    requires u.passiveFlushes == t.passiveFlushes + flushes && u.reactCommits == t.reactCommits + reacts
    ensures EffectsDone(u, commit)
  {
    if After(t.passiveFlushes, commit) {
      AfterGrows(t.passiveFlushes, flushes, commit);
    } else {
      var i :| 0 <= i < |t.reactCommits| && commit < t.reactCommits[i] && After(t.reactCommits, t.reactCommits[i]);
      AfterGrows(t.reactCommits, reacts, t.reactCommits[i]);
      assert u.reactCommits[i] == t.reactCommits[i];
    }
  }

  /** A history write, a React commit or a flush leaves what had landed landed. */
  lemma GrowthKeepsLanding(t: Traffic, u: Traffic, since: nat, commits: seq<nat>, flushes: seq<nat>, reacts: seq<nat>)
    requires Traced(t) && LandedSince(t, since)
    requires u.commits == t.commits + commits && u.passiveFlushes == t.passiveFlushes + flushes && u.reactCommits == t.reactCommits + reacts
    requires |commits| <= 1 && (commits != [] ==> t.clock < commits[0])
    requires u.navigations == t.navigations && u.fetches == t.fetches
    ensures LandedSince(u, since)
  {
    var c :| FirstAfter(t.commits, since, c) && EffectsDone(t, c);
    EffectsStayDone(t, u, c, flushes, reacts);
    assert FirstAfter(u.commits, since, c) by {
      if commits != [] { FirstStaysFirst(t.commits, commits[0], since, c); }
    }
    forall i | 0 <= i < |u.navigations| && since < u.navigations[i]
      ensures After(u.commits, u.navigations[i])
    {
      AfterGrows(t.commits, commits, t.navigations[i]);
    }
    forall i | 0 <= i < |u.fetches| && since < u.fetches[i].at
      ensures FetchLanded(u, u.fetches[i])
    {
      assert FetchLanded(t, t.fetches[i]);
      AfterGrows(t.commits, commits, t.fetches[i].answeredAt.value);
    }
  }

  lemma OneJudged(t: Traffic, i: int, j: int)
    requires Judged(t, i) && Judged(t, j)
    ensures i == j
  {
  }

  /** A history write, a React commit, a flush or a request sent only lets lists grow. */
  lemma GrowthLasts(t: Traffic, e: Event, i: int)
    requires Traced(t) && Judged(t, i) && LandedSince(t, t.actions[i].answeredAt.value)
    requires e.HistoryWrite? || e.ReactCommit? || e.PassiveFlush? || e.ActionSent?
    ensures Judged(Record(t, e), i) && Record(t, e).actions[i] == t.actions[i]
    ensures LandedSince(Record(t, e), t.actions[i].answeredAt.value)
  {
    var now := t.clock + 1;
    GrowthKeepsLanding(t, Record(t, e), t.actions[i].answeredAt.value,
                       if e.HistoryWrite? then [now] else [],
                       if e.PassiveFlush? then [now] else [],
                       if e.ReactCommit? then [now] else []);
  }

  lemma AnswerLasts(t: Traffic, e: Event, i: int)
    requires Traced(t) && Judged(t, i) && LandedSince(t, t.actions[i].answeredAt.value)
    requires e.ActionAnswered? && !Reopens(t, e)
    ensures Judged(Record(t, e), i) && Record(t, e).actions[i] == t.actions[i]
    ensures LandedSince(Record(t, e), t.actions[i].answeredAt.value)
  {
    SameJudged(t, e, i);
    GrowthKeepsLanding(t, Record(t, e), t.actions[i].answeredAt.value, [], [], []);
  }

  /** An event that reopens nothing leaves the same action judged, and landed. */
  lemma LandingLasts(t: Traffic, e: Event)
    requires Traced(t) && HasLanded(t) && !Reopens(t, e)
    ensures HasLanded(Record(t, e))
  {
    var i :| Judged(t, i) && LandedSince(t, t.actions[i].answeredAt.value);
    match e
    case ActionAnswered(_, _) =>
      AnswerLasts(t, e, i);
    case FetchAnswered(k) =>
      LateFetchAnswer(t, k, t.actions[i].answeredAt.value);
      assert Judged(Record(t, e), i);
    case _ =>
      GrowthLasts(t, e, i);
  }

  /** An answer without a redirect, or for an action sent before the judged one, leaves it judged. */
  lemma SameJudged(t: Traffic, e: Event, i: int)
    requires Judged(t, i) && e.ActionAnswered? && !Reopens(t, e)
    ensures Judged(Record(t, e), i) && Record(t, e).actions[i] == t.actions[i]
  {
    forall j | Judged(t, j)
      ensures j == i
    {
      OneJudged(t, i, j);
    }
  }

  /** Every fetch that mattered was answered already. */
  lemma LateFetchAnswer(t: Traffic, k: nat, since: nat)
    requires Traced(t) && LandedSince(t, since)
    ensures LandedSince(Record(t, FetchAnswered(k)), since)
  {
    var u := Record(t, FetchAnswered(k));
    var c :| FirstAfter(t.commits, since, c) && EffectsDone(t, c);
    EffectsStayDone(t, u, c, [], []);
    forall i | 0 <= i < |u.fetches| && since < u.fetches[i].at
      ensures FetchLanded(u, u.fetches[i])
    {
      assert FetchLanded(t, t.fetches[i]);
    }
  }

  /** A navigation, a fetch or a later action's redirect is not committed when it is recorded. */
  lemma ReopenedIsNotLanded(t: Traffic, e: Event)
    requires Traced(t) && HasLanded(t) && Reopens(t, e)
    ensures !HasLanded(Record(t, e))
  {
    var u := Record(t, e);
    var i :| Judged(t, i) && LandedSince(t, t.actions[i].answeredAt.value);
    forall j | Judged(u, j)
      ensures !LandedSince(u, u.actions[j].answeredAt.value)
    {
      match e
      case Navigation =>
        OneJudged(t, i, j);
        assert u.navigations[|t.navigations|] == t.clock + 1;
        NothingAfterNow(u.commits, t.clock, t.clock + 1);
      case FetchSent =>
        OneJudged(t, i, j);
        assert u.fetches[|t.fetches|] == Fetch(t.clock + 1, None);
      case ActionAnswered(k, _) =>
        assert Redirected(u.actions[k]);
        assert j == k by { LaterIsJudged(t, e, i, j); }
        NothingAfterNow(u.commits, t.clock, t.clock + 1);
      case _ =>
    }
  }

  lemma LaterIsJudged(t: Traffic, e: Event, i: int, j: int)
    requires Judged(t, i) && e.ActionAnswered? && Reopens(t, e) && Judged(Record(t, e), j)
    ensures j == e.index
  {
    assert i < e.index && Redirected(Record(t, e).actions[e.index]);
    assert forall m :: e.index < m < |t.actions| ==> Record(t, e).actions[m] == t.actions[m];
  }

  /** A landing outlives an event exactly when the event reopens nothing. */
  lemma LandingLastsExactly(t: Traffic, e: Event)
    requires Traced(t) && HasLanded(t)
    ensures HasLanded(Record(t, e)) <==> !Reopens(t, e)
  {
    if Reopens(t, e) { ReopenedIsNotLanded(t, e); } else { LandingLasts(t, e); }
  }

  predicate Quiet(e: Event) {
    !e.Reset? && !e.Navigation? && !e.FetchSent? && !(e.ActionAnswered? && e.redirect.Some? && e.redirect.value != "")
  }

  /** Over a whole trace: with no new navigation, fetch or redirect, landed stays landed. */
  lemma {:induction false} QuietTraceStaysLanded(t: Traffic, events: seq<Event>)
    requires Traced(t) && HasLanded(t)
    requires forall i :: 0 <= i < |events| ==> Quiet(events[i])
    ensures Traced(RecordAll(t, events)) && HasLanded(RecordAll(t, events))
    decreases |events|
  {
    if events != [] {
      var n := |events| - 1;
      QuietTraceStaysLanded(t, events[..n]);
      RecordKeepsOrder(RecordAll(t, events[..n]), events[n]);
      LandingLasts(RecordAll(t, events[..n]), events[n]);
    }
  }

  /** Two actions sent, the second answered first, its redirect committed and its effects flushed. */
  function LandedTrace(): Traffic {
    var redirected := Action(2, Some(3), Some("/a"));
    Traffic(5, [Action(1, None, None), redirected], [], [], [4], [], [5])
  }

  lemma LandedTraceIsRecorded()
    ensures RecordAll(NO_TRAFFIC, [ActionSent, ActionSent, ActionAnswered(1, Some("/a")), HistoryWrite, PassiveFlush]) == LandedTrace()
  {
    var one := [ActionSent];
    var two := one + [ActionSent];
    var three := two + [ActionAnswered(1, Some("/a"))];
    var four := three + [HistoryWrite];
    RecordSnoc(NO_TRAFFIC, [], ActionSent);
    assert [] + [ActionSent] == one;
    RecordSnoc(NO_TRAFFIC, one, ActionSent);
    RecordSnoc(NO_TRAFFIC, two, ActionAnswered(1, Some("/a")));
    RecordSnoc(NO_TRAFFIC, three, HistoryWrite);
    RecordSnoc(NO_TRAFFIC, four, PassiveFlush);
    assert four + [PassiveFlush] == [ActionSent, ActionSent, ActionAnswered(1, Some("/a")), HistoryWrite, PassiveFlush];
  }

  lemma RecordSnoc(t: Traffic, events: seq<Event>, e: Event)
    ensures RecordAll(t, events + [e]) == Record(RecordAll(t, events), e)
  {
    assert (events + [e])[..|events|] == events;
  }

  lemma ItHasLanded(t: Traffic)
    requires t == LandedTrace()
    ensures HasLanded(t) && !Reopens(t, ActionAnswered(0, Some("/b")))
  {
    assert t.commits[0] == 4 && t.passiveFlushes[0] == 5;
    assert FirstAfter(t.commits, 3, 4) && After(t.passiveFlushes, 4);
    assert LandedSince(t, 3);
    assert Judged(t, 1) && t.actions[1].answeredAt.value == 3;
  }

  /** The first action's redirect, answered last, reopens nothing: the trace stays landed. */
  lemma LateRedirectIsOverlooked()
    ensures var events := [ActionSent, ActionSent, ActionAnswered(1, Some("/a")), HistoryWrite, PassiveFlush];
            && HasLanded(RecordAll(NO_TRAFFIC, events))
            && RecordAll(NO_TRAFFIC, events + [ActionAnswered(0, Some("/b"))]).actions[0] == Action(1, Some(6), Some("/b"))
            && HasLanded(RecordAll(NO_TRAFFIC, events + [ActionAnswered(0, Some("/b"))]))
  {
    var events := [ActionSent, ActionSent, ActionAnswered(1, Some("/a")), HistoryWrite, PassiveFlush];
    LandedTraceIsRecorded();
    EveryTraceIsOrdered(events);
    RecordSnoc(NO_TRAFFIC, events, ActionAnswered(0, Some("/b")));
    ItHasLanded(LandedTrace());
    LandingLastsExactly(LandedTrace(), ActionAnswered(0, Some("/b")));
  }
}
