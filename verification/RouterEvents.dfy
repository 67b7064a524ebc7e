/**
 The redirect-landing judge in terms of what happened in the page (e2e/src/action-redirect.ts): the trace
 read as the list of events, and landing as a statement about that list.
 */
module RouterEvents {
  import opened Options
  import opened RouterRecorder

  /** What happened since the recorder was last reset. */
  function SinceReset(events: seq<Event>): (w: seq<Event>)
    ensures |w| <= |events| && forall i :: 0 <= i < |w| ==> !w[i].Reset?
    decreases |events|
  {
    if events == [] then []
    else
      var n := |events| - 1;
      if events[n].Reset? then [] else SinceReset(events[..n]) + [events[n]]
  }

  /** The kinds of event that have a list of their own. */
  datatype Mark = Send | FetchSend | Navigate | Write | Commit | Flush

  predicate Is(e: Event, mark: Mark) {
    match mark
    case Send => e.ActionSent?
    case FetchSend => e.FetchSent?
    case Navigate => e.Navigation?
    case Write => e.HistoryWrite?
    case Commit => e.ReactCommit?
    case Flush => e.PassiveFlush?
  }

  function HowMany(w: seq<Event>, mark: Mark): nat {
    if w == [] then 0 else HowMany(w[..|w| - 1], mark) + if Is(w[|w| - 1], mark) then 1 else 0
  }

  /** Event i answers action j: the action has been sent by then. */
  predicate AnswersSent(w: seq<Event>, i: nat, j: nat)
    requires i < |w|
  {
    w[i].ActionAnswered? && w[i].index == j && j < HowMany(w[..i], Send)
  }

  /** It is the first to do so. */
  predicate AnswersAction(w: seq<Event>, i: nat, j: nat)
    requires i < |w|
  {
    AnswersSent(w, i, j) && forall k :: 0 <= k < i ==> !AnswersSent(w, k, j)
  }

  predicate AnswersOpen(w: seq<Event>, i: nat, j: nat)
    requires i < |w|
  {
    w[i].FetchAnswered? && w[i].index == j && j < HowMany(w[..i], FetchSend)
  }

  predicate AnswersFetch(w: seq<Event>, i: nat, j: nat)
    requires i < |w|
  {
    AnswersOpen(w, i, j) && forall k :: 0 <= k < i ==> !AnswersOpen(w, k, j)
  }

  /** Every event is numbered but an answer nobody waits for. */
  predicate IsNumbered(w: seq<Event>, i: nat)
    requires i < |w|
  {
    match w[i]
    case ActionAnswered(j, _) => AnswersAction(w, i, j)
    case FetchAnswered(j) => AnswersFetch(w, i, j)
    case Reset => false
    case _ => true
  }

  /** How many of the events are numbered. */
  function Numbered(w: seq<Event>): nat {
    if w == [] then 0 else Numbered(w[..|w| - 1]) + if IsNumbered(w, |w| - 1) then 1 else 0
  }

  /** The number event i has, if it has one. */
  function NumberOf(w: seq<Event>, i: nat): nat
    requires i < |w|
  {
    Numbered(w[..i + 1])
  }

  /** The numbers of the events of a kind, in order. */
  function NumbersOf(w: seq<Event>, mark: Mark): seq<nat> {
    if w == [] then []
    else NumbersOf(w[..|w| - 1], mark) + if Is(w[|w| - 1], mark) then [Numbered(w)] else []
  }

  // ---- what a list says of its front ----

  lemma AnswersInFront(w: seq<Event>, m: nat, i: nat, j: nat)
    requires i < m <= |w|
    ensures AnswersAction(w[..m], i, j) == AnswersAction(w, i, j)
    ensures AnswersFetch(w[..m], i, j) == AnswersFetch(w, i, j)
  {
    forall k | 0 <= k <= i
      ensures AnswersSent(w[..m], k, j) == AnswersSent(w, k, j) && AnswersOpen(w[..m], k, j) == AnswersOpen(w, k, j)
    {
      assert w[..m][..k] == w[..k];
    }
  }

  lemma IsNumberedInFront(w: seq<Event>, m: nat, i: nat)
    requires i < m <= |w|
    ensures IsNumbered(w[..m], i) == IsNumbered(w, i)
  {
    if w[i].ActionAnswered? || w[i].FetchAnswered? { AnswersInFront(w, m, i, w[i].index); }
  }

  lemma NumberInFront(w: seq<Event>, m: nat, i: nat)
    requires i < m <= |w|
    ensures NumberOf(w[..m], i) == NumberOf(w, i)
  {
    assert w[..m][..i + 1] == w[..i + 1];
  }

  lemma NumberedSnoc(w: seq<Event>, i: nat)
    requires i < |w|
    ensures NumberOf(w, i) == Numbered(w[..i]) + if IsNumbered(w, i) then 1 else 0
  {
    assert w[..i + 1][..i] == w[..i];
    IsNumberedInFront(w, i + 1, i);
  }

  lemma {:induction false} NumberedGrows(w: seq<Event>, i: nat, j: nat)
    requires i <= j <= |w|
    ensures Numbered(w[..i]) <= Numbered(w[..j])
    decreases j
  {
    if i < j {
      NumberedGrows(w, i, j - 1);
      NumberedSnoc(w, j - 1);
    }
  }

  /** A numbered event has a higher number than another exactly when it comes later. */
  lemma NumbersAreInOrder(w: seq<Event>, i: nat, j: nat)
    requires i < |w| && j < |w| && IsNumbered(w, j)
    ensures NumberOf(w, i) < NumberOf(w, j) <==> i < j
  {
    NumberedSnoc(w, j);
    if i < j { NumberedGrows(w, i + 1, j); } else { NumberedGrows(w, j + 1, i + 1); }
  }

  /** The numbers of a kind are those of its events. */
  lemma {:induction false} NumbersAre(w: seq<Event>, mark: Mark, n: nat)
    ensures n in NumbersOf(w, mark) <==> exists i :: 0 <= i < |w| && Is(w[i], mark) && NumberOf(w, i) == n
    decreases |w|
  {
    if w != [] {
      var m := |w| - 1;
      NumbersAre(w[..m], mark, n);
      forall i | 0 <= i < m ensures NumberOf(w[..m], i) == NumberOf(w, i) && w[..m][i] == w[i] { NumberInFront(w, m, i); }
      assert w[..m + 1] == w && NumberOf(w, m) == Numbered(w);
      if i :| 0 <= i < m && Is(w[..m][i], mark) && NumberOf(w[..m], i) == n {
        assert Is(w[i], mark) && NumberOf(w, i) == n;
      }
      if i :| 0 <= i < |w| && Is(w[i], mark) && NumberOf(w, i) == n {
        assert i < m ==> Is(w[..m][i], mark) && NumberOf(w[..m], i) == n;
      }
    }
  }

  // ---- the trace ----

  /** Action j of the trace is the j-th that was sent, answered by the first answer to it. */
  ghost predicate ActionIs(w: seq<Event>, a: Action, j: nat) {
    && (a.answeredAt.None? ==> a.redirect.None? && forall i :: 0 <= i < |w| ==> !AnswersAction(w, i, j))
    && (a.answeredAt.Some? ==> exists i :: 0 <= i < |w| && AnswersAction(w, i, j)
                                           && a.answeredAt.value == NumberOf(w, i) && a.redirect == w[i].redirect)
  }

  ghost predicate FetchIs(w: seq<Event>, f: Fetch, j: nat) {
    && (f.answeredAt.None? ==> forall i :: 0 <= i < |w| ==> !AnswersFetch(w, i, j))
    && (f.answeredAt.Some? ==> exists i :: 0 <= i < |w| && AnswersFetch(w, i, j) && f.answeredAt.value == NumberOf(w, i))
  }

  /** The trace holds the number of every event in the list of its kind, and nothing else. */
  ghost predicate Holds(t: Traffic, w: seq<Event>) {
    && t.clock == Numbered(w)
    && t.navigations == NumbersOf(w, Navigate) && t.commits == NumbersOf(w, Write)
    && t.reactCommits == NumbersOf(w, Commit) && t.passiveFlushes == NumbersOf(w, Flush)
    && HoldsActions(t, w) && HoldsFetches(t, w)
  }

  ghost predicate HoldsActions(t: Traffic, w: seq<Event>) {
    && |t.actions| == HowMany(w, Send) == |NumbersOf(w, Send)|
    && forall j :: 0 <= j < |t.actions| ==> t.actions[j].at == NumbersOf(w, Send)[j] && ActionIs(w, t.actions[j], j)
  }

  ghost predicate HoldsFetches(t: Traffic, w: seq<Event>) {
    && |t.fetches| == HowMany(w, FetchSend) == |NumbersOf(w, FetchSend)|
    && forall j :: 0 <= j < |t.fetches| ==> t.fetches[j].at == NumbersOf(w, FetchSend)[j] && FetchIs(w, t.fetches[j], j)
  }

  // ---- one more event ----

  /** How the counts grow by one event. */
  lemma Snoc(w: seq<Event>, e: Event, mark: Mark)
    ensures var v := w + [e];
            && Numbered(v) == Numbered(w) + (if IsNumbered(v, |w|) then 1 else 0)
            && NumberOf(v, |w|) == Numbered(v)
            && HowMany(v, mark) == HowMany(w, mark) + (if Is(e, mark) then 1 else 0)
            && NumbersOf(v, mark) == NumbersOf(w, mark) + (if Is(e, mark) then [Numbered(v)] else [])
  {
    var v := w + [e];
    assert v[..|w|] == w && v[..|w| + 1] == v;
  }

  lemma AnswersSnoc(w: seq<Event>, e: Event, i: nat, j: nat)
    requires i < |w|
    ensures NumberOf(w + [e], i) == NumberOf(w, i)
    ensures AnswersAction(w + [e], i, j) == AnswersAction(w, i, j)
    ensures AnswersFetch(w + [e], i, j) == AnswersFetch(w, i, j)
  {
    var v := w + [e];
    assert v[..|w|] == w;
    NumberInFront(v, |w|, i);
    AnswersInFront(v, |w|, i, j);
  }

  /** An action whose answer is not the new event is described as before. */
  lemma ActionStays(w: seq<Event>, e: Event, a: Action, j: nat)
    requires ActionIs(w, a, j) && !AnswersAction(w + [e], |w|, j)
    ensures ActionIs(w + [e], a, j)
  {
    var v := w + [e];
    forall i | 0 <= i < |w| ensures AnswersAction(v, i, j) == AnswersAction(w, i, j) && NumberOf(v, i) == NumberOf(w, i) && v[i] == w[i] {
      AnswersSnoc(w, e, i, j);
    }
    if a.answeredAt.Some? {
      var i :| 0 <= i < |w| && AnswersAction(w, i, j) && a.answeredAt.value == NumberOf(w, i) && a.redirect == w[i].redirect;
      assert AnswersAction(v, i, j) && a.answeredAt.value == NumberOf(v, i) && a.redirect == v[i].redirect;
    }
  }

  lemma FetchStays(w: seq<Event>, e: Event, f: Fetch, j: nat)
    requires FetchIs(w, f, j) && !AnswersFetch(w + [e], |w|, j)
    ensures FetchIs(w + [e], f, j)
  {
    var v := w + [e];
    forall i | 0 <= i < |w| ensures AnswersFetch(v, i, j) == AnswersFetch(w, i, j) && NumberOf(v, i) == NumberOf(w, i) {
      AnswersSnoc(w, e, i, j);
    }
    if f.answeredAt.Some? {
      var i :| 0 <= i < |w| && AnswersFetch(w, i, j) && f.answeredAt.value == NumberOf(w, i);
      assert AnswersFetch(v, i, j) && f.answeredAt.value == NumberOf(v, i);
    }
  }

  /** The new event answers action j exactly when it says so, the action was sent, and it waits for its answer. */
  lemma NewAnswer(w: seq<Event>, e: Event, a: Action, j: nat)
    requires ActionIs(w, a, j) && j < HowMany(w, Send)
    ensures AnswersAction(w + [e], |w|, j) <==> e.ActionAnswered? && e.index == j && a.answeredAt.None?
  {
    var v := w + [e];
    assert v[..|w|] == w && v[|w|] == e;
    forall i | 0 <= i < |w| ensures AnswersSent(v, i, j) == AnswersSent(w, i, j) { assert v[..i] == w[..i]; }
    if a.answeredAt.None? {
      SomeoneFirst(w, j);
    } else {
      var i :| 0 <= i < |w| && AnswersAction(w, i, j);
      assert AnswersSent(v, i, j);
    }
  }

  /** If anything answers action j, something is the first to do so. */
  lemma {:induction false} SomeoneFirst(w: seq<Event>, j: nat)
    requires forall i :: 0 <= i < |w| ==> !AnswersAction(w, i, j)
    ensures forall i :: 0 <= i < |w| ==> !AnswersSent(w, i, j)
    decreases |w|
  {
    if w != [] {
      var m := |w| - 1;
      forall i | 0 <= i < m ensures AnswersAction(w[..m], i, j) == AnswersAction(w, i, j) { AnswersInFront(w, m, i, j); }
      SomeoneFirst(w[..m], j);
      forall i | 0 <= i < m ensures !AnswersSent(w, i, j) { assert w[..m][..i] == w[..i] && !AnswersSent(w[..m], i, j); }
      assert !AnswersAction(w, m, j);
    }
  }

  lemma NewFetchAnswer(w: seq<Event>, e: Event, f: Fetch, j: nat)
    requires FetchIs(w, f, j) && j < HowMany(w, FetchSend)
    ensures AnswersFetch(w + [e], |w|, j) <==> e.FetchAnswered? && e.index == j && f.answeredAt.None?
  {
    var v := w + [e];
    assert v[..|w|] == w && v[|w|] == e;
    forall i | 0 <= i < |w| ensures AnswersOpen(v, i, j) == AnswersOpen(w, i, j) { assert v[..i] == w[..i]; }
    if f.answeredAt.None? {
      SomeFetchFirst(w, j);
    } else {
      var i :| 0 <= i < |w| && AnswersFetch(w, i, j);
      assert AnswersOpen(v, i, j);
    }
  }

  lemma {:induction false} SomeFetchFirst(w: seq<Event>, j: nat)
    requires forall i :: 0 <= i < |w| ==> !AnswersFetch(w, i, j)
    ensures forall i :: 0 <= i < |w| ==> !AnswersOpen(w, i, j)
    decreases |w|
  {
    if w != [] {
      var m := |w| - 1;
      forall i | 0 <= i < m ensures AnswersFetch(w[..m], i, j) == AnswersFetch(w, i, j) { AnswersInFront(w, m, i, j); }
      SomeFetchFirst(w[..m], j);
      forall i | 0 <= i < m ensures !AnswersOpen(w, i, j) { assert w[..m][..i] == w[..i] && !AnswersOpen(w[..m], i, j); }
      assert !AnswersFetch(w, m, j);
    }
  }

  // ---- the recorder keeps the trace ----

  /** Nothing but its own list, and the clock, changes with a plain event. */
  lemma PlainEvent(t: Traffic, w: seq<Event>, e: Event)
    requires Holds(t, w) && (e.Navigation? || e.HistoryWrite? || e.ReactCommit? || e.PassiveFlush?)
    ensures Holds(Record(t, e), w + [e])
  {
    var v := w + [e];
    SnocAll(w, e);
    assert v[|w|] == e;
    forall j | 0 <= j < |t.actions| ensures ActionIs(v, t.actions[j], j) { ActionStays(w, e, t.actions[j], j); }
    forall j | 0 <= j < |t.fetches| ensures FetchIs(v, t.fetches[j], j) { FetchStays(w, e, t.fetches[j], j); }
  }

  lemma SnocAll(w: seq<Event>, e: Event)
    ensures var v := w + [e];
            && Numbered(v) == Numbered(w) + (if IsNumbered(v, |w|) then 1 else 0)
            && NumberOf(v, |w|) == Numbered(v)
            && forall mark ::
                 && HowMany(v, mark) == HowMany(w, mark) + (if Is(e, mark) then 1 else 0)
                 && NumbersOf(v, mark) == NumbersOf(w, mark) + (if Is(e, mark) then [Numbered(v)] else [])
  {
    forall mark ensures HowMany(w + [e], mark) == HowMany(w, mark) + (if Is(e, mark) then 1 else 0)
                ensures NumbersOf(w + [e], mark) == NumbersOf(w, mark) + (if Is(e, mark) then [Numbered(w + [e])] else [])
                ensures Numbered(w + [e]) == Numbered(w) + (if IsNumbered(w + [e], |w|) then 1 else 0)
                ensures NumberOf(w + [e], |w|) == Numbered(w + [e])
    {
      Snoc(w, e, mark);
    }
    Snoc(w, e, Send);
  }

  /** No answer has come yet to an action that has just been sent. */
  lemma NewActionIs(w: seq<Event>, e: Event, now: nat)
    requires e.ActionSent?
    ensures ActionIs(w + [e], Action(now, None, None), HowMany(w, Send))
  {
    var v := w + [e];
    forall i | 0 <= i < |v| ensures !AnswersAction(v, i, HowMany(w, Send)) {
      SentGrows(v, i, |w|);
      assert v[..|w|] == w;
    }
  }

  lemma NewFetchIs(w: seq<Event>, e: Event, now: nat)
    requires e.FetchSent?
    ensures FetchIs(w + [e], Fetch(now, None), HowMany(w, FetchSend))
  {
    var v := w + [e];
    forall i | 0 <= i < |v| ensures !AnswersFetch(v, i, HowMany(w, FetchSend)) {
      OpenGrows(v, i, |w|);
      assert v[..|w|] == w;
    }
  }

  lemma {:induction false} SentGrows(w: seq<Event>, i: nat, j: nat)
    requires i <= j <= |w|
    ensures HowMany(w[..i], Send) <= HowMany(w[..j], Send)
    decreases j
  {
    if i < j {
      SentGrows(w, i, j - 1);
      assert w[..j][..j - 1] == w[..j - 1];
    }
  }

  lemma {:induction false} OpenGrows(w: seq<Event>, i: nat, j: nat)
    requires i <= j <= |w|
    ensures HowMany(w[..i], FetchSend) <= HowMany(w[..j], FetchSend)
    decreases j
  {
    if i < j {
      OpenGrows(w, i, j - 1);
      assert w[..j][..j - 1] == w[..j - 1];
    }
  }

  lemma SendEvent(t: Traffic, w: seq<Event>, e: Event)
    requires Holds(t, w) && (e.ActionSent? || e.FetchSent?)
    ensures Holds(Record(t, e), w + [e])
  {
    var v := w + [e];
    SnocAll(w, e);
    assert v[|w|] == e;
    forall j | 0 <= j < |t.actions| ensures ActionIs(v, t.actions[j], j) { ActionStays(w, e, t.actions[j], j); }
    forall j | 0 <= j < |t.fetches| ensures FetchIs(v, t.fetches[j], j) { FetchStays(w, e, t.fetches[j], j); }
    if e.ActionSent? { NewActionIs(w, e, t.clock + 1); } else { NewFetchIs(w, e, t.clock + 1); }
  }

  /** An answer somebody waits for is numbered and noted; any other changes nothing. */
  lemma ActionAnswer(t: Traffic, w: seq<Event>, e: Event)
    requires Holds(t, w) && e.ActionAnswered?
    ensures Holds(Record(t, e), w + [e])
  {
    var v, j := w + [e], e.index;
    SnocAll(w, e);
    assert v[|w|] == e && v[..|w|] == w;
    if j < |t.actions| { NewAnswer(w, e, t.actions[j], j); }
    assert IsNumbered(v, |w|) <==> j < |t.actions| && t.actions[j].answeredAt.None?;
    forall k | 0 <= k < |t.actions| ensures ActionIs(v, Record(t, e).actions[k], k) {
      NewAnswer(w, e, t.actions[k], k);
      if !AnswersAction(v, |w|, k) { ActionStays(w, e, t.actions[k], k); }
    }
    forall k | 0 <= k < |t.fetches| ensures FetchIs(v, t.fetches[k], k) { FetchStays(w, e, t.fetches[k], k); }
  }

  lemma FetchAnswer(t: Traffic, w: seq<Event>, e: Event)
    requires Holds(t, w) && e.FetchAnswered?
    ensures Holds(Record(t, e), w + [e])
  {
    var v, j := w + [e], e.index;
    SnocAll(w, e);
    assert v[|w|] == e && v[..|w|] == w;
    if j < |t.fetches| { NewFetchAnswer(w, e, t.fetches[j], j); }
    assert IsNumbered(v, |w|) <==> j < |t.fetches| && t.fetches[j].answeredAt.None?;
    forall k | 0 <= k < |t.fetches| ensures FetchIs(v, Record(t, e).fetches[k], k) {
      NewFetchAnswer(w, e, t.fetches[k], k);
      if !AnswersFetch(v, |w|, k) { FetchStays(w, e, t.fetches[k], k); }
    }
    forall k | 0 <= k < |t.actions| ensures ActionIs(v, t.actions[k], k) { ActionStays(w, e, t.actions[k], k); }
  }

  /**
   Every list of the trace holds exactly the numbers, since the last reset, of its own kind of event, and
   every request the number of the first answer to it with that answer's redirect.
   */
  lemma {:induction false} TraceHoldsEvents(events: seq<Event>)
    ensures Holds(RecordAll(NO_TRAFFIC, events), SinceReset(events))
    decreases |events|
  {
    if events != [] {
      var n := |events| - 1;
      var t, w, e := RecordAll(NO_TRAFFIC, events[..n]), SinceReset(events[..n]), events[n];
      TraceHoldsEvents(events[..n]);
      match e
      case Reset =>
      case ActionSent => SendEvent(t, w, e);
      case FetchSent => SendEvent(t, w, e);
      case ActionAnswered(_, _) => ActionAnswer(t, w, e);
      case FetchAnswered(_) => FetchAnswer(t, w, e);
      case _ => PlainEvent(t, w, e);
    }
  }

  // ---- landing, read from the events ----

  /** Something of the kind happens after event i. */
  predicate Later(w: seq<Event>, i: nat, mark: Mark) {
    exists k :: i < k < |w| && Is(w[k], mark)
  }

  /** Event k is the first of its kind after event i. */
  predicate NextIs(w: seq<Event>, i: nat, mark: Mark, k: nat) {
    i < k < |w| && Is(w[k], mark) && forall l :: i < l < k ==> !Is(w[l], mark)
  }

  /** The event answers an action, with a redirect. */
  predicate Redirects(w: seq<Event>, i: nat, j: nat)
    requires i < |w|
  {
    AnswersAction(w, i, j) && w[i].redirect.Some? && w[i].redirect.value != ""
  }

  /** Event i is the answer judged: of the answers that redirect, the one to the action that was sent last. */
  ghost predicate IsJudged(w: seq<Event>, i: nat, j: nat) {
    i < |w| && Redirects(w, i, j) && forall k: nat, l: nat :: k < |w| && Redirects(w, k, l) ==> l <= j
  }

  /** After event i: two React commits, one after the other. */
  predicate TwoCommits(w: seq<Event>, i: nat) {
    exists k :: i < k < |w| && Is(w[k], Commit) && Later(w, k, Commit)
  }

  /** Event s sends a navigation fetch; it is answered, and a history write follows the answer. */
  ghost predicate FetchDone(w: seq<Event>, s: nat)
    requires s < |w|
  {
    exists k: nat :: k < |w| && AnswersFetch(w, k, HowMany(w[..s], FetchSend)) && Later(w, k, Write)
  }

  /**
   The redirect answered at event i has landed: a history write follows, and after the first of those a
   flush or two React commits; every navigation since the answer is followed by a history write; and
   every navigation fetch since is answered with a history write after the answer.
   */
  ghost predicate LandedFrom(w: seq<Event>, i: nat) {
    && (exists h: nat :: NextIs(w, i, Write, h) && (Later(w, h, Flush) || TwoCommits(w, h)))
    && (forall k: nat :: i < k < |w| && Is(w[k], Navigate) ==> Later(w, k, Write))
    && forall s: nat :: i < s < |w| && Is(w[s], FetchSend) ==> FetchDone(w, s)
  }

  ghost predicate LandedOn(w: seq<Event>) {
    exists i: nat, j: nat :: IsJudged(w, i, j) && LandedFrom(w, i)
  }

  lemma MarkedIsNumbered(w: seq<Event>, i: nat, mark: Mark)
    requires i < |w| && Is(w[i], mark)
    ensures IsNumbered(w, i)
  {
  }

  /** A list has a number above an event's exactly when something of its kind happens later. */
  lemma AfterIsLater(w: seq<Event>, i: nat, mark: Mark)
    requires i < |w|
    ensures After(NumbersOf(w, mark), NumberOf(w, i)) <==> Later(w, i, mark)
  {
    var list := NumbersOf(w, mark);
    if After(list, NumberOf(w, i)) {
      var p :| 0 <= p < |list| && NumberOf(w, i) < list[p];
      NumbersAre(w, mark, list[p]);
      var k :| 0 <= k < |w| && Is(w[k], mark) && NumberOf(w, k) == list[p];
      MarkedIsNumbered(w, k, mark);
      NumbersAreInOrder(w, i, k);
    }
    if Later(w, i, mark) {
      var k :| i < k < |w| && Is(w[k], mark);
      MarkedIsNumbered(w, k, mark);
      NumbersAreInOrder(w, i, k);
      NumbersAre(w, mark, NumberOf(w, k));
      var p :| 0 <= p < |list| && list[p] == NumberOf(w, k);
    }
  }

  /** The first number above an event's is that of the first event of the kind after it. */
  lemma FirstIsNext(w: seq<Event>, i: nat, mark: Mark, k: nat)
    requires i < |w| && NextIs(w, i, mark, k)
    ensures FirstAfter(NumbersOf(w, mark), NumberOf(w, i), NumberOf(w, k))
  {
    var list := NumbersOf(w, mark);
    MarkedIsNumbered(w, k, mark);
    NumbersAreInOrder(w, i, k);
    NumbersAre(w, mark, NumberOf(w, k));
    forall p | 0 <= p < |list| && NumberOf(w, i) < list[p]
      ensures NumberOf(w, k) <= list[p]
    {
      NumbersAre(w, mark, list[p]);
      var l :| 0 <= l < |w| && Is(w[l], mark) && NumberOf(w, l) == list[p];
      MarkedIsNumbered(w, l, mark);
      NumbersAreInOrder(w, i, l);
      NumbersAreInOrder(w, l, k);
    }
  }

  lemma {:induction false} NextExists(w: seq<Event>, i: nat, mark: Mark, k: nat) returns (next: nat)
    requires i < k < |w| && Is(w[k], mark)
    ensures NextIs(w, i, mark, next)
    decreases k
  {
    if l: nat :| i < l < k && Is(w[l], mark) {
      next := NextExists(w, i, mark, l);
    } else {
      next := k;
    }
  }

  lemma OnlyFirst(list: seq<nat>, at: nat, c: nat, d: nat)
    requires FirstAfter(list, at, c) && FirstAfter(list, at, d)
    ensures c == d
  {
  }

  /** The effects of a commit are done exactly when a flush, or two React commits, come after its history write. */
  lemma EffectsOnEvents(t: Traffic, w: seq<Event>, h: nat)
    requires Holds(t, w) && h < |w|
    ensures EffectsDone(t, NumberOf(w, h)) <==> Later(w, h, Flush) || TwoCommits(w, h)
  {
    AfterIsLater(w, h, Flush);
    var list := t.reactCommits;
    if p :| 0 <= p < |list| && NumberOf(w, h) < list[p] && After(list, list[p]) {
      NumbersAre(w, Commit, list[p]);
      var k :| 0 <= k < |w| && Is(w[k], Commit) && NumberOf(w, k) == list[p];
      MarkedIsNumbered(w, k, Commit);
      NumbersAreInOrder(w, h, k);
      AfterIsLater(w, k, Commit);
    }
    if TwoCommits(w, h) {
      var k :| h < k < |w| && Is(w[k], Commit) && Later(w, k, Commit);
      MarkedIsNumbered(w, k, Commit);
      NumbersAreInOrder(w, h, k);
      AfterIsLater(w, k, Commit);
      NumbersAre(w, Commit, NumberOf(w, k));
      var p :| 0 <= p < |list| && list[p] == NumberOf(w, k);
    }
  }

  lemma CommitOnEvents(t: Traffic, w: seq<Event>, i: nat)
    requires Holds(t, w) && i < |w|
    ensures (exists c :: FirstAfter(t.commits, NumberOf(w, i), c) && EffectsDone(t, c))
            <==> exists h: nat :: NextIs(w, i, Write, h) && (Later(w, h, Flush) || TwoCommits(w, h))
  {
    if c :| FirstAfter(t.commits, NumberOf(w, i), c) && EffectsDone(t, c) {
      AfterIsLater(w, i, Write);
      var k :| i < k < |w| && Is(w[k], Write);
      var h := NextExists(w, i, Write, k);
      FirstIsNext(w, i, Write, h);
      OnlyFirst(t.commits, NumberOf(w, i), c, NumberOf(w, h));
      EffectsOnEvents(t, w, h);
    }
    if h: nat :| NextIs(w, i, Write, h) && (Later(w, h, Flush) || TwoCommits(w, h)) {
      FirstIsNext(w, i, Write, h);
      EffectsOnEvents(t, w, h);
    }
  }

  lemma NavigationsOnEvents(t: Traffic, w: seq<Event>, i: nat)
    requires Holds(t, w) && i < |w|
    ensures NavigationsCommitted(t, NumberOf(w, i)) <==> forall k: nat :: i < k < |w| && Is(w[k], Navigate) ==> Later(w, k, Write)
  {
    var list := t.navigations;
    if NavigationsCommitted(t, NumberOf(w, i)) {
      forall k: nat | i < k < |w| && Is(w[k], Navigate) ensures Later(w, k, Write) {
        MarkedIsNumbered(w, k, Navigate);
        NumbersAreInOrder(w, i, k);
        NumbersAre(w, Navigate, NumberOf(w, k));
        var p :| 0 <= p < |list| && list[p] == NumberOf(w, k);
        AfterIsLater(w, k, Write);
      }
    }
    if forall k: nat :: i < k < |w| && Is(w[k], Navigate) ==> Later(w, k, Write) {
      forall p | 0 <= p < |list| && NumberOf(w, i) < list[p] ensures After(t.commits, list[p]) {
        NumbersAre(w, Navigate, list[p]);
        var k :| 0 <= k < |w| && Is(w[k], Navigate) && NumberOf(w, k) == list[p];
        MarkedIsNumbered(w, k, Navigate);
        NumbersAreInOrder(w, i, k);
        AfterIsLater(w, k, Write);
      }
    }
  }

  /** The j-th number of a kind is that of the event with j of its kind before it. */
  lemma {:induction false} NthOf(w: seq<Event>, mark: Mark, s: nat)
    requires s < |w| && Is(w[s], mark)
    ensures HowMany(w[..s], mark) < |NumbersOf(w, mark)| && NumbersOf(w, mark)[HowMany(w[..s], mark)] == NumberOf(w, s)
    decreases |w|
  {
    var m := |w| - 1;
    HowManyNumbers(w[..m], mark);
    if s < m {
      NthOf(w[..m], mark, s);
      assert w[..m][..s] == w[..s];
      NumberInFront(w, m, s);
    } else {
      assert w[..s + 1] == w;
    }
  }

  lemma {:induction false} HowManyNumbers(w: seq<Event>, mark: Mark)
    ensures |NumbersOf(w, mark)| == HowMany(w, mark)
    decreases |w|
  {
    if w != [] { HowManyNumbers(w[..|w| - 1], mark); }
  }

  lemma {:induction false} NthFrom(w: seq<Event>, mark: Mark, j: nat) returns (s: nat)
    requires j < |NumbersOf(w, mark)|
    ensures s < |w| && Is(w[s], mark) && HowMany(w[..s], mark) == j && NumberOf(w, s) == NumbersOf(w, mark)[j]
    decreases |w|
  {
    var m := |w| - 1;
    HowManyNumbers(w[..m], mark);
    if j < |NumbersOf(w[..m], mark)| {
      s := NthFrom(w[..m], mark, j);
      assert w[..m][..s] == w[..s];
      NumberInFront(w, m, s);
    } else {
      s := m;
      assert w[..s + 1] == w;
    }
  }

  /** One fetch: the trace says it has landed exactly when the events do. */
  lemma FetchOnEvents(t: Traffic, w: seq<Event>, s: nat)
    requires Holds(t, w) && s < |w| && Is(w[s], FetchSend)
    ensures HowMany(w[..s], FetchSend) < |t.fetches| && t.fetches[HowMany(w[..s], FetchSend)].at == NumberOf(w, s)
    ensures FetchLanded(t, t.fetches[HowMany(w[..s], FetchSend)]) <==> FetchDone(w, s)
  {
    var j := HowMany(w[..s], FetchSend);
    NthOf(w, FetchSend, s);
    var f := t.fetches[j];
    assert FetchIs(w, f, j);
    if f.answeredAt.Some? {
      var k: nat :| k < |w| && AnswersFetch(w, k, j) && f.answeredAt.value == NumberOf(w, k);
      AfterIsLater(w, k, Write);
      forall l: nat | l < |w| && AnswersFetch(w, l, j) ensures l == k { OneFirst(w, k, l, j); }
    }
  }

  lemma OneFirst(w: seq<Event>, k: nat, l: nat, j: nat)
    requires k < |w| && l < |w|
    ensures AnswersFetch(w, k, j) && AnswersFetch(w, l, j) ==> k == l
    ensures AnswersAction(w, k, j) && AnswersAction(w, l, j) ==> k == l
  {
  }

  lemma FetchesOnEvents(t: Traffic, w: seq<Event>, i: nat)
    requires Holds(t, w) && i < |w|
    ensures FetchesLanded(t, NumberOf(w, i)) <==> forall s: nat :: i < s < |w| && Is(w[s], FetchSend) ==> FetchDone(w, s)
  {
    if FetchesLanded(t, NumberOf(w, i)) {
      forall s: nat | i < s < |w| && Is(w[s], FetchSend) ensures FetchDone(w, s) {
        FetchOnEvents(t, w, s);
        MarkedIsNumbered(w, s, FetchSend);
        NumbersAreInOrder(w, i, s);
      }
    }
    if forall s: nat :: i < s < |w| && Is(w[s], FetchSend) ==> FetchDone(w, s) {
      forall j | 0 <= j < |t.fetches| && NumberOf(w, i) < t.fetches[j].at ensures FetchLanded(t, t.fetches[j]) {
        var s := NthFrom(w, FetchSend, j);
        MarkedIsNumbered(w, s, FetchSend);
        NumbersAreInOrder(w, i, s);
        FetchOnEvents(t, w, s);
      }
    }
  }

  lemma LandedFromEvents(t: Traffic, w: seq<Event>, i: nat)
    requires Holds(t, w) && i < |w|
    ensures LandedSince(t, NumberOf(w, i)) <==> LandedFrom(w, i)
  {
    CommitOnEvents(t, w, i);
    NavigationsOnEvents(t, w, i);
    FetchesOnEvents(t, w, i);
  }

  /** Action j was answered with a redirect exactly when some event answers it with one. */
  lemma RedirectedOnEvents(t: Traffic, w: seq<Event>, j: nat)
    requires Holds(t, w) && j < |t.actions|
    ensures Redirected(t.actions[j]) <==> exists i: nat :: i < |w| && Redirects(w, i, j)
    ensures forall i: nat :: i < |w| && Redirects(w, i, j) ==> t.actions[j].answeredAt == Some(NumberOf(w, i))
  {
    var a := t.actions[j];
    assert ActionIs(w, a, j);
    if a.answeredAt.Some? {
      var k: nat :| k < |w| && AnswersAction(w, k, j) && a.answeredAt.value == NumberOf(w, k) && a.redirect == w[k].redirect;
      forall l: nat | l < |w| && AnswersAction(w, l, j) ensures l == k { OneFirst(w, k, l, j); }
      assert Redirects(w, k, j) <==> Redirected(a);
    }
  }

  /** An answer that redirects is to an action of the trace. */
  lemma RedirectsSent(t: Traffic, w: seq<Event>, i: nat, j: nat)
    requires Holds(t, w) && i < |w| && Redirects(w, i, j)
    ensures j < |t.actions| && Redirected(t.actions[j]) && t.actions[j].answeredAt == Some(NumberOf(w, i))
  {
    SentGrows(w, i, |w|);
    assert w[..|w|] == w;
    RedirectedOnEvents(t, w, j);
  }

  lemma JudgedOnEvents(t: Traffic, w: seq<Event>, i: nat, j: nat)
    requires Holds(t, w) && i < |w| && Redirects(w, i, j)
    ensures Judged(t, j) <==> IsJudged(w, i, j)
  {
    RedirectsSent(t, w, i, j);
    if Judged(t, j) {
      forall k: nat, l: nat | k < |w| && Redirects(w, k, l) ensures l <= j { RedirectsSent(t, w, k, l); }
    }
    if IsJudged(w, i, j) {
      forall l | j < l < |t.actions| ensures !Redirected(t.actions[l]) { RedirectedOnEvents(t, w, l); }
    }
  }

  /**
   Landing, on the list of events since the last reset: the trace has landed if and only if the answer
   judged - of those that redirect, the one to the action sent last - has landed.
   */
  lemma LandsExactly(events: seq<Event>)
    ensures HasLanded(RecordAll(NO_TRAFFIC, events)) <==> LandedOn(SinceReset(events))
  {
    var t, w := RecordAll(NO_TRAFFIC, events), SinceReset(events);
    TraceHoldsEvents(events);
    if HasLanded(t) {
      var j: nat :| Judged(t, j) && LandedSince(t, t.actions[j].answeredAt.value);
      RedirectedOnEvents(t, w, j);
      var i: nat :| i < |w| && Redirects(w, i, j);
      RedirectsSent(t, w, i, j);
      JudgedOnEvents(t, w, i, j);
      LandedFromEvents(t, w, i);
    }
    if i: nat, j: nat :| IsJudged(w, i, j) && LandedFrom(w, i) {
      RedirectsSent(t, w, i, j);
      JudgedOnEvents(t, w, i, j);
      LandedFromEvents(t, w, i);
    }
  }

  /** One React commit without a flush proves nothing: after the judged answer's history write, the trace has not landed. */
  lemma OneCommitIsNotEnough(events: seq<Event>, i: nat, j: nat, h: nat)
    requires var w := SinceReset(events);
             && IsJudged(w, i, j) && NextIs(w, i, Write, h) && !Later(w, h, Flush)
             && forall k, l :: h < k < l < |w| ==> !(Is(w[k], Commit) && Is(w[l], Commit))
    ensures !HasLanded(RecordAll(NO_TRAFFIC, events))
  {
    var w := SinceReset(events);
    LandsExactly(events);
    forall k: nat, l: nat | IsJudged(w, k, l)
      ensures k == i
    {
      OneJudgement(w, i, j, k, l);
    }
  }

  lemma OneJudgement(w: seq<Event>, i: nat, j: nat, k: nat, l: nat)
    requires IsJudged(w, i, j) && IsJudged(w, k, l)
    ensures k == i && l == j
  {
    OneFirst(w, i, k, j);
  }
}
