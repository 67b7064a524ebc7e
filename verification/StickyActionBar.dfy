/**
 The unsaved-changes guard as an event-driven state machine over the form, its baseline, the last
 submission and the browser's history (apps/admin/components/sticky-action-bar.tsx).
 */
module StickyActionBar {
  import opened Options
  import opened Sequences
  import opened DirtyForm

  // ---- the browser's side ----

  /** One entry of the session history: another page, or this one, perhaps marked as our guard. */
  datatype Page = Outside | Here(guard: bool)

  /** The history and the traversals asked for but not yet delivered. */
  datatype History = History(entries: seq<Page>, index: nat, moves: seq<int>) {

    predicate Valid() {
      index < |entries|
    }

    /** pushState of the guard: forward entries are dropped. */
    function PushGuard(): History
      requires Valid()
    {
      this.(entries := entries[..index + 1] + [Here(true)], index := index + 1)
    }

    predicate OnGuard()
      requires Valid()
    {
      entries[index] == Here(true)
    }

    /** history.back(), or a person's Back or Forward: delivered later. */
    function Ask(delta: int): History {
      this.(moves := moves + [delta])
    }
  }

  /** The task a reset leaves for after the fields are restored. */
  datatype Timer = Timer(byUser: bool, sent: Option<seq<Entry>>)

  type Shot = seq<(string, string)>

  datatype Bar = Bar(
    states: seq<FieldState>,
    baseline: Shot,
    isDirty: bool,
    submitted: Option<seq<Entry>>,
    timers: seq<Timer>,
    guarded: bool,
    leaving: bool,
    unwinding: bool,
    history: History,
    heard: nat,      // popstate events the router got
    mounted: bool)

  datatype Event =
    | Edit(states: seq<FieldState>)
    | Submit
    | UserReset(states: seq<FieldState>)
    | FrameworkReset(states: seq<FieldState>)
    | TimerFires
    | UserMove(delta: int)
    | Deliver(yes: bool)
    | LinkClick(away: bool, yes: bool)
    | RouterReplace

  // ---- the handlers, as functions of the state ----

  function SetGuard(b: Bar, next: bool): (c: Bar)
    requires b.history.Valid()
    ensures c.history.Valid()
  {
    if next && !b.guarded then b.(history := b.history.PushGuard(), guarded := true)
    else if !next && b.guarded then
      if b.history.OnGuard() then b.(guarded := false, unwinding := true, history := b.history.Ask(-1))
      else b.(guarded := false)
    else b
  }

  function Update(b: Bar, next: bool): (c: Bar)
    requires b.history.Valid()
    ensures c.history.Valid()
  {
    if next == b.isDirty then b else SetGuard(b.(isDirty := next), next)
  }

  function ShotOf(form: seq<Control>, states: seq<FieldState>): Shot
    requires AllFit(form, states)
  {
    Snapshot(Read(form, states))
  }

  function Recompute(form: seq<Control>, b: Bar): (c: Bar)
    requires b.history.Valid() && AllFit(form, b.states)
    ensures c.history.Valid()
  {
    Update(b.(submitted := None), ShotOf(form, b.states) != b.baseline)
  }

  function Reset(b: Bar, byUser: bool, restored: seq<FieldState>): Bar {
    b.(timers := b.timers + [Timer(byUser, b.submitted)], submitted := None, states := restored)
  }

  function RunTimer(form: seq<Control>, b: Bar): Bar
    requires b.history.Valid() && AllFit(form, b.states) && b.timers != []
  {
    var timer := b.timers[0];
    var restored := ShotOf(form, b.states);
    var rest := b.(timers := b.timers[1..], baseline := restored);
    if !timer.byUser && timer.sent.Some? && restored != Snapshot(timer.sent.value) then
      Update(rest.(states := Apply(form, b.states, timer.sent.value)), true)
    else
      Update(rest, false)
  }

  function PopState(b: Bar, yes: bool): (c: Bar)
    requires b.history.Valid()
    ensures c.history.Valid()
  {
    if b.unwinding then b.(unwinding := false)
    else if !b.guarded || b.leaving then b.(heard := b.heard + 1, mounted := b.history.entries[b.history.index].Here?)
    else if yes then b.(guarded := false, leaving := true, history := b.history.Ask(-1))
    else SetGuard(b.(guarded := false), true)
  }

  /** A traversal arrives: outside the history it does nothing, else it fires popstate. */
  function Arrive(b: Bar, yes: bool): (c: Bar)
    requires b.history.Valid()
    ensures c.history.Valid()
  {
    var h := b.history;
    if h.moves == [] then b
    else
      var target := h.index + h.moves[0];
      if 0 <= target < |h.entries| then PopState(b.(history := h.(moves := h.moves[1..], index := target)), yes)
      else b.(history := h.(moves := h.moves[1..]))
  }

  /** A link to another page is followed unless the form is dirty and the question is not answered with yes. */
  function Click(b: Bar, away: bool, yes: bool): Bar {
    if !away then b
    else if !b.isDirty then b.(mounted := false)
    else if yes then b.(leaving := true, mounted := false)
    else b
  }

  /** Everything that can happen to a mounted bar. */
  function Step(form: seq<Control>, b: Bar, e: Event): Bar
    requires b.history.Valid() && AllFit(form, b.states) && Possible(form, e)
  {
    if !b.mounted then b
    else
      match e
      case Edit(states) => Recompute(form, b.(states := states))
      case Submit => b.(submitted := Some(Read(form, b.states)))
      case UserReset(states) => if b.isDirty then Reset(b, true, states) else b
      case FrameworkReset(states) => Reset(b, false, states)
      case TimerFires => if b.timers == [] then b else RunTimer(form, b)
      case UserMove(delta) => b.(history := b.history.Ask(delta))
      case Deliver(yes) => Arrive(b, yes)
      case LinkClick(away, yes) => Click(b, away, yes)
      case RouterReplace =>
        var h := b.history;
        if h.entries[h.index].Here? then b.(history := h.(entries := h.entries[h.index := Here(false)])) else b
  }

  /** A state the page can put the form in. */
  predicate ValidStates(form: seq<Control>, states: seq<FieldState>) {
    AllFit(form, states) && OneRadioOn(form, states)
  }

  predicate Possible(form: seq<Control>, e: Event) {
    match e
    case Edit(states) => ValidStates(form, states)
    case UserReset(states) => ValidStates(form, states)
    case FrameworkReset(states) => ValidStates(form, states)
    case UserMove(delta) => delta != 0 // history.go(0) loads the page anew
    case _ => true
  }

  /** The bar when its effect has run on a page the browser is on. */
  function Mounted(form: seq<Control>, states: seq<FieldState>, history: History): Bar
    requires AllFit(form, states)
  {
    Bar(states, ShotOf(form, states), false, None, [], false, false, false, history, 0, true)
  }

  // ---- the component ----

  /** The component's closure variables, the form they watch and the history they push to. */
  class StickyBar {
    const form: seq<Control>
    var states: seq<FieldState>
    var baseline: Shot
    var isDirty: bool
    var submitted: Option<seq<Entry>>
    var timers: seq<Timer>
    var guarded: bool
    var leaving: bool
    var unwinding: bool
    var history: History
    var heard: nat
    var mounted: bool

    function View(): Bar
      reads this
    {
      Bar(states, baseline, isDirty, submitted, timers, guarded, leaving, unwinding, history, heard, mounted)
    }

    constructor (form: seq<Control>, states: seq<FieldState>, history: History)
      requires AllFit(form, states)
      ensures this.form == form && View() == Mounted(form, states, history)
    {
      this.form := form;
      this.states := states;
      baseline := ShotOf(form, states);
      isDirty, submitted, timers := false, None, [];
      guarded, leaving, unwinding := false, false, false;
      this.history := history;
      heard, mounted := 0, true;
    }

    method SetGuardTo(next: bool)
      requires history.Valid()
      modifies this
      ensures View() == SetGuard(old(View()), next)
    {
      if next && !guarded {
        history := history.PushGuard();
        guarded := true;
      } else if !next && guarded {
        guarded := false;
        if history.OnGuard() {
          unwinding := true;
          history := history.Ask(-1);
        }
      }
    }

    method UpdateTo(next: bool)
      requires history.Valid()
      modifies this
      ensures View() == Update(old(View()), next)
    {
      if next == isDirty {
        return;
      }
      isDirty := next;
      SetGuardTo(next);
    }

    /** input and change */
    method OnInput(typed: seq<FieldState>)
      requires history.Valid() && AllFit(form, typed)
      modifies this
      ensures View() == Recompute(form, old(View()).(states := typed))
    {
      states := typed;
      submitted := None;
      UpdateTo(ShotOf(form, states) != baseline);
    }

    /** reset fires before the fields are restored; the comparison waits for a timer. */
    method OnReset(byUser: bool, restored: seq<FieldState>)
      modifies this
      ensures View() == Reset(old(View()), byUser, restored)
    {
      var sent := submitted;
      submitted := None;
      timers := timers + [Timer(byUser, sent)];
      states := restored;
    }

    method OnTimer()
      requires history.Valid() && AllFit(form, states) && timers != []
      modifies this
      ensures View() == RunTimer(form, old(View()))
    {
      var timer := timers[0];
      timers := timers[1..];
      var restored := ShotOf(form, states);
      if !timer.byUser && timer.sent.Some? && restored != Snapshot(timer.sent.value) {
        states := Apply(form, states, timer.sent.value);
        baseline := restored;
        UpdateTo(true);
        return;
      }
      baseline := restored;
      UpdateTo(false);
    }

    method OnSubmit()
      requires AllFit(form, states)
      modifies this`submitted
      ensures View() == old(View()).(submitted := Some(Read(form, states)))
    {
      submitted := Some(Read(form, states));
    }

    /** A leaving click on a dirty form: prevented unless the question is answered with yes. */
    method OnDocumentClick(away: bool, yes: bool) returns (prevented: bool)
      modifies this`leaving
      ensures prevented <==> isDirty && away && !yes
      ensures leaving == (old(leaving) || (isDirty && away && yes))
    {
      if !isDirty || !away {
        return false;
      }
      if yes {
        leaving := true;
        return false;
      }
      prevented := true;
    }

    /** onPopState, and the router's own handler when the event gets through to it. */
    method OnPopState(yes: bool)
      requires history.Valid()
      modifies this
      ensures View() == PopState(old(View()), yes)
    {
      if unwinding {
        unwinding := false;
        return;
      }
      if !guarded || leaving {
        heard := heard + 1;
        mounted := history.entries[history.index].Here?;
        return;
      }
      guarded := false;
      if yes {
        leaving := true;
        history := history.Ask(-1);
      } else {
        SetGuardTo(true);
      }
    }
  }

  // ---- runs ----

  function Run(form: seq<Control>, b: Bar, events: seq<Event>): Bar
    requires Inv(form, b) && WellFormed(form)
    requires forall i :: 0 <= i < |events| ==> Possible(form, events[i])
    ensures Inv(form, Run(form, b, events))
    decreases |events|
  {
    if events == [] then b
    else
      var n := |events| - 1;
      var before := Run(form, b, events[..n]);
      InvStep(form, before, events[n]);
      Step(form, before, events[n])
  }

  /** The entries are what the form submitted in some state of it. */
  ghost predicate IsReading(form: seq<Control>, entries: seq<Entry>) {
    exists states :: ValidStates(form, states) && entries == Read(form, states)
  }

  ghost predicate Readings(form: seq<Control>, b: Bar) {
    && (b.submitted.Some? ==> IsReading(form, b.submitted.value))
    && (forall i :: 0 <= i < |b.timers| && b.timers[i].sent.Some? ==> IsReading(form, b.timers[i].sent.value))
  }

  /** Dirty means: what the form would submit differs from the baseline. */
  ghost predicate DirtyMeansDifferent(form: seq<Control>, b: Bar)
    requires AllFit(form, b.states)
  {
    b.isDirty <==> ShotOf(form, b.states) != b.baseline
  }

  /** A form that differs is dirty; without files a dirty form differs. */
  ghost predicate DirtyEnough(form: seq<Control>, states: seq<FieldState>, baseline: Shot, isDirty: bool)
    requires AllFit(form, states)
  {
    && (ShotOf(form, states) != baseline ==> isDirty)
    && (NoFiles(form) && isDirty ==> ShotOf(form, states) != baseline)
  }

  /** What every run keeps. */
  ghost predicate Inv(form: seq<Control>, b: Bar) {
    && b.history.Valid()
    && ValidStates(form, b.states)
    && Readings(form, b)
    && (b.timers == [] ==> DirtyEnough(form, b.states, b.baseline, b.isDirty))
    && (b.mounted && !b.leaving ==> b.guarded == b.isDirty)
  }

  lemma InvMounted(form: seq<Control>, states: seq<FieldState>, history: History)
    requires ValidStates(form, states) && history.Valid()
    ensures Inv(form, Mounted(form, states, history))
  {
  }

  lemma SetGuardFrame(b: Bar, next: bool)
    requires b.history.Valid()
    ensures var c := SetGuard(b, next);
            c.guarded == next && c == b.(history := c.history, guarded := next, unwinding := c.unwinding)
  {
  }

  lemma UpdateKeeps(form: seq<Control>, b: Bar, next: bool)
    requires b.history.Valid() && ValidStates(form, b.states) && Readings(form, b)
    requires b.mounted && !b.leaving ==> b.guarded == b.isDirty
    requires DirtyEnough(form, b.states, b.baseline, next)
    ensures Inv(form, Update(b, next)) && Update(b, next).isDirty == next
  {
    if next != b.isDirty {
      var changed := b.(isDirty := next);
      SetGuardFrame(changed, next);
      StillReadings(form, b, SetGuard(changed, next));
    }
  }

  lemma StillReadings(form: seq<Control>, b: Bar, c: Bar)
    requires Readings(form, b) && c.submitted == b.submitted && c.timers == b.timers
    ensures Readings(form, c)
  {
  }

  /** Without files the timer's write-back submits what was sent, so the form it leaves dirty does differ. */
  lemma TimerKeeps(form: seq<Control>, b: Bar)
    requires WellFormed(form)
    requires Inv(form, b) && b.timers != []
    ensures Inv(form, RunTimer(form, b))
  {
    var timer := b.timers[0];
    var restored := ShotOf(form, b.states);
    var rest := b.(timers := b.timers[1..], baseline := restored);
    if !timer.byUser && timer.sent.Some? && restored != Snapshot(timer.sent.value) {
      var first :| ValidStates(form, first) && timer.sent.value == Read(form, first);
      WriteBackInvertsRead(form, first, b.states);
      MixIsValid(form, first, b.states);
      if NoFiles(form) { WriteBackSubmitsTheSame(form, first, b.states); }
      UpdateKeeps(form, rest.(states := Apply(form, b.states, timer.sent.value)), true);
    } else {
      UpdateKeeps(form, rest, false);
    }
  }

  lemma MixIsValid(form: seq<Control>, first: seq<FieldState>, second: seq<FieldState>)
    requires WellFormed(form) && ValidStates(form, first) && ValidStates(form, second)
    ensures ValidStates(form, Mix(form, first, second))
  {
  }

  predicate CanReach(b: Bar) {
    b.history.moves != [] && 0 <= b.history.index + b.history.moves[0] < |b.history.entries|
  }

  /** The bar when a traversal has reached its entry, before any handler runs. */
  function Reached(b: Bar): Bar
    requires CanReach(b)
  {
    b.(history := b.history.(moves := b.history.moves[1..], index := b.history.index + b.history.moves[0]))
  }

  lemma CleanupKeeps(form: seq<Control>, b: Bar, yes: bool)
    requires Inv(form, b) && b.mounted && CanReach(b) && b.unwinding
    ensures Inv(form, PopState(Reached(b), yes))
  {
  }

  lemma HeardKeeps(form: seq<Control>, b: Bar, yes: bool)
    requires Inv(form, b) && b.mounted && CanReach(b) && !b.unwinding && (!b.guarded || b.leaving)
    ensures Inv(form, PopState(Reached(b), yes))
  {
  }

  lemma AskedKeeps(form: seq<Control>, b: Bar, yes: bool)
    requires Inv(form, b) && b.mounted && CanReach(b) && !b.unwinding && b.guarded && !b.leaving
    ensures Inv(form, PopState(Reached(b), yes))
  {
    if !yes { SetGuardFrame(Reached(b).(guarded := false), true); }
  }

  lemma ArriveKeeps(form: seq<Control>, b: Bar, yes: bool)
    requires Inv(form, b) && b.mounted
    ensures Inv(form, Arrive(b, yes))
  {
    if CanReach(b) {
      assert Arrive(b, yes) == PopState(Reached(b), yes);
      if b.unwinding { CleanupKeeps(form, b, yes); }
      else if !b.guarded || b.leaving { HeardKeeps(form, b, yes); }
      else { AskedKeeps(form, b, yes); }
    }
  }

  lemma EditKeeps(form: seq<Control>, b: Bar, states: seq<FieldState>)
    requires Inv(form, b) && ValidStates(form, states)
    ensures Inv(form, Recompute(form, b.(states := states)))
  {
    UpdateKeeps(form, b.(states := states, submitted := None), ShotOf(form, states) != b.baseline);
  }

  lemma ResetKeeps(form: seq<Control>, b: Bar, byUser: bool, restored: seq<FieldState>)
    requires Inv(form, b) && ValidStates(form, restored)
    ensures Inv(form, Reset(b, byUser, restored))
  {
  }

  lemma SubmitKeeps(form: seq<Control>, b: Bar)
    requires Inv(form, b)
    ensures Inv(form, b.(submitted := Some(Read(form, b.states))))
  {
    assert IsReading(form, Read(form, b.states));
  }

  /** Moves asked for, clicks and the router's own history writes touch neither the form nor the guard. */
  lemma OutsideKeeps(form: seq<Control>, b: Bar, e: Event)
    requires Inv(form, b) && Possible(form, e) && b.mounted
    requires e.UserMove? || e.LinkClick? || e.RouterReplace?
    ensures Inv(form, Step(form, b, e))
  {
  }

  lemma InvStep(form: seq<Control>, b: Bar, e: Event)
    requires WellFormed(form)
    requires Inv(form, b) && Possible(form, e)
    ensures Inv(form, Step(form, b, e))
  {
    if b.mounted {
      match e
      case Edit(states) => EditKeeps(form, b, states);
      case Submit => SubmitKeeps(form, b);
      case UserReset(states) => ResetKeeps(form, b, true, states);
      case FrameworkReset(states) => ResetKeeps(form, b, false, states);
      case TimerFires => if b.timers != [] { TimerKeeps(form, b); }
      case Deliver(yes) => ArriveKeeps(form, b, yes);
      case _ => OutsideKeeps(form, b, e);
    }
  }

  // ---- what holds in every run ----

  ghost predicate AllPossible(form: seq<Control>, events: seq<Event>) {
    forall i :: 0 <= i < |events| ==> Possible(form, events[i])
  }

  /**
   In every run: once no reset is waiting to be judged, a form that differs from the baseline is
   dirty, and without files a dirty form differs; and until somebody answers a leave question with
   yes, the guard stands exactly while the form is dirty, whatever moves are made.
   */
  lemma EveryRun(form: seq<Control>, states: seq<FieldState>, history: History, events: seq<Event>)
    requires WellFormed(form) && ValidStates(form, states) && history.Valid()
    requires AllPossible(form, events)
    ensures Inv(form, Mounted(form, states, history))
    ensures var b := Run(form, Mounted(form, states, history), events);
            && (b.timers == [] && ShotOf(form, b.states) != b.baseline ==> b.isDirty)
            && (b.timers == [] && NoFiles(form) ==> DirtyMeansDifferent(form, b))
            && (b.mounted && !b.leaving ==> b.guarded == b.isDirty)
  {
    InvMounted(form, states, history);
  }

  /** A move that arrives while the form is dirty is not heard by the router, whatever cleanup is queued. */
  lemma DirtyMoveIsStopped(form: seq<Control>, b: Bar, yes: bool)
    requires Inv(form, b) && b.mounted && b.isDirty && !b.leaving
    ensures var c := Step(form, b, Deliver(yes)); c.heard == b.heard && c.mounted
  {
  }

  predicate SaysYes(e: Event) {
    (e.Deliver? && e.yes) || (e.LinkClick? && e.yes)
  }

  lemma ArriveLeaving(b: Bar, yes: bool)
    requires b.history.Valid()
    ensures b.leaving ==> Arrive(b, yes).leaving
    ensures Arrive(b, yes).leaving ==> b.leaving || yes
  {
  }

  lemma TimerLeaving(form: seq<Control>, b: Bar)
    requires Inv(form, b) && b.timers != []
    ensures RunTimer(form, b).leaving == b.leaving
  {
  }

  /** The flag that lets moves and clicks through is only set by a yes. */
  lemma LeavingStep(form: seq<Control>, b: Bar, e: Event)
    requires Inv(form, b) && Possible(form, e)
    ensures Step(form, b, e).leaving ==> b.leaving || SaysYes(e)
  {
    match e
    case Deliver(yes) => ArriveLeaving(b, yes);
    case TimerFires => if b.timers != [] { TimerLeaving(form, b); }
    case _ =>
  }

  lemma {:induction false} LeavingTakesYes(form: seq<Control>, b: Bar, events: seq<Event>)
    requires Inv(form, b) && WellFormed(form) && AllPossible(form, events)
    requires !b.leaving
    requires forall i :: 0 <= i < |events| ==> !SaysYes(events[i])
    ensures !Run(form, b, events).leaving
    decreases |events|
  {
    if events != [] {
      var n := |events| - 1;
      LeavingTakesYes(form, b, events[..n]);
      LeavingStep(form, Run(form, b, events[..n]), events[n]);
    }
  }

  /**
   In every run in which nobody has said yes so far: a move delivered while the form is dirty is not
   heard by the router and leaves the bar where it is.
   */
  lemma NoDirtyMoveIsHeard(form: seq<Control>, b: Bar, events: seq<Event>, yes: bool)
    requires Inv(form, b) && WellFormed(form) && AllPossible(form, events)
    requires !b.leaving
    requires forall i :: 0 <= i < |events| ==> !SaysYes(events[i])
    requires Run(form, b, events).isDirty
    ensures var before := Run(form, b, events); var after := Step(form, before, Deliver(yes));
            after.heard == before.heard && after.mounted == before.mounted
  {
    LeavingTakesYes(form, b, events);
    if Run(form, b, events).mounted { DirtyMoveIsStopped(form, Run(form, b, events), yes); }
  }

  /** Without a yes, an event takes the page away only from a clean form. */
  lemma DirtyPageStays(form: seq<Control>, b: Bar, e: Event)
    requires Inv(form, b) && Possible(form, e) && b.mounted && !b.leaving && !SaysYes(e)
    ensures b.isDirty ==> Step(form, b, e).mounted
  {
  }

  /** A run in which nobody says yes leaves the page, if it does, at a moment when the form is clean. */
  lemma {:induction false} LeavesOnlyClean(form: seq<Control>, b: Bar, events: seq<Event>) returns (k: nat)
    requires Inv(form, b) && WellFormed(form) && AllPossible(form, events)
    requires b.mounted && !b.leaving
    requires forall i :: 0 <= i < |events| ==> !SaysYes(events[i])
    requires !Run(form, b, events).mounted
    ensures k < |events|
    ensures Run(form, b, events[..k]).mounted && !Run(form, b, events[..k]).isDirty
    ensures !Step(form, Run(form, b, events[..k]), events[k]).mounted
    decreases |events|
  {
    var n := |events| - 1;
    var before := Run(form, b, events[..n]);
    if before.mounted {
      k := n;
      LeavingTakesYes(form, b, events[..n]);
      DirtyPageStays(form, before, events[n]);
    } else {
      k := LeavesOnlyClean(form, b, events[..n]);
      assert events[..n][..k] == events[..k];
    }
  }

  // ---- where a stopped move lands ----

  ghost predicate HereFrom(h: History, k: int) {
    0 <= k && forall i :: k <= i < |h.entries| ==> h.entries[i].Here?
  }

  predicate SingleMoves(h: History) {
    forall i :: 0 <= i < |h.moves| ==> h.moves[i] == -1 || h.moves[i] == 1
  }

  /** Every entry a single Back or Forward can land on while the guard stands is this page's. */
  ghost predicate GuardHolds(b: Bar) {
    var h := b.history;
    && h.Valid() && h.entries[h.index].Here?
    && (b.guarded || b.unwinding ==> HereFrom(h, h.index - 1))
    && (b.guarded && b.unwinding ==> HereFrom(h, h.index - 2))
  }

  /** What runs of single steps back and forward keep besides. */
  ghost predicate OnPage(b: Bar) {
    SingleMoves(b.history) && (b.mounted && !b.leaving ==> GuardHolds(b))
  }

  predicate SingleStep(e: Event) {
    e.UserMove? ==> e.delta == -1 || e.delta == 1
  }

  lemma SetGuardOnPage(b: Bar, next: bool)
    requires b.history.Valid() && OnPage(b)
    ensures OnPage(SetGuard(b, next))
  {
  }

  lemma FormOnPage(form: seq<Control>, b: Bar, e: Event)
    requires Inv(form, b) && Possible(form, e) && OnPage(b) && b.mounted
    requires e.Edit? || e.TimerFires?
    ensures OnPage(Step(form, b, e))
  {
    match e
    case Edit(states) =>
      SetGuardOnPage(b.(states := states, submitted := None, isDirty := ShotOf(form, states) != b.baseline), ShotOf(form, states) != b.baseline);
    case TimerFires =>
      if b.timers != [] {
        var timer := b.timers[0];
        var restored := ShotOf(form, b.states);
        var rest := b.(timers := b.timers[1..], baseline := restored);
        if !timer.byUser && timer.sent.Some? && restored != Snapshot(timer.sent.value) {
          SetGuardOnPage(rest.(states := Apply(form, b.states, timer.sent.value), isDirty := true), true);
        } else {
          SetGuardOnPage(rest.(isDirty := false), false);
        }
      }
  }

  lemma DeliveredOnPage(form: seq<Control>, b: Bar, yes: bool)
    requires Inv(form, b) && OnPage(b) && b.mounted
    ensures OnPage(Arrive(b, yes))
  {
    if CanReach(b) && !b.unwinding && b.guarded && !b.leaving && !yes {
      GuardAgainOnPage(Reached(b));
    }
  }

  lemma GuardAgainOnPage(b: Bar)
    requires b.history.Valid() && SingleMoves(b.history) && b.history.entries[b.history.index].Here? && !b.unwinding
    ensures OnPage(SetGuard(b.(guarded := false), true))
  {
  }

  lemma OnPageStep(form: seq<Control>, b: Bar, e: Event)
    requires Inv(form, b) && Possible(form, e) && OnPage(b) && SingleStep(e)
    ensures OnPage(Step(form, b, e))
  {
    if b.mounted {
      match e
      case Edit(_) => FormOnPage(form, b, e);
      case TimerFires => FormOnPage(form, b, e);
      case Deliver(yes) => DeliveredOnPage(form, b, yes);
      case _ =>
    }
  }

  lemma {:induction false} OnPageRun(form: seq<Control>, b: Bar, events: seq<Event>)
    requires Inv(form, b) && WellFormed(form) && AllPossible(form, events) && OnPage(b)
    requires forall i :: 0 <= i < |events| ==> SingleStep(events[i])
    ensures OnPage(Run(form, b, events))
    decreases |events|
  {
    if events != [] {
      var n := |events| - 1;
      OnPageRun(form, b, events[..n]);
      OnPageStep(form, Run(form, b, events[..n]), events[n]);
    }
  }

  /**
   While single steps are all that is made, a move that arrives while the form is dirty lands on this
   page. From the moment the bar is mounted on one of its own entries, with nothing pending.
   */
  lemma DirtyMoveLandsHere(form: seq<Control>, states: seq<FieldState>, history: History, events: seq<Event>)
    requires WellFormed(form) && ValidStates(form, states) && AllPossible(form, events)
    requires history.Valid() && history.moves == [] && history.entries[history.index].Here?
    requires forall i :: 0 <= i < |events| ==> SingleStep(events[i])
    ensures Inv(form, Mounted(form, states, history))
    ensures var b := Run(form, Mounted(form, states, history), events);
            b.mounted && b.isDirty && !b.leaving && CanReach(b) ==> b.history.entries[b.history.index + b.history.moves[0]].Here?
  {
    InvMounted(form, states, history);
    OnPageRun(form, Mounted(form, states, history), events);
  }

  // ---- saves ----

  /** Events that neither edit the form nor judge a save. */
  predicate Idle(e: Event) {
    e.UserMove? || e.Deliver? || e.LinkClick? || e.RouterReplace?
  }

  /** What a submission sent is kept until the form is edited, submitted again or reset. */
  ghost predicate SameForm(b: Bar, c: Bar) {
    && c.submitted == b.submitted && c.states == b.states && c.timers == b.timers
    && c.isDirty == b.isDirty && c.baseline == b.baseline
  }

  lemma IdleStep(form: seq<Control>, b: Bar, e: Event)
    requires Inv(form, b) && Possible(form, e) && Idle(e)
    ensures SameForm(b, Step(form, b, e))
  {
  }

  lemma {:induction false} SubmissionIsKept(form: seq<Control>, b: Bar, events: seq<Event>)
    requires Inv(form, b) && WellFormed(form) && AllPossible(form, events)
    requires forall i :: 0 <= i < |events| ==> Idle(events[i])
    ensures SameForm(b, Run(form, b, events))
    decreases |events|
  {
    if events != [] {
      var n := |events| - 1;
      SubmissionIsKept(form, b, events[..n]);
      IdleStep(form, Run(form, b, events[..n]), events[n]);
    }
  }

  function AfterSubmit(form: seq<Control>, b: Bar): (c: Bar)
    requires Inv(form, b) && WellFormed(form)
    ensures Inv(form, c)
  {
    InvStep(form, b, Submit);
    Step(form, b, Submit)
  }

  /** The bar after a submission, then idle events, then React's reset to the given fields and its timer. */
  function AfterSave(form: seq<Control>, b: Bar, idle: seq<Event>, restored: seq<FieldState>): (c: Bar)
    requires Inv(form, b) && WellFormed(form) && AllPossible(form, idle)
    requires ValidStates(form, restored)
    ensures Inv(form, c)
  {
    var sent := Run(form, AfterSubmit(form, b), idle);
    InvStep(form, sent, FrameworkReset(restored));
    var reset := Step(form, sent, FrameworkReset(restored));
    InvStep(form, reset, TimerFires);
    Step(form, reset, TimerFires)
  }

  /** The verdict on what was sent, once the fields have been restored and the timer has run. */
  ghost predicate JudgedAs(form: seq<Control>, sent: seq<FieldState>, restored: seq<FieldState>, after: Bar)
    requires AllFit(form, sent) && AllFit(form, restored)
  {
    && after.baseline == ShotOf(form, restored)
    && (after.isDirty <==> ShotOf(form, restored) != ShotOf(form, sent))
    && (after.isDirty ==> after.states == Mix(form, sent, restored)
                          && AllFit(form, after.states)
                          && (NoFiles(form) ==> ShotOf(form, after.states) == ShotOf(form, sent)))
    && (!after.isDirty ==> after.states == restored)
  }

  /**
   A save judged by React's reset. It landed exactly when the restored fields would submit what was
   sent: then the form is clean. Otherwise what was submitted, files aside, is back in the fields and
   the form is dirty. Either way the baseline is what the server kept.
   */
  lemma SaveIsJudged(form: seq<Control>, b: Bar, idle: seq<Event>, restored: seq<FieldState>)
    requires Inv(form, b) && WellFormed(form) && AllPossible(form, idle)
    requires ValidStates(form, restored) && b.mounted && b.timers == []
    requires forall i :: 0 <= i < |idle| ==> Idle(idle[i])
    requires Run(form, AfterSubmit(form, b), idle).mounted
    ensures JudgedAs(form, b.states, restored, AfterSave(form, b, idle, restored))
  {
    SubmissionIsKept(form, AfterSubmit(form, b), idle);
    ResetIsJudged(form, b.states, Run(form, AfterSubmit(form, b), idle), restored);
  }

  /** The framework's reset and its timer, on a bar that remembers what the given states submitted. */
  lemma ResetIsJudged(form: seq<Control>, sent: seq<FieldState>, b: Bar, restored: seq<FieldState>)
    requires WellFormed(form) && ValidStates(form, sent) && ValidStates(form, restored)
    requires b.mounted && b.timers == [] && b.history.Valid() && ValidStates(form, b.states)
    requires b.submitted == Some(Read(form, sent))
    ensures Step(form, b, FrameworkReset(restored)) == Reset(b, false, restored)
    ensures JudgedAs(form, sent, restored, Step(form, Reset(b, false, restored), TimerFires))
  {
    var reset := Reset(b, false, restored);
    assert Step(form, b, FrameworkReset(restored)) == reset;
    assert Step(form, reset, TimerFires) == RunTimer(form, reset);
    TimerJudges(form, sent, reset);
  }

  lemma UpdateTouchesNoField(b: Bar, next: bool)
    requires b.history.Valid()
    ensures var c := Update(b, next);
            && c.isDirty == next && c.states == b.states && c.baseline == b.baseline
            && c.timers == b.timers && c.mounted == b.mounted
  {
  }

  /** The timer of a framework reset compares what is restored with what was sent. */
  lemma TimerJudges(form: seq<Control>, sent: seq<FieldState>, b: Bar)
    requires WellFormed(form) && ValidStates(form, sent)
    requires b.history.Valid() && ValidStates(form, b.states)
    requires b.timers == [Timer(false, Some(Read(form, sent)))]
    ensures JudgedAs(form, sent, b.states, RunTimer(form, b))
  {
    var restored := ShotOf(form, b.states);
    var rest := b.(timers := b.timers[1..], baseline := restored);
    if restored == ShotOf(form, sent) {
      UpdateTouchesNoField(rest, false);
    } else {
      WriteBackInvertsRead(form, sent, b.states);
      MixIsValid(form, sent, b.states);
      if NoFiles(form) { WriteBackSubmitsTheSame(form, sent, b.states); }
      UpdateTouchesNoField(rest.(states := Apply(form, b.states, Read(form, sent))), true);
    }
  }

  /**
   Exactly when dirty still means different once a save has been judged. After a save that landed it
   does; after one that was lost, if and only if some control that can be written back differs between
   what was sent and what was restored.
   */
  lemma DirtyAfterLostSave(form: seq<Control>, b: Bar, idle: seq<Event>, restored: seq<FieldState>)
    requires Inv(form, b) && WellFormed(form) && AllPossible(form, idle)
    requires ValidStates(form, restored) && b.mounted && b.timers == []
    requires forall i :: 0 <= i < |idle| ==> Idle(idle[i])
    requires Run(form, AfterSubmit(form, b), idle).mounted
    ensures var after := AfterSave(form, b, idle, restored);
            DirtyMeansDifferent(form, after)
            <==> (ShotOf(form, restored) == ShotOf(form, b.states) || FieldsDiffer(form, b.states, restored))
  {
    SaveIsJudged(form, b, idle, restored);
    MixIsValid(form, b.states, restored);
    WrittenBackDiffers(form, b.states, restored);
  }

  /** What is written back over restored fields shows exactly where the two differed in a control that can be written. */
  lemma WrittenBackDiffers(form: seq<Control>, sent: seq<FieldState>, restored: seq<FieldState>)
    requires WellFormed(form) && AllFit(form, sent) && AllFit(form, restored) && AllFit(form, Mix(form, sent, restored))
    ensures ShotOf(form, Mix(form, sent, restored)) != ShotOf(form, restored) <==> FieldsDiffer(form, sent, restored)
  {
    var mixed := Mix(form, sent, restored);
    SnapshotTellsExactly(form, mixed, restored);
    assert forall i :: 0 <= i < |form| && Writable(form[i]) ==> mixed[i] == sent[i];
  }

  const ONE_FILE := [Control("f", FileBox)]

  function Chose(files: seq<File>): seq<FieldState> {
    [Attached(files)]
  }

  lemma OneFileReads(files: seq<File>, e: Entry)
    requires |files| <= 1 && e == Entry("f", FileValue(if files == [] then File("", 0) else files[0]))
    ensures Read(ONE_FILE, Chose(files)) == [e]
  {
    assert ONE_FILE[..0] == [] && Chose(files)[..0] == [];
    assert Read(ONE_FILE[..0], Chose(files)[..0]) == [];
    assert TextEntries("f", []) == [];
    assert FilesOf(ONE_FILE[0], Chose(files)[0]) == [e];
  }

  lemma FileShot(files: seq<File>, text: string)
    requires (files == [] && text == "") || (|files| == 1 && text == FileText(files[0]))
    ensures ShotOf(ONE_FILE, Chose(files)) == [("f", text)]
  {
    var e := Entry("f", FileValue(if files == [] then File("", 0) else files[0]));
    OneFileReads(files, e);
    FlatMapSnoc([], e, Shown);
    assert Shown(e) == [("f", text)];
  }

  lemma RunSnoc(form: seq<Control>, b: Bar, events: seq<Event>, e: Event)
    requires Inv(form, b) && WellFormed(form) && AllPossible(form, events) && Possible(form, e)
    ensures Run(form, b, events + [e]) == Step(form, Run(form, b, events), e)
  {
    assert (events + [e])[..|events|] == events;
  }

  /** The four events of a save as a run. */
  lemma SaveIsRun(form: seq<Control>, b: Bar, e: Event, restored: seq<FieldState>)
    requires Inv(form, b) && WellFormed(form) && Possible(form, e) && ValidStates(form, restored)
    ensures Inv(form, Step(form, b, e))
    ensures Run(form, b, [e] + [Submit] + [FrameworkReset(restored)] + [TimerFires])
            == AfterSave(form, Step(form, b, e), [], restored)
  {
    InvStep(form, b, e);
    RunSnoc(form, b, [], e);
    assert [] + [e] == [e];
    RunSnoc(form, b, [e], Submit);
    RunSnoc(form, b, [e] + [Submit], FrameworkReset(restored));
    RunSnoc(form, b, [e] + [Submit] + [FrameworkReset(restored)], TimerFires);
  }

  lemma FilesDoNotDiffer(a: seq<File>, b: seq<File>)
    ensures !FieldsDiffer(ONE_FILE, Chose(a), Chose(b))
  {
  }

  /** The save of a chosen file, lost. */
  lemma FileIsLost(b: Bar, file: File)
    requires WellFormed(ONE_FILE) && ValidStates(ONE_FILE, Chose([])) && file.size > 0
    requires Inv(ONE_FILE, b) && b.mounted && b.timers == [] && b.states == Chose([file])
    ensures var after := AfterSave(ONE_FILE, b, [], Chose([]));
            after.mounted && after.timers == [] && after.isDirty && !DirtyMeansDifferent(ONE_FILE, after)
  {
    FileShot([], "");
    FileShot([file], FileText(file));
    assert FileText(file)[0] == 'f';
    FilesDoNotDiffer([file], []);
    SaveIsJudged(ONE_FILE, b, [], Chose([]));
    DirtyAfterLostSave(ONE_FILE, b, [], Chose([]));
    SaveEmptiesTimers(ONE_FILE, b, Chose([]));
  }

  /**
   A file chosen on a fresh page, submitted, and lost: the bar is dirty although the form would submit
   exactly what the server kept.
   */
  lemma LostFileStaysDirty(history: History, file: File)
    requires history.Valid() && file.size > 0
    ensures Inv(ONE_FILE, Mounted(ONE_FILE, Chose([]), history))
    ensures var b := Run(ONE_FILE, Mounted(ONE_FILE, Chose([]), history),
                         [Edit(Chose([file]))] + [Submit] + [FrameworkReset(Chose([]))] + [TimerFires]);
            b.mounted && b.timers == [] && b.isDirty && ShotOf(ONE_FILE, b.states) == b.baseline
  {
    InvMounted(ONE_FILE, Chose([]), history);
    var b := Mounted(ONE_FILE, Chose([]), history);
    SaveIsRun(ONE_FILE, b, Edit(Chose([file])), Chose([]));
    EditTouches(ONE_FILE, b, Chose([file]));
    FileIsLost(Step(ONE_FILE, b, Edit(Chose([file]))), file);
  }

  lemma EditTouches(form: seq<Control>, b: Bar, states: seq<FieldState>)
    requires Inv(form, b) && ValidStates(form, states) && b.mounted
    ensures var c := Step(form, b, Edit(states));
            c.states == states && c.timers == b.timers && c.mounted && c.submitted == None
  {
  }

  lemma TimerIsTaken(form: seq<Control>, b: Bar)
    requires b.history.Valid() && AllFit(form, b.states) && b.timers != []
    ensures RunTimer(form, b).timers == b.timers[1..] && RunTimer(form, b).mounted == b.mounted
  {
    var rest := b.(timers := b.timers[1..], baseline := ShotOf(form, b.states));
    var sent := b.timers[0].sent;
    UpdateTouchesNoField(rest, false);
    if sent.Some? { UpdateTouchesNoField(rest.(states := Apply(form, b.states, sent.value)), true); }
  }

  lemma SaveEmptiesTimers(form: seq<Control>, b: Bar, restored: seq<FieldState>)
    requires Inv(form, b) && WellFormed(form) && ValidStates(form, restored) && b.mounted && b.timers == []
    ensures AfterSave(form, b, [], restored).timers == [] && AfterSave(form, b, [], restored).mounted
  {
    var sent := AfterSubmit(form, b);
    var reset := Reset(sent, false, restored);
    assert sent.mounted && sent.timers == [];
    assert Step(form, sent, FrameworkReset(restored)) == reset && |reset.timers| == 1;
    TimerIsTaken(form, reset);
    assert Step(form, reset, TimerFires) == RunTimer(form, reset);
  }

  // ---- the guard's own cleanup ----

  /** Where the given moves lead in a history of the given length: a move out of it does nothing. */
  function Walk(index: nat, length: nat, moves: seq<int>): (at: nat)
    requires index < length
    ensures at < length
    decreases |moves|
  {
    if moves == [] then index
    else
      var target := Walk(index, length, moves[..|moves| - 1]) + moves[|moves| - 1];
      if 0 <= target < length then target else Walk(index, length, moves[..|moves| - 1])
  }

  /** Some of the moves lands inside the history. */
  predicate Lands(index: nat, length: nat, moves: seq<int>)
    requires index < length
    decreases |moves|
  {
    moves != []
    && (Lands(index, length, moves[..|moves| - 1])
        || 0 <= Walk(index, length, moves[..|moves| - 1]) + moves[|moves| - 1] < length)
  }

  lemma WalkSnoc(index: nat, length: nat, moves: seq<int>, n: nat)
    requires index < length && n < |moves|
    ensures var before := Walk(index, length, moves[..n]); var target := before + moves[n];
            && Walk(index, length, moves[..n + 1]) == (if 0 <= target < length then target else before)
            && (Lands(index, length, moves[..n + 1]) <==> Lands(index, length, moves[..n]) || 0 <= target < length)
  {
    assert moves[..n + 1][..n] == moves[..n];
  }

  /** The browser delivers the first n traversals, in order. */
  function Delivered(b: Bar, n: nat, yes: bool): (c: Bar)
    requires b.history.Valid()
    ensures c.history.Valid()
    decreases n
  {
    if n == 0 then b else Arrive(Delivered(b, n - 1, yes), yes)
  }

  /** The next traversal reaches the router. */
  predicate Heard(b: Bar, yes: bool)
    requires b.history.Valid()
  {
    Arrive(b, yes).heard != b.heard
  }

  /** The next traversal is answered with a leave question. */
  predicate Asks(b: Bar) {
    CanReach(b) && !b.unwinding && b.guarded && !b.leaving
  }

  /** The bar drops its guard while the guard's entry is on top: it has become clean. */
  predicate DropsGuard(b: Bar) {
    b.history.Valid() && b.isDirty && b.guarded && b.history.OnGuard()
  }

  /** The bar after the first n of the moves that were pending when the guard was dropped. */
  ghost predicate Underway(h: History, n: nat, leaving: bool, c: Bar)
    requires h.Valid() && n <= |h.moves|
  {
    && c.history == History(h.entries, Walk(h.index, |h.entries|, h.moves[..n]), (h.moves + [-1])[n..])
    && (c.unwinding <==> !Lands(h.index, |h.entries|, h.moves[..n]))
    && !c.guarded && !c.isDirty && c.leaving == leaving
  }

  lemma UnderwayStep(h: History, n: nat, leaving: bool, c: Bar, yes: bool)
    requires h.Valid() && n < |h.moves| && Underway(h, n, leaving, c)
    ensures Underway(h, n + 1, leaving, Arrive(c, yes))
  {
    WalkSnoc(h.index, |h.entries|, h.moves, n);
    OneDelivered(c, yes);
    assert (h.moves + [-1])[n..][1..] == (h.moves + [-1])[n + 1..];
    assert c.history.moves[0] == h.moves[n];
  }

  lemma {:induction false} WhileDelivered(b: Bar, n: nat, yes: bool)
    requires DropsGuard(b) && n <= |b.history.moves|
    ensures Underway(b.history, n, b.leaving, Delivered(Update(b, false), n, yes))
    decreases n
  {
    if n == 0 {
      assert (b.history.moves + [-1])[0..] == b.history.moves + [-1];
    } else {
      WhileDelivered(b, n - 1, yes);
      UnderwayStep(b.history, n - 1, b.leaving, Delivered(Update(b, false), n - 1, yes), yes);
    }
  }

  lemma OneDelivered(b: Bar, yes: bool)
    requires b.history.Valid() && b.history.moves != [] && !b.guarded
    ensures var c := Arrive(b, yes); var h := b.history; var target := h.index + h.moves[0];
            && c.history == History(h.entries, if 0 <= target < |h.entries| then target else h.index, h.moves[1..])
            && (c.unwinding <==> b.unwinding && !(0 <= target < |h.entries|))
            && !c.guarded && c.isDirty == b.isDirty && c.leaving == b.leaving
            && (c.heard != b.heard <==> 0 <= target < |h.entries| && !b.unwinding)
  {
  }

  /**
   Exactly when the guard's cleanup is not silent. The guard is dropped with moves pending, and the
   traversals are delivered in order: the router hears the cleanup if and only if some pending move
   lands inside the history and the cleanup itself, one step back from where they lead, does too. If
   the form has become dirty again before the cleanup arrives it is never heard, and a leave question
   is asked if and only if some pending move lands.
   */
  lemma CleanupNoticedExactly(b: Bar, yes: bool)
    requires DropsGuard(b) && !b.leaving
    ensures var h := b.history; var d := Delivered(Update(b, false), |h.moves|, yes);
            && d.history.moves == [-1]
            && (Heard(d, yes) <==> Lands(h.index, |h.entries|, h.moves) && Walk(h.index, |h.entries|, h.moves) >= 1)
            && !Asks(d)
            && !Heard(Update(d, true), yes)
            && (Asks(Update(d, true)) <==> Lands(h.index, |h.entries|, h.moves))
  {
    var h := b.history;
    var n := |h.moves|;
    WhileDelivered(b, n, yes);
    assert h.moves[..n] == h.moves && (h.moves + [-1])[n..] == [-1];
    OneDelivered(Delivered(Update(b, false), n, yes), yes);
    DirtyAgain(Delivered(Update(b, false), n, yes), yes);
  }

  lemma DirtyAgain(b: Bar, yes: bool)
    requires b.history.Valid() && b.history.moves == [-1] && !b.guarded && !b.isDirty && !b.leaving
    ensures var c := Update(b, true);
            !Heard(c, yes) && CanReach(c) && (Asks(c) <==> !b.unwinding)
  {
  }

  /** The cleanup of a guard dropped with nothing pending: it is the next traversal, and its flag is up. */
  predicate CleanupIsNext(b: Bar) {
    b.unwinding && b.history.moves != [] && b.history.moves[0] == -1
  }

  lemma CleanupStep(form: seq<Control>, b: Bar, e: Event)
    requires Inv(form, b) && Possible(form, e) && CleanupIsNext(b) && !e.Deliver?
    ensures CleanupIsNext(Step(form, b, e)) && Step(form, b, e).heard == b.heard
  {
  }

  lemma {:induction false} CleanupWaits(form: seq<Control>, b: Bar, events: seq<Event>)
    requires Inv(form, b) && WellFormed(form) && AllPossible(form, events)
    requires CleanupIsNext(b)
    requires forall i :: 0 <= i < |events| ==> !events[i].Deliver?
    ensures var c := Run(form, b, events); CleanupIsNext(c) && c.heard == b.heard
    decreases |events|
  {
    if events != [] {
      var n := |events| - 1;
      CleanupWaits(form, b, events[..n]);
      CleanupStep(form, Run(form, b, events[..n]), events[n]);
    }
  }

  /**
   Dropped with nothing pending, the guard's cleanup is the next traversal to arrive, and it is silent
   whatever else happens first: edits, resets, submissions, clicks and moves asked for later.
   */
  lemma CleanupIsSilent(form: seq<Control>, b: Bar, dropped: Bar, events: seq<Event>, yes: bool)
    requires DropsGuard(b) && b.history.moves == [] && dropped == Update(b, false)
    requires Inv(form, dropped) && WellFormed(form) && AllPossible(form, events)
    requires forall i :: 0 <= i < |events| ==> !events[i].Deliver?
    ensures var c := Run(form, dropped, events);
            c.heard == b.heard && !Heard(c, yes) && !Asks(c) && Arrive(c, yes).leaving == c.leaving
  {
    CleanupWaits(form, dropped, events);
    NextIsSilent(Run(form, dropped, events), yes);
  }

  lemma NextIsSilent(b: Bar, yes: bool)
    requires b.history.Valid() && CleanupIsNext(b)
    ensures !Heard(b, yes) && !Asks(b) && Arrive(b, yes).leaving == b.leaving
  {
  }

  // ---- in any run, exactly which traversals are silent ----

  /** The event makes the form clean while the guard's entry is on top: the entry is taken back. */
  ghost predicate TakesBack(form: seq<Control>, b: Bar, e: Event)
    requires Inv(form, b) && Possible(form, e)
  {
    b.mounted && DropsGuard(b) && !Step(form, b, e).isDirty
  }

  /** A traversal is delivered and lands inside the history. */
  predicate LandsNow(b: Bar, e: Event) {
    e.Deliver? && b.mounted && CanReach(b)
  }

  ghost predicate TakesBackAt(form: seq<Control>, b: Bar, events: seq<Event>, m: int)
    requires Inv(form, b) && WellFormed(form) && AllPossible(form, events)
  {
    0 <= m < |events| && TakesBack(form, Run(form, b, events[..m]), events[m])
  }

  ghost predicate LandsAt(form: seq<Control>, b: Bar, events: seq<Event>, k: int)
    requires Inv(form, b) && WellFormed(form) && AllPossible(form, events)
  {
    0 <= k < |events| && LandsNow(Run(form, b, events[..k]), events[k])
  }

  /** Since the last traversal that landed, a guard entry was taken back. */
  ghost predicate TakenBackSince(form: seq<Control>, b: Bar, events: seq<Event>)
    requires Inv(form, b) && WellFormed(form) && AllPossible(form, events)
  {
    exists m :: TakesBackAt(form, b, events, m) && forall k :: m < k < |events| ==> !LandsAt(form, b, events, k)
  }

  lemma UpdateFlag(b: Bar, next: bool)
    requires b.history.Valid()
    ensures var c := Update(b, next);
            c.isDirty == next && (c.unwinding <==> b.unwinding || (DropsGuard(b) && !next))
  {
  }

  lemma ArriveFlag(b: Bar, yes: bool)
    requires b.history.Valid()
    ensures Arrive(b, yes).unwinding <==> b.unwinding && !CanReach(b)
    ensures Arrive(b, yes).isDirty == b.isDirty
  {
  }

  /** An edit or a judged reset ends in one update of the dirty flag. */
  lemma FormFlag(form: seq<Control>, b: Bar, e: Event)
    requires Inv(form, b) && Possible(form, e) && b.mounted
    requires e.Edit? || (e.TimerFires? && b.timers != [])
    ensures Step(form, b, e).unwinding <==> TakesBack(form, b, e) || b.unwinding
  {
    match e
    case Edit(states) =>
      UpdateFlag(b.(states := states, submitted := None), ShotOf(form, states) != b.baseline);
    case TimerFires =>
      var restored := ShotOf(form, b.states);
      var rest := b.(timers := b.timers[1..], baseline := restored);
      var sent := b.timers[0].sent;
      UpdateFlag(rest, false);
      if sent.Some? { UpdateFlag(rest.(states := Apply(form, b.states, sent.value)), true); }
  }

  lemma FlagStep(form: seq<Control>, b: Bar, e: Event)
    requires Inv(form, b) && Possible(form, e)
    ensures Step(form, b, e).unwinding <==> TakesBack(form, b, e) || (b.unwinding && !LandsNow(b, e))
  {
    if b.mounted {
      match e
      case Edit(_) => FormFlag(form, b, e);
      case TimerFires => if b.timers != [] { FormFlag(form, b, e); }
      case Deliver(yes) => ArriveFlag(b, yes);
      case _ =>
    }
  }

  lemma TakenBackSnoc(form: seq<Control>, b: Bar, events: seq<Event>, e: Event)
    requires Inv(form, b) && WellFormed(form) && AllPossible(form, events) && Possible(form, e)
    ensures AllPossible(form, events + [e])
    ensures var before := Run(form, b, events);
            TakenBackSince(form, b, events + [e])
            <==> TakesBack(form, before, e) || (TakenBackSince(form, b, events) && !LandsNow(before, e))
  {
    var n, all := |events|, events + [e];
    assert all[..n] == events;
    forall m | 0 <= m < n
      ensures TakesBackAt(form, b, all, m) <==> TakesBackAt(form, b, events, m)
      ensures LandsAt(form, b, all, m) <==> LandsAt(form, b, events, m)
    {
      assert all[..m] == events[..m];
    }
    assert TakesBackAt(form, b, all, n) <==> TakesBack(form, Run(form, b, events), e);
    assert LandsAt(form, b, all, n) <==> LandsNow(Run(form, b, events), e);
  }

  lemma {:induction false} FlagIsUpExactly(form: seq<Control>, b: Bar, events: seq<Event>)
    requires Inv(form, b) && WellFormed(form) && AllPossible(form, events) && !b.unwinding
    ensures Run(form, b, events).unwinding <==> TakenBackSince(form, b, events)
    decreases |events|
  {
    if events != [] {
      var n := |events| - 1;
      FlagIsUpExactly(form, b, events[..n]);
      FlagStep(form, Run(form, b, events[..n]), events[n]);
      TakenBackSnoc(form, b, events[..n], events[n]);
      assert events[..n] + [events[n]] == events;
    }
  }

  /**
   In every run, with edits, saves and moves in any order: a traversal that lands on an entry is silent
   exactly when a guard entry was taken back since the last traversal that landed. Otherwise it is asked
   about while the guard stands, and heard by the router when it does not or somebody has said yes. So
   a cleanup is silent only as long as nothing else has landed since the last guard was dropped.
   */
  lemma TraversalIsSilentExactly(form: seq<Control>, states: seq<FieldState>, history: History, events: seq<Event>, yes: bool)
    requires WellFormed(form) && ValidStates(form, states) && history.Valid() && AllPossible(form, events)
    ensures Inv(form, Mounted(form, states, history))
    ensures var start := Mounted(form, states, history); var b := Run(form, start, events);
            CanReach(b) ==>
              && (!Heard(b, yes) && !Asks(b) <==> TakenBackSince(form, start, events))
              && (Heard(b, yes) <==> !TakenBackSince(form, start, events) && (!b.guarded || b.leaving))
              && (Asks(b) <==> !TakenBackSince(form, start, events) && b.guarded && !b.leaving)
  {
    InvMounted(form, states, history);
    FlagIsUpExactly(form, Mounted(form, states, history), events);
  }

  // ---- what an answer does ----

  /** Yes: the guard is down and one step back is queued behind whatever is pending; the router heard nothing yet. */
  lemma YesQueuesOneStepBack(b: Bar)
    requires b.history.Valid() && Asks(b)
    ensures var c := Arrive(b, true);
            && c.leaving && !c.guarded && c.heard == b.heard && c.mounted == b.mounted
            && c.history == History(b.history.entries, b.history.index + b.history.moves[0], b.history.moves[1..] + [-1])
  {
  }

  /** No: the guard's entry is on top again, nothing is queued, and the router heard nothing. */
  lemma NoPutsTheGuardBack(b: Bar)
    requires b.history.Valid() && Asks(b)
    ensures var h := b.history; var at := h.index + h.moves[0]; var c := Arrive(b, false);
            && !c.leaving && c.guarded && c.isDirty == b.isDirty && c.heard == b.heard && c.mounted == b.mounted
            && c.history == History(h.entries[..at + 1] + [Here(true)], at + 1, h.moves[1..])
  {
  }

  lemma {:induction false} StillLeaving(form: seq<Control>, b: Bar, events: seq<Event>)
    requires Inv(form, b) && WellFormed(form) && AllPossible(form, events) && b.leaving
    ensures Run(form, b, events).leaving
    decreases |events|
  {
    if events != [] {
      var n := |events| - 1;
      StillLeaving(form, b, events[..n]);
      LeavingStays(form, Run(form, b, events[..n]), events[n]);
    }
  }

  lemma LeavingStays(form: seq<Control>, b: Bar, e: Event)
    requires Inv(form, b) && Possible(form, e) && b.leaving
    ensures Step(form, b, e).leaving
  {
    match e
    case Deliver(yes) => ArriveLeaving(b, yes);
    case TimerFires => if b.timers != [] { TimerLeaving(form, b); }
    case _ =>
  }

  /** Once somebody has said yes, every traversal that lands is heard, unless a guard entry has been taken back before it. */
  lemma HeardAfterYes(form: seq<Control>, b: Bar, events: seq<Event>, yes: bool)
    requires Inv(form, b) && WellFormed(form) && AllPossible(form, events) && b.leaving && !b.unwinding
    ensures var c := Run(form, b, events);
            CanReach(c) ==> (Heard(c, yes) <==> !TakenBackSince(form, b, events))
  {
    StillLeaving(form, b, events);
    FlagIsUpExactly(form, b, events);
  }

  /** A page with at least one entry behind it, its bar fresh. */
  predicate Behind(h: History) {
    h.Valid() && h.index >= 1 && h.moves == []
  }

  /** The bar once the form has become dirty and Back has been pressed: the guard's entry is on top. */
  ghost predicate BackPending(c: Bar, history: History, states: seq<FieldState>)
    requires Behind(history)
  {
    && c.history == History(history.entries[..history.index + 1] + [Here(true)], history.index + 1, [-1])
    && c.guarded && c.isDirty && !c.leaving && !c.unwinding && c.heard == 0 && c.mounted && c.states == states
  }

  lemma EditThenBack(form: seq<Control>, states: seq<FieldState>, changed: seq<FieldState>, history: History)
    requires WellFormed(form) && ValidStates(form, states) && ValidStates(form, changed) && Behind(history)
    requires ShotOf(form, changed) != ShotOf(form, states)
    ensures Inv(form, Mounted(form, states, history))
    ensures BackPending(Run(form, Mounted(form, states, history), [Edit(changed)] + [UserMove(-1)]), history, changed)
  {
    InvMounted(form, states, history);
    var b := Mounted(form, states, history);
    RunSnoc(form, b, [], Edit(changed));
    assert [] + [Edit(changed)] == [Edit(changed)];
    RunSnoc(form, b, [Edit(changed)], UserMove(-1));
    GuardedByEdit(form, b, changed);
  }

  lemma GuardedByEdit(form: seq<Control>, b: Bar, changed: seq<FieldState>)
    requires b.history.Valid() && AllFit(form, changed) && !b.isDirty && !b.guarded && ShotOf(form, changed) != b.baseline
    ensures Recompute(form, b.(states := changed))
            == b.(states := changed, submitted := None, isDirty := true, guarded := true, history := b.history.PushGuard())
  {
  }

  /** The two traversals that follow: Back, answered with yes, and the step back it queues. */
  lemma YesLeavesFrom(c: Bar, history: History, states: seq<FieldState>, yes: bool)
    requires Behind(history) && BackPending(c, history, states)
    ensures var asked := Arrive(c, true); var gone := Arrive(asked, yes);
            && Asks(c) && asked.heard == 0 && asked.mounted && asked.history.index == history.index && asked.history.moves == [-1]
            && gone.heard == 1 && gone.history.index == history.index - 1 && gone.history.moves == []
            && (gone.mounted <==> history.entries[history.index - 1].Here?)
  {
    YesQueuesOneStepBack(c);
    var asked := Arrive(c, true);
    assert [-1][1..] == [] && asked.history.moves == [] + [-1] == [-1];
    assert asked.history.entries[history.index - 1] == history.entries[history.index - 1];
  }

  /**
   A fresh page with another behind it: the form is edited, Back is pressed and the question answered
   with yes. Once both traversals have been delivered the router has heard one, the browser is one entry
   further back than where the page was mounted, and the page is gone if that entry is another's.
   */
  lemma BackAnsweredYesLeaves(form: seq<Control>, states: seq<FieldState>, changed: seq<FieldState>, history: History, yes: bool)
    requires WellFormed(form) && ValidStates(form, states) && ValidStates(form, changed) && Behind(history)
    requires ShotOf(form, changed) != ShotOf(form, states)
    ensures Inv(form, Mounted(form, states, history))
    ensures var events := [Edit(changed)] + [UserMove(-1)] + [Deliver(true)] + [Deliver(yes)];
            var gone := Run(form, Mounted(form, states, history), events);
            && gone.heard == 1 && gone.history.index == history.index - 1
            && (gone.mounted <==> history.entries[history.index - 1].Here?)
  {
    EditThenBack(form, states, changed, history);
    var b := Mounted(form, states, history);
    var asked := [Edit(changed)] + [UserMove(-1)];
    YesLeavesFrom(Run(form, b, asked), history, changed, yes);
    RunSnoc(form, b, asked, Deliver(true));
    RunSnoc(form, b, asked + [Deliver(true)], Deliver(yes));
  }

  /** Answered with no instead, the page is as it was before Back: guarded, dirty, on the guard's entry, nothing heard. */
  lemma BackAnsweredNoStays(form: seq<Control>, states: seq<FieldState>, changed: seq<FieldState>, history: History)
    requires WellFormed(form) && ValidStates(form, states) && ValidStates(form, changed) && Behind(history)
    requires ShotOf(form, changed) != ShotOf(form, states)
    ensures Inv(form, Mounted(form, states, history))
    ensures var start := Mounted(form, states, history);
            Run(form, start, [Edit(changed)] + [UserMove(-1)] + [Deliver(false)]) == Run(form, start, [Edit(changed)])
  {
    EditThenBack(form, states, changed, history);
    var b := Mounted(form, states, history);
    var asked := [Edit(changed)] + [UserMove(-1)];
    RunSnoc(form, b, [], Edit(changed));
    assert [] + [Edit(changed)] == [Edit(changed)];
    RunSnoc(form, b, [Edit(changed)], UserMove(-1));
    RunSnoc(form, b, asked, Deliver(false));
    GuardedByEdit(form, b, changed);
    GuardReplaced(Run(form, b, [Edit(changed)]), history);
  }

  lemma GuardReplaced(b: Bar, history: History)
    requires Behind(history) && b.history == history.PushGuard() && b.guarded && !b.leaving && !b.unwinding
    ensures Arrive(b.(history := b.history.Ask(-1)), false) == b
  {
    var h := b.history.Ask(-1);
    assert h.moves == [-1] && h.moves[1..] == [];
    assert h.entries[..history.index + 1] == history.entries[..history.index + 1];
    NoPutsTheGuardBack(b.(history := h));
  }

  /** A click on a link to another page takes the page away exactly when it is not prevented. */
  lemma ClickLeavesUnlessPrevented(form: seq<Control>, b: Bar, away: bool, yes: bool)
    requires Inv(form, b) && b.mounted
    ensures var c := Step(form, b, LinkClick(away, yes));
            && (c.mounted <==> !away || (b.isDirty && !yes))
            && (c.leaving <==> b.leaving || (away && b.isDirty && yes))
  {
  }

  // ---- a person's reset ----

  /**
   A person's own reset takes the restored fields as they are, whatever had been submitted: the form is
   clean, its baseline is what the fields now show, and the guard is down.
   */
  lemma UserResetIsTaken(form: seq<Control>, b: Bar, restored: seq<FieldState>)
    requires Inv(form, b) && WellFormed(form) && ValidStates(form, restored)
    requires b.mounted && b.isDirty && b.timers == []
    ensures Inv(form, Step(form, b, UserReset(restored)))
    ensures var after := Step(form, Step(form, b, UserReset(restored)), TimerFires);
            && !after.isDirty && after.states == restored && after.baseline == ShotOf(form, restored)
            && after.submitted == None && after.timers == [] && !after.guarded
  {
    ResetKeeps(form, b, true, restored);
    var reset := Reset(b, true, restored);
    assert Step(form, b, UserReset(restored)) == reset && reset.timers == [Timer(true, b.submitted)];
    TimerIsTaken(form, reset);
    AcceptedByTimer(form, reset);
  }

  lemma AcceptedByTimer(form: seq<Control>, b: Bar)
    requires b.history.Valid() && AllFit(form, b.states) && b.timers != [] && b.timers[0].byUser && b.isDirty && b.submitted == None
    ensures var after := RunTimer(form, b);
            !after.isDirty && after.states == b.states && after.baseline == ShotOf(form, b.states) && after.submitted == None && !after.guarded
  {
  }

  /** On a clean form the reset button is disabled: nothing happens. */
  lemma CleanFormHasNoReset(form: seq<Control>, b: Bar, restored: seq<FieldState>)
    requires Inv(form, b) && ValidStates(form, restored) && !b.isDirty
    ensures Step(form, b, UserReset(restored)) == b
  {
  }

  // A form of one text box on a page with nothing before or after it in the history.

  const ONE_BOX := [Control("a", TextBox)]

  function Box(s: string): seq<FieldState> {
    [Typed(s)]
  }

  function Toggled(b: Bar, s: string): (c: Bar)
    requires b.history.Valid()
    ensures c.history.Valid() && c.states == Box(s)
  {
    Recompute(ONE_BOX, b.(states := Box(s)))
  }

  /** The bar of that form: empty and clean, or filled in and guarded, on the last entry of the history. */
  function BoxBar(s: string, entries: seq<Page>, moves: seq<int>, unwinding: bool): (b: Bar)
    requires entries != []
    ensures b.history.Valid()
  {
    Bar(Box(s), [("a", "")], s != "", None, [], s != "", false, unwinding, History(entries, |entries| - 1, moves), 0, true)
  }

  lemma BoxShot(s: string)
    ensures ShotOf(ONE_BOX, Box(s)) == [("a", s)]
  {
    assert ONE_BOX[..0] == [] && Box(s)[..0] == [];
    assert Read(ONE_BOX[..0], Box(s)[..0]) == [];
    assert TextEntries("a", [s]) == [Entry("a", TextValue(s))];
    assert FilesOf(ONE_BOX[0], Box(s)[0]) == [];
    assert Read(ONE_BOX, Box(s)) == [Entry("a", TextValue(s))];
    FlatMapSnoc([], Entry("a", TextValue(s)), Shown);
    assert Shown(Entry("a", TextValue(s))) == [("a", s)];
  }

  lemma TypingGuards(entries: seq<Page>, moves: seq<int>, unwinding: bool)
    requires entries != []
    ensures Toggled(BoxBar("", entries, moves, unwinding), "x") == BoxBar("x", entries + [Here(true)], moves, unwinding)
  {
    BoxShot("x");
    assert entries[..|entries|] == entries;
  }

  lemma ClearingQueues(entries: seq<Page>, moves: seq<int>, unwinding: bool)
    requires entries != [] && entries[|entries| - 1] == Here(true)
    ensures Toggled(BoxBar("x", entries, moves, unwinding), "") == BoxBar("", entries, moves + [-1], true)
  {
    BoxShot("");
  }

  /** Typed, cleared, typed and cleared again before anything is delivered: two cleanups wait. */
  function TwiceCleared(): (b: Bar)
    ensures b.history.Valid()
  {
    var start := Mounted(ONE_BOX, Box(""), History([Here(false)], 0, []));
    Toggled(Toggled(Toggled(Toggled(start, "x"), ""), "x"), "")
  }

  /** Typing and clearing adds a guard entry and queues its cleanup. */
  lemma TypeAndClear(entries: seq<Page>, moves: seq<int>, unwinding: bool)
    requires entries != []
    ensures Toggled(Toggled(BoxBar("", entries, moves, unwinding), "x"), "") == BoxBar("", entries + [Here(true)], moves + [-1], true)
  {
    TypingGuards(entries, moves, unwinding);
    ClearingQueues(entries + [Here(true)], moves, unwinding);
  }

  /** The bar of that form with two cleanups on their way. */
  ghost predicate TwoWait(b: Bar, s: string) {
    exists entries :: |entries| >= 3 && b == BoxBar(s, entries, [-1, -1], true)
  }

  lemma StartIsBox(entries: seq<Page>)
    requires entries != []
    ensures Mounted(ONE_BOX, Box(""), History(entries, |entries| - 1, [])) == BoxBar("", entries, [], false)
  {
    BoxShot("");
  }

  lemma TwiceIs(entries: seq<Page>, moves: seq<int>)
    requires entries == [Here(false)] && moves == []
    ensures TwiceCleared() == BoxBar("", entries + [Here(true)] + [Here(true)], moves + [-1] + [-1], true)
  {
    StartIsBox(entries);
    TypeAndClear(entries, moves, false);
    TypeAndClear(entries + [Here(true)], moves + [-1], true);
  }

  lemma BoxWaits(b: Bar, s: string, entries: seq<Page>, moves: seq<int>)
    requires |entries| >= 3 && moves == [-1, -1] && b == BoxBar(s, entries, moves, true)
    ensures TwoWait(b, s)
  {
  }

  lemma TwoCleanupsWait(entries: seq<Page>, moves: seq<int>)
    requires entries == [Here(false)] && moves == []
    ensures TwoWait(TwiceCleared(), "") && TwoWait(Toggled(TwiceCleared(), "x"), "x")
  {
    var two, sent := entries + [Here(true)] + [Here(true)], moves + [-1] + [-1];
    TwiceIs(entries, moves);
    BoxWaits(TwiceCleared(), "", two, sent);
    TypingGuards(two, sent, true);
    BoxWaits(Toggled(TwiceCleared(), "x"), "x", two + [Here(true)], sent);
  }

  /** Two cleanups delivered: the second is heard when the form is clean, and asked about when it is dirty. */
  lemma BothArrive(b: Bar, s: string, yes: bool)
    requires b.history.Valid() && TwoWait(b, s)
    ensures b.isDirty == (s != "") && b.history.moves == [-1, -1]
    ensures var after := Arrive(Arrive(b, yes), yes);
            if s == "" then after.heard == 1 else after.leaving == yes
  {
    FirstArrival(b, yes);
  }

  /**
   With two cleanups queued at once only the first is silent: the form goes dirty, clean, dirty and
   clean again before either arrives, and the router hears the second.
   */
  lemma SecondCleanupIsHeard()
    ensures Inv(ONE_BOX, Mounted(ONE_BOX, Box(""), History([Here(false)], 0, [])))
    ensures var clean := TwiceCleared();
            && !clean.isDirty && clean.history.moves == [-1, -1]
            && Arrive(Arrive(clean, false), false).heard == 1
  {
    InvMounted(ONE_BOX, Box(""), History([Here(false)], 0, []));
    TwoCleanupsWait([Here(false)], []);
    BothArrive(TwiceCleared(), "", false);
  }

  /** If the form is dirty once more by then, a leave question is asked although nobody pressed Back. */
  lemma SecondCleanupIsAskedAbout(yes: bool)
    ensures var dirty := Toggled(TwiceCleared(), "x");
            && dirty.isDirty && dirty.history.moves == [-1, -1]
            && Arrive(Arrive(dirty, yes), yes).leaving == yes
  {
    TwoCleanupsWait([Here(false)], []);
    BothArrive(Toggled(TwiceCleared(), "x"), "x", yes);
  }

  /** The first of two cleanups only clears the flag that keeps cleanups silent. */
  lemma FirstArrival(b: Bar, yes: bool)
    requires b.history.Valid() && b.history.index > 0 && b.history.moves == [-1, -1] && b.unwinding
    ensures Arrive(b, yes) == b.(unwinding := false, history := History(b.history.entries, b.history.index - 1, [-1]))
  {
    assert [-1, -1][1..] == [-1];
  }

  // The same form with another page before it in the history.

  /** Typed, then Back pressed, then cleared before that move is delivered. */
  function BackThenCleared(): (b: Bar)
    ensures b.history.Valid()
  {
    var typed := Toggled(Mounted(ONE_BOX, Box(""), History([Outside, Here(false)], 1, [])), "x");
    Toggled(Step(ONE_BOX, typed, UserMove(-1)), "")
  }

  lemma BackPressed(entries: seq<Page>, moves: seq<int>)
    requires entries != []
    ensures AllFit(ONE_BOX, Box("x"))
    ensures Step(ONE_BOX, BoxBar("x", entries, moves, false), UserMove(-1)) == BoxBar("x", entries, moves + [-1], false)
  {
  }

  lemma BackThenClearedIs(entries: seq<Page>, moves: seq<int>)
    requires entries == [Outside, Here(false)] && moves == []
    ensures BackThenCleared() == BoxBar("", entries + [Here(true)], moves + [-1] + [-1], true)
  {
    StartIsBox(entries);
    TypingGuards(entries, moves, false);
    assert AllFit(ONE_BOX, Box("x"));
    BackPressed(entries + [Here(true)], moves);
    ClearingQueues(entries + [Here(true)], moves + [-1], false);
  }

  /** The person's Back is swallowed in the cleanup's place, and the cleanup then leaves the page. */
  lemma BackThenClearLeaves(yes: bool)
    ensures var b := BackThenCleared(); var first := Arrive(b, yes); var second := Arrive(first, yes);
            && !b.isDirty && b.history.moves == [-1, -1]
            && first.heard == 0 && first.mounted
            && second.heard == 1 && !second.mounted
  {
    var entries: seq<Page>, moves: seq<int> := [Outside, Here(false)], [];
    BackThenClearedIs(entries, moves);
    assert moves + [-1] + [-1] == [-1, -1];
    CleanupLeaves(BackThenCleared(), entries + [Here(true)], yes);
  }

  lemma CleanupLeaves(b: Bar, entries: seq<Page>, yes: bool)
    requires entries == [Outside, Here(false), Here(true)] && b == BoxBar("", entries, [-1, -1], true)
    ensures var first := Arrive(b, yes); var second := Arrive(first, yes);
            && !b.isDirty && b.history.moves == [-1, -1]
            && first.heard == 0 && first.mounted
            && second.heard == 1 && !second.mounted
  {
    FirstArrival(b, yes);
  }
}
