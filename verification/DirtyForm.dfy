/**
 Reading what a form would submit, and writing submitted entries back into it
 (apps/admin/lib/dirty-form.ts).
 */
module DirtyForm {
  import opened Options
  import opened Sequences
  import opened Text

  /** A control's fixed part: its name, what it is, and the values it can submit. */
  datatype Kind =
    | TextBox                          // inputs and textareas that carry what was typed
    | CheckBox(value: string)
    | RadioButton(value: string)
    | SelectOne(options: seq<string>)
    | SelectMany(options: seq<string>)
    | FileBox
    | Button                           // submit, button, reset, image

  datatype Control = Control(name: string, kind: Kind)

  /** A control's changing part. */
  datatype FieldState =
    | Typed(text: string)
    | Ticked(on: bool)
    | Chosen(index: Option<nat>)
    | Picked(selected: seq<bool>)
    | Attached(files: seq<File>)
    | Inert

  datatype File = File(name: string, size: nat)

  datatype EntryValue = TextValue(s: string) | FileValue(file: File)

  datatype Entry = Entry(name: string, value: EntryValue)

  /** React's own fields, never part of a comparison. */
  predicate IsFrameworkField(name: string) {
    "$ACTION" <= name
  }

  /** The state has the shape its control needs; a single select always has an option chosen. */
  predicate Fits(control: Control, state: FieldState) {
    match control.kind
    case TextBox => state.Typed?
    case CheckBox(_) => state.Ticked?
    case RadioButton(_) => state.Ticked?
    case SelectOne(options) => state.Chosen? && state.index.Some? && state.index.value < |options|
    case SelectMany(options) => state.Picked? && |state.selected| == |options|
    case FileBox => state.Attached?
    case Button => state.Inert?
  }

  predicate AllFit(form: seq<Control>, states: seq<FieldState>) {
    |states| == |form| && forall i :: 0 <= i < |form| ==> Fits(form[i], states[i])
  }

  /** At most one radio button of a name is on: the browser sees to that. */
  predicate OneRadioOn(form: seq<Control>, states: seq<FieldState>)
    requires AllFit(form, states)
  {
    forall i, j | 0 <= i < j < |form| && form[i].kind.RadioButton? && form[j].kind.RadioButton?
        && form[i].name == form[j].name != "" ::
      !(states[i].on && states[j].on)
  }

  // ---- reading ----

  function PickedValues(options: seq<string>, selected: seq<bool>): seq<string>
    requires |selected| == |options|
    decreases |options|
  {
    if options == [] then []
    else (if selected[0] then [options[0]] else []) + PickedValues(options[1..], selected[1..])
  }

  function TextEntries(name: string, values: seq<string>): (r: seq<Entry>)
    ensures |r| == |values|
  {
    seq(|values|, i requires 0 <= i < |values| => Entry(name, TextValue(values[i])))
  }

  /** The texts a control submits. */
  function TextsOf(control: Control, state: FieldState): seq<string>
    requires Fits(control, state)
  {
    match control.kind
    case TextBox => [state.text]
    case CheckBox(value) => if state.on then [value] else []
    case RadioButton(value) => if state.on then [value] else []
    case SelectOne(options) => [options[state.index.value]]
    case SelectMany(options) => PickedValues(options, state.selected)
    case FileBox => []
    case Button => []
  }

  /** A file box with nothing chosen submits one empty file. */
  function FilesOf(control: Control, state: FieldState): seq<Entry>
    requires Fits(control, state)
  {
    if !control.kind.FileBox? then []
    else if state.files == [] then [Entry(control.name, FileValue(File("", 0)))]
    else seq(|state.files|, i requires 0 <= i < |state.files| => Entry(control.name, FileValue(state.files[i])))
  }

  function EntriesOf(control: Control, state: FieldState): seq<Entry>
    requires Fits(control, state)
  {
    if control.name == "" then [] else TextEntries(control.name, TextsOf(control, state)) + FilesOf(control, state)
  }

  /** readEntries: what the form would submit, in submission order. */
  function Read(form: seq<Control>, states: seq<FieldState>): seq<Entry>
    requires AllFit(form, states)
    decreases |form|
  {
    if form == [] then []
    else
      var n := |form| - 1;
      Read(form[..n], states[..n]) + EntriesOf(form[n], states[n])
  }

  // ---- the snapshot ----

  /** What tells one file from another: its name and size, nothing for an empty one. */
  function FileText(file: File): string {
    if file.size > 0 then "file:" + file.name + ":" + Decimal(file.size) else ""
  }

  /** What an entry adds to the snapshot. */
  function Shown(e: Entry): seq<(string, string)> {
    if IsFrameworkField(e.name) then []
    else [(e.name, match e.value
                   case TextValue(s) => s
                   case FileValue(file) => FileText(file))]
  }

  /** snapshotEntries before it is written as JSON, which loses nothing of a list of text pairs. */
  function Snapshot(entries: seq<Entry>): seq<(string, string)> {
    FlatMap(entries, Shown)
  }

  method SnapshotEntries(entries: seq<Entry>) returns (kept: seq<(string, string)>)
    ensures kept == Snapshot(entries)
  {
    kept := [];
    for i := 0 to |entries|
      invariant kept == Snapshot(entries[..i])
    {
      assert entries[..i + 1][..i] == entries[..i];
      kept := kept + Shown(entries[i]);
    }
    assert entries[..|entries|] == entries;
  }

  // ---- writing back ----

  /** The controls written back: named, not React's own, and something a person types or picks. */
  predicate Writable(control: Control) {
    control.name != "" && !IsFrameworkField(control.name) && !control.kind.FileBox? && !control.kind.Button?
  }

  /** The controls that take the next value of their name. */
  predicate TakesValue(control: Control) {
    control.kind.TextBox? || control.kind.SelectOne?
  }

  function Values(entries: seq<Entry>, name: string): seq<string>
    decreases |entries|
  {
    if entries == [] then []
    else
      var n := |entries| - 1;
      var e := entries[n];
      Values(entries[..n], name) + (if e.name == name && e.value.TextValue? then [e.value.s] else [])
  }

  function OneValue(e: Entry, name: string): seq<string> {
    if e.name == name && e.value.TextValue? then [e.value.s] else []
  }

  lemma ValuesSnoc(entries: seq<Entry>, e: Entry, name: string)
    ensures Values(entries + [e], name) == Values(entries, name) + OneValue(e, name)
  {
    assert (entries + [e])[..|entries|] == entries;
  }

  /** How many controls before i took a value of its name. */
  function Rank(form: seq<Control>, i: nat, name: string): nat
    requires i <= |form|
  {
    if i == 0 then 0
    else Rank(form, i - 1, name)
         + if Writable(form[i - 1]) && TakesValue(form[i - 1]) && form[i - 1].name == name then 1 else 0
  }

  function IndexOf(options: seq<string>, value: string): Option<nat>
    decreases |options|
  {
    if options == [] then None
    else if options[0] == value then Some(0)
    else
      match IndexOf(options[1..], value)
      case None => None
      case Some(k) => Some(k + 1)
  }

  /** What one control is set to from the values of its name. */
  function Written(control: Control, list: seq<string>, rank: nat, was: FieldState): FieldState {
    var next := if rank < |list| then list[rank] else "";
    match control.kind
    case TextBox => Typed(next)
    case CheckBox(value) => Ticked(value in list)
    case RadioButton(value) => Ticked(value in list)
    case SelectOne(options) => Chosen(IndexOf(options, next))
    case SelectMany(options) => Picked(seq(|options|, j requires 0 <= j < |options| => options[j] in list))
    case _ => was
  }

  /** Setting a control; a radio button turned on turns the others of its name off. */
  function SetField(form: seq<Control>, states: seq<FieldState>, i: nat, next: FieldState): (r: seq<FieldState>)
    requires |states| == |form| && i < |form|
    ensures |r| == |form|
  {
    seq(|form|, j requires 0 <= j < |form| =>
      if j == i then next
      else if form[i].kind.RadioButton? && next == Ticked(true) && form[j].kind.RadioButton? && form[j].name == form[i].name
      then Ticked(false)
      else states[j])
  }

  /** The states after the first i controls have been visited. */
  function Applied(form: seq<Control>, states: seq<FieldState>, entries: seq<Entry>, i: nat): (r: seq<FieldState>)
    requires |states| == |form| && i <= |form|
    ensures |r| == |form|
  {
    if i == 0 then states
    else
      var before := Applied(form, states, entries, i - 1);
      var c := form[i - 1];
      if Writable(c) then
        SetField(form, before, i - 1, Written(c, Values(entries, c.name), Rank(form, i - 1, c.name), before[i - 1]))
      else before
  }

  function Apply(form: seq<Control>, states: seq<FieldState>, entries: seq<Entry>): (r: seq<FieldState>)
    requires |states| == |form|
    ensures |r| == |form|
  {
    Applied(form, states, entries, |form|)
  }

  /** A form in the page. */
  class Form {
    const controls: seq<Control>
    var states: seq<FieldState>

    constructor (controls: seq<Control>, states: seq<FieldState>)
      ensures this.controls == controls && this.states == states
    {
      this.controls := controls;
      this.states := states;
    }

    /** The values of each name, in entry order. */
    static method CollectValues(entries: seq<Entry>) returns (values: map<string, seq<string>>)
      ensures forall n :: (if n in values then values[n] else []) == Values(entries, n)
    {
      values := map[];
      for i := 0 to |entries|
        invariant forall n :: (if n in values then values[n] else []) == Values(entries[..i], n)
      {
        var e := entries[i];
        forall n ensures Values(entries[..i + 1], n) == Values(entries[..i], n) + OneValue(e, n) {
          assert entries[..i + 1] == entries[..i] + [e];
          ValuesSnoc(entries[..i], e, n);
        }
        if e.value.TextValue? {
          values := values[e.name := (if e.name in values then values[e.name] else []) + [e.value.s]];
        }
      }
      assert entries[..|entries|] == entries;
    }

    /** applyEntries */
    method ApplyEntries(entries: seq<Entry>)
      requires |states| == |controls|
      modifies this`states
      ensures states == Apply(controls, old(states), entries)
    {
      var values := CollectValues(entries);
      var used: map<string, nat> := map[];
      for i := 0 to |controls|
        invariant states == Applied(controls, old(states), entries, i)
        invariant forall n :: (if n in used then used[n] else 0) == Rank(controls, i, n)
      {
        var c := controls[i];
        if Writable(c) {
          var list := if c.name in values then values[c.name] else [];
          var index := if c.name in used then used[c.name] else 0;
          states := SetField(controls, states, i, Written(c, list, index, states[i]));
          if TakesValue(c) {
            used := used[c.name := index + 1];
          }
        }
      }
    }
  }

  // ---- write-back inverts read ----

  /** Two same-named controls are of one kind, and what they can submit differs where it must. */
  predicate Compatible(a: Kind, b: Kind) {
    match (a, b)
    case (CheckBox(v), CheckBox(w)) => v != w
    case (RadioButton(v), RadioButton(w)) => v != w
    case (SelectMany(v), SelectMany(w)) => forall i, j :: 0 <= i < |v| && 0 <= j < |w| ==> v[i] != w[j]
    case _ => (a.TextBox? || a.SelectOne?) && (b.TextBox? || b.SelectOne?)
  }

  predicate WellFormed(form: seq<Control>) {
    && (forall i, j | 0 <= i < j < |form| && Writable(form[i]) && Writable(form[j]) && form[i].name == form[j].name ::
          Compatible(form[i].kind, form[j].kind))
    && (forall i :: 0 <= i < |form| ==>
          && (form[i].kind.SelectOne? ==> NoRepeats(form[i].kind.options))
          && (form[i].kind.SelectMany? ==> NoRepeats(form[i].kind.options)))
  }

  /** The first state where it can be written, the second where it cannot. */
  function Mix(form: seq<Control>, first: seq<FieldState>, second: seq<FieldState>): (r: seq<FieldState>)
    requires |first| == |form| == |second|
    ensures |r| == |form|
  {
    seq(|form|, i requires 0 <= i < |form| => if Writable(form[i]) then first[i] else second[i])
  }

  /** The texts submitted under a name. */
  function TextsNamed(form: seq<Control>, states: seq<FieldState>, name: string): seq<string>
    requires AllFit(form, states)
    decreases |form|
  {
    if form == [] then []
    else
      var n := |form| - 1;
      TextsNamed(form[..n], states[..n], name) + (if form[n].name == name then TextsOf(form[n], states[n]) else [])
  }

  lemma {:induction false} ValuesAppend(a: seq<Entry>, b: seq<Entry>, name: string)
    ensures Values(a + b, name) == Values(a, name) + Values(b, name)
  {
    if b == [] {
      assert a + b == a;
    } else {
      var n := |b| - 1;
      ValuesAppend(a, b[..n], name);
      assert (a + b)[..|a + b| - 1] == a + b[..n];
    }
  }

  lemma {:induction false} ValuesOfTexts(owner: string, texts: seq<string>, name: string)
    ensures Values(TextEntries(owner, texts), name) == if owner == name then texts else []
    decreases |texts|
  {
    if texts != [] {
      var n := |texts| - 1;
      ValuesOfTexts(owner, texts[..n], name);
      assert TextEntries(owner, texts)[..n] == TextEntries(owner, texts[..n]);
    }
  }

  lemma {:induction false} ValuesOfFiles(entries: seq<Entry>, name: string)
    requires forall i :: 0 <= i < |entries| ==> entries[i].value.FileValue?
    ensures Values(entries, name) == []
    decreases |entries|
  {
    if entries != [] { ValuesOfFiles(entries[..|entries| - 1], name); }
  }

  lemma ValuesOfControl(control: Control, state: FieldState, name: string)
    requires Fits(control, state) && name != ""
    ensures Values(EntriesOf(control, state), name) == if control.name == name then TextsOf(control, state) else []
  {
    if control.name != "" {
      ValuesAppend(TextEntries(control.name, TextsOf(control, state)), FilesOf(control, state), name);
      ValuesOfTexts(control.name, TextsOf(control, state), name);
      ValuesOfFiles(FilesOf(control, state), name);
    }
  }

  lemma {:induction false} ValuesOfRead(form: seq<Control>, states: seq<FieldState>, name: string)
    requires AllFit(form, states) && name != ""
    ensures Values(Read(form, states), name) == TextsNamed(form, states, name)
    decreases |form|
  {
    if form != [] {
      var n := |form| - 1;
      ValuesOfRead(form[..n], states[..n], name);
      ValuesAppend(Read(form[..n], states[..n]), EntriesOf(form[n], states[n]), name);
      ValuesOfControl(form[n], states[n], name);
    }
  }

  /** A text is submitted under a name exactly when some control of that name submits it. */
  lemma {:induction false} TextsNamedHas(form: seq<Control>, states: seq<FieldState>, name: string, value: string)
    requires AllFit(form, states)
    ensures value in TextsNamed(form, states, name) <==> exists i :: Submits(form, states, i, name, value)
    decreases |form|
  {
    if form != [] {
      var n := |form| - 1;
      TextsNamedHas(form[..n], states[..n], name, value);
      forall i | 0 <= i < n
        ensures Submits(form, states, i, name, value) <==> Submits(form[..n], states[..n], i, name, value)
      {
      }
      assert value in TextsNamed(form, states, name)
        <==> value in TextsNamed(form[..n], states[..n], name) || Submits(form, states, n, name, value);
      if i :| Submits(form[..n], states[..n], i, name, value) {
        assert Submits(form, states, i, name, value);
      }
      if i :| Submits(form, states, i, name, value) {
        assert i == n || Submits(form[..n], states[..n], i, name, value);
      }
    }
  }

  predicate Submits(form: seq<Control>, states: seq<FieldState>, i: int, name: string, value: string)
    requires AllFit(form, states)
  {
    0 <= i < |form| && form[i].name == name && value in TextsOf(form[i], states[i])
  }

  lemma {:induction false} PickedHas(options: seq<string>, selected: seq<bool>, value: string)
    requires |selected| == |options|
    ensures value in PickedValues(options, selected) <==> exists i :: 0 <= i < |options| && selected[i] && options[i] == value
    decreases |options|
  {
    if options != [] {
      PickedHas(options[1..], selected[1..], value);
      if value in PickedValues(options[1..], selected[1..]) {
        var i :| 0 <= i < |options| - 1 && selected[1..][i] && options[1..][i] == value;
        assert selected[i + 1] && options[i + 1] == value;
      }
      if exists i :: 0 <= i < |options| && selected[i] && options[i] == value {
        var i :| 0 <= i < |options| && selected[i] && options[i] == value;
        assert i > 0 ==> selected[1..][i - 1] && options[1..][i - 1] == value;
      }
    }
  }

  lemma {:induction false} IndexOfIs(options: seq<string>, k: nat)
    requires NoRepeats(options) && k < |options|
    ensures IndexOf(options, options[k]) == Some(k)
  {
    if k > 0 {
      assert options[1..][k - 1] == options[k];
      IndexOfIs(options[1..], k - 1);
    }
  }

  lemma {:induction false} RankOfPrefix(form: seq<Control>, m: nat, i: nat, name: string)
    requires i <= m <= |form|
    ensures Rank(form[..m], i, name) == Rank(form, i, name)
  {
    if i > 0 { RankOfPrefix(form, m, i - 1, name); }
  }

  /** Among controls that take values, each submits exactly one text. */
  lemma {:induction false} RankCounts(form: seq<Control>, states: seq<FieldState>, name: string)
    requires AllFit(form, states) && name != "" && !IsFrameworkField(name)
    requires forall j :: 0 <= j < |form| && Writable(form[j]) && form[j].name == name ==> TakesValue(form[j])
    ensures |TextsNamed(form, states, name)| == Rank(form, |form|, name)
    decreases |form|
  {
    if form != [] {
      var n := |form| - 1;
      RankCounts(form[..n], states[..n], name);
      RankOfPrefix(form, n, n, name);
    }
  }

  /** The text a value-taking control submitted is the one at its rank. */
  lemma {:induction false} TextAtRank(form: seq<Control>, states: seq<FieldState>, i: nat)
    requires AllFit(form, states) && WellFormed(form)
    requires i < |form| && Writable(form[i]) && TakesValue(form[i])
    ensures var texts := TextsNamed(form, states, form[i].name);
            && Rank(form, i, form[i].name) < |texts|
            && texts[Rank(form, i, form[i].name)] == TextsOf(form[i], states[i])[0]
  {
    var n := |form| - 1;
    RankOfPrefix(form, n, i, form[i].name);
    if i < n {
      PrefixWellFormed(form, n);
      TextAtRank(form[..n], states[..n], i);
    } else {
      forall j | 0 <= j < n && Writable(form[j]) && form[j].name == form[i].name ensures TakesValue(form[..n][j]) {
        assert Compatible(form[j].kind, form[i].kind);
      }
      RankCounts(form[..n], states[..n], form[i].name);
    }
  }

  lemma PrefixWellFormed(form: seq<Control>, n: nat)
    requires WellFormed(form) && n <= |form|
    ensures WellFormed(form[..n])
  {
  }

  /** The values a control can tick or pick. */
  predicate Offers(kind: Kind, value: string) {
    match kind
    case CheckBox(v) => value == v
    case RadioButton(v) => value == v
    case SelectMany(options) => value in options
    case _ => false
  }

  /** Only the control itself can have submitted one of its tick or option values. */
  lemma SubmittedByItself(form: seq<Control>, states: seq<FieldState>, i: nat, value: string)
    requires AllFit(form, states) && WellFormed(form)
    requires i < |form| && Writable(form[i])
    requires Offers(form[i].kind, value)
    ensures value in TextsNamed(form, states, form[i].name) <==> value in TextsOf(form[i], states[i])
  {
    TextsNamedHas(form, states, form[i].name, value);
    assert Submits(form, states, i, form[i].name, value) <==> value in TextsOf(form[i], states[i]);
    if value in TextsNamed(form, states, form[i].name) {
      var j :| Submits(form, states, j, form[i].name, value);
      if j != i {
        assert Writable(form[j]);
        assert if i < j then Compatible(form[i].kind, form[j].kind) else Compatible(form[j].kind, form[i].kind);
        if form[j].kind.SelectMany? { PickedHas(form[j].kind.options, states[j].selected, value); }
      }
    }
  }

  /** The values of a control's name say of it what it says of itself. */
  predicate Agrees(c: Control, state: FieldState, list: seq<string>)
    requires Fits(c, state)
  {
    match c.kind
    case CheckBox(value) => value in list <==> state.on
    case RadioButton(value) => value in list <==> state.on
    case SelectOne(options) => NoRepeats(options)
    case SelectMany(options) => forall j :: 0 <= j < |options| ==> (options[j] in list <==> state.selected[j])
    case _ => true
  }

  /** Writing a list back restores a control the list agrees with. */
  lemma WrittenRestores(c: Control, state: FieldState, list: seq<string>, rank: nat, was: FieldState)
    requires Fits(c, state) && Writable(c) && Agrees(c, state, list)
    requires TakesValue(c) ==> rank < |list| && list[rank] == TextsOf(c, state)[0]
    ensures Written(c, list, rank, was) == state
  {
    match c.kind
    case SelectOne(options) => IndexOfIs(options, state.index.value);
    case SelectMany(options) => assert Written(c, list, rank, was).selected == state.selected;
    case _ =>
  }

  /** Among distinct options, one is submitted exactly when it is selected. */
  lemma PickedAt(options: seq<string>, selected: seq<bool>, j: nat)
    requires |selected| == |options| && NoRepeats(options) && j < |options|
    ensures options[j] in PickedValues(options, selected) <==> selected[j]
  {
    PickedHas(options, selected, options[j]);
  }

  lemma ManyComesBack(form: seq<Control>, states: seq<FieldState>, i: nat, j: nat)
    requires AllFit(form, states) && WellFormed(form)
    requires i < |form| && Writable(form[i]) && form[i].kind.SelectMany? && j < |form[i].kind.options|
    ensures form[i].kind.options[j] in TextsNamed(form, states, form[i].name) <==> states[i].selected[j]
  {
    var options := form[i].kind.options;
    SubmittedByItself(form, states, i, options[j]);
    PickedAt(options, states[i].selected, j);
  }

  lemma ReadAgrees(form: seq<Control>, states: seq<FieldState>, i: nat)
    requires AllFit(form, states) && WellFormed(form)
    requires i < |form| && Writable(form[i])
    ensures Agrees(form[i], states[i], TextsNamed(form, states, form[i].name))
  {
    match form[i].kind
    case CheckBox(value) => SubmittedByItself(form, states, i, value);
    case RadioButton(value) => SubmittedByItself(form, states, i, value);
    case SelectMany(options) =>
      forall j | 0 <= j < |options|
        ensures options[j] in TextsNamed(form, states, form[i].name) <==> states[i].selected[j]
      {
        ManyComesBack(form, states, i, j);
      }
    case _ =>
  }

  /** Writing the values read from a state gives each writable control that state back. */
  lemma FieldComesBack(form: seq<Control>, states: seq<FieldState>, i: nat, was: FieldState)
    requires AllFit(form, states) && WellFormed(form)
    requires i < |form| && Writable(form[i])
    ensures Written(form[i], Values(Read(form, states), form[i].name), Rank(form, i, form[i].name), was) == states[i]
  {
    ValuesOfRead(form, states, form[i].name);
    ReadAgrees(form, states, i);
    if TakesValue(form[i]) { TextAtRank(form, states, i); }
    WrittenRestores(form[i], states[i], TextsNamed(form, states, form[i].name), Rank(form, i, form[i].name), was);
  }

  /** The first i controls are as they should be, and what is never written is untouched. */
  predicate RestoredUpTo(form: seq<Control>, first: seq<FieldState>, second: seq<FieldState>, i: nat, now: seq<FieldState>)
    requires |first| == |form| == |second| == |now| && i <= |form|
  {
    && (forall k :: 0 <= k < i ==> now[k] == if Writable(form[k]) then first[k] else second[k])
    && (forall k :: i <= k < |form| && !Writable(form[k]) ==> now[k] == second[k])
  }

  /** Setting the next control keeps that: a radio button turned on finds the earlier ones of its name off already. */
  lemma RestoreOneMore(form: seq<Control>, first: seq<FieldState>, second: seq<FieldState>, i: nat, now: seq<FieldState>)
    requires AllFit(form, first) && OneRadioOn(form, first)
    requires |form| == |second| == |now| && i < |form|
    requires RestoredUpTo(form, first, second, i, now) && Writable(form[i])
    ensures RestoredUpTo(form, first, second, i + 1, SetField(form, now, i, first[i]))
  {
    var next := SetField(form, now, i, first[i]);
    forall k | 0 <= k < |form| && k != i && next[k] != now[k]
      ensures Writable(form[k]) && next[k] == Ticked(false) && first[i] == Ticked(true)
              && (k < i ==> first[k] == Ticked(false))
    {
    }
  }

  /** The entries give each writable control the given state, whatever it was. */
  ghost predicate Restores(form: seq<Control>, first: seq<FieldState>, entries: seq<Entry>)
    requires |first| == |form|
  {
    forall i, was :: 0 <= i < |form| && Writable(form[i]) ==>
      Written(form[i], Values(entries, form[i].name), Rank(form, i, form[i].name), was) == first[i]
  }

  lemma ReadRestores(form: seq<Control>, first: seq<FieldState>)
    requires WellFormed(form) && AllFit(form, first)
    ensures Restores(form, first, Read(form, first))
  {
    forall i, was | 0 <= i < |form| && Writable(form[i])
      ensures Written(form[i], Values(Read(form, first), form[i].name), Rank(form, i, form[i].name), was) == first[i]
    {
      FieldComesBack(form, first, i, was);
    }
  }

  /** The next visit sets the control to what it was when it was read. */
  lemma AppliedNext(form: seq<Control>, first: seq<FieldState>, second: seq<FieldState>, entries: seq<Entry>, i: nat)
    requires |first| == |form| == |second| && Restores(form, first, entries)
    requires i < |form| && Writable(form[i])
    ensures Applied(form, second, entries, i + 1) == SetField(form, Applied(form, second, entries, i), i, first[i])
  {
  }

  lemma AppliedSkips(form: seq<Control>, states: seq<FieldState>, entries: seq<Entry>, i: nat)
    requires |states| == |form| && i < |form| && !Writable(form[i])
    ensures Applied(form, states, entries, i + 1) == Applied(form, states, entries, i)
  {
  }

  lemma SkipOneMore(form: seq<Control>, first: seq<FieldState>, second: seq<FieldState>, i: nat, now: seq<FieldState>)
    requires |first| == |form| == |second| == |now| && i < |form| && !Writable(form[i])
    requires RestoredUpTo(form, first, second, i, now)
    ensures RestoredUpTo(form, first, second, i + 1, now)
  {
  }

  lemma AppliedStep(form: seq<Control>, first: seq<FieldState>, second: seq<FieldState>, entries: seq<Entry>, i: nat)
    requires AllFit(form, first) && |second| == |form| && OneRadioOn(form, first) && Restores(form, first, entries)
    requires i < |form|
    requires RestoredUpTo(form, first, second, i, Applied(form, second, entries, i))
    ensures RestoredUpTo(form, first, second, i + 1, Applied(form, second, entries, i + 1))
  {
    if Writable(form[i]) {
      AppliedNext(form, first, second, entries, i);
      RestoreOneMore(form, first, second, i, Applied(form, second, entries, i));
    } else {
      AppliedSkips(form, second, entries, i);
      SkipOneMore(form, first, second, i, Applied(form, second, entries, i));
    }
  }

  /** A control nothing was submitted for: an empty text, no tick, no option but one whose value is the empty text. */
  ghost predicate IsCleared(control: Control, state: FieldState) {
    match control.kind
    case TextBox => state == Typed("")
    case CheckBox(_) => state == Ticked(false)
    case RadioButton(_) => state == Ticked(false)
    case SelectOne(options) =>
      && state.Chosen?
      && (state.index == None <==> "" !in options)
      && (state.index.Some? ==> state.index.value < |options| && options[state.index.value] == "")
    case SelectMany(options) =>
      state.Picked? && |state.selected| == |options| && forall j :: 0 <= j < |options| ==> !state.selected[j]
    case _ => true
  }

  lemma {:induction false} IndexOfFinds(options: seq<string>, value: string)
    ensures IndexOf(options, value) == None <==> value !in options
    ensures IndexOf(options, value).Some? ==>
              IndexOf(options, value).value < |options| && options[IndexOf(options, value).value] == value
    decreases |options|
  {
    if options != [] { IndexOfFinds(options[1..], value); }
  }

  lemma {:induction false} NoValues(entries: seq<Entry>, name: string)
    requires forall e :: e in entries && e.name == name ==> e.value.FileValue?
    ensures Values(entries, name) == []
    decreases |entries|
  {
    if entries != [] {
      assert entries[|entries| - 1] in entries;
      NoValues(entries[..|entries| - 1], name);
    }
  }

  lemma WrittenFromNothing(control: Control, rank: nat, was: FieldState)
    ensures IsCleared(control, Written(control, [], rank, was))
  {
    if control.kind.SelectOne? { IndexOfFinds(control.kind.options, ""); }
  }

  lemma SetKeepsCleared(form: seq<Control>, states: seq<FieldState>, i: nat, next: FieldState, k: nat)
    requires |states| == |form| && k < i < |form| && IsCleared(form[k], states[k])
    ensures IsCleared(form[k], SetField(form, states, i, next)[k])
  {
  }

  /** Writing back entries that hold no text for a control's name clears the control, whatever it held. */
  lemma {:induction false} NothingSentClears(form: seq<Control>, states: seq<FieldState>, entries: seq<Entry>, i: nat, k: nat)
    requires |states| == |form| && k < i <= |form| && Writable(form[k])
    requires forall e :: e in entries && e.name == form[k].name ==> e.value.FileValue?
    ensures IsCleared(form[k], Applied(form, states, entries, i)[k])
    decreases i
  {
    var before, c := Applied(form, states, entries, i - 1), form[i - 1];
    if k == i - 1 {
      NoValues(entries, c.name);
      WrittenFromNothing(c, Rank(form, k, c.name), before[k]);
    } else {
      NothingSentClears(form, states, entries, i - 1, k);
      if Writable(c) {
        SetKeepsCleared(form, before, i - 1, Written(c, Values(entries, c.name), Rank(form, i - 1, c.name), before[i - 1]), k);
      }
    }
  }

  lemma {:induction false} AppliedRestores(form: seq<Control>, first: seq<FieldState>, second: seq<FieldState>, entries: seq<Entry>, i: nat)
    requires AllFit(form, first) && |second| == |form| && OneRadioOn(form, first) && Restores(form, first, entries)
    requires i <= |form|
    ensures RestoredUpTo(form, first, second, i, Applied(form, second, entries, i))
    decreases i
  {
    if i > 0 {
      AppliedRestores(form, first, second, entries, i - 1);
      AppliedStep(form, first, second, entries, i - 1);
    }
  }

  /**
   Writing the entries read in one state of a form into another state of it restores every control
   that can be written, and leaves files, buttons and React's own fields as they are.
   */
  lemma WriteBackInvertsRead(form: seq<Control>, first: seq<FieldState>, second: seq<FieldState>)
    requires WellFormed(form) && AllFit(form, first) && AllFit(form, second) && OneRadioOn(form, first)
    ensures Apply(form, second, Read(form, first)) == Mix(form, first, second)
  {
    ReadRestores(form, first);
    AppliedRestores(form, first, second, Read(form, first), |form|);
  }

  predicate NoFiles(form: seq<Control>) {
    forall i :: 0 <= i < |form| ==> !form[i].kind.FileBox?
  }

  lemma {:induction false} FrameworkLeavesNoTrace(entries: seq<Entry>)
    requires forall i :: 0 <= i < |entries| ==> IsFrameworkField(entries[i].name)
    ensures Snapshot(entries) == []
    decreases |entries|
  {
    if entries != [] { FrameworkLeavesNoTrace(entries[..|entries| - 1]); }
  }

  /** A control that is not written back leaves no trace in the snapshot, files aside. */
  lemma UnwrittenUnseen(control: Control, state: FieldState)
    requires Fits(control, state) && !Writable(control) && !control.kind.FileBox?
    ensures Snapshot(EntriesOf(control, state)) == []
  {
    if control.name != "" && IsFrameworkField(control.name) {
      FrameworkLeavesNoTrace(EntriesOf(control, state));
    }
  }

  /** What one control shows of the mixed state is what it showed in the first. */
  lemma ControlShowsFirst(control: Control, first: FieldState, second: FieldState)
    requires Fits(control, first) && Fits(control, second) && !control.kind.FileBox?
    ensures Snapshot(EntriesOf(control, if Writable(control) then first else second)) == Snapshot(EntriesOf(control, first))
  {
    if !Writable(control) {
      UnwrittenUnseen(control, first);
      UnwrittenUnseen(control, second);
    }
  }

  lemma SnapshotOfRead(form: seq<Control>, states: seq<FieldState>)
    requires AllFit(form, states) && form != []
    ensures var n := |form| - 1;
            Snapshot(Read(form, states)) == Snapshot(Read(form[..n], states[..n])) + Snapshot(EntriesOf(form[n], states[n]))
  {
    var n := |form| - 1;
    FlatMapAppend(Read(form[..n], states[..n]), EntriesOf(form[n], states[n]), Shown);
  }

  // ---- what a snapshot tells ----

  /** The texts a snapshot lists under a name, in order. */
  function ListedUnder(shot: seq<(string, string)>, name: string): seq<string>
    decreases |shot|
  {
    if shot == [] then []
    else
      var n := |shot| - 1;
      ListedUnder(shot[..n], name) + (if shot[n].0 == name then [shot[n].1] else [])
  }

  lemma {:induction false} ListedAppend(a: seq<(string, string)>, b: seq<(string, string)>, name: string)
    ensures ListedUnder(a + b, name) == ListedUnder(a, name) + ListedUnder(b, name)
    decreases |b|
  {
    if b == [] {
      assert a + b == a;
    } else {
      var n := |b| - 1;
      ListedAppend(a, b[..n], name);
      assert (a + b)[..|a + b| - 1] == a + b[..n];
    }
  }

  /** What one control adds to the snapshot. */
  function ShotOfControl(control: Control, state: FieldState): seq<(string, string)>
    requires Fits(control, state)
  {
    Snapshot(EntriesOf(control, state))
  }

  /** What one control lists under a name. */
  function Piece(control: Control, state: FieldState, name: string): seq<string>
    requires Fits(control, state)
  {
    ListedUnder(ShotOfControl(control, state), name)
  }

  lemma ListedSnoc(shot: seq<(string, string)>, name: string, text: string, other: string)
    ensures ListedUnder(shot + [(name, text)], other) == ListedUnder(shot, other) + if name == other then [text] else []
  {
    assert (shot + [(name, text)])[..|shot|] == shot;
  }

  /** Entries of one name are listed under that name only. */
  lemma {:induction false} ListedElsewhere(entries: seq<Entry>, owner: string, name: string)
    requires owner != name
    requires forall i :: 0 <= i < |entries| ==> entries[i].name == owner
    ensures ListedUnder(Snapshot(entries), name) == []
    decreases |entries|
  {
    if entries != [] {
      var n := |entries| - 1;
      ListedElsewhere(entries[..n], owner, name);
      ListedAppend(Snapshot(entries[..n]), Shown(entries[n]), name);
    }
  }

  lemma {:induction false} ListedTexts(name: string, texts: seq<string>)
    requires !IsFrameworkField(name)
    ensures ListedUnder(Snapshot(TextEntries(name, texts)), name) == texts
    decreases |texts|
  {
    if texts != [] {
      var n := |texts| - 1;
      ListedTexts(name, texts[..n]);
      assert TextEntries(name, texts) == TextEntries(name, texts[..n]) + [Entry(name, TextValue(texts[n]))];
      FlatMapSnoc(TextEntries(name, texts[..n]), Entry(name, TextValue(texts[n])), Shown);
      ListedSnoc(Snapshot(TextEntries(name, texts[..n])), name, texts[n], name);
    }
  }

  /** A control that can be written lists its texts under its own name, and nothing elsewhere. */
  lemma PieceIs(control: Control, state: FieldState, name: string)
    requires Fits(control, state)
    ensures control.name != name ==> Piece(control, state, name) == []
    ensures Writable(control) && control.name == name ==> Piece(control, state, name) == TextsOf(control, state)
  {
    if control.name != name {
      ListedElsewhere(EntriesOf(control, state), control.name, name);
    } else if Writable(control) {
      ListedTexts(name, TextsOf(control, state));
      assert EntriesOf(control, state) == TextEntries(name, TextsOf(control, state));
    }
  }

  /** Everything listed under a name, control by control. */
  lemma ListedOfRead(form: seq<Control>, states: seq<FieldState>, name: string)
    requires AllFit(form, states) && form != []
    ensures var n := |form| - 1;
            ListedUnder(Snapshot(Read(form, states)), name)
            == ListedUnder(Snapshot(Read(form[..n], states[..n])), name) + Piece(form[n], states[n], name)
  {
    var n := |form| - 1;
    SnapshotOfRead(form, states);
    ListedAppend(Snapshot(Read(form[..n], states[..n])), ShotOfControl(form[n], states[n]), name);
  }

  /** Both states list the same under a name. */
  ghost predicate ListSame(form: seq<Control>, a: seq<FieldState>, b: seq<FieldState>, name: string)
    requires AllFit(form, a) && AllFit(form, b)
  {
    ListedUnder(Snapshot(Read(form, a)), name) == ListedUnder(Snapshot(Read(form, b)), name)
  }

  lemma SplitPiece(a: seq<string>, p: seq<string>, b: seq<string>, q: seq<string>)
    requires a + p == b + q && |p| == |q|
    ensures a == b && p == q
  {
    assert a == (a + p)[..|a|] && b == (b + q)[..|b|];
    assert p == (a + p)[|a|..] && q == (b + q)[|b|..];
  }

  /** Every control lists as many texts under a name in both states. */
  ghost predicate SameLengths(form: seq<Control>, a: seq<FieldState>, b: seq<FieldState>, name: string)
    requires AllFit(form, a) && AllFit(form, b)
  {
    forall k :: 0 <= k < |form| ==> |Piece(form[k], a[k], name)| == |Piece(form[k], b[k], name)|
  }

  /** What each control lists under a name. */
  function Pieces(form: seq<Control>, states: seq<FieldState>, name: string): (r: seq<seq<string>>)
    requires AllFit(form, states)
    ensures |r| == |form|
  {
    seq(|form|, i requires 0 <= i < |form| => Piece(form[i], states[i], name))
  }

  function Joined(pieces: seq<seq<string>>): seq<string> {
    if pieces == [] then [] else Joined(pieces[..|pieces| - 1]) + pieces[|pieces| - 1]
  }

  lemma {:induction false} ListedIsJoined(form: seq<Control>, states: seq<FieldState>, name: string)
    requires AllFit(form, states)
    ensures ListedUnder(Snapshot(Read(form, states)), name) == Joined(Pieces(form, states, name))
    decreases |form|
  {
    if form != [] {
      var n := |form| - 1;
      ListedIsJoined(form[..n], states[..n], name);
      ListedOfRead(form, states, name);
      assert Pieces(form, states, name)[..n] == Pieces(form[..n], states[..n], name);
    }
  }

  lemma {:induction false} JoinedSplits(p: seq<seq<string>>, q: seq<seq<string>>)
    requires |p| == |q| && Joined(p) == Joined(q)
    requires forall k :: 0 <= k < |p| ==> |p[k]| == |q[k]|
    ensures p == q
    decreases |p|
  {
    if p != [] {
      var n := |p| - 1;
      SplitPiece(Joined(p[..n]), p[n], Joined(q[..n]), q[n]);
      JoinedSplits(p[..n], q[..n]);
      assert p == p[..n] + [p[n]] && q == q[..n] + [q[n]];
    }
  }

  /** Then equal lists have equal pieces. */
  lemma SamePieces(form: seq<Control>, a: seq<FieldState>, b: seq<FieldState>, name: string, i: nat)
    requires AllFit(form, a) && AllFit(form, b) && i < |form| && ListSame(form, a, b, name) && SameLengths(form, a, b, name)
    ensures Piece(form[i], a[i], name) == Piece(form[i], b[i], name)
  {
    ListedIsJoined(form, a, name);
    ListedIsJoined(form, b, name);
    JoinedSplits(Pieces(form, a, name), Pieces(form, b, name));
    assert Pieces(form, a, name)[i] == Pieces(form, b, name)[i];
  }

  /** How often a text is listed under a name. */
  function Count(form: seq<Control>, states: seq<FieldState>, name: string, value: string): nat
    requires AllFit(form, states)
  {
    multiset(ListedUnder(Snapshot(Read(form, states)), name))[value]
  }

  function Share(control: Control, state: FieldState, name: string, value: string): nat
    requires Fits(control, state)
  {
    multiset(Piece(control, state, name))[value]
  }

  lemma CountSnoc(form: seq<Control>, states: seq<FieldState>, name: string, value: string)
    requires AllFit(form, states) && form != []
    ensures var n := |form| - 1;
            Count(form, states, name, value)
            == Count(form[..n], states[..n], name, value) + Share(form[n], states[n], name, value)
  {
    ListedOfRead(form, states, name);
  }

  /** No control but control i lists the text more often in one state than in the other. */
  ghost predicate SameElsewhere(form: seq<Control>, a: seq<FieldState>, b: seq<FieldState>, name: string, value: string, i: nat)
    requires AllFit(form, a) && AllFit(form, b)
  {
    forall k :: 0 <= k < |form| && k != i ==> Share(form[k], a[k], name, value) == Share(form[k], b[k], name, value)
  }

  lemma ElsewhereOfPrefix(form: seq<Control>, a: seq<FieldState>, b: seq<FieldState>, name: string, value: string, i: nat)
    requires AllFit(form, a) && AllFit(form, b) && form != [] && SameElsewhere(form, a, b, name, value, i)
    ensures var n := |form| - 1; SameElsewhere(form[..n], a[..n], b[..n], name, value, i)
  {
  }

  /** Then the counts differ by what control i lists. */
  lemma {:induction false} CountsDiffer(form: seq<Control>, a: seq<FieldState>, b: seq<FieldState>, name: string, value: string, i: nat)
    requires AllFit(form, a) && AllFit(form, b) && SameElsewhere(form, a, b, name, value, i)
    ensures Count(form, a, name, value) - Count(form, b, name, value)
            == if i < |form| then Share(form[i], a[i], name, value) - Share(form[i], b[i], name, value) else 0
    decreases |form|
  {
    if form != [] {
      var n := |form| - 1;
      ElsewhereOfPrefix(form, a, b, name, value, i);
      CountsDiffer(form[..n], a[..n], b[..n], name, value, i);
      CountsSnoc(form, a, b, name, value);
    }
  }

  lemma CountsSnoc(form: seq<Control>, a: seq<FieldState>, b: seq<FieldState>, name: string, value: string)
    requires AllFit(form, a) && AllFit(form, b) && form != []
    ensures var n := |form| - 1;
            Count(form, a, name, value) - Count(form, b, name, value)
            == Count(form[..n], a[..n], name, value) - Count(form[..n], b[..n], name, value)
               + Share(form[n], a[n], name, value) - Share(form[n], b[n], name, value)
  {
    CountSnoc(form, a, name, value);
    CountSnoc(form, b, name, value);
  }

  /** A file box shows the same of both states. */
  ghost predicate FileShowsSame(control: Control, a: FieldState, b: FieldState)
    requires Fits(control, a) && Fits(control, b)
  {
    control.kind.FileBox? ==> ShotOfControl(control, a) == ShotOfControl(control, b)
  }

  ghost predicate FilesShowSame(form: seq<Control>, a: seq<FieldState>, b: seq<FieldState>)
    requires AllFit(form, a) && AllFit(form, b)
  {
    forall k :: 0 <= k < |form| ==> FileShowsSame(form[k], a[k], b[k])
  }

  /** A control that is not written lists as much in both states, if files show the same where they share its name. */
  lemma OthersListSame(control: Control, a: FieldState, b: FieldState, name: string)
    requires Fits(control, a) && Fits(control, b) && name != "" && !IsFrameworkField(name)
    requires !Writable(control) || control.name != name
    requires control.name == name ==> FileShowsSame(control, a, b)
    ensures Piece(control, a, name) == Piece(control, b, name)
  {
    PieceIs(control, a, name);
    PieceIs(control, b, name);
    if control.name == name && !control.kind.FileBox? {
      UnwrittenUnseen(control, a);
      UnwrittenUnseen(control, b);
    }
  }

  /** Files that share a name with control i show the same of both states. */
  ghost predicate SharedFilesSame(form: seq<Control>, a: seq<FieldState>, b: seq<FieldState>, i: nat)
    requires AllFit(form, a) && AllFit(form, b) && i < |form|
  {
    forall k :: 0 <= k < |form| && form[k].name == form[i].name ==> FileShowsSame(form[k], a[k], b[k])
  }

  lemma TakersListOne(form: seq<Control>, a: seq<FieldState>, b: seq<FieldState>, i: nat)
    requires WellFormed(form) && AllFit(form, a) && AllFit(form, b) && i < |form|
    requires Writable(form[i]) && TakesValue(form[i]) && SharedFilesSame(form, a, b, i)
    ensures SameLengths(form, a, b, form[i].name)
  {
    var name := form[i].name;
    forall k | 0 <= k < |form|
      ensures |Piece(form[k], a[k], name)| == |Piece(form[k], b[k], name)|
    {
      if Writable(form[k]) && form[k].name == name {
        TakersTogether(form, i, k);
        PieceIs(form[k], a[k], name);
        PieceIs(form[k], b[k], name);
      } else {
        OthersListSame(form[k], a[k], b[k], name);
      }
    }
  }

  lemma TakersTogether(form: seq<Control>, i: nat, k: nat)
    requires WellFormed(form) && i < |form| && k < |form|
    requires Writable(form[i]) && TakesValue(form[i]) && Writable(form[k]) && form[k].name == form[i].name
    ensures TakesValue(form[k])
  {
    assert k < i ==> Compatible(form[k].kind, form[i].kind);
    assert k > i ==> Compatible(form[i].kind, form[k].kind);
  }

  /** A control that takes one value: equal lists give it equal texts, and distinct options one index. */
  lemma TakerIsTold(form: seq<Control>, a: seq<FieldState>, b: seq<FieldState>, i: nat)
    requires WellFormed(form) && AllFit(form, a) && AllFit(form, b) && i < |form|
    requires Writable(form[i]) && TakesValue(form[i]) && SharedFilesSame(form, a, b, i)
    requires ListSame(form, a, b, form[i].name)
    ensures a[i] == b[i]
  {
    TakersListOne(form, a, b, i);
    SamePieces(form, a, b, form[i].name, i);
    PieceIs(form[i], a[i], form[i].name);
    PieceIs(form[i], b[i], form[i].name);
    OneTextOneState(form[i], a[i], b[i]);
  }

  lemma OneTextOneState(control: Control, a: FieldState, b: FieldState)
    requires Fits(control, a) && Fits(control, b) && TakesValue(control) && TextsOf(control, a) == TextsOf(control, b)
    requires control.kind.SelectOne? ==> NoRepeats(control.kind.options)
    ensures a == b
  {
    assert TextsOf(control, a)[0] == TextsOf(control, b)[0];
  }

  /** Of the controls of a name, only control i can list one of the values it offers. */
  lemma ValueIsTold(form: seq<Control>, a: seq<FieldState>, b: seq<FieldState>, i: nat, value: string)
    requires WellFormed(form) && AllFit(form, a) && AllFit(form, b) && i < |form|
    requires Writable(form[i]) && Offers(form[i].kind, value) && SharedFilesSame(form, a, b, i)
    requires ListSame(form, a, b, form[i].name)
    ensures value in TextsOf(form[i], a[i]) <==> value in TextsOf(form[i], b[i])
  {
    var name := form[i].name;
    forall k | 0 <= k < |form| && k != i
      ensures Share(form[k], a[k], name, value) == Share(form[k], b[k], name, value)
    {
      if Writable(form[k]) && form[k].name == name {
        NotOfferedTwice(form, i, k, value);
        NotOffered(form[k], a[k], value);
        NotOffered(form[k], b[k], value);
        PieceIs(form[k], a[k], name);
        PieceIs(form[k], b[k], name);
      } else {
        OthersListSame(form[k], a[k], b[k], name);
      }
    }
    CountsDiffer(form, a, b, name, value, i);
    PieceIs(form[i], a[i], name);
    PieceIs(form[i], b[i], name);
  }

  lemma NotOfferedTwice(form: seq<Control>, i: nat, k: nat, value: string)
    requires WellFormed(form) && i < |form| && k < |form| && i != k
    requires Writable(form[i]) && Writable(form[k]) && form[k].name == form[i].name && Offers(form[i].kind, value)
    ensures !Offers(form[k].kind, value) && !TakesValue(form[k])
  {
    assert if i < k then Compatible(form[i].kind, form[k].kind) else Compatible(form[k].kind, form[i].kind);
  }

  lemma NotOffered(control: Control, state: FieldState, value: string)
    requires Fits(control, state) && Writable(control) && !TakesValue(control) && !Offers(control.kind, value)
    ensures value !in TextsOf(control, state)
  {
    if control.kind.SelectMany? { PickedHas(control.kind.options, state.selected, value); }
  }

  lemma FieldIsTold(form: seq<Control>, a: seq<FieldState>, b: seq<FieldState>, i: nat)
    requires WellFormed(form) && AllFit(form, a) && AllFit(form, b) && i < |form|
    requires Writable(form[i]) && SharedFilesSame(form, a, b, i) && ListSame(form, a, b, form[i].name)
    ensures a[i] == b[i]
  {
    match form[i].kind
    case CheckBox(value) => ValueIsTold(form, a, b, i, value);
    case RadioButton(value) => ValueIsTold(form, a, b, i, value);
    case SelectMany(options) =>
      forall j | 0 <= j < |options|
        ensures a[i].selected[j] == b[i].selected[j]
      {
        ValueIsTold(form, a, b, i, options[j]);
        PickedAt(options, a[i].selected, j);
        PickedAt(options, b[i].selected, j);
      }
      assert a[i].selected == b[i].selected;
    case _ => TakerIsTold(form, a, b, i);
  }

  /** The two states differ in some control that can be written back. */
  predicate FieldsDiffer(form: seq<Control>, a: seq<FieldState>, b: seq<FieldState>)
    requires |a| == |form| == |b|
  {
    exists i :: 0 <= i < |form| && Writable(form[i]) && a[i] != b[i]
  }

  lemma {:induction false} SameFieldsSameShot(form: seq<Control>, a: seq<FieldState>, b: seq<FieldState>)
    requires AllFit(form, a) && AllFit(form, b) && FilesShowSame(form, a, b) && !FieldsDiffer(form, a, b)
    ensures Snapshot(Read(form, a)) == Snapshot(Read(form, b))
    decreases |form|
  {
    if form != [] {
      var n := |form| - 1;
      assert !FieldsDiffer(form[..n], a[..n], b[..n]) by {
        assert forall i :: 0 <= i < n ==> form[..n][i] == form[i];
      }
      assert FilesShowSame(form[..n], a[..n], b[..n]);
      SameFieldsSameShot(form[..n], a[..n], b[..n]);
      SnapshotOfRead(form, a);
      SnapshotOfRead(form, b);
      if !Writable(form[n]) && !form[n].kind.FileBox? {
        UnwrittenUnseen(form[n], a[n]);
        UnwrittenUnseen(form[n], b[n]);
      }
    }
  }

  /** Equal snapshots are equal fields: in every control that can be written whose name no file box shares. */
  lemma SnapshotTellsField(form: seq<Control>, a: seq<FieldState>, b: seq<FieldState>, i: nat)
    requires WellFormed(form) && AllFit(form, a) && AllFit(form, b)
    requires Snapshot(Read(form, a)) == Snapshot(Read(form, b))
    requires i < |form| && Writable(form[i])
    requires forall k :: 0 <= k < |form| && form[k].name == form[i].name ==> !form[k].kind.FileBox?
    ensures a[i] == b[i]
  {
    FieldIsTold(form, a, b, i);
  }

  /**
   Two states whose files show the same have different snapshots exactly when they differ in a control
   that can be written back: comparing what a form would submit misses nothing a person types or picks.
   */
  lemma SnapshotTellsExactly(form: seq<Control>, a: seq<FieldState>, b: seq<FieldState>)
    requires WellFormed(form) && AllFit(form, a) && AllFit(form, b) && FilesShowSame(form, a, b)
    ensures Snapshot(Read(form, a)) != Snapshot(Read(form, b)) <==> FieldsDiffer(form, a, b)
  {
    if Snapshot(Read(form, a)) == Snapshot(Read(form, b)) {
      forall i | 0 <= i < |form| && Writable(form[i])
        ensures a[i] == b[i]
      {
        FieldIsTold(form, a, b, i);
      }
    }
    if !FieldsDiffer(form, a, b) { SameFieldsSameShot(form, a, b); }
  }

  lemma MixFits(form: seq<Control>, first: seq<FieldState>, second: seq<FieldState>)
    requires AllFit(form, first) && AllFit(form, second)
    ensures AllFit(form, Mix(form, first, second))
  {
  }

  lemma {:induction false} SnapshotOfMix(form: seq<Control>, first: seq<FieldState>, second: seq<FieldState>)
    requires AllFit(form, first) && AllFit(form, second) && NoFiles(form)
    ensures AllFit(form, Mix(form, first, second))
    ensures Snapshot(Read(form, Mix(form, first, second))) == Snapshot(Read(form, first))
    decreases |form|
  {
    var mixed := Mix(form, first, second);
    MixFits(form, first, second);
    if form != [] {
      var n := |form| - 1;
      SnapshotOfMix(form[..n], first[..n], second[..n]);
      assert mixed[..n] == Mix(form[..n], first[..n], second[..n]);
      SnapshotOfRead(form, mixed);
      SnapshotOfRead(form, first);
      ControlShowsFirst(form[n], first[n], second[n]);
    }
  }

  predicate NoFrameworkFields(form: seq<Control>) {
    forall i :: 0 <= i < |form| ==> !IsFrameworkField(form[i].name)
  }

  lemma {:induction false} ReadOfMix(form: seq<Control>, first: seq<FieldState>, second: seq<FieldState>)
    requires AllFit(form, first) && AllFit(form, second) && NoFiles(form) && NoFrameworkFields(form)
    ensures AllFit(form, Mix(form, first, second))
    ensures Read(form, Mix(form, first, second)) == Read(form, first)
    decreases |form|
  {
    var mixed := Mix(form, first, second);
    MixFits(form, first, second);
    if form != [] {
      var n := |form| - 1;
      ReadOfMix(form[..n], first[..n], second[..n]);
      assert mixed[..n] == Mix(form[..n], first[..n], second[..n]);
      assert EntriesOf(form[n], mixed[n]) == EntriesOf(form[n], first[n]);
    }
  }

  /** Without files and React's own fields, the form then submits exactly the entries read, in order. */
  lemma WriteBackSubmitsEntries(form: seq<Control>, first: seq<FieldState>, second: seq<FieldState>)
    requires WellFormed(form) && AllFit(form, first) && AllFit(form, second) && OneRadioOn(form, first)
    requires NoFiles(form) && NoFrameworkFields(form)
    ensures AllFit(form, Apply(form, second, Read(form, first)))
    ensures Read(form, Apply(form, second, Read(form, first))) == Read(form, first)
  {
    WriteBackInvertsRead(form, first, second);
    ReadOfMix(form, first, second);
  }

  /** After a write-back a form without files submits what was read, React's own fields aside. */
  lemma WriteBackSubmitsTheSame(form: seq<Control>, first: seq<FieldState>, second: seq<FieldState>)
    requires WellFormed(form) && AllFit(form, first) && AllFit(form, second) && OneRadioOn(form, first) && NoFiles(form)
    ensures AllFit(form, Apply(form, second, Read(form, first)))
    ensures Snapshot(Read(form, Apply(form, second, Read(form, first)))) == Snapshot(Read(form, first))
  {
    WriteBackInvertsRead(form, first, second);
    SnapshotOfMix(form, first, second);
  }
}
