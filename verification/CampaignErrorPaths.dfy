/**
 Where a validator error lands on the campaign form: the path of a row in the printed definition
 resolves back to exactly that row (apps/admin/lib/campaign-rules.ts).
 */
module CampaignErrorPaths {
  import opened Options
  import opened Text
  import opened JsonValues
  import opened CampaignRules
  import opened CampaignForms

  /** conditions.all[root], or conditions.all[root].any[any] */
  datatype RowPath = RowPath(root: nat, any: Option<nat>)

  /** The place the printed definition gives row i. */
  function PathOf(rows: seq<Row>, i: nat): RowPath
    requires i < |rows|
  {
    var k := FirstAny(rows);
    if rows[i].group == Any then RowPath(k, Some(|Only(rows[..i], Any)|))
    else if i < k then RowPath(i, None)
    else RowPath(k + 1 + |Only(rows[k..i], All)|, None)
  }

  /** What a definition's root list holds at a path. */
  function ConditionAt(all: seq<Json>, path: RowPath): Option<Json> {
    if path.root >= |all| then None
    else
      match path.any
      case None => Some(all[path.root])
      case Some(j) =>
        var children := ArrayAt(Field(all[path.root], "any"));
        if j < |children| then Some(children[j]) else None
  }

  /** The row at a path, through the layout of the form. */
  function RowAtPath(rows: seq<Row>, path: RowPath): Option<Row> {
    var layout := Layout(rows);
    if path.root >= |layout| then None
    else
      match layout[path.root]
      case AnySlot =>
        var anyRows := Only(rows, Any);
        if path.any.Some? && path.any.value < |anyRows| then Some(anyRows[path.any.value]) else None
      case Single(row) => if path.any.None? then Some(row) else None
  }

  /** What the pass over the rows has built after the rows of p. */
  ghost predicate Placed(p: seq<Row>, layout: seq<Slot>, anyPlaced: bool) {
    layout == Layout(p) && anyPlaced == (FirstAny(p) < |p|)
  }

  /** One row of the pass: it takes a place of its own, or the group's place if that is not taken. */
  method PlaceRow(ghost p: seq<Row>, row: Row, layout: seq<Slot>, anyPlaced: bool) returns (now: seq<Slot>, placed: bool)
    requires Placed(p, layout, anyPlaced)
    ensures Placed(p + [row], now, placed)
  {
    LayoutSnoc(p, row);
    now, placed := layout, anyPlaced;
    match row.group
    case Any =>
      if !anyPlaced {
        now := layout + [AnySlot];
        placed := true;
      }
    case All =>
      now := layout + [Single(row)];
  }

  /** rowAt: the layout rebuilt in one pass over the rows. */
  method RowAt(rows: seq<Row>, rootIndex: nat, anyIndex: Option<nat>) returns (row: Option<Row>)
    ensures row == RowAtPath(rows, RowPath(rootIndex, anyIndex))
  {
    var layout: seq<Slot> := [];
    var anyPlaced := false;
    for i := 0 to |rows|
      invariant Placed(rows[..i], layout, anyPlaced)
    {
      assert rows[..i + 1] == rows[..i] + [rows[i]];
      layout, anyPlaced := PlaceRow(rows[..i], rows[i], layout, anyPlaced);
    }
    assert rows[..|rows|] == rows;
    if rootIndex >= |layout| {
      return None;
    }
    var anyRows := Only(rows, Any);
    match layout[rootIndex]
    case AnySlot =>
      row := if anyIndex.Some? && anyIndex.value < |anyRows| then Some(anyRows[anyIndex.value]) else None;
    case Single(r) =>
      row := if anyIndex.None? then Some(r) else None;
  }

  // ---- positions inside a group ----

  lemma {:induction false} OnlyIndex(rows: seq<Row>, i: nat)
    requires i < |rows|
    ensures var g := rows[i].group;
            |Only(rows[..i], g)| < |Only(rows, g)| && Only(rows, g)[|Only(rows[..i], g)|] == rows[i]
    decreases |rows|
  {
    var front := rows[..|rows| - 1];
    if i < |front| {
      OnlyIndex(front, i);
      assert front[..i] == rows[..i];
    }
  }

  lemma {:induction false} OnlyOrigin(rows: seq<Row>, group: Group, j: nat) returns (i: nat)
    requires j < |Only(rows, group)|
    ensures i < |rows| && rows[i].group == group && |Only(rows[..i], group)| == j && rows[i] == Only(rows, group)[j]
    decreases |rows|
  {
    var front := rows[..|rows| - 1];
    if j < |Only(front, group)| {
      i := OnlyOrigin(front, group, j);
      assert front[..i] == rows[..i];
    } else {
      i := |rows| - 1;
    }
  }

  lemma OnlyGrows(rows: seq<Row>, i: nat, j: nat)
    requires i < j <= |rows|
    ensures |Only(rows[..i], rows[i].group)| < |Only(rows[..j], rows[i].group)|
  {
    OnlyIndex(rows[..j], i);
    assert rows[..j][..i] == rows[..i];
  }

  // ---- the bijection ----

  /** The path of a row holds that row's condition in the printed definition. */
  lemma PathHoldsCondition(cat: Catalog, rows: seq<Row>, i: nat)
    requires i < |rows|
    ensures ConditionAt(RootList(cat, rows, AnyGroup(cat, rows)), PathOf(rows, i)) == Some(Condition(cat, rows[i]))
  {
    PathResolves(rows, i);
    RootListIsLayout(cat, rows, AnyGroup(cat, rows));
    ShownCondition(cat, rows, PathOf(rows, i), rows[i], RootList(cat, rows, AnyGroup(cat, rows)), Layout(rows));
  }

  lemma GroupChildren(cat: Catalog, rows: seq<Row>)
    ensures ArrayAt(Field(AnyGroup(cat, rows), "any")) == Conditions(cat, Only(rows, Any))
  {
  }

  lemma ShownCondition(cat: Catalog, rows: seq<Row>, path: RowPath, row: Row, all: seq<Json>, layout: seq<Slot>)
    requires layout == Layout(rows) && Shows(cat, all, layout, AnyGroup(cat, rows))
    requires path.root < |layout| && RowAtPath(rows, path) == Some(row)
    ensures ConditionAt(all, path) == Some(Condition(cat, row))
  {
    GroupChildren(cat, rows);
    assert all[path.root] == SlotJson(cat, layout[path.root], AnyGroup(cat, rows));
  }

  /** The path of a row resolves to that row. */
  lemma PathResolves(rows: seq<Row>, i: nat)
    requires i < |rows|
    ensures PathOf(rows, i).root < |Layout(rows)|
    ensures RowAtPath(rows, PathOf(rows, i)) == Some(rows[i])
  {
    var k := FirstAny(rows);
    match rows[i].group
    case Any =>
      assert k <= i;
      OnlyIndex(rows, i);
    case All =>
      if i >= k {
        OnlyIndex(rows[k..], i - k);
        assert rows[k..][..i - k] == rows[k..i];
      }
  }

  /** Distinct rows have distinct paths. */
  lemma PathsDistinct(rows: seq<Row>, i: nat, j: nat)
    requires i < j < |rows|
    ensures PathOf(rows, i) != PathOf(rows, j)
  {
    var k := FirstAny(rows);
    if rows[i].group == rows[j].group {
      if rows[i].group == Any {
        OnlyGrows(rows, i, j);
      } else if k <= i {
        OnlyGrowsFrom(rows, k, i, j);
      }
    }
  }

  lemma OnlyGrowsFrom(rows: seq<Row>, k: nat, i: nat, j: nat)
    requires k <= i < j <= |rows|
    ensures |Only(rows[k..i], rows[i].group)| < |Only(rows[k..j], rows[i].group)|
  {
    OnlyGrows(rows[k..], i - k, j - k);
    assert rows[k..][..i - k] == rows[k..i];
    assert rows[k..][..j - k] == rows[k..j];
  }

  /** A path that resolves is the path of a row: anything outside the printed layout resolves to none. */
  lemma ResolvedPathIsPrinted(rows: seq<Row>, path: RowPath) returns (i: nat)
    requires RowAtPath(rows, path).Some?
    ensures i < |rows| && PathOf(rows, i) == path && RowAtPath(rows, path) == Some(rows[i])
  {
    var k := FirstAny(rows);
    if path.root < k {
      i := path.root;
    } else if path.root == k {
      i := OnlyOrigin(rows, Any, path.any.value);
    } else {
      var o := OnlyOrigin(rows[k..], All, path.root - k - 1);
      i := k + o;
      assert rows[k..][..o] == rows[k..i];
    }
  }

  // ---- paths as text ----

  predicate IsLetter(c: char) {
    'A' <= c <= 'Z' || 'a' <= c <= 'z'
  }

  datatype ConditionPath = ConditionPath(path: RowPath, argument: Option<string>)

  /** `[digits]` at the start of the text after the bracket: the number and what follows. */
  function ReadIndex(s: string): Option<(nat, string)> {
    var n := Run(s, IsDigit);
    if n > 0 && n < |s| && s[n] == ']' then Some((Value(s[..n]), s[n + 1..])) else None
  }

  const ALL_HEAD := "conditions.all["
  const ANY_HEAD := ".any["

  function ReadArgument(s: string): Option<string> {
    if s == "" || s[0] != '.' then None
    else
      var n := Run(s[1..], IsLetter);
      if n > 0 then Some(s[1..][..n]) else None
  }

  /** What follows conditions.all[root]: an index into the "any" group, or not, then an argument, or not. */
  function ReadPlace(root: nat, rest: string): ConditionPath {
    match (if ANY_HEAD <= rest then ReadIndex(rest[|ANY_HEAD|..]) else None)
    case None => ConditionPath(RowPath(root, None), ReadArgument(rest))
    case Some((j, tail)) => ConditionPath(RowPath(root, Some(j)), ReadArgument(tail))
  }

  /** ^conditions\.all\[(\d+)\](?:\.any\[(\d+)\])?(?:\.([A-Za-z]+))? */
  function ReadConditionPath(s: string): Option<ConditionPath> {
    match (if ALL_HEAD <= s then ReadIndex(s[|ALL_HEAD|..]) else None)
    case None => None
    case Some((root, rest)) => Some(ReadPlace(root, rest))
  }

  datatype ErrorTarget = FieldTarget(field: string) | ConditionTarget(conditionId: string, argument: Option<string>)

  const LIMITS := ["maxRedemptionsPerProvider", "maxRedemptionsGlobal", "maxRedemptionsPerDay", "budgetCredits", "maxRevokesPerDay"]

  /** The paths of the fields that are not conditions. */
  function PlainField(path: string): Option<string> {
    if path == "trigger" then Some("trigger")
    else if "eligibility" <= path then Some("facts")
    else if path == "benefit.credits" then Some("credits")
    else if path == "benefit.expiresInDays" then Some("expiresInDays")
    else if path == "priority" then Some("priority")
    else if path == "channel" then Some("channel")
    else if path == "benefit.creditPolicy.spendPriority" then Some("spendPriority")
    else if path == "benefit.creditPolicy.adminDeductPolicy" then Some("adminDeductPolicy")
    else if "benefit.creditPolicy" <= path then Some("creditPolicy")
    else if "limits." <= path && path[7..] in LIMITS then Some(path[7..])
    else if path == "window.startAt" then Some("windowStartAt")
    else if path == "window.endAt" then Some("windowEndAt")
    else None
  }

  /** errorFieldOf */
  function ErrorFieldOf(path: string, rows: seq<Row>): ErrorTarget {
    match PlainField(path)
    case Some(field) => FieldTarget(field)
    case None =>
      match ReadConditionPath(path)
      case Some(ConditionPath(place, argument)) =>
        var row := RowAtPath(rows, place);
        if row.Some? && argument != Some("any") then ConditionTarget(row.value.id, argument) else FieldTarget("conditions")
      case None =>
        if "conditions" <= path then FieldTarget("conditions") else FieldTarget("form")
  }

  function Tail(argument: Option<string>, suffix: string): string {
    match argument case None => "" case Some(name) => "." + name + suffix
  }

  /** A path as the validator writes it, with whatever it appends after an argument's name. */
  function PathText(path: RowPath, argument: Option<string>, suffix: string): string {
    ALL_HEAD + Decimal(path.root) + "]"
    + (match path.any case None => "" case Some(j) => ANY_HEAD + Decimal(j) + "]")
    + Tail(argument, suffix)
  }

  predicate IsArgumentName(name: string) {
    name != "" && name != "any" && forall k :: 0 <= k < |name| ==> IsLetter(name[k])
  }

  lemma IndexReads(n: nat, rest: string)
    ensures ReadIndex(Decimal(n) + "]" + rest) == Some((n, rest))
  {
    var d := Decimal(n);
    var s := d + "]" + rest;
    assert s == d + ("]" + rest);
    RunStops(d, "]" + rest, IsDigit);
    assert s[..|d|] == d && s[|d| + 1..] == rest;
    ValueOfDecimal(n);
  }

  lemma ArgumentReads(name: string, suffix: string)
    requires name != "" && forall k :: 0 <= k < |name| ==> IsLetter(name[k])
    requires suffix == "" || !IsLetter(suffix[0])
    ensures ReadArgument("." + name + suffix) == Some(name)
  {
    var s := "." + name + suffix;
    assert s[1..] == name + suffix;
    RunStops(name, suffix, IsLetter);
    assert (name + suffix)[..|name|] == name;
  }

  /** The argument part of a path text never reads as an index into the "any" group. */
  lemma ArgumentIsNoIndex(name: string, suffix: string)
    requires IsArgumentName(name)
    requires suffix == "" || !IsLetter(suffix[0])
    ensures !(ANY_HEAD <= "." + name + suffix)
  {
    var s := "." + name + suffix;
    if |name| > 3 {
      assert s[4] == name[3] && ANY_HEAD[4] == '[';
    } else if |name| == 3 {
      assert s[1..4] == name && ANY_HEAD[1..4] == "any";
    } else if suffix != "" {
      assert s[|name| + 1] == suffix[0];
      assert IsLetter(ANY_HEAD[|name| + 1]);
    }
  }

  lemma TailReads(argument: Option<string>, suffix: string)
    requires argument.Some? ==> IsArgumentName(argument.value)
    requires suffix == "" || !IsLetter(suffix[0])
    ensures ReadArgument(Tail(argument, suffix)) == argument
    ensures !(ANY_HEAD <= Tail(argument, suffix))
  {
    if argument.Some? {
      ArgumentReads(argument.value, suffix);
      ArgumentIsNoIndex(argument.value, suffix);
    }
  }

  lemma Regroup(a: string, b: string, c: string, d: string, e: string)
    ensures a + b + c + d + e == a + (b + c + (d + e))
  {
  }

  lemma RegroupIndex(a: string, b: string, c: string, d: string)
    ensures (a + b + c) + d == a + (b + c + d)
  {
  }

  lemma PathTextReads(path: RowPath, argument: Option<string>, suffix: string)
    requires argument.Some? ==> IsArgumentName(argument.value)
    requires suffix == "" || !IsLetter(suffix[0])
    ensures ReadConditionPath(PathText(path, argument, suffix)) == Some(ConditionPath(path, argument))
  {
    var tail := Tail(argument, suffix);
    var middle := match path.any case None => "" case Some(j) => ANY_HEAD + Decimal(j) + "]";
    var rest := middle + tail;
    TailReads(argument, suffix);
    HeadReads(path.root, rest);
    Regroup(ALL_HEAD, Decimal(path.root), "]", middle, tail);
    assert PathText(path, argument, suffix) == ALL_HEAD + (Decimal(path.root) + "]" + rest);
    match path.any
    case None =>
      assert rest == tail;
    case Some(j) =>
      RegroupIndex(ANY_HEAD, Decimal(j), "]", tail);
      PlaceReads(path.root, j, tail);
  }

  lemma PlaceReads(root: nat, j: nat, tail: string)
    ensures ReadPlace(root, ANY_HEAD + (Decimal(j) + "]" + tail)) == ConditionPath(RowPath(root, Some(j)), ReadArgument(tail))
  {
    var rest := ANY_HEAD + (Decimal(j) + "]" + tail);
    IndexReads(j, tail);
    assert rest[|ANY_HEAD|..] == Decimal(j) + "]" + tail;
  }

  lemma HeadReads(root: nat, rest: string)
    ensures ReadConditionPath(ALL_HEAD + (Decimal(root) + "]" + rest)) == Some(ReadPlace(root, rest))
  {
    var s := ALL_HEAD + (Decimal(root) + "]" + rest);
    IndexReads(root, rest);
    assert s[|ALL_HEAD|..] == Decimal(root) + "]" + rest;
  }

  lemma NoPlainField(s: string)
    requires |s| > 1 && s[0] == 'c' && s[1] == 'o'
    ensures PlainField(s) == None
  {
    assert "eligibility"[0] == 'e' && "benefit.creditPolicy"[0] == 'b' && "limits."[0] == 'l';
    assert "channel"[1] == 'h' && "trigger"[0] == 't' && "priority"[0] == 'p';
    assert "benefit.credits"[0] == 'b' && "benefit.expiresInDays"[0] == 'b';
    assert "benefit.creditPolicy.spendPriority"[0] == 'b' && "benefit.creditPolicy.adminDeductPolicy"[0] == 'b';
    assert "window.startAt"[0] == 'w' && "window.endAt"[0] == 'w';
  }

  lemma ConditionErrors(s: string, rows: seq<Row>, place: RowPath, argument: Option<string>)
    requires ReadConditionPath(s) == Some(ConditionPath(place, argument)) && argument != Some("any")
    ensures ErrorFieldOf(s, rows) ==
            var row := RowAtPath(rows, place);
            if row.Some? then ConditionTarget(row.value.id, argument) else FieldTarget("conditions")
  {
    assert s[0] == ALL_HEAD[0] && s[1] == ALL_HEAD[1];
    NoPlainField(s);
  }

  /** An error on a row's condition, or on one of its arguments, lands on that row and that argument. */
  lemma ErrorLandsOnRow(rows: seq<Row>, i: nat, argument: Option<string>, suffix: string)
    requires i < |rows|
    requires argument.Some? ==> IsArgumentName(argument.value)
    requires suffix == "" || !IsLetter(suffix[0])
    ensures ErrorFieldOf(PathText(PathOf(rows, i), argument, suffix), rows) == ConditionTarget(rows[i].id, argument)
  {
    PathTextReads(PathOf(rows, i), argument, suffix);
    PathResolves(rows, i);
    ConditionErrors(PathText(PathOf(rows, i), argument, suffix), rows, PathOf(rows, i), argument);
  }

  /** An error anywhere else in the condition list lands on the list as a whole. */
  lemma ErrorOutsideRows(rows: seq<Row>, path: RowPath, argument: Option<string>, suffix: string)
    requires forall i :: 0 <= i < |rows| ==> PathOf(rows, i) != path
    requires argument.Some? ==> IsArgumentName(argument.value)
    requires suffix == "" || !IsLetter(suffix[0])
    ensures ErrorFieldOf(PathText(path, argument, suffix), rows) == FieldTarget("conditions")
  {
    PathTextReads(path, argument, suffix);
    ConditionErrors(PathText(path, argument, suffix), rows, path, argument);
    if RowAtPath(rows, path).Some? {
      var i := ResolvedPathIsPrinted(rows, path);
    }
  }

  // ---- errors outside the condition list ----

  /** What follows the dots of a path, from a value on. */
  function Follow(value: Option<Json>, names: seq<string>): Option<Json>
    decreases |names|
  {
    if names == [] then value else Follow(FieldOf(value, names[0]), names[1..])
  }

  /** The value a definition holds at a dotted path. */
  function ValueAt(d: Json, path: string): Option<Json> {
    Follow(Some(d), Split(path, '.'))
  }

  /** The fields of the form that are no condition rows. */
  datatype FormField =
    | Trigger | Facts | Credits | ExpiresInDays
    | PerProvider | Globally | PerDay | Budget | Revokes
    | Start | End | Priority | Channel | Spending | Deducting

  /** The field's name, which is also its target. */
  function NameOf(x: FormField): string {
    match x
    case Trigger => "trigger"
    case Facts => "facts"
    case Credits => "credits"
    case ExpiresInDays => "expiresInDays"
    case PerProvider => "maxRedemptionsPerProvider"
    case Globally => "maxRedemptionsGlobal"
    case PerDay => "maxRedemptionsPerDay"
    case Budget => "budgetCredits"
    case Revokes => "maxRevokesPerDay"
    case Start => "windowStartAt"
    case End => "windowEndAt"
    case Priority => "priority"
    case Channel => "channel"
    case Spending => "spendPriority"
    case Deducting => "adminDeductPolicy"
  }

  /** What the form prints of the field. */
  function PrintedOf(form: Form, x: FormField): Json {
    match x
    case Trigger => Str(form.trigger)
    case Facts => Arr(form.facts)
    case Credits => NumberOrRaw(form.credits)
    case ExpiresInDays => NumberOrRaw(form.expiresInDays)
    case PerProvider => NumberOrRaw(form.maxRedemptionsPerProvider)
    case Globally => NumberOrRaw(form.maxRedemptionsGlobal)
    case PerDay => NumberOrRaw(form.maxRedemptionsPerDay)
    case Budget => NumberOrRaw(form.budgetCredits)
    case Revokes => NumberOrRaw(form.maxRevokesPerDay)
    case Start => InstantOrRaw(form.windowStartAt)
    case End => InstantOrRaw(form.windowEndAt)
    case Priority => NumberOrRaw(form.priority)
    case Channel => Str(form.channel)
    case Spending => Str(form.spendPriority)
    case Deducting => Str(form.adminDeductPolicy)
  }

  /** The form prints the field: facts under the eligibility trigger only, a policy with a credit benefit only. */
  predicate Prints(cat: Catalog, form: Form, x: FormField) {
    && (x.Facts? ==> form.trigger == cat.eligibilityTrigger)
    && (x.Spending? || x.Deducting? ==> cat.benefitType in cat.creditProducingTypes)
  }

  /** The path of the field in a definition. */
  function PathTo(x: FormField): string {
    match x
    case Trigger => "trigger"
    case Facts => "eligibility.facts"
    case Credits => "benefit.credits"
    case ExpiresInDays => "benefit.expiresInDays"
    case PerProvider => "limits.maxRedemptionsPerProvider"
    case Globally => "limits.maxRedemptionsGlobal"
    case PerDay => "limits.maxRedemptionsPerDay"
    case Budget => "limits.budgetCredits"
    case Revokes => "limits.maxRevokesPerDay"
    case Start => "window.startAt"
    case End => "window.endAt"
    case Priority => "priority"
    case Channel => "channel"
    case Spending => "benefit.creditPolicy.spendPriority"
    case Deducting => "benefit.creditPolicy.adminDeductPolicy"
  }

  /** Its names, from the definition inwards. */
  function NamesTo(x: FormField): seq<string> {
    match x
    case Trigger => ["trigger"]
    case Facts => ["eligibility", "facts"]
    case Credits => ["benefit", "credits"]
    case ExpiresInDays => ["benefit", "expiresInDays"]
    case PerProvider => ["limits", "maxRedemptionsPerProvider"]
    case Globally => ["limits", "maxRedemptionsGlobal"]
    case PerDay => ["limits", "maxRedemptionsPerDay"]
    case Budget => ["limits", "budgetCredits"]
    case Revokes => ["limits", "maxRevokesPerDay"]
    case Start => ["window", "startAt"]
    case End => ["window", "endAt"]
    case Priority => ["priority"]
    case Channel => ["channel"]
    case Spending => ["benefit", "creditPolicy", "spendPriority"]
    case Deducting => ["benefit", "creditPolicy", "adminDeductPolicy"]
  }

  predicate IsLimit(x: FormField) {
    x.PerProvider? || x.Globally? || x.PerDay? || x.Budget? || x.Revokes?
  }

  predicate IsWhole(x: FormField) {
    x.Trigger? || x.Priority? || x.Channel?
  }

  predicate IsPolicy(x: FormField) {
    x.Spending? || x.Deducting?
  }

  lemma WholeNames(x: FormField)
    requires IsWhole(x)
    ensures PathTo(x) == NamesTo(x)[0] && Free(NamesTo(x)[0], '.')
  {
  }

  lemma PolicyJoins()
    ensures "benefit.creditPolicy.spendPriority" == "benefit" + "." + ("creditPolicy" + "." + "spendPriority")
    ensures "benefit.creditPolicy.adminDeductPolicy" == "benefit" + "." + ("creditPolicy" + "." + "adminDeductPolicy")
  {
  }

  lemma PolicyNames(x: FormField)
    requires IsPolicy(x)
    ensures var n := NamesTo(x);
            PathTo(x) == n[0] + "." + (n[1] + "." + n[2]) && Free(n[0], '.') && Free(n[1], '.') && Free(n[2], '.')
  {
    PolicyJoins();
    assert Free("benefit", '.') && Free("creditPolicy", '.') && Free("spendPriority", '.') && Free("adminDeductPolicy", '.');
  }

  lemma RedemptionJoins()
    ensures "limits.maxRedemptionsPerProvider" == "limits" + "." + "maxRedemptionsPerProvider"
    ensures "limits.maxRedemptionsGlobal" == "limits" + "." + "maxRedemptionsGlobal"
  {
  }

  lemma DailyJoins()
    ensures "limits.maxRedemptionsPerDay" == "limits" + "." + "maxRedemptionsPerDay"
    ensures "limits.budgetCredits" == "limits" + "." + "budgetCredits"
    ensures "limits.maxRevokesPerDay" == "limits" + "." + "maxRevokesPerDay"
  {
  }

  lemma LimitsAreFree(name: string)
    requires name in LIMITS
    ensures Free(name, '.') && Free("limits", '.')
  {
  }

  lemma LimitNames(x: FormField)
    requires IsLimit(x)
    ensures var n := NamesTo(x); PathTo(x) == n[0] + "." + n[1] && Free(n[0], '.') && Free(n[1], '.')
  {
    RedemptionJoins();
    DailyJoins();
    LimitsAreFree(NameOf(x));
  }

  lemma BenefitJoins()
    ensures "eligibility.facts" == "eligibility" + "." + "facts"
    ensures "benefit.credits" == "benefit" + "." + "credits"
    ensures "benefit.expiresInDays" == "benefit" + "." + "expiresInDays"
  {
  }

  lemma WindowJoins()
    ensures "window.startAt" == "window" + "." + "startAt"
    ensures "window.endAt" == "window" + "." + "endAt"
  {
  }

  lemma OthersAreFree(name: string)
    requires name in ["eligibility", "facts", "benefit", "credits", "expiresInDays", "window", "startAt", "endAt"]
    ensures Free(name, '.')
  {
  }

  lemma OtherNames(x: FormField)
    requires !IsWhole(x) && !IsLimit(x) && !IsPolicy(x)
    ensures var n := NamesTo(x); PathTo(x) == n[0] + "." + n[1] && Free(n[0], '.') && Free(n[1], '.')
  {
    BenefitJoins();
    WindowJoins();
    OthersAreFree(NamesTo(x)[0]);
    OthersAreFree(NamesTo(x)[1]);
  }

  lemma SplitTwo(path: string, a: string, b: string)
    requires path == a + "." + b && Free(a, '.') && Free(b, '.')
    ensures Split(path, '.') == [a, b]
  {
    SplitFirst(a, '.', b);
    SplitWhole(b, '.');
  }

  lemma SplitThree(path: string, a: string, b: string, c: string)
    requires path == a + "." + (b + "." + c) && Free(a, '.') && Free(b, '.') && Free(c, '.')
    ensures Split(path, '.') == [a, b, c]
  {
    SplitFirst(a, '.', b + "." + c);
    SplitTwo(b + "." + c, b, c);
  }

  lemma PathSplits(x: FormField, names: seq<string>)
    requires names == NamesTo(x)
    ensures Split(PathTo(x), '.') == names
  {
    if IsWhole(x) {
      WholeNames(x);
      SplitWhole(names[0], '.');
    } else if IsPolicy(x) {
      PolicyNames(x);
      SplitThree(PathTo(x), names[0], names[1], names[2]);
    } else {
      if IsLimit(x) { LimitNames(x); } else { OtherNames(x); }
      SplitTwo(PathTo(x), names[0], names[1]);
    }
  }

  lemma FollowOne(value: Option<Json>, a: string)
    ensures Follow(value, [a]) == FieldOf(value, a)
  {
    assert Follow(value, [a]) == Follow(FieldOf(value, a), []);
  }

  lemma FollowTwo(value: Option<Json>, a: string, b: string)
    ensures Follow(value, [a, b]) == FieldOf(FieldOf(value, a), b)
  {
    assert [a, b][1..] == [b];
    FollowOne(FieldOf(value, a), b);
  }

  lemma FollowThree(value: Option<Json>, a: string, b: string, c: string)
    ensures Follow(value, [a, b, c]) == FieldOf(FieldOf(FieldOf(value, a), b), c)
  {
    assert [a, b, c][1..] == [b, c];
    FollowTwo(FieldOf(value, a), b, c);
  }

  /** A value under its names. */
  function Under(d: Json, n: seq<string>): Option<Json> {
    if |n| == 1 then Field(d, n[0])
    else if |n| == 2 then FieldOf(Field(d, n[0]), n[1])
    else if |n| == 3 then FieldOf(FieldOf(Field(d, n[0]), n[1]), n[2])
    else None
  }

  lemma ValueAtNames(d: Json, path: string, n: seq<string>)
    requires Split(path, '.') == n && 1 <= |n| <= 3
    ensures ValueAt(d, path) == Under(d, n)
  {
    if |n| == 1 {
      FollowOne(Some(d), n[0]);
      assert n == [n[0]];
    } else if |n| == 2 {
      FollowTwo(Some(d), n[0], n[1]);
      assert n == [n[0], n[1]];
    } else {
      FollowThree(Some(d), n[0], n[1], n[2]);
      assert n == [n[0], n[1], n[2]];
    }
  }

  lemma LimitUnder(form: Form, x: FormField, d: Json)
    requires IsLimit(x) && PrintsLimits(form, Field(d, "limits"))
    ensures Under(d, NamesTo(x)) == Some(PrintedOf(form, x))
  {
  }

  lemma PolicyUnder(cat: Catalog, form: Form, x: FormField, d: Json)
    requires IsPolicy(x) && Prints(cat, form, x) && PrintsBenefit(cat, form, Field(d, "benefit"))
    ensures Under(d, NamesTo(x)) == Some(PrintedOf(form, x))
  {
  }

  lemma OtherUnder(cat: Catalog, form: Form, all: seq<Json>, x: FormField, d: Json)
    requires !IsPolicy(x) && !IsLimit(x) && Prints(cat, form, x)
    requires PrintsHeads(cat, form, all, d) && PrintsBenefit(cat, form, Field(d, "benefit")) && PrintsWindow(form, Field(d, "window"))
    ensures Under(d, NamesTo(x)) == Some(PrintedOf(form, x))
  {
  }

  /** A definition's sections are those the form prints. */
  lemma SectionsPrint(cat: Catalog, form: Form, all: seq<Json>, d: Json)
    requires d == Draft(cat, form, all)
    ensures PrintsHeads(cat, form, all, d) && PrintsBenefit(cat, form, Field(d, "benefit"))
    ensures PrintsLimits(form, Field(d, "limits")) && PrintsWindow(form, Field(d, "window"))
  {
    DraftHeads(cat, form, all);
    DraftSections(cat, form, all);
    BenefitFields(cat, form);
    LimitsFields(form);
  }

  lemma FieldUnder(cat: Catalog, form: Form, x: FormField, d: Json)
    requires Prints(cat, form, x) && d == Definition(cat, form)
    ensures Under(d, NamesTo(x)) == Some(PrintedOf(form, x))
  {
    var all := RootList(cat, form.conditions, AnyGroup(cat, form.conditions));
    SectionsPrint(cat, form, all, d);
    if IsLimit(x) {
      LimitUnder(form, x, d);
    } else if IsPolicy(x) {
      PolicyUnder(cat, form, x, d);
    } else {
      OtherUnder(cat, form, all, x, d);
    }
  }

  /** The definition a form prints holds at a field's path what the form prints of that field. */
  lemma PathHoldsField(cat: Catalog, form: Form, x: FormField)
    requires Prints(cat, form, x)
    ensures ValueAt(Definition(cat, form), PathTo(x)) == Some(PrintedOf(form, x))
  {
    FieldHeld(cat, form, x, Definition(cat, form), PathTo(x), NamesTo(x));
  }

  lemma FieldHeld(cat: Catalog, form: Form, x: FormField, d: Json, path: string, names: seq<string>)
    requires Prints(cat, form, x) && d == Definition(cat, form) && path == PathTo(x) && names == NamesTo(x)
    ensures ValueAt(d, path) == Some(PrintedOf(form, x))
  {
    PathSplits(x, names);
    NamesAreFew(x);
    ValueAtNames(d, path, names);
    FieldUnder(cat, form, x, d);
  }

  /** And nothing there when the form does not print the field. */
  lemma PathHoldsNothing(cat: Catalog, form: Form, x: FormField)
    requires !Prints(cat, form, x)
    ensures ValueAt(Definition(cat, form), PathTo(x)) == None
  {
    NothingHeld(cat, form, x, Definition(cat, form), PathTo(x), NamesTo(x));
  }

  lemma NothingHeld(cat: Catalog, form: Form, x: FormField, d: Json, path: string, names: seq<string>)
    requires !Prints(cat, form, x) && d == Definition(cat, form) && path == PathTo(x) && names == NamesTo(x)
    ensures ValueAt(d, path) == None
  {
    PathSplits(x, names);
    NamesAreFew(x);
    ValueAtNames(d, path, names);
    NothingUnder(cat, form, x, d);
  }

  lemma NothingUnder(cat: Catalog, form: Form, x: FormField, d: Json)
    requires !Prints(cat, form, x) && d == Definition(cat, form)
    ensures Under(d, NamesTo(x)) == None
  {
    var all := RootList(cat, form.conditions, AnyGroup(cat, form.conditions));
    SectionsPrint(cat, form, all, d);
    if x.Facts? { NoFactsUnder(cat, form, all, d); } else { NoPolicyUnder(cat, form, x, d); }
  }

  lemma NoFactsUnder(cat: Catalog, form: Form, all: seq<Json>, d: Json)
    requires PrintsHeads(cat, form, all, d) && form.trigger != cat.eligibilityTrigger
    ensures Under(d, NamesTo(Facts)) == None
  {
  }

  lemma NoPolicyUnder(cat: Catalog, form: Form, x: FormField, d: Json)
    requires IsPolicy(x) && !Prints(cat, form, x) && PrintsBenefit(cat, form, Field(d, "benefit"))
    ensures Under(d, NamesTo(x)) == None
  {
  }

  lemma NamesAreFew(x: FormField)
    ensures 1 <= |NamesTo(x)| <= 3
  {
  }

  lemma LimitPath(path: string, name: string)
    requires path == "limits" + "." + name && name in LIMITS
    ensures PlainField(path) == Some(name)
  {
    assert path[0] == 'l' && path[7..] == name && "limits." <= path;
  }

  lemma PlainPathIsFound(x: FormField)
    ensures PlainField(PathTo(x)) == Some(NameOf(x))
  {
    if IsLimit(x) {
      LimitNames(x);
      LimitPath(PathTo(x), NameOf(x));
    } else if x.Facts? {
      assert "eligibility.facts"[..11] == "eligibility";
    } else if x.Start? || x.End? {
      FirstLetters();
    } else {
      BenefitPathIsFound(x);
    }
  }

  lemma BenefitPathIsFound(x: FormField)
    requires !IsLimit(x) && !x.Facts? && !x.Start? && !x.End?
    ensures PlainField(PathTo(x)) == Some(NameOf(x))
  {
    assert "eligibility"[0] == 'e';
  }

  /**
   An error at the path where the printed definition holds a field of the form lands on that field,
   whatever the form's rows.
   */
  lemma ErrorLandsOnField(cat: Catalog, form: Form, x: FormField, rows: seq<Row>)
    requires Prints(cat, form, x)
    ensures ValueAt(Definition(cat, form), PathTo(x)) == Some(PrintedOf(form, x))
    ensures ErrorFieldOf(PathTo(x), rows) == FieldTarget(NameOf(x))
  {
    PathHoldsField(cat, form, x);
    PlainPathIsFound(x);
  }

  lemma FirstLetters()
    ensures "eligibility"[0] == 'e' && "benefit.creditPolicy"[0] == 'b' && "limits."[0] == 'l' && "conditions"[0] == 'c'
    ensures "trigger"[0] == 't' && "priority"[0] == 'p' && "channel"[0] == 'c' && "channel"[1] == 'h' && "conditions"[1] == 'o'
    ensures "window.startAt"[0] == 'w' && "window.endAt"[0] == 'w'
    ensures "benefit.credits"[0] == 'b' && "benefit.expiresInDays"[0] == 'b'
    ensures |"benefit.credits"| < 20 && |"benefit.creditPolicy"| == 20
  {
  }

  /** An error anywhere in the eligibility section lands on the facts. */
  lemma ErrorInFacts(rest: string, rows: seq<Row>)
    ensures ErrorFieldOf("eligibility" + rest, rows) == FieldTarget("facts")
  {
    FirstLetters();
    assert ("eligibility" + rest)[0] == 'e';
    assert "eligibility" <= "eligibility" + rest;
  }

  /** An error in the credit policy that is not at one of its choices lands on the policy as a whole. */
  lemma ErrorInPolicy(path: string, rows: seq<Row>)
    requires "benefit.creditPolicy" <= path && path != PathTo(Spending) && path != PathTo(Deducting)
    ensures ErrorFieldOf(path, rows) == FieldTarget("creditPolicy")
  {
    PolicyPrefix(path);
    InPolicy(path);
  }

  lemma PolicyPrefix(path: string)
    requires "benefit.creditPolicy" <= path
    ensures path[0] == 'b' && path != "benefit.credits" && path != "benefit.expiresInDays"
  {
    FirstLetters();
    assert path[0] == 'b' && path[..20] == "benefit.creditPolicy" && path[8] == path[..20][8];
    assert "benefit.expiresInDays"[8] == 'e' && "benefit.creditPolicy"[8] == 'c';
  }

  lemma InPolicy(path: string)
    requires "benefit.creditPolicy" <= path && path != PathTo(Spending) && path != PathTo(Deducting)
    requires path[0] == 'b' && path != "benefit.credits" && path != "benefit.expiresInDays"
    ensures PlainField(path) == Some("creditPolicy")
  {
    FirstLetters();
  }

  lemma LimitPathIs(path: string)
    requires "limits." <= path && path[7..] in LIMITS
    ensures exists x :: IsLimit(x) && path == PathTo(x)
  {
    var name := path[7..];
    assert path == "limits." + name;
    RedemptionJoins();
    DailyJoins();
    assert "limits." == "limits" + ".";
    assert IsLimit(PerProvider) && IsLimit(Globally) && IsLimit(PerDay) && IsLimit(Budget) && IsLimit(Revokes);
    assert path == PathTo(PerProvider) || path == PathTo(Globally) || path == PathTo(PerDay) || path == PathTo(Budget) || path == PathTo(Revokes);
  }

  lemma NoLimitPath(path: string)
    requires forall x :: path != PathTo(x)
    ensures !("limits." <= path && path[7..] in LIMITS)
  {
    if "limits." <= path && path[7..] in LIMITS { LimitPathIs(path); }
  }

  lemma NoFieldPath(path: string)
    requires forall x :: path != PathTo(x)
    ensures path != "trigger" && path != "benefit.credits" && path != "benefit.expiresInDays" && path != "priority"
    ensures path != "channel" && path != "window.startAt" && path != "window.endAt"
  {
    assert path != PathTo(Trigger) && path != PathTo(Credits) && path != PathTo(ExpiresInDays) && path != PathTo(Priority);
    assert path != PathTo(Channel) && path != PathTo(Start) && path != PathTo(End);
  }

  lemma NotPlain(path: string)
    requires !("eligibility" <= path) && !("benefit.creditPolicy" <= path) && forall x :: path != PathTo(x)
    ensures PlainField(path) == None
  {
    NoFieldPath(path);
    NoLimitPath(path);
    assert path != PathTo(Spending) && path != PathTo(Deducting);
  }

  /** An error that is at none of these places lands on the condition list, or on the form as a whole. */
  lemma ErrorElsewhere(path: string, rows: seq<Row>)
    requires !("eligibility" <= path) && !("benefit.creditPolicy" <= path) && forall x :: path != PathTo(x)
    requires ReadConditionPath(path) == None
    ensures ErrorFieldOf(path, rows) == FieldTarget(if "conditions" <= path then "conditions" else "form")
  {
    NotPlain(path);
  }

  /** An error at a group as a whole, not inside it, lands on the list. */
  lemma ErrorAtGroup(root: nat, suffix: string, rows: seq<Row>)
    requires suffix == "" || (!IsLetter(suffix[0]) && suffix[0] != '[')
    ensures ErrorFieldOf(PathText(RowPath(root, None), Some("any"), suffix), rows) == FieldTarget("conditions")
  {
    var tail := Tail(Some("any"), suffix);
    GroupTail(root, suffix);
    Regroup(ALL_HEAD, Decimal(root), "]", "", tail);
    assert "" + tail == tail;
    HeadReads(root, tail);
    ErrorAtPlace(PathText(RowPath(root, None), Some("any"), suffix), rows, RowPath(root, None));
  }

  lemma GroupTail(root: nat, suffix: string)
    requires suffix == "" || (!IsLetter(suffix[0]) && suffix[0] != '[')
    ensures ReadPlace(root, Tail(Some("any"), suffix)) == ConditionPath(RowPath(root, None), Some("any"))
  {
    var tail := Tail(Some("any"), suffix);
    ArgumentReads("any", suffix);
    assert tail == "." + "any" + suffix;
    assert !(ANY_HEAD <= tail) by {
      if suffix != "" { assert tail[4] == suffix[0] && ANY_HEAD[4] == '['; }
    }
  }

  lemma ErrorAtPlace(s: string, rows: seq<Row>, place: RowPath)
    requires ReadConditionPath(s) == Some(ConditionPath(place, Some("any")))
    ensures ErrorFieldOf(s, rows) == FieldTarget("conditions")
  {
    assert s[0] == ALL_HEAD[0] && s[1] == ALL_HEAD[1];
    NoPlainField(s);
  }

  /** The outermost letters of both cases are letters of a name; the characters next to them end it. */
  lemma NameEndsBesideLetters(name: string, c: char)
    requires name == "AZaz" && c in "@[`{"
    ensures ReadArgument("." + name + [c]) == Some(name)
  {
    ArgumentReads(name, [c]);
  }

  /** Without digits between the brackets there is no row to find: the error lands on the list. */
  lemma ErrorWithoutIndex(rest: string, rows: seq<Row>)
    requires rest == "" || !IsDigit(rest[0])
    ensures ErrorFieldOf(ALL_HEAD + rest, rows) == FieldTarget("conditions")
  {
    var s := ALL_HEAD + rest;
    assert s[|ALL_HEAD|..] == rest && Run(rest, IsDigit) == 0;
    assert s[0] == ALL_HEAD[0] && s[1] == ALL_HEAD[1];
    NoPlainField(s);
    assert "conditions" <= ALL_HEAD && s[..10] == ALL_HEAD[..10];
  }

  /** What follows a row's path and is no argument's name is ignored: the error lands on the row itself. */
  lemma ErrorBesideArgument(rows: seq<Row>, i: nat, rest: string)
    requires i < |rows| && (rest == "" || (rest[0] == '.' && (|rest| == 1 || !IsLetter(rest[1]))) || (rest[0] != '.' && rest[0] != '['))
    ensures ErrorFieldOf(PathText(PathOf(rows, i), None, "") + rest, rows) == ConditionTarget(rows[i].id, None)
  {
    var path := PathOf(rows, i);
    var middle := match path.any case None => "" case Some(j) => ANY_HEAD + Decimal(j) + "]";
    var s := PathText(path, None, "") + rest;
    NoNameReads(rest);
    RegroupRest(ALL_HEAD, Decimal(path.root), "]", middle, rest);
    assert s == ALL_HEAD + (Decimal(path.root) + "]" + (middle + rest));
    HeadReads(path.root, middle + rest);
    match path.any {
      case None => assert middle + rest == rest;
      case Some(j) =>
        RegroupIndex(ANY_HEAD, Decimal(j), "]", rest);
        PlaceReads(path.root, j, rest);
    }
    PathResolves(rows, i);
    ConditionErrors(s, rows, path, None);
  }

  lemma RegroupRest(a: string, b: string, c: string, d: string, e: string)
    ensures (a + b + c + d + "") + e == a + (b + c + (d + e))
  {
  }

  lemma NoNameReads(rest: string)
    requires rest == "" || (rest[0] == '.' && (|rest| == 1 || !IsLetter(rest[1]))) || (rest[0] != '.' && rest[0] != '[')
    ensures ReadArgument(rest) == None && !(ANY_HEAD <= rest)
  {
    if |rest| > 1 { assert IsLetter(ANY_HEAD[1]) && ANY_HEAD[0] == '.'; }
  }
}
