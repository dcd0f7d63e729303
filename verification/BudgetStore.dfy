/** Durable call intents, reservations and late settlements (apps/server/src/budget_store.rs). All
    mutations run one after another under one lock; what group budgets, run control and repair
    bookkeeping answer is an input of each operation. */
module BudgetStore {
  import opened Options
  import opened Totals
  import opened Budget

  type Requirement = nat
  type Turn = string

  datatype RunKey = RunKey(run: string, request: string, incarnation: string)
  datatype Purpose = Coding | Repair | Summary
  datatype Intent = Intent(key: RunKey, turn: Turn, purpose: Purpose, reserve: Amount)

  datatype Account = Account(limits: Amount, version: nat, exhausted: bool)
  datatype Grant = Grant(request: string, actor: string, reason: string, delta: Amount, limits: Amount)
  datatype CallId = CallId(run: string, turn: Turn)
  datatype Call = Call(requirement: Requirement, intent: Intent, reserved: Amount, usage: Usage)
  datatype EventId = EventId(call: CallId, event: string)
  datatype GrantId = GrantId(requirement: Requirement, version: nat)

  /** `holds`: resources a started repair run still holds until its first call takes them over;
      `owner` is the requirement of a run, `frozen` the limits first frozen, for the record only. */
  datatype State = State(
    accounts: map<Requirement, Account>, grants: map<GrantId, Grant>, calls: map<CallId, Call>, events: map<EventId, Usage>,
    holds: map<string, Amount>, frozen: map<Requirement, Amount>)

  datatype Increase = Increase(request: string, requirement: Requirement, expected: nat, actor: string, reason: string, delta: Amount)

  datatype Op =
    | Freeze(requirement: Requirement, limits: Amount)
    | Raise(input: Increase, grouped: bool)
    | Reserve(intent: Intent, allowed: bool, admitted: bool, prepaid: bool, groupAllows: bool)
    | Settle(key: RunKey, turn: Turn, event: string, usage: Usage, groupExhausted: bool)

  datatype Answer = Done | Reserved | Existing | Blocked | Failed

  // ---------------------------------------------------------------- the balance

  function CallsOf(s: State, r: Requirement): set<CallId> { set c | c in s.calls && s.calls[c].requirement == r }

  function HoldsOf(s: State, owner: string -> Requirement, r: Requirement): set<string> { set k | k in s.holds && owner(k) == r }

  function Natural(n: int): nat { if n >= 0 then n else 0 }

  function KnownPart(call: Call, d: Dimension): nat { Natural(call.usage.Known().At(d)) }

  function ChargedPart(call: Call, d: Dimension): nat { Natural(call.usage.Charged(call.reserved).At(d)) }

  ghost function KnownParts(calls: map<CallId, Call>, ids: set<CallId>, d: Dimension): map<CallId, nat> {
    map c | c in ids && c in calls :: KnownPart(calls[c], d)
  }

  ghost function ChargedParts(calls: map<CallId, Call>, ids: set<CallId>, d: Dimension): map<CallId, nat> {
    map c | c in ids && c in calls :: ChargedPart(calls[c], d)
  }

  ghost function HeldParts(holds: map<string, Amount>, ids: set<string>, d: Dimension): map<string, nat> {
    map k | k in ids && k in holds :: Natural(holds[k].At(d))
  }

  ghost function Used(s: State, r: Requirement, d: Dimension): nat { Total(KnownParts(s.calls, CallsOf(s, r), d)) }

  ghost function Held(s: State, owner: string -> Requirement, r: Requirement, d: Dimension): nat {
    Total(HeldParts(s.holds, HoldsOf(s, owner, r), d))
  }

  /** Known usage and outstanding reservations of the calls, and what repairs still hold. */
  ghost function Exposed(s: State, owner: string -> Requirement, r: Requirement, d: Dimension): nat {
    Total(ChargedParts(s.calls, CallsOf(s, r), d)) + Held(s, owner, r, d)
  }

  ghost function UsedAmount(s: State, r: Requirement): Amount { Amount(Used(s, r, Tokens), Used(s, r, Turns), Used(s, r, Seconds)) }

  ghost function Exposure(s: State, owner: string -> Requirement, r: Requirement): Amount {
    Amount(Exposed(s, owner, r, Tokens), Exposed(s, owner, r, Turns), Exposed(s, owner, r, Seconds))
  }

  /** balance() can be computed in 64-bit integers. */
  ghost predicate Countable(s: State, owner: string -> Requirement, r: Requirement) {
    UsedAmount(s, r).Bounded() && Exposure(s, owner, r).Bounded()
  }

  // ---------------------------------------------------------------- one operation

  predicate ValidIntent(i: Intent) { 0 < |i.turn| <= 200 && i.reserve.Positive() && i.reserve.turns == 1 }

  function Fresh(s: State, intent: Intent, r: Requirement): State {
    s.(calls := s.calls[CallId(intent.key.run, intent.turn) := Call(r, intent, intent.reserve, UNUSED)])
  }

  function Stopped(s: State, r: Requirement): State {
    if r in s.accounts then s.(accounts := s.accounts[r := s.accounts[r].(exhausted := true)]) else s
  }

  /** reserve() once the balance has been read: whether it could be computed, and its exposure. */
  function ReserveAt(s: State, r: Requirement, op: Op, countable: bool, exposure: Amount): (State, Answer)
    requires op.Reserve?
  {
    var i, id := op.intent, CallId(op.intent.key.run, op.intent.turn);
    if !ValidIntent(i) then (s, Failed)
    else if !op.allowed then (s, Blocked)
    else if id in s.calls then (s, if s.calls[id].intent == i then Existing else Failed)
    else if !op.admitted then (s, Blocked)
    else if r !in s.accounts || !countable then (s, Failed)
    else if s.accounts[r].exhausted || !exposure.Fits(s.accounts[r].limits) || !op.prepaid then (Stopped(s, r), Blocked)
    else if i.key.run in s.holds then
      if s.holds[i.key.run] != i.reserve then (s, Failed)
      else (Fresh(s, i, r).(holds := s.holds - {i.key.run}), Reserved)
    else if !FitsBeside(exposure, i.reserve, s.accounts[r].limits) || !op.groupAllows then (Stopped(s, r), Blocked)
    else (Fresh(s, i, r), Reserved)
  }

  ghost function AfterReserve(s: State, owner: string -> Requirement, op: Op): (State, Answer)
    requires op.Reserve?
  {
    var r := owner(op.intent.key.run);
    ReserveAt(s, r, op, Countable(s, owner, r), Exposure(s, owner, r))
  }

  predicate FitsBeside(exposure: Amount, reserve: Amount, limits: Amount) {
    var total := exposure.CheckedAdd(reserve);
    total.Some? && total.value.Fits(limits)
  }

  /** A report whose call, run identity and event identity are the ones on record. */
  predicate Addressed(s: State, op: Op)
    requires op.Settle?
  {
    var id := CallId(op.key.run, op.turn);
    op.event != "" && op.usage.Valid() && id in s.calls && s.calls[id].intent.key == op.key &&
    (EventId(id, op.event) in s.events ==> s.events[EventId(id, op.event)] == op.usage)
  }

  function Merged(s: State, op: Op): State
    requires op.Settle? && Addressed(s, op)
  {
    var id := CallId(op.key.run, op.turn);
    s.(events := s.events[EventId(id, op.event) := op.usage],
       calls := s.calls[id := s.calls[id].(usage := s.calls[id].usage.Merge(op.usage))])
  }

  predicate Over(used: Amount, exposure: Amount, limits: Amount) { used.ExecutionExhausted(limits) || !exposure.Fits(limits) }

  ghost predicate OverLimit(s: State, owner: string -> Requirement, r: Requirement)
    requires r in s.accounts
  {
    Over(UsedAmount(s, r), Exposure(s, owner, r), s.accounts[r].limits)
  }

  /** settle() once the new balance has been read. */
  function SettleAt(s: State, op: Op, countable: bool, used: Amount, exposure: Amount): (State, Answer)
    requires op.Settle?
  {
    if !Addressed(s, op) then (s, Failed)
    else
      var t, id := Merged(s, op), CallId(op.key.run, op.turn);
      var r := s.calls[id].requirement;
      if !t.calls[id].usage.Valid() || r !in s.accounts || !countable then (s, Failed)
      else if Over(used, exposure, s.accounts[r].limits) || op.groupExhausted then (Stopped(t, r), Done)
      else (t, Done)
  }

  ghost function AfterSettle(s: State, owner: string -> Requirement, op: Op): (State, Answer)
    requires op.Settle?
  {
    if !Addressed(s, op) then (s, Failed)
    else
      var t, r := Merged(s, op), s.calls[CallId(op.key.run, op.turn)].requirement;
      SettleAt(s, op, Countable(t, owner, r), UsedAmount(t, r), Exposure(t, owner, r))
  }

  /** Unicode white space, which trimming removes. */
  predicate White(c: char) {
    '\t' <= c <= '\r' || c in {' ', '\U{85}', '\U{A0}', '\U{1680}', '\U{2028}', '\U{2029}', '\U{202F}', '\U{205F}', '\U{3000}'} ||
    '\U{2000}' <= c <= '\U{200A}'
  }

  predicate Blank(s: string) { forall c :: c in s ==> White(c) }

  predicate ValidIncrease(i: Increase) {
    i.request != "" && !Blank(i.actor) && !Blank(i.reason) && i.delta.NonNegative() && i.delta != NOTHING
  }

  /** The grant a request identity already names. */
  predicate Granted(s: State, g: GrantId, request: string) { g in s.grants && s.grants[g].request == request }

  predicate Taken(s: State, request: string) { exists g :: g in s.grants && Granted(s, g, request) }

  predicate SameRequest(s: State, g: GrantId, i: Increase)
    requires g in s.grants
  {
    g.requirement == i.requirement && g.version == i.expected + 1 &&
    s.grants[g].actor == i.actor && s.grants[g].reason == i.reason && s.grants[g].delta == i.delta
  }

  function AfterRaise(s: State, op: Op): (State, Answer)
    requires op.Raise?
  {
    var i := op.input;
    var r := i.requirement;
    if !ValidIncrease(i) then (s, Failed)
    else if Taken(s, i.request) then
      (s, if exists g :: g in s.grants && Granted(s, g, i.request) && SameRequest(s, g, i) then Done else Failed)
    else if op.grouped || r !in s.accounts || s.accounts[r].version != i.expected then (s, Failed)
    else
      var limits := s.accounts[r].limits.CheckedAdd(i.delta);
      if limits.None? then (s, Failed)
      else
        (s.(grants := s.grants[GrantId(r, i.expected + 1) := Grant(i.request, i.actor, i.reason, i.delta, limits.value)],
            accounts := s.accounts[r := Account(limits.value, i.expected + 1, false)]), Done)
  }

  /** The request identity of the first authorization. */
  function Initial(r: Requirement): string { "initial-budget:" + Digits(r) }

  function Digits(n: nat): string { if n < 10 then [(n + 48) as char] else Digits(n / 10) + [(n % 10 + 48) as char] }

  const LOCAL_USER := "local-user"
  const FIRST_REVIEW := "initial reviewed authorization"

  function AfterFreeze(s: State, op: Op): State
    requires op.Freeze?
  {
    var r := op.requirement;
    var t := if r in s.accounts then s
      else s.(accounts := s.accounts[r := Account(op.limits, 1, false)], frozen := s.frozen[r := op.limits]);
    if GrantId(r, 1) in t.grants || Taken(t, Initial(r)) then t
    else
      var limits := t.accounts[r].limits;
      t.(grants := t.grants[GrantId(r, 1) := Grant(Initial(r), LOCAL_USER, FIRST_REVIEW, limits, limits)])
  }

  ghost function Answered(s: State, owner: string -> Requirement, op: Op): (State, Answer) {
    match op
    case Freeze(requirement, limits) => (AfterFreeze(s, op), Done)
    case Raise(input, grouped) => AfterRaise(s, op)
    case Reserve(intent, allowed, admitted, prepaid, groupAllows) => AfterReserve(s, owner, op)
    case Settle(key, turn, event, usage, groupExhausted) => AfterSettle(s, owner, op)
  }

  ghost function Step(s: State, owner: string -> Requirement, op: Op): State { Answered(s, owner, op).0 }

  ghost function Execute(s: State, owner: string -> Requirement, ops: seq<Op>): State
    decreases |ops|
  {
    if ops == [] then s else Execute(Step(s, owner, ops[0]), owner, ops[1..])
  }

  // ---------------------------------------------------------------- what every operation keeps

  predicate ValidCall(c: CallId, call: Call, owner: string -> Requirement, accounts: map<Requirement, Account>) {
    c == CallId(call.intent.key.run, call.intent.turn) && call.requirement == owner(call.intent.key.run) &&
    call.requirement in accounts && ValidIntent(call.intent) && call.reserved == call.intent.reserve && call.usage.Valid()
  }

  predicate ValidCalls(s: State, owner: string -> Requirement) {
    (forall c :: c in s.calls ==> ValidCall(c, s.calls[c], owner, s.accounts)) && forall k :: k in s.holds ==> s.holds[k].NonNegative()
  }

  lemma FreshKeepsCalls(s: State, owner: string -> Requirement, i: Intent, r: Requirement)
    requires ValidCalls(s, owner) && ValidIntent(i) && r in s.accounts && owner(i.key.run) == r
    ensures ValidCalls(Fresh(s, i, r), owner)
  {
  }

  lemma ReserveKeepsCalls(s: State, owner: string -> Requirement, op: Op)
    requires ValidCalls(s, owner) && op.Reserve?
    ensures ValidCalls(AfterReserve(s, owner, op).0, owner)
  {
    var r := owner(op.intent.key.run);
    if AfterReserve(s, owner, op).1 == Reserved { FreshKeepsCalls(s, owner, op.intent, r); }
  }

  lemma SettleKeepsCalls(s: State, owner: string -> Requirement, op: Op)
    requires ValidCalls(s, owner) && op.Settle?
    ensures ValidCalls(AfterSettle(s, owner, op).0, owner)
  {
    if AfterSettle(s, owner, op).1 == Done {
      var t, id := Merged(s, op), CallId(op.key.run, op.turn);
      assert ValidCall(id, s.calls[id], owner, s.accounts);
      assert ValidCalls(t, owner);
    }
  }

  lemma StepKeepsCalls(s: State, owner: string -> Requirement, op: Op)
    requires ValidCalls(s, owner)
    ensures ValidCalls(Step(s, owner, op), owner)
  {
    match op
    case Reserve(_, _, _, _, _) => ReserveKeepsCalls(s, owner, op);
    case Settle(_, _, _, _, _) => SettleKeepsCalls(s, owner, op);
    case Raise(_, _) => RaiseKeepsCalls(s, owner, op);
    case Freeze(_, _) => FreezeKeepsCalls(s, owner, op);
  }

  lemma RaiseKeepsCalls(s: State, owner: string -> Requirement, op: Op)
    requires ValidCalls(s, owner) && op.Raise?
    ensures ValidCalls(AfterRaise(s, op).0, owner)
  {
    var t := AfterRaise(s, op).0;
    assert t.calls == s.calls && t.holds == s.holds && t.accounts.Keys >= s.accounts.Keys;
  }

  lemma FreezeKeepsCalls(s: State, owner: string -> Requirement, op: Op)
    requires ValidCalls(s, owner) && op.Freeze?
    ensures ValidCalls(AfterFreeze(s, op), owner)
  {
    var t := AfterFreeze(s, op);
    assert t.calls == s.calls && t.holds == s.holds && t.accounts.Keys >= s.accounts.Keys;
  }

  // ---------------------------------------------------------------- how one operation moves the sums

  lemma FreshPart(i: Intent, r: Requirement, d: Dimension)
    requires ValidIntent(i)
    ensures KnownPart(Call(r, i, i.reserve, UNUSED), d) == 0 && ChargedPart(Call(r, i, i.reserve, UNUSED), d) == i.reserve.At(d)
  {
  }

  lemma FreshParts(s: State, owner: string -> Requirement, i: Intent, r: Requirement, d: Dimension)
    requires ValidIntent(i) && CallId(i.key.run, i.turn) !in s.calls
    ensures CallsOf(Fresh(s, i, r), r) == CallsOf(s, r) + {CallId(i.key.run, i.turn)}
    ensures Exposed(Fresh(s, i, r), owner, r, d) == Exposed(s, owner, r, d) + i.reserve.At(d)
  {
    var t, id := Fresh(s, i, r), CallId(i.key.run, i.turn);
    FreshPart(i, r, d);
    assert CallsOf(t, r) == CallsOf(s, r) + {id};
    var charged := ChargedParts(s.calls, CallsOf(s, r), d);
    assert ChargedParts(t.calls, CallsOf(t, r), d) == charged[id := ChargedPart(t.calls[id], d)];
    TotalWith(charged, id, i.reserve.At(d));
  }

  lemma ReleasedHold(s: State, owner: string -> Requirement, run: string, r: Requirement, d: Dimension)
    requires run in s.holds && owner(run) == r && s.holds[run].NonNegative()
    ensures Held(s.(holds := s.holds - {run}), owner, r, d) + s.holds[run].At(d) == Held(s, owner, r, d)
  {
    var t := s.(holds := s.holds - {run});
    var held := HeldParts(s.holds, HoldsOf(s, owner, r), d);
    assert HeldParts(t.holds, HoldsOf(t, owner, r), d) == held - {run};
    TotalWithout(held, run);
  }

  lemma TakenOver(s: State, owner: string -> Requirement, i: Intent, r: Requirement, d: Dimension)
    requires ValidIntent(i) && CallId(i.key.run, i.turn) !in s.calls
    requires i.key.run in s.holds && owner(i.key.run) == r && s.holds[i.key.run] == i.reserve
    ensures Exposed(Fresh(s, i, r).(holds := s.holds - {i.key.run}), owner, r, d) == Exposed(s, owner, r, d)
  {
    FreshParts(s, owner, i, r, d);
    ReleasedHold(Fresh(s, i, r), owner, i.key.run, r, d);
    assert CallsOf(Fresh(s, i, r).(holds := s.holds - {i.key.run}), r) == CallsOf(Fresh(s, i, r), r);
  }

  lemma FreshExposure(s: State, owner: string -> Requirement, i: Intent, r: Requirement)
    requires ValidIntent(i) && CallId(i.key.run, i.turn) !in s.calls
    ensures Exposure(Fresh(s, i, r), owner, r) == Exposure(s, owner, r).Plus(i.reserve)
  {
    FreshParts(s, owner, i, r, Tokens);
    FreshParts(s, owner, i, r, Turns);
    FreshParts(s, owner, i, r, Seconds);
  }

  lemma TakenOverExposure(s: State, owner: string -> Requirement, i: Intent, r: Requirement)
    requires ValidIntent(i) && CallId(i.key.run, i.turn) !in s.calls
    requires i.key.run in s.holds && owner(i.key.run) == r && s.holds[i.key.run] == i.reserve
    ensures Exposure(Fresh(s, i, r).(holds := s.holds - {i.key.run}), owner, r) == Exposure(s, owner, r)
  {
    TakenOver(s, owner, i, r, Tokens);
    TakenOver(s, owner, i, r, Turns);
    TakenOver(s, owner, i, r, Seconds);
  }

  /** What a reservation was admitted under. */
  lemma ReservedShape(s: State, r: Requirement, op: Op, countable: bool, exposure: Amount)
    requires op.Reserve? && ReserveAt(s, r, op, countable, exposure).1 == Reserved
    ensures var t, i := ReserveAt(s, r, op, countable, exposure).0, op.intent;
      ValidIntent(i) && CallId(i.key.run, i.turn) !in s.calls && r in s.accounts && !s.accounts[r].exhausted &&
      t.accounts == s.accounts && exposure.Fits(s.accounts[r].limits) &&
      if i.key.run in s.holds then s.holds[i.key.run] == i.reserve && t == Fresh(s, i, r).(holds := s.holds - {i.key.run})
      else t == Fresh(s, i, r) && exposure.Plus(i.reserve).Fits(s.accounts[r].limits)
  {
  }

  /** Every answer Reserved leaves the exposure within all three limits; a repair's first call takes its
      hold over without changing the exposure at all. */
  lemma ReservedFits(s: State, owner: string -> Requirement, op: Op)
    requires op.Reserve? && AfterReserve(s, owner, op).1 == Reserved
    ensures var r := owner(op.intent.key.run);
      var t := AfterReserve(s, owner, op).0;
      r in t.accounts && t.accounts == s.accounts && !t.accounts[r].exhausted && Exposure(t, owner, r).Fits(t.accounts[r].limits) &&
      (op.intent.key.run in s.holds ==> Exposure(t, owner, r) == Exposure(s, owner, r)) &&
      CallsOf(t, r) == CallsOf(s, r) + {CallId(op.intent.key.run, op.intent.turn)}
  {
    var i := op.intent;
    var r := owner(i.key.run);
    ReservedShape(s, r, op, Countable(s, owner, r), Exposure(s, owner, r));
    FreshParts(s, owner, i, r, Tokens);
    if i.key.run in s.holds {
      TakenOverExposure(s, owner, i, r);
      assert CallsOf(AfterReserve(s, owner, op).0, r) == CallsOf(Fresh(s, i, r), r);
    } else {
      FreshExposure(s, owner, i, r);
    }
  }

  lemma {:induction false} TotalOfOnes<K>(m: map<K, nat>)
    requires forall k :: k in m ==> m[k] == 1
    ensures Total(m) == |m|
    decreases |m|
  {
    if k :| k in m {
      TotalWithout(m, k);
      TotalOfOnes(m - {k});
      assert m.Keys - {k} == (m - {k}).Keys;
      assert |m| == |m.Keys| && |m - {k}| == |(m - {k}).Keys|;
    }
  }

  lemma TurnPerCall(s: State, owner: string -> Requirement, r: Requirement)
    requires ValidCalls(s, owner)
    ensures Total(ChargedParts(s.calls, CallsOf(s, r), Turns)) == |CallsOf(s, r)|
  {
    var turns := ChargedParts(s.calls, CallsOf(s, r), Turns);
    forall c | c in turns ensures turns[c] == 1 {
      assert ValidCall(c, s.calls[c], owner, s.accounts);
      ChargeCovers(s.calls[c].usage, s.calls[c].reserved, Turns);
    }
    TotalOfOnes(turns);
    assert turns.Keys == CallsOf(s, r) && |turns| == |turns.Keys|;
  }

  lemma ChargeCoversPart(s: State, owner: string -> Requirement, c: CallId, d: Dimension)
    requires ValidCalls(s, owner) && c in s.calls
    ensures KnownPart(s.calls[c], d) <= ChargedPart(s.calls[c], d)
  {
    assert ValidCall(c, s.calls[c], owner, s.accounts);
    ChargeCovers(s.calls[c].usage, s.calls[c].reserved, d);
  }

  /** The exposure counts exactly one turn per call, settled or not, besides what repairs hold; and what
      is known to be used is never more than what is charged. */
  lemma ExposureCoversUse(s: State, owner: string -> Requirement, r: Requirement, d: Dimension)
    requires ValidCalls(s, owner)
    ensures Exposed(s, owner, r, Turns) == |CallsOf(s, r)| + Held(s, owner, r, Turns)
    ensures Used(s, r, d) <= Exposed(s, owner, r, d)
  {
    TurnPerCall(s, owner, r);
    var known, charged := KnownParts(s.calls, CallsOf(s, r), d), ChargedParts(s.calls, CallsOf(s, r), d);
    forall c | c in known ensures c in charged && known[c] <= charged[c] { ChargeCoversPart(s, owner, c, d); }
    TotalMonotone(known, charged);
  }

  // ---------------------------------------------------------------- what each operation leaves alone

  predicate SameCalls(s: State, t: State) {
    t.calls.Keys == s.calls.Keys && forall c :: c in s.calls ==> t.calls[c].requirement == s.calls[c].requirement && t.calls[c].intent == s.calls[c].intent
  }

  /** Limits and versions as before; an account is at most stopped. */
  predicate AccountsKept(s: State, t: State) {
    t.accounts.Keys == s.accounts.Keys &&
    forall r :: r in s.accounts ==>
      t.accounts[r].limits == s.accounts[r].limits && t.accounts[r].version == s.accounts[r].version &&
      (s.accounts[r].exhausted ==> t.accounts[r].exhausted)
  }

  lemma StoppedShape(s: State, r: Requirement)
    ensures var t := Stopped(s, r); AccountsKept(s, t) && t == s.(accounts := t.accounts)
  {
  }

  lemma ReserveAtShape(s: State, r: Requirement, op: Op, countable: bool, exposure: Amount)
    requires op.Reserve?
    ensures var t := ReserveAt(s, r, op, countable, exposure).0;
      AccountsKept(s, t) && t.grants == s.grants && t.frozen == s.frozen && t.events == s.events &&
      if ReserveAt(s, r, op, countable, exposure).1 == Reserved
      then r in s.accounts && !s.accounts[r].exhausted && t.calls == Fresh(s, op.intent, r).calls && t.holds == s.holds - {op.intent.key.run}
      else t.calls == s.calls && t.holds == s.holds
  {
    StoppedShape(s, r);
    var t := ReserveAt(s, r, op, countable, exposure).0;
    if ReserveAt(s, r, op, countable, exposure).1 == Reserved {
      if op.intent.key.run !in s.holds { assert s.holds - {op.intent.key.run} == s.holds; }
      assert t.accounts == s.accounts;
    } else {
      assert t == s || t == Stopped(s, r);
    }
  }

  lemma ReserveShape(s: State, owner: string -> Requirement, op: Op)
    requires op.Reserve?
    ensures var t := AfterReserve(s, owner, op).0;
      var r := owner(op.intent.key.run);
      AccountsKept(s, t) && t.grants == s.grants && t.frozen == s.frozen && t.events == s.events &&
      if AfterReserve(s, owner, op).1 == Reserved
      then r in s.accounts && !s.accounts[r].exhausted && t.calls == Fresh(s, op.intent, r).calls && t.holds == s.holds - {op.intent.key.run}
      else t.calls == s.calls && t.holds == s.holds
  {
    var r := owner(op.intent.key.run);
    ReserveAtShape(s, r, op, Countable(s, owner, r), Exposure(s, owner, r));
  }

  lemma SettleAtShape(s: State, op: Op, countable: bool, used: Amount, exposure: Amount)
    requires op.Settle?
    ensures var t := SettleAt(s, op, countable, used, exposure).0;
      AccountsKept(s, t) && t.grants == s.grants && t.frozen == s.frozen && t.holds == s.holds && SameCalls(s, t)
  {
  }

  lemma SettleShape(s: State, owner: string -> Requirement, op: Op)
    requires op.Settle?
    ensures var t := AfterSettle(s, owner, op).0;
      AccountsKept(s, t) && t.grants == s.grants && t.frozen == s.frozen && t.holds == s.holds && SameCalls(s, t)
  {
    if Addressed(s, op) {
      var t, r := Merged(s, op), s.calls[CallId(op.key.run, op.turn)].requirement;
      SettleAtShape(s, op, Countable(t, owner, r), UsedAmount(t, r), Exposure(t, owner, r));
    }
  }

  lemma RaiseShape(s: State, op: Op, r: Requirement)
    requires op.Raise?
    ensures var t := AfterRaise(s, op).0;
      t.calls == s.calls && t.holds == s.holds && t.frozen == s.frozen && t.events == s.events && t.accounts.Keys == s.accounts.Keys &&
      (r in s.accounts ==> s.accounts[r].limits.turns <= t.accounts[r].limits.turns) &&
      (r in s.accounts && r != op.input.requirement ==> t.accounts[r] == s.accounts[r])
  {
  }

  lemma FreezeShape(s: State, op: Op, r: Requirement)
    requires op.Freeze?
    ensures var t := AfterFreeze(s, op);
      t.calls == s.calls && t.holds == s.holds && t.events == s.events && (r in s.accounts ==> r in t.accounts && t.accounts[r] == s.accounts[r])
  {
  }

  lemma SameSums(s: State, t: State, owner: string -> Requirement, r: Requirement)
    requires SameCalls(s, t) && t.holds == s.holds
    ensures CallsOf(t, r) == CallsOf(s, r) && forall d :: Held(t, owner, r, d) == Held(s, owner, r, d)
  {
    forall d ensures Held(t, owner, r, d) == Held(s, owner, r, d) { assert HoldsOf(t, owner, r) == HoldsOf(s, owner, r); }
  }

  // ---------------------------------------------------------------- turns never exceed their limit

  ghost predicate TurnsFit(s: State, owner: string -> Requirement, r: Requirement)
    requires r in s.accounts
  {
    CallsOf(s, r) != {} ==> |CallsOf(s, r)| + Held(s, owner, r, Turns) <= s.accounts[r].limits.turns
  }

  ghost predicate TurnLimits(s: State, owner: string -> Requirement) {
    forall r :: r in s.accounts ==> TurnsFit(s, owner, r)
  }

  lemma OtherRunsHold(s: State, t: State, owner: string -> Requirement, run: string, r: Requirement, d: Dimension)
    requires t.holds == s.holds - {run} && owner(run) != r
    ensures Held(t, owner, r, d) == Held(s, owner, r, d)
  {
    assert HoldsOf(t, owner, r) == HoldsOf(s, owner, r);
    assert HeldParts(t.holds, HoldsOf(t, owner, r), d) == HeldParts(s.holds, HoldsOf(s, owner, r), d);
  }

  lemma ReserveKeepsTurns(s: State, owner: string -> Requirement, op: Op, r: Requirement)
    requires ValidCalls(s, owner) && TurnLimits(s, owner) && op.Reserve? && r in s.accounts
    ensures r in AfterReserve(s, owner, op).0.accounts && TurnsFit(AfterReserve(s, owner, op).0, owner, r)
  {
    var t, answer := AfterReserve(s, owner, op).0, AfterReserve(s, owner, op).1;
    ReserveShape(s, owner, op);
    assert TurnsFit(s, owner, r);
    if answer != Reserved {
      SameSums(s, t, owner, r);
    } else if r == owner(op.intent.key.run) {
      ReservedFits(s, owner, op);
      ReserveKeepsCalls(s, owner, op);
      ExposureCoversUse(t, owner, r, Turns);
    } else {
      assert CallsOf(t, r) == CallsOf(s, r);
      OtherRunsHold(s, t, owner, op.intent.key.run, r, Turns);
    }
  }

  lemma NoCallsWithoutAccount(s: State, owner: string -> Requirement, r: Requirement)
    requires ValidCalls(s, owner) && r !in s.accounts
    ensures CallsOf(s, r) == {}
  {
    forall c | c in s.calls ensures s.calls[c].requirement != r { assert ValidCall(c, s.calls[c], owner, s.accounts); }
  }

  lemma OtherKeepsTurns(s: State, owner: string -> Requirement, op: Op, r: Requirement)
    requires ValidCalls(s, owner) && TurnLimits(s, owner) && !op.Reserve? && r in Step(s, owner, op).accounts
    ensures TurnsFit(Step(s, owner, op), owner, r)
  {
    var t := Step(s, owner, op);
    if op.Settle? { SettleShape(s, owner, op); } else if op.Raise? { RaiseShape(s, op, r); } else { FreezeShape(s, op, r); }
    SameSums(s, t, owner, r);
    if r in s.accounts { assert TurnsFit(s, owner, r); }
    else { NoCallsWithoutAccount(s, owner, r); }
  }

  lemma {:induction false} ExecuteKeepsTurns(s: State, owner: string -> Requirement, ops: seq<Op>)
    requires ValidCalls(s, owner) && TurnLimits(s, owner)
    ensures ValidCalls(Execute(s, owner, ops), owner) && TurnLimits(Execute(s, owner, ops), owner)
    decreases |ops|
  {
    if ops != [] {
      StepKeepsCalls(s, owner, ops[0]);
      var t := Step(s, owner, ops[0]);
      forall r | r in t.accounts ensures TurnsFit(t, owner, r) {
        if ops[0].Reserve? { ReserveKeepsTurns(s, owner, ops[0], r); } else { OtherKeepsTurns(s, owner, ops[0], r); }
      }
      ExecuteKeepsTurns(t, owner, ops[1..]);
    }
  }

  /** A store before any budget exists; repairs may already hold resources. */
  function Empty(holds: map<string, Amount>): State { State(map[], map[], map[], map[], holds, map[]) }

  /** In every reachable store: the summed exposure has one turn per call (and what repairs hold), and
      once a call exists that is within the turn limit; known use never exceeds the exposure. */
  lemma EveryTurnIsAccounted(owner: string -> Requirement, holds: map<string, Amount>, ops: seq<Op>, r: Requirement, d: Dimension)
    requires forall k :: k in holds ==> holds[k].NonNegative()
    requires r in Execute(Empty(holds), owner, ops).accounts
    ensures var s := Execute(Empty(holds), owner, ops);
      Exposed(s, owner, r, Turns) == |CallsOf(s, r)| + Held(s, owner, r, Turns) &&
      (CallsOf(s, r) != {} ==> Exposed(s, owner, r, Turns) <= s.accounts[r].limits.turns) &&
      Used(s, r, d) <= Exposed(s, owner, r, d)
  {
    ExecuteKeepsTurns(Empty(holds), owner, ops);
    var s := Execute(Empty(holds), owner, ops);
    assert TurnsFit(s, owner, r);
    ExposureCoversUse(s, owner, r, d);
  }

  // ---------------------------------------------------------------- over the limit means stopped

  /** After a settlement was taken, an account over its limits is marked exhausted. */
  lemma SettleStops(s: State, owner: string -> Requirement, op: Op)
    requires op.Settle? && AfterSettle(s, owner, op).1 == Done
    ensures var t := AfterSettle(s, owner, op).0;
      var r := s.calls[CallId(op.key.run, op.turn)].requirement;
      r in t.accounts && (OverLimit(t, owner, r) ==> t.accounts[r].exhausted)
  {
    var m, r := Merged(s, op), s.calls[CallId(op.key.run, op.turn)].requirement;
    var t := AfterSettle(s, owner, op).0;
    assert CallsOf(t, r) == CallsOf(m, r) && HoldsOf(t, owner, r) == HoldsOf(m, owner, r);
  }

  /** An exhausted account admits no further call, whatever is reserved, settled or frozen, until its
      limits are raised. */
  lemma {:induction false} ExhaustedAdmitsNothing(s: State, owner: string -> Requirement, ops: seq<Op>, r: Requirement)
    requires ValidCalls(s, owner) && r in s.accounts && s.accounts[r].exhausted
    requires forall op :: op in ops ==> !(op.Raise? && op.input.requirement == r)
    ensures var t := Execute(s, owner, ops);
      r in t.accounts && t.accounts[r].exhausted && t.accounts[r].limits == s.accounts[r].limits && CallsOf(t, r) == CallsOf(s, r)
    decreases |ops|
  {
    if ops != [] {
      var op := ops[0];
      var t := Step(s, owner, op);
      assert !(op.Raise? && op.input.requirement == r);
      ExhaustedStays(s, owner, op, r);
      StepKeepsCalls(s, owner, op);
      ExhaustedAdmitsNothing(t, owner, ops[1..], r);
    }
  }

  lemma ExhaustedStays(s: State, owner: string -> Requirement, op: Op, r: Requirement)
    requires r in s.accounts && s.accounts[r].exhausted && !(op.Raise? && op.input.requirement == r)
    ensures var t := Step(s, owner, op);
      r in t.accounts && t.accounts[r].exhausted && t.accounts[r].limits == s.accounts[r].limits && CallsOf(t, r) == CallsOf(s, r)
  {
    match op
    case Settle(_, _, _, _, _) => SettleShape(s, owner, op);
    case Raise(_, _) => RaiseShape(s, op, r);
    case Freeze(_, _) => FreezeShape(s, op, r);
    case Reserve(_, _, _, _, _) =>
      ReserveShape(s, owner, op);
      if AfterReserve(s, owner, op).1 == Reserved { assert owner(op.intent.key.run) != r; }
  }

  // ---------------------------------------------------------------- limits are what was authorized

  /** The sum of the grants of versions 2 to n. */
  function Raised(grants: map<GrantId, Grant>, r: Requirement, n: nat): Amount {
    if n < 2 then NOTHING
    else Raised(grants, r, n - 1).Plus(if GrantId(r, n) in grants then grants[GrantId(r, n)].delta else NOTHING)
  }

  predicate Authorized(s: State, r: Requirement)
    requires r in s.accounts
  {
    r in s.frozen && s.accounts[r].version >= 1 && s.accounts[r].limits == s.frozen[r].Plus(Raised(s.grants, r, s.accounts[r].version)) &&
    (forall v :: 2 <= v <= s.accounts[r].version ==> GrantId(r, v) in s.grants) &&
    (GrantId(r, 1) in s.grants || Taken(s, Initial(r)))
  }

  predicate GrantOnRecord(s: State, g: GrantId)
    requires g in s.grants
  {
    g.requirement in s.accounts && g.requirement in s.frozen && 1 <= g.version <= s.accounts[g.requirement].version &&
    s.grants[g].limits == s.frozen[g.requirement].Plus(Raised(s.grants, g.requirement, g.version))
  }

  predicate OneRequestEach(s: State) {
    forall g, h :: g in s.grants && h in s.grants && s.grants[g].request == s.grants[h].request ==> g == h
  }

  predicate Ledger(s: State) {
    (forall r :: r in s.accounts ==> Authorized(s, r)) && (forall g :: g in s.grants ==> GrantOnRecord(s, g)) && OneRequestEach(s)
  }

  lemma {:induction false} RaisedKeeps(a: map<GrantId, Grant>, b: map<GrantId, Grant>, r: Requirement, n: nat)
    requires forall v :: 2 <= v <= n ==> (GrantId(r, v) in a <==> GrantId(r, v) in b)
    requires forall v :: 2 <= v <= n && GrantId(r, v) in a ==> a[GrantId(r, v)].delta == b[GrantId(r, v)].delta
    ensures Raised(a, r, n) == Raised(b, r, n)
  {
    if n >= 2 { RaisedKeeps(a, b, r, n - 1); }
  }

  /** One new grant under a version the account has not reached leaves every earlier sum alone. */
  lemma AddedGrantKeeps(s: State, t: State, g: GrantId)
    requires Ledger(s) && g !in s.grants && g in t.grants && t.grants == s.grants[g := t.grants[g]]
    requires forall r :: r in s.accounts ==> r in t.accounts && r in t.frozen && r in s.frozen && t.frozen[r] == s.frozen[r]
    requires g.requirement in s.accounts ==> g.version > s.accounts[g.requirement].version || g.version < 2
    requires forall r :: r in s.accounts ==> s.accounts[r].version <= t.accounts[r].version
    ensures forall r, n: nat :: r in s.accounts && n <= s.accounts[r].version ==> Raised(t.grants, r, n) == Raised(s.grants, r, n)
    ensures forall h :: h in s.grants ==> GrantOnRecord(t, h)
  {
    forall r, n: nat | r in s.accounts && n <= s.accounts[r].version ensures Raised(t.grants, r, n) == Raised(s.grants, r, n) {
      RaisedKeeps(t.grants, s.grants, r, n);
    }
    forall h | h in s.grants ensures GrantOnRecord(t, h) { assert GrantOnRecord(s, h); }
  }

  lemma TakenStays(s: State, t: State, request: string)
    requires Taken(s, request) && forall g :: g in s.grants ==> g in t.grants && t.grants[g] == s.grants[g]
    ensures Taken(t, request)
  {
    var g :| g in s.grants && Granted(s, g, request);
    assert Granted(t, g, request);
  }

  lemma AddedGrantOnce(s: State, t: State, g: GrantId)
    requires OneRequestEach(s) && g in t.grants && t.grants == s.grants[g := t.grants[g]] && !Taken(s, t.grants[g].request)
    ensures OneRequestEach(t)
  {
    forall h | h in s.grants ensures s.grants[h].request != t.grants[g].request {
      assert Granted(s, h, t.grants[g].request) <==> s.grants[h].request == t.grants[g].request;
    }
  }

  lemma NewVersionIsFree(s: State, r: Requirement, v: nat)
    requires Ledger(s) && (r in s.accounts ==> v > s.accounts[r].version)
    ensures GrantId(r, v) !in s.grants
  {
    forall g | g in s.grants ensures g != GrantId(r, v) { assert GrantOnRecord(s, g); }
  }

  lemma AuthorizedStays(s: State, t: State, r: Requirement)
    requires r in s.accounts && Authorized(s, r) && r in t.accounts && r in t.frozen
    requires t.accounts[r].limits == s.accounts[r].limits && t.accounts[r].version == s.accounts[r].version && t.frozen[r] == s.frozen[r]
    requires forall g :: g in s.grants ==> g in t.grants && t.grants[g] == s.grants[g]
    requires Raised(t.grants, r, s.accounts[r].version) == Raised(s.grants, r, s.accounts[r].version)
    ensures Authorized(t, r)
  {
    if GrantId(r, 1) !in s.grants { TakenStays(s, t, Initial(r)); }
  }

  lemma RaisedAccount(s: State, op: Op)
    requires Ledger(s) && op.Raise? && AfterRaise(s, op).0 != s
    ensures var t, r := AfterRaise(s, op).0, op.input.requirement;
      var g := GrantId(r, op.input.expected + 1);
      g !in s.grants && r in s.accounts && s.accounts[r].version == op.input.expected && g in t.grants &&
      t.grants == s.grants[g := t.grants[g]] && t.grants[g].request == op.input.request && !Taken(s, op.input.request) &&
      t.frozen == s.frozen && t.accounts == s.accounts[r := Account(t.grants[g].limits, g.version, false)] &&
      t.grants[g].limits == s.accounts[r].limits.Plus(op.input.delta) && t.grants[g].delta == op.input.delta
  {
    NewVersionIsFree(s, op.input.requirement, op.input.expected + 1);
  }

  lemma AddedGrantSums(s: State, t: State, g: GrantId)
    requires Ledger(s) && g !in s.grants && g in t.grants && t.grants == s.grants[g := t.grants[g]] && AccountsGrow(s, t, g.requirement)
    requires g.requirement in s.accounts ==> g.version > s.accounts[g.requirement].version
    ensures forall q :: q in s.accounts && q != g.requirement ==> Authorized(t, q)
    ensures forall h :: h in s.grants ==> GrantOnRecord(t, h)
    ensures g.requirement in s.accounts ==> Raised(t.grants, g.requirement, s.accounts[g.requirement].version) == Raised(s.grants, g.requirement, s.accounts[g.requirement].version)
  {
    forall q | q in s.accounts ensures q in s.frozen { assert Authorized(s, q); }
    AddedGrantKeeps(s, t, g);
    forall q | q in s.accounts && q != g.requirement ensures Authorized(t, q) {
      assert Authorized(s, q);
      AuthorizedStays(s, t, q);
    }
  }

  /** Other accounts are untouched, and no version goes back. */
  predicate AccountsGrow(s: State, t: State, r: Requirement) {
    forall q :: q in s.accounts ==>
      q in t.accounts && q in s.frozen && q in t.frozen && t.frozen[q] == s.frozen[q] && s.accounts[q].version <= t.accounts[q].version &&
      (q != r ==> t.accounts[q] == s.accounts[q])
  }

  lemma RaiseKeepsLedger(s: State, op: Op)
    requires Ledger(s) && op.Raise?
    ensures Ledger(AfterRaise(s, op).0)
  {
    var t, r := AfterRaise(s, op).0, op.input.requirement;
    if t != s {
      RaisedAccount(s, op);
      var g := GrantId(r, op.input.expected + 1);
      forall q | q in s.accounts ensures q in s.frozen { assert Authorized(s, q); }
      AddedGrantSums(s, t, g);
      AddedGrantOnce(s, t, g);
      RaisedIsAuthorized(s, t, g);
    }
  }

  lemma RaisedIsAuthorized(s: State, t: State, g: GrantId)
    requires g.requirement in s.accounts && Authorized(s, g.requirement) && s.accounts[g.requirement].version + 1 == g.version
    requires g in t.grants && t.grants == s.grants[g := t.grants[g]] && t.frozen == s.frozen
    requires g.requirement in t.accounts && t.accounts[g.requirement] == Account(t.grants[g].limits, g.version, false)
    requires t.grants[g].limits == s.accounts[g.requirement].limits.Plus(t.grants[g].delta)
    requires Raised(t.grants, g.requirement, g.version - 1) == Raised(s.grants, g.requirement, g.version - 1)
    requires g !in s.grants
    ensures Authorized(t, g.requirement) && GrantOnRecord(t, g)
  {
    assert Raised(t.grants, g.requirement, g.version) == Raised(t.grants, g.requirement, g.version - 1).Plus(t.grants[g].delta);
    if GrantId(g.requirement, 1) !in s.grants { TakenStays(s, t, Initial(g.requirement)); }
  }

  lemma FreezeKeepsLedger(s: State, op: Op)
    requires Ledger(s) && op.Freeze?
    ensures Ledger(AfterFreeze(s, op))
  {
    var t, r := AfterFreeze(s, op), op.requirement;
    if r in s.accounts {
      assert Authorized(s, r);
      assert t == s;
    } else {
      NewVersionIsFree(s, r, 1);
      var starting := s.(accounts := s.accounts[r := Account(op.limits, 1, false)], frozen := s.frozen[r := op.limits]);
      assert Taken(starting, Initial(r)) <==> Taken(s, Initial(r)) by {
        forall h | h in s.grants ensures Granted(starting, h, Initial(r)) <==> Granted(s, h, Initial(r)) { }
      }
      forall q | q in s.accounts ensures q in s.frozen { assert Authorized(s, q); }
      if Taken(s, Initial(r)) { FirstRowTaken(s, t, r); } else { FirstRowAdded(s, t, r); }
    }
  }

  lemma SameGrants(s: State, t: State, q: Requirement)
    requires q in s.accounts && Authorized(s, q) && t.grants == s.grants && q in t.accounts && t.accounts[q] == s.accounts[q]
    requires q in t.frozen && t.frozen[q] == s.frozen[q]
    ensures Authorized(t, q)
  {
    if GrantId(q, 1) !in s.grants { TakenStays(s, t, Initial(q)); }
  }

  lemma FirstRowTaken(s: State, t: State, r: Requirement)
    requires Ledger(s) && r !in s.accounts && Taken(s, Initial(r)) && t.grants == s.grants && AccountsGrow(s, t, r)
    requires r in t.frozen && t.accounts == s.accounts[r := Account(t.frozen[r], 1, false)]
    ensures Ledger(t)
  {
    TakenStays(s, t, Initial(r));
    assert Raised(t.grants, r, 1) == NOTHING;
    assert Authorized(t, r);
    forall q | q in s.accounts ensures Authorized(t, q) { SameGrants(s, t, q); }
    forall h | h in t.grants ensures GrantOnRecord(t, h) { assert GrantOnRecord(s, h); }
  }

  lemma FirstRowAdded(s: State, t: State, r: Requirement)
    requires Ledger(s) && r !in s.accounts && !Taken(s, Initial(r)) && AccountsGrow(s, t, r) && GrantId(r, 1) !in s.grants
    requires r in t.frozen && t.accounts == s.accounts[r := Account(t.frozen[r], 1, false)]
    requires t.grants == s.grants[GrantId(r, 1) := Grant(Initial(r), LOCAL_USER, FIRST_REVIEW, t.frozen[r], t.frozen[r])]
    ensures Ledger(t)
  {
    var g := GrantId(r, 1);
    AddedGrantSums(s, t, g);
    AddedGrantOnce(s, t, g);
    assert GrantOnRecord(t, g) && Authorized(t, r);
  }

  lemma StepKeepsLedger(s: State, owner: string -> Requirement, op: Op)
    requires Ledger(s)
    ensures Ledger(Step(s, owner, op))
  {
    if op.Raise? { RaiseKeepsLedger(s, op); }
    else if op.Freeze? { FreezeKeepsLedger(s, op); }
    else {
      if op.Reserve? { ReserveShape(s, owner, op); } else { SettleShape(s, owner, op); }
      LedgerOfAccounts(s, Step(s, owner, op));
    }
  }

  lemma LedgerOfAccounts(s: State, t: State)
    requires Ledger(s) && AccountsKept(s, t) && t.grants == s.grants && t.frozen == s.frozen
    ensures Ledger(t)
  {
    forall r | r in t.accounts ensures Authorized(t, r) {
      assert Authorized(s, r);
      AuthorizedStays(s, t, r);
    }
    forall g | g in t.grants ensures GrantOnRecord(t, g) { assert GrantOnRecord(s, g); }
  }

  lemma {:induction false} ExecuteKeepsLedger(s: State, owner: string -> Requirement, ops: seq<Op>)
    requires Ledger(s)
    ensures Ledger(Execute(s, owner, ops))
    decreases |ops|
  {
    if ops != [] {
      StepKeepsLedger(s, owner, ops[0]);
      ExecuteKeepsLedger(Step(s, owner, ops[0]), owner, ops[1..]);
    }
  }

  /** The limits of an account are the limits first frozen plus every grant since, once each; reviewing
      again never overwrites them. */
  lemma LimitsAreAuthorized(owner: string -> Requirement, holds: map<string, Amount>, ops: seq<Op>, r: Requirement)
    requires r in Execute(Empty(holds), owner, ops).accounts
    ensures var s := Execute(Empty(holds), owner, ops); Authorized(s, r) && OneRequestEach(s)
  {
    ExecuteKeepsLedger(Empty(holds), owner, ops);
  }

  // ---------------------------------------------------------------- retries

  /** Grants and call intents are never removed or rewritten. */
  predicate Remembers(s: State, t: State) {
    (forall g :: g in s.grants ==> g in t.grants && t.grants[g] == s.grants[g]) &&
    (forall c :: c in s.calls ==> c in t.calls && t.calls[c].intent == s.calls[c].intent && t.calls[c].requirement == s.calls[c].requirement)
  }

  lemma StepRemembers(s: State, owner: string -> Requirement, op: Op)
    requires Ledger(s)
    ensures Remembers(s, Step(s, owner, op))
  {
    match op
    case Raise(_, _) => RaiseRemembers(s, op);
    case Freeze(_, _) => FreezeShape(s, op, op.requirement);
    case Reserve(_, _, _, _, _) => ReserveRemembers(s, owner, op);
    case Settle(_, _, _, _, _) => SettleShape(s, owner, op);
  }

  lemma RaiseRemembers(s: State, op: Op)
    requires Ledger(s) && op.Raise?
    ensures Remembers(s, AfterRaise(s, op).0)
  {
    RaiseShape(s, op, op.input.requirement);
    if AfterRaise(s, op).0 != s { RaisedAccount(s, op); }
  }

  lemma ReserveRemembers(s: State, owner: string -> Requirement, op: Op)
    requires op.Reserve?
    ensures Remembers(s, AfterReserve(s, owner, op).0)
  {
    ReserveShape(s, owner, op);
    if AfterReserve(s, owner, op).1 == Reserved { assert CallId(op.intent.key.run, op.intent.turn) !in s.calls; }
  }

  lemma {:induction false} ExecuteRemembers(s: State, owner: string -> Requirement, ops: seq<Op>)
    requires Ledger(s)
    ensures Remembers(s, Execute(s, owner, ops)) && Ledger(Execute(s, owner, ops))
    decreases |ops|
  {
    if ops != [] {
      StepRemembers(s, owner, ops[0]);
      StepKeepsLedger(s, owner, ops[0]);
      ExecuteRemembers(Step(s, owner, ops[0]), owner, ops[1..]);
    }
  }

  lemma GrantIsRecognised(u: State, g: GrantId, input: Increase, again: Op)
    requires OneRequestEach(u) && g in u.grants && Granted(u, g, input.request) && SameRequest(u, g, input) && ValidIncrease(input)
    requires again.Raise? && again.input.request == input.request
    ensures AfterRaise(u, again) == (u, if again.input == input then Done else Failed)
  {
    assert Taken(u, again.input.request);
    forall h | h in u.grants && Granted(u, h, again.input.request) ensures h == g { }
  }

  /** A grant that was taken once: repeated at any later time it succeeds and changes nothing, and
      its identity with any other content is refused and changes nothing. */
  lemma RaiseIsRetriable(s: State, owner: string -> Requirement, op: Op, ops: seq<Op>, again: Op)
    requires Ledger(s) && op.Raise? && again.Raise? && AfterRaise(s, op).1 == Done && again.input.request == op.input.request
    ensures var u := Execute(Step(s, owner, op), owner, ops);
      AfterRaise(u, again) == (u, if again.input == op.input then Done else Failed)
  {
    StepKeepsLedger(s, owner, op);
    var t := Step(s, owner, op);
    ExecuteRemembers(t, owner, ops);
    var g: GrantId := GrantId(op.input.requirement, op.input.expected + 1);
    if t == s { RecordedAlready(s, op, g); } else { RaisedAccount(s, op); }
    GrantIsRecognised(Execute(t, owner, ops), g, op.input, again);
  }

  lemma RaiseChanges(s: State, op: Op)
    requires Ledger(s) && op.Raise? && AfterRaise(s, op).1 == Done && !Taken(s, op.input.request)
    ensures AfterRaise(s, op).0.grants != s.grants
  {
    NewVersionIsFree(s, op.input.requirement, op.input.expected + 1);
    assert GrantId(op.input.requirement, op.input.expected + 1) in AfterRaise(s, op).0.grants;
  }

  lemma RecordedAlready(s: State, op: Op, g: GrantId)
    requires Ledger(s) && op.Raise? && AfterRaise(s, op) == (s, Done) && g == GrantId(op.input.requirement, op.input.expected + 1)
    ensures g in s.grants && Granted(s, g, op.input.request) && SameRequest(s, g, op.input)
  {
    if !Taken(s, op.input.request) { RaiseChanges(s, op); }
  }

  /** A call that was reserved once is never reserved again: its intent is recognised, any other intent
      under its identity is refused, and neither changes anything. */
  lemma ReserveIsRetriable(s: State, owner: string -> Requirement, op: Op, ops: seq<Op>, again: Op)
    requires Ledger(s) && op.Reserve? && again.Reserve? && AfterReserve(s, owner, op).1 == Reserved
    requires again.intent.key.run == op.intent.key.run && again.intent.turn == op.intent.turn
    ensures var u := Execute(Step(s, owner, op), owner, ops);
      AfterReserve(u, owner, again) ==
        (u, if !ValidIntent(again.intent) then Failed else if !again.allowed then Blocked
            else if again.intent == op.intent then Existing else Failed)
  {
    StepKeepsLedger(s, owner, op);
    ReserveShape(s, owner, op);
    var t := Step(s, owner, op);
    ExecuteRemembers(t, owner, ops);
    var u, id := Execute(t, owner, ops), CallId(op.intent.key.run, op.intent.turn);
    assert id in t.calls && t.calls[id].intent == op.intent;
    assert id in u.calls && u.calls[id].intent == op.intent;
  }
}
