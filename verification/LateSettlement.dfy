/** Cumulative usage reports in any order and any number of times (apps/server/src/budget_store.rs: settle). */
module LateSettlement {
  import opened Options
  import opened Totals
  import opened Budget
  import opened BudgetStore

  function IdOf(op: Op): CallId
    requires op.Settle?
  {
    CallId(op.key.run, op.turn)
  }

  function Event(op: Op): EventId
    requires op.Settle?
  {
    EventId(IdOf(op), op.event)
  }

  /** A report of a recorded call that counts input whenever it counts cached input. */
  predicate Plausible(s: State, op: Op) {
    op.Settle? && op.event != "" && op.usage.Valid() && CachedWithInput(op.usage) && IdOf(op) in s.calls &&
    s.calls[IdOf(op)].intent.key == op.key
  }

  predicate Agrees(events: map<EventId, Usage>, op: Op)
    requires op.Settle?
  {
    Event(op) in events ==> events[Event(op)] == op.usage
  }

  /** Reports of one event identity carry the same counters. */
  predicate Consistent(s: State, ops: seq<Op>) {
    (forall op :: op in ops ==> Plausible(s, op) && Agrees(s.events, op)) &&
    forall p, q :: p in ops && q in ops && Event(p) == Event(q) ==> p.usage == q.usage
  }

  /** What was reported for one call, in order. */
  function Reports(ops: seq<Op>, c: CallId): seq<Usage>
    requires forall op :: op in ops ==> op.Settle?
    decreases |ops|
  {
    if ops == [] then [] else (if IdOf(ops[0]) == c then [ops[0].usage] else []) + Reports(ops[1..], c)
  }

  function Final(s: State, ops: seq<Op>): map<CallId, Usage>
    requires forall op :: op in ops ==> op.Settle?
  {
    map c | c in s.calls :: JoinAll(s.calls[c].usage, Reports(ops, c))
  }

  // ---------------------------------------------------------------- room in 64-bit integers

  /** The most a call can be charged while its usage approaches `final`. */
  function Ceiling(call: Call, final: Usage, d: Dimension): nat { Natural(Max(final.Known().At(d), call.reserved.At(d))) }

  ghost function Ceilings(calls: map<CallId, Call>, final: map<CallId, Usage>, ids: set<CallId>, d: Dimension): map<CallId, nat> {
    map c | c in ids && c in calls && c in final :: Ceiling(calls[c], final[c], d)
  }

  ghost predicate RoomFor(s: State, owner: string -> Requirement, final: map<CallId, Usage>, r: Requirement, d: Dimension) {
    Total(Ceilings(s.calls, final, CallsOf(s, r), d)) + Held(s, owner, r, d) <= MAX
  }

  ghost predicate Room(s: State, owner: string -> Requirement, final: map<CallId, Usage>) {
    forall r, d :: RoomFor(s, owner, final, r, d)
  }

  predicate Approaches(s: State, final: map<CallId, Usage>) {
    forall c :: c in s.calls ==>
      c in final && final[c].Valid() && Below(s.calls[c].usage, final[c]) && CachedWithInput(s.calls[c].usage)
  }

  lemma RoomIsCountable(s: State, owner: string -> Requirement, final: map<CallId, Usage>, r: Requirement)
    requires ValidCalls(s, owner) && Approaches(s, final) && Room(s, owner, final)
    ensures Countable(s, owner, r)
  {
    forall d: Dimension ensures Used(s, r, d) <= MAX && Exposed(s, owner, r, d) <= MAX {
      var ids := CallsOf(s, r);
      forall c | c in ids
        ensures KnownPart(s.calls[c], d) <= Ceiling(s.calls[c], final[c], d) && ChargedPart(s.calls[c], d) <= Ceiling(s.calls[c], final[c], d)
      {
        assert ValidCall(c, s.calls[c], owner, s.accounts);
        KnownGrows(s.calls[c].usage, final[c], d);
        ChargeCovers(s.calls[c].usage, s.calls[c].reserved, d);
      }
      TotalMonotone(KnownParts(s.calls, ids, d), Ceilings(s.calls, final, ids, d));
      TotalMonotone(ChargedParts(s.calls, ids, d), Ceilings(s.calls, final, ids, d));
      assert RoomFor(s, owner, final, r, d);
    }
    assert Used(s, r, Tokens) <= MAX && Used(s, r, Turns) <= MAX && Used(s, r, Seconds) <= MAX;
    assert Exposed(s, owner, r, Tokens) <= MAX && Exposed(s, owner, r, Turns) <= MAX && Exposed(s, owner, r, Seconds) <= MAX;
  }

  lemma RoomStays(s: State, t: State, owner: string -> Requirement, final: map<CallId, Usage>)
    requires Room(s, owner, final) && SameCalls(s, t) && t.holds == s.holds
    requires forall c :: c in s.calls ==> t.calls[c].reserved == s.calls[c].reserved
    ensures Room(t, owner, final)
  {
    forall r, d ensures RoomFor(t, owner, final, r, d) {
      assert RoomFor(s, owner, final, r, d);
      SameSums(s, t, owner, r);
      assert Ceilings(t.calls, final, CallsOf(t, r), d) == Ceilings(s.calls, final, CallsOf(s, r), d);
    }
  }

  lemma MergedApproaches(s: State, owner: string -> Requirement, op: Op, final: map<CallId, Usage>)
    requires ValidCalls(s, owner) && Approaches(s, final) && Plausible(s, op) && Agrees(s.events, op) && Below(op.usage, final[IdOf(op)])
    ensures Addressed(s, op) && ValidCalls(Merged(s, op), owner) && Approaches(Merged(s, op), final)
  {
    var t, id := Merged(s, op), IdOf(op);
    assert ValidCall(id, s.calls[id], owner, s.accounts);
    MergeKeepsValid(s.calls[id].usage, op.usage);
    MergeIsJoin(s.calls[id].usage, op.usage, final[id]);
    forall c | c in t.calls ensures ValidCall(c, t.calls[c], owner, t.accounts) { assert ValidCall(c, s.calls[c], owner, s.accounts); }
  }

  /** With room, a plausible report is always taken. */
  lemma SettleIsTaken(s: State, owner: string -> Requirement, op: Op, final: map<CallId, Usage>)
    requires ValidCalls(s, owner) && Approaches(s, final) && Room(s, owner, final)
    requires Plausible(s, op) && Agrees(s.events, op) && Below(op.usage, final[IdOf(op)])
    ensures AfterSettle(s, owner, op).1 == Done
    ensures var t := AfterSettle(s, owner, op).0; t.calls == Merged(s, op).calls && t.events == Merged(s, op).events && t.holds == s.holds
    ensures ValidCalls(AfterSettle(s, owner, op).0, owner) && Approaches(AfterSettle(s, owner, op).0, final)
    ensures Room(AfterSettle(s, owner, op).0, owner, final)
  {
    MergedApproaches(s, owner, op, final);
    var m, r := Merged(s, op), s.calls[IdOf(op)].requirement;
    RoomStays(s, m, owner, final);
    RoomIsCountable(m, owner, final, r);
    assert ValidCall(IdOf(op), s.calls[IdOf(op)], owner, s.accounts) && ValidCall(IdOf(op), m.calls[IdOf(op)], owner, m.accounts);
    TakenAt(s, op, UsedAmount(m, r), Exposure(m, owner, r));
    SettleKeepsCalls(s, owner, op);
    RoomStays(m, AfterSettle(s, owner, op).0, owner, final);
  }

  lemma TakenAt(s: State, op: Op, used: Amount, exposure: Amount)
    requires op.Settle? && Addressed(s, op) && Merged(s, op).calls[IdOf(op)].usage.Valid() && s.calls[IdOf(op)].requirement in s.accounts
    ensures SettleAt(s, op, true, used, exposure).1 == Done
    ensures var t := SettleAt(s, op, true, used, exposure).0;
      t.calls == Merged(s, op).calls && t.events == Merged(s, op).events && t.holds == s.holds
  {
  }

  // ---------------------------------------------------------------- every order ends the same

  ghost predicate AllTaken(s: State, owner: string -> Requirement, ops: seq<Op>)
    decreases |ops|
  {
    ops == [] || (Answered(s, owner, ops[0]).1 == Done && AllTaken(Step(s, owner, ops[0]), owner, ops[1..]))
  }

  predicate ReportedBy(ops: seq<Op>, e: EventId)
    requires forall op :: op in ops ==> op.Settle?
  {
    exists op :: op in ops && Event(op) == e
  }

  /** Usage is the join of what was known and all reports. */
  predicate JoinedCalls(s: State, t: State, ops: seq<Op>)
    requires forall op :: op in ops ==> op.Settle?
  {
    t.calls.Keys == s.calls.Keys &&
    forall c :: c in s.calls ==> JoinedAt(s.calls[c], t.calls[c], ops, c)
  }

  predicate JoinedAt(before: Call, after: Call, ops: seq<Op>, c: CallId)
    requires forall op :: op in ops ==> op.Settle?
  {
    after == before.(usage := JoinAll(before.usage, Reports(ops, c)))
  }

  /** Each report is archived under its event, and nothing else is. */
  predicate Archived(s: State, t: State, ops: seq<Op>)
    requires forall op :: op in ops ==> op.Settle?
  {
    (forall e :: e in t.events ==> e in s.events || ReportedBy(ops, e)) &&
    (forall e :: e in s.events ==> e in t.events && t.events[e] == s.events[e]) &&
    forall op :: op in ops ==> Event(op) in t.events && t.events[Event(op)] == op.usage
  }

  lemma ConsistentRest(s: State, t: State, ops: seq<Op>)
    requires ops != [] && Consistent(s, ops) && ops[0].Settle? && Addressed(s, ops[0])
    requires t.calls == Merged(s, ops[0]).calls && t.events == Merged(s, ops[0]).events
    ensures Consistent(t, ops[1..])
  {
    forall p | p in ops[1..] ensures Plausible(t, p) && Agrees(t.events, p) {
      assert p in ops && ops[0] in ops;
      assert Plausible(s, p) && Agrees(s.events, p);
    }
  }

  lemma FirstReportIsTaken(s: State, owner: string -> Requirement, ops: seq<Op>, final: map<CallId, Usage>) returns (t: State)
    requires ValidCalls(s, owner) && Approaches(s, final) && Room(s, owner, final) && Consistent(s, ops) && ops != []
    requires Plausible(s, ops[0]) && Below(ops[0].usage, final[IdOf(ops[0])])
    ensures t == Step(s, owner, ops[0]) && Answered(s, owner, ops[0]).1 == Done && Addressed(s, ops[0])
    ensures t.calls == Merged(s, ops[0]).calls && t.events == Merged(s, ops[0]).events
    ensures ValidCalls(t, owner) && Approaches(t, final) && Room(t, owner, final) && Consistent(t, ops[1..])
  {
    var op := ops[0];
    t := AfterSettle(s, owner, op).0;
    assert Plausible(s, op) && Agrees(s.events, op);
    SettleIsTaken(s, owner, op, final);
    MergedApproaches(s, owner, op, final);
    ConsistentRest(s, t, ops);
  }

  lemma {:induction false} AllReportsAreTaken(s: State, owner: string -> Requirement, ops: seq<Op>, final: map<CallId, Usage>)
    requires ValidCalls(s, owner) && Approaches(s, final) && Room(s, owner, final) && Consistent(s, ops)
    requires forall op :: op in ops ==> Below(op.usage, final[IdOf(op)])
    ensures AllTaken(s, owner, ops) && JoinedCalls(s, Execute(s, owner, ops), ops) && Archived(s, Execute(s, owner, ops), ops)
    decreases |ops|
  {
    if ops != [] {
      assert Plausible(s, ops[0]) && Below(ops[0].usage, final[IdOf(ops[0])]);
      var t := FirstReportIsTaken(s, owner, ops, final);
      AllReportsAreTaken(t, owner, ops[1..], final);
      var u := Execute(t, owner, ops[1..]);
      assert u == Execute(s, owner, ops);
      JoinedOneMore(s, t, u, ops);
      ArchivedOneMore(s, t, u, ops);
    }
  }

  lemma JoinFirst(u: Usage, ops: seq<Op>, c: CallId)
    requires ops != [] && forall op :: op in ops ==> op.Settle?
    ensures JoinAll(u, Reports(ops, c)) == JoinAll(if IdOf(ops[0]) == c then u.Merge(ops[0].usage) else u, Reports(ops[1..], c))
  {
    if IdOf(ops[0]) == c { assert Reports(ops, c)[1..] == Reports(ops[1..], c); }
    else { assert Reports(ops, c) == Reports(ops[1..], c); }
  }

  lemma JoinedCall(before: Call, between: Call, after: Call, ops: seq<Op>, c: CallId)
    requires ops != [] && forall op :: op in ops ==> op.Settle?
    requires between == before.(usage := if IdOf(ops[0]) == c then before.usage.Merge(ops[0].usage) else before.usage)
    requires JoinedAt(between, after, ops[1..], c)
    ensures JoinedAt(before, after, ops, c)
  {
    JoinFirst(before.usage, ops, c);
  }

  lemma JoinedOneMore(s: State, t: State, u: State, ops: seq<Op>)
    requires ops != [] && (forall op :: op in ops ==> op.Settle?) && IdOf(ops[0]) in s.calls
    requires t.calls == s.calls[IdOf(ops[0]) := s.calls[IdOf(ops[0])].(usage := s.calls[IdOf(ops[0])].usage.Merge(ops[0].usage))]
    requires JoinedCalls(t, u, ops[1..])
    ensures JoinedCalls(s, u, ops)
  {
    forall c | c in s.calls ensures JoinedAt(s.calls[c], u.calls[c], ops, c) {
      JoinedCall(s.calls[c], t.calls[c], u.calls[c], ops, c);
    }
  }

  lemma ArchivedOneMore(s: State, t: State, u: State, ops: seq<Op>)
    requires ops != [] && (forall op :: op in ops ==> op.Settle?) && Addressed(s, ops[0])
    requires t.events == Merged(s, ops[0]).events && Archived(t, u, ops[1..])
    ensures Archived(s, u, ops)
  {
    assert ops == [ops[0]] + ops[1..];
    forall e | e in u.events ensures e in s.events || ReportedBy(ops, e) {
      if e !in t.events {
        var op :| op in ops[1..] && Event(op) == e;
        assert op in ops;
      } else if e !in s.events {
        assert ops[0] in ops && Event(ops[0]) == e;
      }
    }
  }

  lemma {:induction false} ReportsAreTheEvents(ops: seq<Op>, c: CallId, u: Usage)
    requires forall op :: op in ops ==> op.Settle?
    ensures u in Reports(ops, c) <==> exists op :: op in ops && IdOf(op) == c && op.usage == u
    decreases |ops|
  {
    if ops != [] {
      ReportsAreTheEvents(ops[1..], c, u);
      assert ops == [ops[0]] + ops[1..];
    }
  }

  lemma FinalIsAbove(s: State, owner: string -> Requirement, ops: seq<Op>)
    requires ValidCalls(s, owner) && Consistent(s, ops) && forall c :: c in s.calls ==> CachedWithInput(s.calls[c].usage)
    ensures Approaches(s, Final(s, ops)) && forall op :: op in ops ==> Below(op.usage, Final(s, ops)[IdOf(op)])
  {
    forall c | c in s.calls
      ensures Final(s, ops)[c].Valid() && Below(s.calls[c].usage, Final(s, ops)[c])
    {
      assert ValidCall(c, s.calls[c], owner, s.accounts);
      forall u | u in Reports(ops, c) ensures u.Valid() && CachedWithInput(u) {
        ReportsAreTheEvents(ops, c, u);
        var op :| op in ops && IdOf(op) == c && op.usage == u;
        assert Plausible(s, op);
      }
      JoinStaysValid(s.calls[c].usage, Reports(ops, c));
      JoinAllIsLeast(s.calls[c].usage, Reports(ops, c), UNUSED);
    }
    forall op | op in ops ensures Below(op.usage, Final(s, ops)[IdOf(op)]) {
      assert Plausible(s, op);
      ReportsAreTheEvents(ops, IdOf(op), op.usage);
      JoinAllIsLeast(s.calls[IdOf(op)].usage, Reports(ops, IdOf(op)), UNUSED);
    }
  }

  lemma {:induction false} JoinStaysValid(u: Usage, events: seq<Usage>)
    requires u.Valid() && CachedWithInput(u) && forall e :: e in events ==> e.Valid() && CachedWithInput(e)
    ensures JoinAll(u, events).Valid()
    decreases |events|
  {
    if events != [] {
      MergeKeepsValid(u, events[0]);
      JoinStaysValid(u.Merge(events[0]), events[1..]);
    }
  }

  /** As long as reservations and final usage can be added up in 64 bits: whatever the order and however
      often each report is repeated, every report is taken and ends in the same usage and archive. */
  lemma OrderDoesNotMatter(s: State, owner: string -> Requirement, a: seq<Op>, b: seq<Op>)
    requires ValidCalls(s, owner) && Consistent(s, a) && (forall c :: c in s.calls ==> CachedWithInput(s.calls[c].usage))
    requires (forall op :: op in a <==> op in b) && Room(s, owner, Final(s, a))
    ensures AllTaken(s, owner, a) && AllTaken(s, owner, b)
    ensures Execute(s, owner, a).calls == Execute(s, owner, b).calls && Execute(s, owner, a).events == Execute(s, owner, b).events
  {
    FinalIsAbove(s, owner, a);
    AllReportsAreTaken(s, owner, a, Final(s, a));
    AllReportsAreTaken(s, owner, b, Final(s, a));
    JoinedAgree(s, Execute(s, owner, a), Execute(s, owner, b), a, b);
  }

  lemma JoinedAgree(s: State, t: State, u: State, a: seq<Op>, b: seq<Op>)
    requires (forall op :: op in a <==> op in b) && (forall op :: op in a ==> op.Settle?)
    requires JoinedCalls(s, t, a) && JoinedCalls(s, u, b) && Archived(s, t, a) && Archived(s, u, b)
    ensures t.calls == u.calls && t.events == u.events
  {
    forall c | c in s.calls ensures t.calls[c] == u.calls[c] {
      assert JoinedAt(s.calls[c], t.calls[c], a, c) && JoinedAt(s.calls[c], u.calls[c], b, c);
      forall e ensures e in Reports(a, c) <==> e in Reports(b, c) {
        ReportsAreTheEvents(a, c, e);
        ReportsAreTheEvents(b, c, e);
      }
      OrderAndDuplicatesDoNotMatter(s.calls[c].usage, Reports(a, c), Reports(b, c));
    }
    ArchivedWithin(s, t, u, a, b);
    ArchivedWithin(s, u, t, b, a);
  }

  lemma ArchivedWithin(s: State, t: State, u: State, a: seq<Op>, b: seq<Op>)
    requires (forall op :: op in a <==> op in b) && (forall op :: op in a ==> op.Settle?) && Archived(s, t, a) && Archived(s, u, b)
    ensures forall e :: e in t.events ==> e in u.events && u.events[e] == t.events[e]
  {
    forall e | e in t.events ensures e in u.events && u.events[e] == t.events[e] {
      if e !in s.events { var op :| op in a && Event(op) == e; assert op in b; }
    }
  }

  // ---------------------------------------------------------------- known use only grows

  /** No counter of a call is lost, and no archived report. */
  predicate Grown(s: State, t: State) {
    (forall c :: c in s.calls ==>
      c in t.calls && t.calls[c].requirement == s.calls[c].requirement && t.calls[c].intent == s.calls[c].intent &&
      Below(s.calls[c].usage, t.calls[c].usage)) &&
    forall e :: e in s.events ==> e in t.events && t.events[e] == s.events[e]
  }

  lemma SettleGrows(s: State, owner: string -> Requirement, op: Op)
    requires op.Settle?
    ensures Grown(s, AfterSettle(s, owner, op).0)
  {
    if AfterSettle(s, owner, op).1 == Done {
      var id := IdOf(op);
      MergeIsJoin(s.calls[id].usage, op.usage, UNUSED);
      var m := Merged(s, op);
      assert AfterSettle(s, owner, op).0.calls == m.calls && AfterSettle(s, owner, op).0.events == m.events;
    }
  }

  lemma StepGrows(s: State, owner: string -> Requirement, op: Op)
    ensures Grown(s, Step(s, owner, op))
  {
    match op
    case Settle(_, _, _, _, _) => SettleGrows(s, owner, op);
    case Raise(_, _) => RaiseShape(s, op, 0);
    case Freeze(_, _) => FreezeShape(s, op, 0);
    case Reserve(_, _, _, _, _) => ReserveShape(s, owner, op);
  }

  lemma {:induction false} ExecuteGrows(s: State, owner: string -> Requirement, ops: seq<Op>)
    ensures Grown(s, Execute(s, owner, ops))
    decreases |ops|
  {
    if ops != [] {
      var t := Step(s, owner, ops[0]);
      StepGrows(s, owner, ops[0]);
      ExecuteGrows(t, owner, ops[1..]);
      GrownTransitive(s, t, Execute(t, owner, ops[1..]));
    }
  }

  lemma GrownTransitive(s: State, t: State, u: State)
    requires Grown(s, t) && Grown(t, u)
    ensures Grown(s, u)
  {
  }

  /** Through any run, what is known to be used never shrinks in any dimension. */
  lemma UsedOnlyGrows(s: State, owner: string -> Requirement, ops: seq<Op>, r: Requirement, d: Dimension)
    requires ValidCalls(s, owner) && TurnLimits(s, owner)
    ensures Used(s, r, d) <= Used(Execute(s, owner, ops), r, d)
  {
    ExecuteKeepsTurns(s, owner, ops);
    ExecuteGrows(s, owner, ops);
    var t := Execute(s, owner, ops);
    forall c | c in CallsOf(s, r) ensures c in CallsOf(t, r) && KnownPart(s.calls[c], d) <= KnownPart(t.calls[c], d) {
      assert ValidCall(c, s.calls[c], owner, s.accounts) && ValidCall(c, t.calls[c], owner, t.accounts);
      KnownGrows(s.calls[c].usage, t.calls[c].usage, d);
    }
    TotalMonotone(KnownParts(s.calls, CallsOf(s, r), d), KnownParts(t.calls, CallsOf(t, r), d));
  }

  /** A report that was taken once changes no usage and no archive when it comes again. */
  lemma ReportIsRetriable(s: State, owner: string -> Requirement, op: Op, ops: seq<Op>)
    requires op.Settle? && AfterSettle(s, owner, op).1 == Done
    ensures OnlyStops(Execute(Step(s, owner, op), owner, ops), owner, op)
  {
    var t := Step(s, owner, op);
    ReportIsRecorded(s, owner, op);
    StaysRecorded(t, owner, op, ops);
    RecordedChangesNothing(Execute(t, owner, ops), owner, op);
  }

  lemma StaysRecorded(t: State, owner: string -> Requirement, op: Op, ops: seq<Op>)
    requires op.Settle? && On(t, op)
    ensures On(Execute(t, owner, ops), op)
  {
    ExecuteGrows(t, owner, ops);
  }

  /** The report is archived and its counters are no more than what is known of the call. */
  predicate On(s: State, op: Op)
    requires op.Settle?
  {
    IdOf(op) in s.calls && Below(op.usage, s.calls[IdOf(op)].usage) && Event(op) in s.events && s.events[Event(op)] == op.usage
  }

  /** Settling the report again can at most stop an account. */
  ghost predicate OnlyStops(s: State, owner: string -> Requirement, op: Op)
    requires op.Settle?
  {
    var again := AfterSettle(s, owner, op).0;
    again.calls == s.calls && again.events == s.events && again.grants == s.grants && again.holds == s.holds && AccountsKept(s, again)
  }

  lemma ReportIsRecorded(s: State, owner: string -> Requirement, op: Op)
    requires op.Settle? && AfterSettle(s, owner, op).1 == Done
    ensures On(AfterSettle(s, owner, op).0, op)
  {
    MergeIsJoin(s.calls[IdOf(op)].usage, op.usage, UNUSED);
    assert AfterSettle(s, owner, op).0.calls == Merged(s, op).calls && AfterSettle(s, owner, op).0.events == Merged(s, op).events;
  }

  lemma RecordedChangesNothing(u: State, owner: string -> Requirement, op: Op)
    requires op.Settle? && On(u, op)
    ensures OnlyStops(u, owner, op)
  {
    SettleShape(u, owner, op);
    if Addressed(u, op) {
      MergedIsSame(u, op);
      var r := u.calls[IdOf(op)].requirement;
      SettledCalls(u, op, Countable(Merged(u, op), owner, r), UsedAmount(Merged(u, op), r), Exposure(Merged(u, op), owner, r));
    }
  }

  lemma MergedIsSame(u: State, op: Op)
    requires op.Settle? && On(u, op) && Addressed(u, op)
    ensures Merged(u, op).calls == u.calls && Merged(u, op).events == u.events
  {
    MergeIsJoin(op.usage, u.calls[IdOf(op)].usage, UNUSED);
    MergeIsJoin(u.calls[IdOf(op)].usage, op.usage, UNUSED);
  }

  lemma SettledCalls(u: State, op: Op, countable: bool, used: Amount, exposure: Amount)
    requires op.Settle? && Addressed(u, op)
    ensures var t := SettleAt(u, op, countable, used, exposure).0;
      (t.calls == u.calls && t.events == u.events) || (t.calls == Merged(u, op).calls && t.events == Merged(u, op).events)
  {
  }

  // ---------------------------------------------------------------- the stop does depend on the order

  predicate TwoCalls(s: State, r: Requirement, x: CallId, y: CallId) {
    x != y && s.calls.Keys == {x, y} && s.calls[x].requirement == r && s.calls[y].requirement == r && s.holds == map[] && r in s.accounts
  }

  lemma SumOfTwo(s: State, owner: string -> Requirement, r: Requirement, x: CallId, y: CallId, d: Dimension)
    requires TwoCalls(s, r, x, y)
    ensures Used(s, r, d) == KnownPart(s.calls[x], d) + KnownPart(s.calls[y], d)
    ensures Exposed(s, owner, r, d) == ChargedPart(s.calls[x], d) + ChargedPart(s.calls[y], d)
  {
    var ids := CallsOf(s, r);
    assert ids == {x, y};
    var known, charged := KnownParts(s.calls, ids, d), ChargedParts(s.calls, ids, d);
    TotalWithout(known, x);
    TotalWithout(known - {x}, y);
    assert known - {x} - {y} == map[];
    TotalWithout(charged, x);
    TotalWithout(charged - {x}, y);
    assert charged - {x} - {y} == map[];
    assert HeldParts(s.holds, HoldsOf(s, owner, r), d) == map[];
  }

  const LIMITS := Amount(100, 10, 10)
  const EACH := Amount(50, 1, 1)
  const LARGE := Usage(Some(60), None, None, None, false)
  const SMALL := Usage(Some(10), None, Some(0), Some(0), true)

  /** Two calls of one account, reserved 50 tokens each of a limit of 100. */
  predicate Pair(s: State, r: Requirement, x: CallId, y: CallId, u: Usage, v: Usage) {
    TwoCalls(s, r, x, y) && s.accounts[r].limits == LIMITS && s.calls[x].reserved == EACH && s.calls[y].reserved == EACH &&
    s.calls[x].usage == u && s.calls[y].usage == v
  }

  /** What each of the three usages adds to use and exposure. */
  lemma PartsOf(call: Call)
    requires call.reserved == EACH
    ensures call.usage == UNUSED ==> call.usage.Known() == NOTHING && call.usage.Charged(call.reserved) == EACH
    ensures call.usage == LARGE ==> call.usage.Known() == Amount(60, 1, 0) && call.usage.Charged(call.reserved) == Amount(60, 1, 1)
    ensures call.usage == SMALL ==> call.usage.Known() == Amount(10, 1, 0) && call.usage.Charged(call.reserved) == Amount(10, 1, 0)
  {
  }

  lemma SumAt(s: State, owner: string -> Requirement, r: Requirement, x: CallId, y: CallId, d: Dimension, used: Amount, exposure: Amount)
    requires TwoCalls(s, r, x, y) && PartsAre(s.calls[x], s.calls[y], used, exposure)
    ensures Used(s, r, d) == used.At(d) && Exposed(s, owner, r, d) == exposure.At(d)
  {
    SumOfTwo(s, owner, r, x, y, d);
  }

  predicate PartsAre(x: Call, y: Call, used: Amount, exposure: Amount) {
    x.usage.Known().NonNegative() && y.usage.Known().NonNegative() &&
    x.usage.Charged(x.reserved).NonNegative() && y.usage.Charged(y.reserved).NonNegative() &&
    used == x.usage.Known().Plus(y.usage.Known()) && exposure == x.usage.Charged(x.reserved).Plus(y.usage.Charged(y.reserved))
  }

  lemma BalanceIs(s: State, owner: string -> Requirement, r: Requirement, used: Amount, exposure: Amount)
    requires forall d: Dimension :: Used(s, r, d) == used.At(d) && Exposed(s, owner, r, d) == exposure.At(d)
    ensures UsedAmount(s, r) == used && Exposure(s, owner, r) == exposure
  {
    assert Used(s, r, Tokens) == used.At(Tokens) && Used(s, r, Turns) == used.At(Turns) && Used(s, r, Seconds) == used.At(Seconds);
  }

  lemma SumsOfPair(s: State, owner: string -> Requirement, r: Requirement, x: CallId, y: CallId, used: Amount, exposure: Amount)
    requires TwoCalls(s, r, x, y) && PartsAre(s.calls[x], s.calls[y], used, exposure)
    ensures UsedAmount(s, r) == used && Exposure(s, owner, r) == exposure
  {
    forall d: Dimension ensures Used(s, r, d) == used.At(d) && Exposed(s, owner, r, d) == exposure.At(d) {
      SumAt(s, owner, r, x, y, d, used, exposure);
    }
    BalanceIs(s, owner, r, used, exposure);
  }

  /** 60 tokens known of an unfinished call beside an untouched reservation are too many. */
  lemma LargeFirstStops(s: State, owner: string -> Requirement, r: Requirement, x: CallId, y: CallId)
    requires Pair(s, r, x, y, LARGE, UNUSED)
    ensures Countable(s, owner, r) && OverLimit(s, owner, r)
  {
    PartsOf(s.calls[x]);
    PartsOf(s.calls[y]);
    SumsOfPair(s, owner, r, x, y, Amount(60, 1, 0), Amount(110, 2, 2));
  }

  /** Beside a settled call of 10 tokens they fit. */
  lemma SmallFirstFits(s: State, owner: string -> Requirement, r: Requirement, x: CallId, y: CallId, u: Usage)
    requires Pair(s, r, x, y, u, SMALL) && (u == UNUSED || u == LARGE)
    ensures Countable(s, owner, r) && !OverLimit(s, owner, r)
  {
    PartsOf(s.calls[x]);
    PartsOf(s.calls[y]);
    if u == UNUSED { SumsOfPair(s, owner, r, x, y, Amount(10, 1, 0), Amount(60, 2, 1)); }
    else { SumsOfPair(s, owner, r, x, y, Amount(70, 2, 0), Amount(70, 2, 1)); }
  }

  lemma TakenExactly(s: State, owner: string -> Requirement, op: Op, r: Requirement)
    requires op.Settle? && Addressed(s, op) && !op.groupExhausted && s.calls[IdOf(op)].requirement == r && r in s.accounts
    requires Merged(s, op).calls[IdOf(op)].usage.Valid() && Countable(Merged(s, op), owner, r)
    ensures AfterSettle(s, owner, op).0 == if OverLimit(Merged(s, op), owner, r) then Stopped(Merged(s, op), r) else Merged(s, op)
  {
  }

  predicate Unordered(s: State, r: Requirement, x: Op, y: Op) {
    x.Settle? && y.Settle? && Addressed(s, x) && Addressed(s, y) && x.usage == LARGE && y.usage == SMALL &&
    !x.groupExhausted && !y.groupExhausted && Event(x) !in s.events && Event(y) !in s.events &&
    Pair(s, r, IdOf(x), IdOf(y), UNUSED, UNUSED) && !s.accounts[r].exhausted
  }

  lemma LargeReportStops(s: State, owner: string -> Requirement, r: Requirement, x: Op, y: Op)
    requires Unordered(s, r, x, y)
    ensures var t := AfterSettle(s, owner, x).0; r in t.accounts && t.accounts[r].exhausted
  {
    assert Merged(s, x).calls[IdOf(x)].usage == LARGE;
    LargeFirstStops(Merged(s, x), owner, r, IdOf(x), IdOf(y));
    TakenExactly(s, owner, x, r);
  }

  lemma SmallReportFits(s: State, owner: string -> Requirement, r: Requirement, x: Op, y: Op)
    requires Unordered(s, r, x, y)
    ensures AfterSettle(s, owner, y).0 == Merged(s, y) && AfterSettle(Merged(s, y), owner, x).0 == Merged(Merged(s, y), x)
    ensures Merged(Merged(s, y), x).accounts == s.accounts
  {
    var m := Merged(s, y);
    assert m.calls[IdOf(y)].usage == SMALL;
    SmallFirstFits(m, owner, r, IdOf(x), IdOf(y), UNUSED);
    TakenExactly(s, owner, y, r);
    assert Event(x) != Event(y);
    assert Merged(m, x).calls[IdOf(x)].usage == LARGE;
    SmallFirstFits(Merged(m, x), owner, r, IdOf(x), IdOf(y), LARGE);
    TakenExactly(m, owner, x, r);
  }

  /** The usage does not depend on the order of reports, but whether the account is stopped on the way does. */
  lemma StopDependsOnOrder(s: State, owner: string -> Requirement, r: Requirement, x: Op, y: Op)
    requires Unordered(s, r, x, y)
    ensures var t := AfterSettle(AfterSettle(s, owner, x).0, owner, y).0; r in t.accounts && t.accounts[r].exhausted
    ensures var t := AfterSettle(AfterSettle(s, owner, y).0, owner, x).0; r in t.accounts && !t.accounts[r].exhausted
  {
    LargeReportStops(s, owner, r, x, y);
    SettleShape(AfterSettle(s, owner, x).0, owner, y);
    SmallReportFits(s, owner, r, x, y);
  }
}
