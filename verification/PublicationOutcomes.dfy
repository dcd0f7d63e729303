/** How succeed() ends (tools/remote-gate/evidence_admission.py:603-614): a success that was sent is
    confirmed in its pin exactly while that pin is live. */
module PublicationOutcomes {
  import opened Options
  import opened Json
  import opened EvidencePins
  import opened RetentionProtocol

  /** While the publisher holds the pin lock the pin it took is there, for its validation. */
  predicate HeldPin(h: Host, m: Machine) {
    m.publisher.Holding? || m.publisher.Patched? ==>
      m.publisher.id in m.pins.pins && m.pins.pins[m.publisher.id].validationId == h.named(m.publisher.v)
  }

  lemma StepKeepsHeldPin(h: Host, m: Machine, op: RetentionProtocol.Op)
    requires HeldPin(h, m)
    ensures HeldPin(h, RetentionProtocol.Step(h, m, op))
  {
    if op.Cleaning? && CanClean(h, m, op.c) { CleaningLeavesPins(h, m, op.c); }
  }

  lemma CleaningLeavesPins(h: Host, m: Machine, c: Clean)
    requires CanClean(h, m, c)
    ensures var t := AfterClean(h, m, c);
      t.publisher == m.publisher && (m.publisher.Holding? || m.publisher.Patched? ==> t.pins == m.pins)
  {
  }

  lemma {:induction false} ExecuteKeepsHeldPin(h: Host, m: Machine, ops: seq<RetentionProtocol.Op>)
    requires HeldPin(h, m)
    ensures HeldPin(h, RetentionProtocol.Execute(h, m, ops))
    decreases |ops|
  {
    if ops != [] {
      StepKeepsHeldPin(h, m, ops[0]);
      ExecuteKeepsHeldPin(h, RetentionProtocol.Step(h, m, ops[0]), ops[1..]);
    }
  }

  /** The same publication under the status confirmed, and the identity of its own bytes. */
  ghost predicate ConfirmedFrom(h: Host, before: Pin, after: Pin) {
    "status" in after.publication && after.publication["status"] == Str("confirmed") &&
    (forall field :: field != "status" ==>
      (field in after.publication <==> field in before.publication) &&
      (field in before.publication ==> after.publication[field] == before.publication[field])) &&
    after.publicationId == h.digest(Obj(after.publication)) &&
    after.validationId == before.validationId && after.subject == before.subject && after.attempt == before.attempt &&
    after.run == before.run && after.createdAt == before.createdAt && after.expiresAt == before.expiresAt
  }

  /** In every interleaving: once success was sent, the last step confirms the publication in its pin when that
      pin is live at the reading of the clock it checks, keeps every other live pin as it was and touches nothing
      else; when the pin is not, it changes nothing, and the success stays unconfirmed. */
  lemma FinishConfirms(h: Host, ops: seq<RetentionProtocol.Op>, checked: int)
    requires RetentionProtocol.Execute(h, RetentionProtocol.INITIAL, ops).publisher.Patched?
    requires checked <= RetentionProtocol.Execute(h, RetentionProtocol.INITIAL, ops).now
    ensures var m := RetentionProtocol.Execute(h, RetentionProtocol.INITIAL, ops);
      var t, k := RetentionProtocol.Step(h, m, Publishing(Finish(checked))), m.publisher.id;
      k in m.pins.pins && m.pins.pins[k].validationId == h.named(m.publisher.v) &&
      if m.pins.pins[k].expiresAt > checked then
        t.publisher.Idle? && k in t.pins.pins && ConfirmedFrom(h, m.pins.pins[k], t.pins.pins[k]) &&
        (forall other :: other != k ==>
          (other in t.pins.pins <==> other in m.pins.pins && m.pins.pins[other].expiresAt > m.now) &&
          (other in t.pins.pins ==> t.pins.pins[other] == m.pins.pins[other])) &&
        t.disk == m.disk && t.ledger == m.ledger && t.successes == m.successes
      else t == m
  {
    ExecuteKeepsHeldPin(h, RetentionProtocol.INITIAL, ops);
  }

  // ---------------------------------------------------------------- a publication that nothing refuses

  function Taking(v: L.Id, id: string, pin: Pin, now: int): seq<RetentionProtocol.Op> {
    [Publishing(Hold), Publishing(Verify(v)), Publishing(Publish.Reserve(id, pin, {}, now))]
  }

  function Succeeding(now: int): seq<RetentionProtocol.Op> { [Publishing(Enter), Publishing(Patch), Publishing(Finish(now))] }

  /** The validation stands, its evidence is as recorded, and the pin fits the budget and has not expired. */
  ghost predicate Publishable(h: Host, m: Machine, v: L.Id, id: string, pin: Pin) {
    m.publisher.Idle? && m.cleaner.Away? && v in m.ledger.records && m.ledger.records[v].outcome == L.Passed && L.Stands(m.ledger.events, v) &&
    "report" in Evidence(h, m.ledger.records[v]) && pin.validationId == h.named(v) &&
    (forall n :: n in Evidence(h, m.ledger.records[v]) ==> CheckRow(m.disk, pin.run, Evidence(h, m.ledger.records[v])[n], h.sha) == None) &&
    Reserved(m.disk, Live(m.pins.pins, m.now)[id := Unconfirmed(pin)], {}) <= h.budget && pin.expiresAt > m.now
  }

  lemma StepReserves(h: Host, m: Machine, v: L.Id, id: string, pin: Pin) returns (t: Machine)
    requires Publishable(h, m, v, id, pin)
    ensures var held := RetentionProtocol.Step(h, m, Publishing(Hold));
      var verified := RetentionProtocol.Step(h, held, Publishing(Verify(v)));
      t == RetentionProtocol.Step(h, verified, Publishing(Publish.Reserve(id, pin, {}, m.now)))
    ensures t.publisher == Reserving(v, id) && t.pins.pins == Live(m.pins.pins, m.now)[id := Unconfirmed(pin)]
    ensures t.now == m.now && t.cleaner == m.cleaner && t.disk == m.disk && t.ledger == m.ledger && t.successes == m.successes
  {
    var held := RetentionProtocol.Step(h, m, Publishing(Hold));
    assert held == m.(publisher := Held);
    var verified := RetentionProtocol.Step(h, held, Publishing(Verify(v)));
    assert verified == m.(publisher := Verified(v));
    t := RetentionProtocol.Step(h, verified, Publishing(Publish.Reserve(id, pin, {}, m.now)));
  }

  lemma StepPatches(h: Host, m: Machine, v: L.Id, id: string) returns (t: Machine)
    requires m.publisher == Reserving(v, id) && m.cleaner.Away? && IsLive(m.pins.pins, id, m.now) && m.pins.pins[id].validationId == h.named(v)
    ensures t == RetentionProtocol.Step(h, RetentionProtocol.Step(h, m, Publishing(Enter)), Publishing(Patch))
    ensures t == m.(publisher := Patched(v, id), successes := m.successes + {id})
  {
    t := RetentionProtocol.Step(h, RetentionProtocol.Step(h, m, Publishing(Enter)), Publishing(Patch));
  }

  lemma StepFinishes(h: Host, m: Machine, v: L.Id, id: string) returns (t: Machine)
    requires m.publisher == Patched(v, id) && IsLive(m.pins.pins, id, m.now) && m.pins.pins[id].validationId == h.named(v)
    ensures t == RetentionProtocol.Step(h, m, Publishing(Finish(m.now)))
    ensures t.publisher.Idle? && id in t.pins.pins && ConfirmedFrom(h, m.pins.pins[id], t.pins.pins[id]) && t.successes == m.successes
    ensures forall other :: other != id && IsLive(m.pins.pins, other, m.now) ==> other in t.pins.pins && t.pins.pins[other] == m.pins.pins[other]
  {
    t := RetentionProtocol.Step(h, m, Publishing(Finish(m.now)));
  }

  lemma ThreeSteps(h: Host, m: Machine, a: RetentionProtocol.Op, b: RetentionProtocol.Op, c: RetentionProtocol.Op)
    ensures RetentionProtocol.Execute(h, m, [a, b, c]) ==
            RetentionProtocol.Step(h, RetentionProtocol.Step(h, RetentionProtocol.Step(h, m, a), b), c)
  {
    var ops := [a, b, c];
    assert ops[1..] == [b, c] && ops[1..][1..] == [c] && ops[1..][1..][1..] == [];
    OneStep(h, m, ops);
    OneStep(h, RetentionProtocol.Step(h, m, a), [b, c]);
    OneStep(h, RetentionProtocol.Step(h, RetentionProtocol.Step(h, m, a), b), [c]);
  }

  lemma OneStep(h: Host, m: Machine, ops: seq<RetentionProtocol.Op>)
    requires ops != []
    ensures RetentionProtocol.Execute(h, m, ops) == RetentionProtocol.Execute(h, RetentionProtocol.Step(h, m, ops[0]), ops[1..])
  {
  }

  lemma {:induction false} RunBoth(h: Host, m: Machine, a: seq<RetentionProtocol.Op>, b: seq<RetentionProtocol.Op>)
    ensures RetentionProtocol.Execute(h, m, a + b) == RetentionProtocol.Execute(h, RetentionProtocol.Execute(h, m, a), b)
    decreases |a|
  {
    if a == [] {
      assert a + b == b;
    } else {
      assert (a + b)[1..] == a[1..] + b;
      RunBoth(h, RetentionProtocol.Step(h, m, a[0]), a[1..], b);
    }
  }

  ghost predicate Kept(pins: map<string, Pin>, next: map<string, Pin>, now: int, id: string) {
    forall other :: other != id && IsLive(pins, other, now) ==> other in next && next[other] == pins[other]
  }

  /** Until the pin is taken. */
  lemma TakesPin(h: Host, m: Machine, v: L.Id, id: string, pin: Pin)
    requires Publishable(h, m, v, id, pin)
    ensures var t := RetentionProtocol.Execute(h, m, Taking(v, id, pin, m.now));
      t.publisher == Reserving(v, id) && t.cleaner.Away? && t.now == m.now && IsLive(t.pins.pins, id, t.now) &&
      t.pins.pins[id] == Unconfirmed(pin) && t.pins.pins[id].validationId == h.named(v) && Kept(m.pins.pins, t.pins.pins, m.now, id)
  {
    var t := StepReserves(h, m, v, id, pin);
    ThreeSteps(h, m, Publishing(Hold), Publishing(Verify(v)), Publishing(Publish.Reserve(id, pin, {}, m.now)));
  }

  /** From the reserved pin on: success is recorded and the pin confirmed. */
  lemma ConfirmsPin(h: Host, m: Machine, v: L.Id, id: string)
    requires m.publisher == Reserving(v, id) && m.cleaner.Away? && IsLive(m.pins.pins, id, m.now) && m.pins.pins[id].validationId == h.named(v)
    ensures var t := RetentionProtocol.Execute(h, m, Succeeding(m.now));
      t.publisher.Idle? && id in t.successes && id in t.pins.pins && ConfirmedFrom(h, m.pins.pins[id], t.pins.pins[id]) &&
      Kept(m.pins.pins, t.pins.pins, m.now, id)
  {
    var u := StepPatches(h, m, v, id);
    var t := StepFinishes(h, u, v, id);
    ThreeSteps(h, m, Publishing(Enter), Publishing(Patch), Publishing(Finish(m.now)));
  }

  lemma KeptByBoth(a: map<string, Pin>, b: map<string, Pin>, c: map<string, Pin>, now: int, id: string)
    requires Kept(a, b, now, id) && Kept(b, c, now, id)
    ensures Kept(a, c, now, id)
  {
    forall other | other != id && IsLive(a, other, now) ensures other in c && c[other] == a[other] {
      assert IsLive(b, other, now);
    }
  }

  /** A standing PASS with accepted evidence that fits the budget is published in six steps: the success is
      recorded, its publication is confirmed in the new pin, and every other live pin is as it was. */
  lemma UnrefusedPublicationIsConfirmed(h: Host, m: Machine, v: L.Id, id: string, pin: Pin)
    requires Publishable(h, m, v, id, pin)
    ensures var t := RetentionProtocol.Execute(h, m, Taking(v, id, pin, m.now) + Succeeding(m.now));
      t.publisher.Idle? && id in t.successes && id in t.pins.pins && ConfirmedFrom(h, Unconfirmed(pin), t.pins.pins[id]) &&
      Kept(m.pins.pins, t.pins.pins, m.now, id)
  {
    RunBoth(h, m, Taking(v, id, pin, m.now), Succeeding(m.now));
    TakesPin(h, m, v, id, pin);
    var u := RetentionProtocol.Execute(h, m, Taking(v, id, pin, m.now));
    ConfirmsPin(h, u, v, id);
    KeptByBoth(m.pins.pins, u.pins.pins, RetentionProtocol.Execute(h, u, Succeeding(m.now)).pins.pins, m.now, id);
  }

  // ---------------------------------------------------------------- the sweep

  /** A sweep that finds the pin lock free releases what it names and extends what it may, and keeps every other live
      pin as it was; while the lock is held it waits. */
  lemma SweepIsStored(h: Host, m: Machine, k: string, until: int)
    requires IsLive(m.pins.pins, k, m.now)
    ensures var t := RetentionProtocol.Step(h, m, Sweep(Release({k}, m.now)));
      if LockFree(m) then k !in t.pins.pins && Kept(m.pins.pins, t.pins.pins, m.now, k) else t == m
    ensures var t := RetentionProtocol.Step(h, m, Sweep(Extend(k, until, m.now)));
      var expiry := m.pins.pins[k].expiresAt;
      if LockFree(m) && IntWidth(if until > expiry then until else expiry) == IntWidth(expiry) then
        k in t.pins.pins && t.pins.pins[k].expiresAt == (if until > expiry then until else expiry) && Kept(m.pins.pins, t.pins.pins, m.now, k)
      else t == m
  {
  }
}
