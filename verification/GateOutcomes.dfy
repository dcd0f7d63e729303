/** How start and validate of one issue end when nothing refuses them (tools/publication/gate.py), the
    counterpart of PublicationGate, which says what no step can break. */
module GateOutcomes {
  import opened Options
  import opened EvidenceLedger
  import opened PublicationGate

  // ---------------------------------------------------------------- runs step by step

  lemma RunStep(s: Issue, op: PublicationGate.Op, rest: seq<PublicationGate.Op>, foreign: set<Inputs>)
    ensures PublicationGate.Execute(s, [op] + rest, foreign) == PublicationGate.Execute(PublicationGate.Advance(s, op, foreign), rest, foreign)
  {
    assert ([op] + rest)[1..] == rest;
  }

  lemma {:induction false} RunsCompose(s: Issue, a: seq<PublicationGate.Op>, b: seq<PublicationGate.Op>, foreign: set<Inputs>)
    ensures PublicationGate.Execute(s, a + b, foreign) == PublicationGate.Execute(PublicationGate.Execute(s, a, foreign), b, foreign)
    decreases |a|
  {
    if a == [] {
      assert a + b == b;
    } else {
      assert (a + b)[1..] == a[1..] + b;
      RunsCompose(PublicationGate.Advance(s, a[0], foreign), a[1..], b, foreign);
    }
  }

  lemma TwoSteps(s: Issue, t: Issue, p: PublicationGate.Op, q: PublicationGate.Op, foreign: set<Inputs>)
    requires PublicationGate.Advance(s, p, foreign) == t
    ensures PublicationGate.Execute(s, [p, q], foreign) == PublicationGate.Advance(t, q, foreign)
  {
    assert [p, q] == [p] + [q] && [q] == [q] + [];
    RunStep(s, p, [q], foreign);
    RunStep(t, q, [], foreign);
  }

  lemma ThreeSteps(s: Issue, t: Issue, p: PublicationGate.Op, q: PublicationGate.Op, r: PublicationGate.Op, foreign: set<Inputs>)
    requires PublicationGate.Advance(s, p, foreign) == t
    ensures PublicationGate.Execute(s, [p, q, r], foreign) == PublicationGate.Execute(t, [q, r], foreign)
  {
    assert [p, q, r] == [p] + [q, r];
    RunStep(s, p, [q, r], foreign);
  }

  lemma AtTwice(s: Issue, pid: Pid, p: Phase, q: Phase)
    ensures At(At(s, pid, p), pid, q) == At(s, pid, q)
  {
    assert At(At(s, pid, p), pid, q).processes == At(s, pid, q).processes;
  }

  // ---------------------------------------------------------------- a validate that fails concludes its attempt

  /** The attempt a failing validate has in hand, and the inputs it announced. */
  predicate InHand(phase: Phase, i: Inputs, a: Id) {
    phase == ValidateNamed(i, a) || phase == ValidateGate(i, a) || phase == ConcludeRecord(Some(i), Some(a))
  }

  /** The step in which the receipt cannot be replaced or the Gate fails before it records anything. */
  function Failing(v: Id): Choice { Choice(false, Nothing, Inputs("", "", "", ""), v, map[], 0) }

  /** What such a validate still does: unless it has done so the failing step, then record_fail() and the receipt. */
  function Concluding(pid: Pid, phase: Phase, v: Id): seq<PublicationGate.Op> {
    (if phase.ConcludeRecord? then [] else [Step(pid, Failing(v))]) + [Step(pid, Unrefused(v)), Step(pid, Unrefused(v))]
  }

  lemma FailureIsCaught(s: Issue, pid: Pid, v: Id, i: Inputs, a: Id, foreign: set<Inputs>)
    requires pid in s.processes && InHand(s.processes[pid], i, a)
    ensures var t := At(s, pid, ConcludeRecord(Some(i), Some(a)));
      PublicationGate.Execute(s, Concluding(pid, s.processes[pid], v), foreign) ==
      PublicationGate.Execute(t, [Step(pid, Unrefused(v)), Step(pid, Unrefused(v))], foreign)
  {
    var rest := [Step(pid, Unrefused(v)), Step(pid, Unrefused(v))];
    var t := At(s, pid, ConcludeRecord(Some(i), Some(a)));
    if s.processes[pid].ConcludeRecord? {
      assert Concluding(pid, s.processes[pid], v) == rest;
      assert t.processes == s.processes;
    } else {
      RunStep(s, Step(pid, Failing(v)), rest, foreign);
    }
  }

  lemma FailureIsRecorded(s: Issue, pid: Pid, v: Id, i: Inputs, a: Id, foreign: set<Inputs>)
    requires Enabled(s.ledger, Conclude(Failed, a, i, map[], v)) && pid in s.processes && s.execution == Some(pid) && s.scheduling != Some(pid)
    ensures PublicationGate.Execute(At(s, pid, ConcludeRecord(Some(i), Some(a))), [Step(pid, Unrefused(v)), Step(pid, Unrefused(v))], foreign) ==
      s.(ledger := Apply(s.ledger, Conclude(Failed, a, i, map[], v)), receipt := Receipt(Status.Fail, Some(i), Some(a), Some(v)),
         execution := None, processes := s.processes - {pid})
  {
    var step := Step(pid, Unrefused(v));
    var t := At(s, pid, ConcludeRecord(Some(i), Some(a)));
    var recorded := s.(ledger := Apply(s.ledger, Conclude(Failed, a, i, map[], v)));
    var u := At(recorded, pid, ConcludeWrite(Some(i), Some(a), Some(v)));
    assert PublicationGate.Advance(t, step, foreign) == u by {
      AtTwice(recorded, pid, ConcludeRecord(Some(i), Some(a)), ConcludeWrite(Some(i), Some(a), Some(v)));
    }
    TwoSteps(t, u, step, step, foreign);
    assert u.processes - {pid} == s.processes - {pid};
  }

  /** From every reachable state in which a validate holds an open attempt: when the Gate fails, or had failed,
      its unrefused steps conclude the attempt as FAIL, the receipt names that conclusion, nothing of the issue
      is left open and the execution lock is free. */
  lemma FailedValidateConcludes(ops: seq<PublicationGate.Op>, foreign: set<Inputs>, pid: Pid, v: Id, a: Id, i: Inputs)
    requires var s := PublicationGate.Execute(PublicationGate.INITIAL, ops, foreign);
      pid in s.processes && InHand(s.processes[pid], i, a) && a in Unconcluded(s.ledger.events, i) && v !in s.ledger.records && i !in foreign
    ensures var s := PublicationGate.Execute(PublicationGate.INITIAL, ops, foreign);
      var t := PublicationGate.Execute(s, Concluding(pid, s.processes[pid], v), foreign);
      NoneOpen(t.ledger, foreign) && ConcludedAs(t.ledger, i, a, v, false) &&
      t.receipt == Receipt(Status.Fail, Some(i), Some(a), Some(v)) &&
      t.execution == None && t.scheduling == s.scheduling && t.processes == s.processes - {pid}
  {
    ReachableHolds(ops, foreign);
    ReceiptLeadsToTheAttempt(ops, foreign, a, i);
    NeverSchedules(ops, foreign, pid);
    HeldAttemptConcludes(PublicationGate.Execute(PublicationGate.INITIAL, ops, foreign), foreign, pid, v, a, i);
  }

  lemma HeldAttemptConcludes(s: Issue, foreign: set<Inputs>, pid: Pid, v: Id, a: Id, i: Inputs)
    requires PublicationGate.Inv(s, foreign) && CrashedAttempt(s) == Some(a) && s.receipt.identity == Some(i)
    requires pid in s.processes && InHand(s.processes[pid], i, a) && a in Unconcluded(s.ledger.events, i) && v !in s.ledger.records
    requires s.scheduling == Some(pid) ==> HoldsScheduling(s.processes[pid])
    ensures var t := PublicationGate.Execute(s, Concluding(pid, s.processes[pid], v), foreign);
      NoneOpen(t.ledger, foreign) && ConcludedAs(t.ledger, i, a, v, false) &&
      t.receipt == Receipt(Status.Fail, Some(i), Some(a), Some(v)) &&
      t.execution == None && t.scheduling == s.scheduling && t.processes == s.processes - {pid}
  {
    UnconcludedIsOpen(s.ledger, a, i);
    FailureIsCaught(s, pid, v, i, a, foreign);
    FailureIsRecorded(s, pid, v, i, a, foreign);
    SelectionIsTheOpenOne(s, foreign);
    ConcludeCloses(s.ledger, Conclude(Failed, a, i, map[], v), foreign);
  }

  /** A process that works on an attempt has given the scheduling lock back. */
  predicate Released(s: Issue) {
    forall p :: p in s.processes && s.scheduling == Some(p) ==> HoldsScheduling(s.processes[p])
  }

  /** Locks are held by processes. */
  predicate Owned(s: Issue) {
    (s.scheduling.Some? ==> s.scheduling.value in s.processes) && (s.execution.Some? ==> s.execution.value in s.processes)
  }

  lemma EntryKeepsReleased(s: Issue, pid: Pid, c: Choice)
    requires Released(s) && Owned(s) && Locks(s) && pid in s.processes && Entering(s.processes[pid])
    ensures Released(EntryStep(s, pid, s.processes[pid], c)) && Owned(EntryStep(s, pid, s.processes[pid], c))
  {
  }

  lemma ExitKeepsReleased(s: Issue, t: Issue, pid: Pid)
    requires Released(s) && Owned(s) && Moves(s, t, pid) && (pid in t.processes ==> HoldsScheduling(t.processes[pid]) == HoldsScheduling(s.processes[pid]))
    ensures Released(t) && Owned(t)
  {
  }

  lemma StepKeepsReleased(s: Issue, pid: Pid, c: Choice, foreign: set<Inputs>)
    requires Released(s) && Owned(s) && Locks(s) && pid in s.processes
    ensures Released(StepOf(s, pid, s.processes[pid], c, foreign)) && Owned(StepOf(s, pid, s.processes[pid], c, foreign))
  {
    var phase := s.processes[pid];
    var t := StepOf(s, pid, phase, c, foreign);
    if Entering(phase) {
      EntryKeepsReleased(s, pid, c);
    } else {
      if phase.ConcludeRecord? || phase.ConcludeWrite? || phase.RecoverSelect? || phase.RecoverRecord? || phase.RecoverWrite? {
        OtherMoves(s, pid, phase, c);
      } else {
        ValidateMoves(s, pid, phase, c, foreign);
      }
      ExitKeepsReleased(s, t, pid);
    }
  }

  lemma AdvanceKeepsReleased(s: Issue, op: PublicationGate.Op, foreign: set<Inputs>)
    requires Released(s) && Owned(s) && Locks(s)
    ensures Released(PublicationGate.Advance(s, op, foreign)) && Owned(PublicationGate.Advance(s, op, foreign))
  {
    if op.Step? && op.pid in s.processes { StepKeepsReleased(s, op.pid, op.choice, foreign); }
  }

  lemma {:induction false} ExecuteKeepsReleased(s: Issue, ops: seq<PublicationGate.Op>, foreign: set<Inputs>)
    requires PublicationGate.Inv(s, foreign) && Released(s) && Owned(s)
    ensures Released(PublicationGate.Execute(s, ops, foreign)) && Owned(PublicationGate.Execute(s, ops, foreign))
    decreases |ops|
  {
    if ops != [] {
      AdvanceKeepsInv(s, ops[0], foreign);
      AdvanceKeepsReleased(s, ops[0], foreign);
      ExecuteKeepsReleased(PublicationGate.Advance(s, ops[0], foreign), ops[1..], foreign);
    }
  }

  lemma NeverSchedules(ops: seq<PublicationGate.Op>, foreign: set<Inputs>, pid: Pid)
    ensures var s := PublicationGate.Execute(PublicationGate.INITIAL, ops, foreign);
      Owned(s) && (pid in s.processes && s.scheduling == Some(pid) ==> HoldsScheduling(s.processes[pid]))
  {
    ReachableHolds([], foreign);
    ExecuteKeepsReleased(PublicationGate.INITIAL, ops, foreign);
  }

  /** A failing validate without an open attempt in hand, because none was begun or it was concluded before,
      writes nothing to the ledger; its receipt says what it knows and names no validation. */
  lemma FailedValidateReports(ops: seq<PublicationGate.Op>, foreign: set<Inputs>, pid: Pid, v: Id, known: Option<Inputs>, begun: Option<Id>)
    requires var s := PublicationGate.Execute(PublicationGate.INITIAL, ops, foreign);
      pid in s.processes && s.processes[pid] == ConcludeRecord(known, begun) &&
      (known.Some? && begun.Some? ==> begun.value !in Unconcluded(s.ledger.events, known.value))
    ensures var s := PublicationGate.Execute(PublicationGate.INITIAL, ops, foreign);
      var t := PublicationGate.Execute(s, [Step(pid, Unrefused(v)), Step(pid, Unrefused(v))], foreign);
      t.ledger == s.ledger && t.receipt == Receipt(Status.Fail, known, begun, None) &&
      t.execution == None && t.scheduling == s.scheduling && t.processes == s.processes - {pid}
  {
    var s := PublicationGate.Execute(PublicationGate.INITIAL, ops, foreign);
    ReachableHolds(ops, foreign);
    NeverSchedules(ops, foreign, pid);
    var step := Step(pid, Unrefused(v));
    var u := At(s, pid, ConcludeWrite(known, begun, None));
    assert PublicationGate.Advance(s, step, foreign) == u;
    TwoSteps(s, u, step, step, foreign);
    assert u.processes - {pid} == s.processes - {pid};
  }

  // ---------------------------------------------------------------- a validate that nothing refuses passes

  /** Every answer is good: inputs `i`, the nonce of the next identity, and the evidence of a passing Gate. */
  function Passing(i: Inputs, nonce: Id, evidence: map<string, Row>): Choice { Choice(true, WholeEvent, i, nonce, evidence, 0) }

  /** validate() up to its ledger start, and from there. */
  function Claiming(pid: Pid, c: Choice): seq<PublicationGate.Op> { [Spawn(pid, Validate)] + Steps(Step(pid, c), 5) }

  function Validating(pid: Pid, c: Choice, d: Choice): seq<PublicationGate.Op> {
    Claiming(pid, c) + (Steps(Step(pid, c), 3) + Steps(Step(pid, d), 3))
  }

  lemma StepsTo(s: Issue, t: Issue, op: PublicationGate.Op, n: nat, foreign: set<Inputs>)
    requires n > 0 && PublicationGate.Advance(s, op, foreign) == t
    ensures PublicationGate.Execute(s, Steps(op, n), foreign) == PublicationGate.Execute(t, Steps(op, n - 1), foreign)
  {
    Unroll(s, op, n, foreign);
  }

  lemma NoSteps(s: Issue, op: PublicationGate.Op, foreign: set<Inputs>)
    ensures PublicationGate.Execute(s, Steps(op, 0), foreign) == s
  {
    Unroll(s, op, 0, foreign);
  }

  /** What validate() owns when its claim is over. */
  function Claimed(s: Issue, pid: Pid): Issue {
    At(s.(execution := Some(pid), receipt := Receipt(Running, None, None, None)), pid, ValidateInputs)
  }

  lemma ClaimSteps(s: Issue, pid: Pid, c: Choice, foreign: set<Inputs>)
    requires s.scheduling == None && s.execution == None && c.ok && Orphaned(s) == {}
    ensures PublicationGate.Execute(At(s, pid, ValidateScheduling), Steps(Step(pid, c), 5), foreign) == Claimed(s, pid)
  {
    var op := Step(pid, c);
    var s1 := s.(scheduling := Some(pid));
    var s2 := s1.(execution := Some(pid));
    var s3 := Write(s2, Running, None, None, None);
    AtTwice(s1, pid, ValidateScheduling, ValidateExecution);
    StepsTo(At(s, pid, ValidateScheduling), At(s1, pid, ValidateExecution), op, 5, foreign);
    AtTwice(s2, pid, ValidateExecution, ValidateCheck);
    StepsTo(At(s1, pid, ValidateExecution), At(s2, pid, ValidateCheck), op, 4, foreign);
    AtTwice(s2, pid, ValidateCheck, ValidateClaim);
    StepsTo(At(s2, pid, ValidateCheck), At(s2, pid, ValidateClaim), op, 3, foreign);
    AtTwice(s3, pid, ValidateClaim, ValidateRelease);
    StepsTo(At(s2, pid, ValidateClaim), At(s3, pid, ValidateRelease), op, 2, foreign);
    AtTwice(Claimed(s, pid), pid, ValidateRelease, ValidateInputs);
    assert PublicationGate.Advance(At(s3, pid, ValidateRelease), op, foreign).processes == Claimed(s, pid).processes;
    StepsTo(At(s3, pid, ValidateRelease), Claimed(s, pid), op, 1, foreign);
    NoSteps(Claimed(s, pid), op, foreign);
  }

  /** The start event is written and the receipt names the inputs. */
  function Begun(s: Issue, pid: Pid, i: Inputs, n: Id): Issue {
    At(s.(execution := Some(pid), receipt := Receipt(Running, Some(i), None, None), ledger := Apply(s.ledger, Begin(i, n))), pid, ValidateNamed(i, n))
  }

  lemma StepInputs(s: Issue, pid: Pid, c: Choice, foreign: set<Inputs>)
    requires c.ok && Named(c.inputs) && c.inputs !in foreign
    ensures PublicationGate.Advance(At(s, pid, ValidateInputs), Step(pid, c), foreign) == At(s, pid, ValidateIdentity(c.inputs))
  {
    AtTwice(s, pid, ValidateInputs, ValidateIdentity(c.inputs));
  }

  lemma StepIdentity(s: Issue, pid: Pid, c: Choice, i: Inputs, foreign: set<Inputs>)
    requires c.ok
    ensures PublicationGate.Advance(At(s, pid, ValidateIdentity(i)), Step(pid, c), foreign) ==
      At(Write(s, Running, Some(i), None, None), pid, ValidateBegin(i))
  {
    AtTwice(Write(s, Running, Some(i), None, None), pid, ValidateIdentity(i), ValidateBegin(i));
  }

  lemma StepBegin(s: Issue, pid: Pid, c: Choice, i: Inputs, foreign: set<Inputs>)
    requires c.ok && c.effect == WholeEvent && Enabled(s.ledger, Begin(i, c.nonce))
    ensures PublicationGate.Advance(At(s, pid, ValidateBegin(i)), Step(pid, c), foreign) ==
      At(s.(ledger := Apply(s.ledger, Begin(i, c.nonce))), pid, ValidateNamed(i, c.nonce))
  {
    AtTwice(s.(ledger := Apply(s.ledger, Begin(i, c.nonce))), pid, ValidateBegin(i), ValidateNamed(i, c.nonce));
  }

  lemma StepNamed(s: Issue, pid: Pid, c: Choice, i: Inputs, n: Id, foreign: set<Inputs>)
    requires c.ok
    ensures PublicationGate.Advance(At(s, pid, ValidateNamed(i, n)), Step(pid, c), foreign) ==
      At(Write(s, Running, Some(i), Some(n), None), pid, ValidateGate(i, n))
  {
    AtTwice(Write(s, Running, Some(i), Some(n), None), pid, ValidateNamed(i, n), ValidateGate(i, n));
  }

  lemma StepGate(s: Issue, pid: Pid, c: Choice, i: Inputs, n: Id, foreign: set<Inputs>)
    requires c.ok && c.effect == WholeEvent && Enabled(s.ledger, Conclude(Passed, n, i, c.evidence, c.nonce))
    ensures PublicationGate.Advance(At(s, pid, ValidateGate(i, n)), Step(pid, c), foreign) ==
      At(s.(ledger := Apply(s.ledger, Conclude(Passed, n, i, c.evidence, c.nonce))), pid, ValidatePublish(i, n, c.nonce))
  {
    AtTwice(s.(ledger := Apply(s.ledger, Conclude(Passed, n, i, c.evidence, c.nonce))), pid, ValidateGate(i, n), ValidatePublish(i, n, c.nonce));
  }

  lemma StepPublish(s: Issue, pid: Pid, c: Choice, i: Inputs, n: Id, v: Id, foreign: set<Inputs>)
    requires c.ok && pid !in s.processes && s.scheduling != Some(pid) && s.execution == Some(pid)
    ensures PublicationGate.Advance(At(s, pid, ValidatePublish(i, n, v)), Step(pid, c), foreign) ==
      s.(receipt := Receipt(Status.Pass, Some(i), Some(n), Some(v)), execution := None)
  {
    assert At(s, pid, ValidatePublish(i, n, v)).processes - {pid} == s.processes;
  }

  lemma ThreeTo(s: Issue, t: Issue, u: Issue, w: Issue, op: PublicationGate.Op, foreign: set<Inputs>)
    requires PublicationGate.Advance(s, op, foreign) == t && PublicationGate.Advance(t, op, foreign) == u && PublicationGate.Advance(u, op, foreign) == w
    ensures PublicationGate.Execute(s, Steps(op, 3), foreign) == w
  {
    StepsTo(s, t, op, 3, foreign);
    StepsTo(t, u, op, 2, foreign);
    StepsTo(u, w, op, 1, foreign);
    NoSteps(w, op, foreign);
  }

  lemma BeginSteps(s: Issue, pid: Pid, i: Inputs, n: Id, foreign: set<Inputs>)
    requires Enabled(s.ledger, Begin(i, n)) && i !in foreign
    ensures PublicationGate.Execute(Claimed(s, pid), Steps(Step(pid, Passing(i, n, map[])), 3), foreign) == Begun(s, pid, i, n)
  {
    var c := Passing(i, n, map[]);
    var s0 := s.(execution := Some(pid), receipt := Receipt(Running, None, None, None));
    var s1 := Write(s0, Running, Some(i), None, None);
    StepInputs(s0, pid, c, foreign);
    StepIdentity(s0, pid, c, i, foreign);
    StepBegin(s1, pid, c, i, foreign);
    ThreeTo(Claimed(s, pid), At(s0, pid, ValidateIdentity(i)), At(s1, pid, ValidateBegin(i)), Begun(s, pid, i, n), Step(pid, c), foreign);
  }

  lemma PassSteps(s: Issue, pid: Pid, i: Inputs, n: Id, v: Id, evidence: map<string, Row>, foreign: set<Inputs>)
    requires s.scheduling == None && pid !in s.processes
    requires Enabled(Apply(s.ledger, Begin(i, n)), Conclude(Passed, n, i, evidence, v))
    ensures PublicationGate.Execute(Begun(s, pid, i, n), Steps(Step(pid, Passing(i, v, evidence)), 3), foreign) == Published(s, i, n, v, evidence)
  {
    var c := Passing(i, v, evidence);
    var s0 := s.(execution := Some(pid), ledger := Apply(s.ledger, Begin(i, n)), receipt := Receipt(Running, Some(i), None, None));
    var s1 := Write(s0, Running, Some(i), Some(n), None);
    var s2 := s1.(ledger := Apply(s0.ledger, Conclude(Passed, n, i, evidence, v)));
    StepNamed(s0, pid, c, i, n, foreign);
    StepGate(s1, pid, c, i, n, foreign);
    StepPublish(s2, pid, c, i, n, v, foreign);
    ThreeTo(Begun(s, pid, i, n), At(s1, pid, ValidateGate(i, n)), At(s2, pid, ValidatePublish(i, n, v)), Published(s, i, n, v, evidence),
            Step(pid, c), foreign);
  }

  /** The issue once the attempt has passed. */
  function Published(s: Issue, i: Inputs, n: Id, v: Id, evidence: map<string, Row>): Issue {
    s.(ledger := Apply(Apply(s.ledger, Begin(i, n)), Conclude(Passed, n, i, evidence, v)),
       receipt := Receipt(Status.Pass, Some(i), Some(n), Some(v)), execution := None)
  }

  lemma ValidateSteps(s: Issue, pid: Pid, i: Inputs, n: Id, v: Id, evidence: map<string, Row>, foreign: set<Inputs>)
    requires s.scheduling == None && s.execution == None && pid !in s.processes && Orphaned(s) == {} && i !in foreign
    requires Enabled(s.ledger, Begin(i, n)) && Enabled(Apply(s.ledger, Begin(i, n)), Conclude(Passed, n, i, evidence, v))
    ensures PublicationGate.Execute(s, Validating(pid, Passing(i, n, map[]), Passing(i, v, evidence)), foreign) == Published(s, i, n, v, evidence)
  {
    var c, d := Passing(i, n, map[]), Passing(i, v, evidence);
    var begin, publish := Steps(Step(pid, c), 3), Steps(Step(pid, d), 3);
    RunsCompose(s, Claiming(pid, c), begin + publish, foreign);
    RunStep(s, Spawn(pid, Validate), Steps(Step(pid, c), 5), foreign);
    ClaimSteps(s, pid, c, foreign);
    RunsCompose(Claimed(s, pid), begin, publish, foreign);
    BeginSteps(s, pid, i, n, foreign);
    PassSteps(s, pid, i, n, v, evidence, foreign);
  }

  /** From every reachable state with both locks free: a validate that nothing refuses passes exactly when no
      attempt is orphaned, and otherwise it leaves everything as it was. When it passes, the ledger has the start
      and the PASS of its attempt, with a record of the evidence; the receipt names that PASS; nothing of the
      issue is left open; and the PASS stands if no other attempt of the same executed inputs is pending. */
  lemma UnrefusedValidatePasses(ops: seq<PublicationGate.Op>, foreign: set<Inputs>, pid: Pid, i: Inputs, n: Id, v: Id, evidence: map<string, Row>)
    requires var s := PublicationGate.Execute(PublicationGate.INITIAL, ops, foreign);
      s.scheduling == None && s.execution == None && pid !in s.processes && i !in foreign && evidence != map[] &&
      Named(i) && (forall k :: 0 <= k < |s.ledger.events| ==> s.ledger.events[k].attempt != n) && v !in s.ledger.records
    ensures var s := PublicationGate.Execute(PublicationGate.INITIAL, ops, foreign);
      var t := PublicationGate.Execute(s, Validating(pid, Passing(i, n, map[]), Passing(i, v, evidence)), foreign);
      if exists a, j :: j !in foreign && a in Unconcluded(s.ledger.events, j) then t == s
      else
        t.receipt == Receipt(Status.Pass, Some(i), Some(n), Some(v)) && ConcludedAs(t.ledger, i, n, v, true) && NoneOpen(t.ledger, foreign) &&
        v in t.ledger.records && t.ledger.records[v] == Record(Passed, n, i, evidence) &&
        (Stands(t.ledger.events, v) <==> Pending(s.ledger.events, Execution(i)) == {}) &&
        t.scheduling == None && t.execution == None && t.processes == s.processes
  {
    var s := PublicationGate.Execute(PublicationGate.INITIAL, ops, foreign);
    ReachableHolds(ops, foreign);
    OrphanedMeansUnconcluded(ops, foreign);
    if Orphaned(s) == {} {
      UnorphanedValidatePasses(s, foreign, pid, i, n, v, evidence);
    } else {
      OrphanedValidateStops(s, pid, Passing(i, n, map[]), Passing(i, v, evidence), foreign);
    }
  }

  lemma UnorphanedValidatePasses(s: Issue, foreign: set<Inputs>, pid: Pid, i: Inputs, n: Id, v: Id, evidence: map<string, Row>)
    requires Facts(s.ledger, s.receipt, foreign) && Orphaned(s) == {}
    requires s.scheduling == None && s.execution == None && pid !in s.processes && i !in foreign && evidence != map[]
    requires Enabled(s.ledger, Begin(i, n)) && v !in s.ledger.records
    ensures var t := PublicationGate.Execute(s, Validating(pid, Passing(i, n, map[]), Passing(i, v, evidence)), foreign);
      t == Published(s, i, n, v, evidence) && ConcludedAs(t.ledger, i, n, v, true) && NoneOpen(t.ledger, foreign) &&
      v in t.ledger.records && t.ledger.records[v] == Record(Passed, n, i, evidence) &&
      (Stands(t.ledger.events, v) <==> Pending(s.ledger.events, Execution(i)) == {})
  {
    OrphanedExactly(s, foreign);
    PassStands(s.ledger, i, n, v, evidence);
    ValidateSteps(s, pid, i, n, v, evidence, foreign);
    PassCloses(s.ledger, i, n, v, evidence, foreign);
  }

  /** What refuse_orphaned() looks for is any unconcluded attempt of this issue. */
  lemma OrphanedMeansUnconcluded(ops: seq<PublicationGate.Op>, foreign: set<Inputs>)
    ensures var s := PublicationGate.Execute(PublicationGate.INITIAL, ops, foreign);
      Orphaned(s) != {} <==> exists a, j :: j !in foreign && a in Unconcluded(s.ledger.events, j)
  {
    var s := PublicationGate.Execute(PublicationGate.INITIAL, ops, foreign);
    ReachableHolds(ops, foreign);
    if a, j :| j !in foreign && a in Unconcluded(s.ledger.events, j) { ReceiptLeadsToTheAttempt(ops, foreign, a, j); }
  }

  lemma PassCloses(l: EvidenceLedger.State, i: Inputs, n: Id, v: Id, evidence: map<string, Row>, foreign: set<Inputs>)
    requires EvidenceLedger.Valid(l) && NoneOpen(l, foreign) && i !in foreign && Enabled(l, Begin(i, n))
    requires Enabled(Apply(l, Begin(i, n)), Conclude(Passed, n, i, evidence, v))
    ensures NoneOpen(Apply(Apply(l, Begin(i, n)), Conclude(Passed, n, i, evidence, v)), foreign)
  {
    var begun := Apply(l, Begin(i, n));
    ApplyKeepsValid(l, Begin(i, n));
    forall a, j ensures Open(begun, a, j) <==> Open(l, a, j) || (a == n && j == i) { BeginOpens(l, i, n, a, j); }
    assert OnlyOpen(begun, i, n, foreign);
    ConcludeCloses(begun, Conclude(Passed, n, i, evidence, v), foreign);
  }

  lemma OrphanedValidateStops(s: Issue, pid: Pid, c: Choice, d: Choice, foreign: set<Inputs>)
    requires s.scheduling == None && s.execution == None && pid !in s.processes && Orphaned(s) != {}
    ensures PublicationGate.Execute(s, Validating(pid, c, d), foreign) == s
  {
    var op, rest := Step(pid, c), Steps(Step(pid, c), 3) + Steps(Step(pid, d), 3);
    RunsCompose(s, Claiming(pid, c), rest, foreign);
    RunStep(s, Spawn(pid, Validate), Steps(op, 5), foreign);
    var s1 := s.(scheduling := Some(pid));
    var s2 := s1.(execution := Some(pid));
    AtTwice(s1, pid, ValidateScheduling, ValidateExecution);
    StepsTo(At(s, pid, ValidateScheduling), At(s1, pid, ValidateExecution), op, 5, foreign);
    AtTwice(s2, pid, ValidateExecution, ValidateCheck);
    StepsTo(At(s1, pid, ValidateExecution), At(s2, pid, ValidateCheck), op, 4, foreign);
    OrphanedStops(s, pid, ValidateCheck, c, foreign);
    StepsTo(At(s2, pid, ValidateCheck), s, op, 3, foreign);
    NothingLeft(s, pid, Steps(op, 2), foreign);
    NothingLeft(s, pid, rest, foreign);
  }

  lemma OrphanedStops(s: Issue, pid: Pid, phase: Phase, c: Choice, foreign: set<Inputs>)
    requires s.scheduling == None && s.execution == None && pid !in s.processes && Orphaned(s) != {} && (phase.ValidateCheck? || phase.StartCheck?)
    ensures PublicationGate.Advance(At(s.(scheduling := Some(pid), execution := Some(pid)), pid, phase), Step(pid, c), foreign) == s
  {
    assert At(s.(scheduling := Some(pid), execution := Some(pid)), pid, phase).processes - {pid} == s.processes;
  }

  /** A process that has ended takes no step. */
  lemma {:induction false} NothingLeft(s: Issue, pid: Pid, ops: seq<PublicationGate.Op>, foreign: set<Inputs>)
    requires pid !in s.processes && forall op :: op in ops ==> op.Step? && op.pid == pid
    ensures PublicationGate.Execute(s, ops, foreign) == s
    decreases |ops|
  {
    if ops != [] { NothingLeft(s, pid, ops[1..], foreign); }
  }

  // ---------------------------------------------------------------- a start that nothing refuses launches

  function Starting(pid: Pid, c: Choice): seq<PublicationGate.Op> { [Spawn(pid, Role.Start)] + Steps(Step(pid, c), 6) }

  lemma StartLocks(s: Issue, pid: Pid, c: Choice, foreign: set<Inputs>)
    requires s.scheduling == None && s.execution == None && c.ok
    ensures PublicationGate.Execute(At(s, pid, StartScheduling), Steps(Step(pid, c), 6), foreign) ==
      PublicationGate.Execute(At(s.(scheduling := Some(pid), execution := Some(pid)), pid, StartCheck), Steps(Step(pid, c), 3), foreign)
  {
    var op := Step(pid, c);
    var s1 := s.(scheduling := Some(pid));
    var s2 := s1.(execution := Some(pid));
    AtTwice(s1, pid, StartScheduling, StartExecution);
    StepsTo(At(s, pid, StartScheduling), At(s1, pid, StartExecution), op, 6, foreign);
    AtTwice(s2, pid, StartExecution, StartUnit);
    StepsTo(At(s1, pid, StartExecution), At(s2, pid, StartUnit), op, 5, foreign);
    AtTwice(s2, pid, StartUnit, StartCheck);
    StepsTo(At(s2, pid, StartUnit), At(s2, pid, StartCheck), op, 4, foreign);
  }

  /** The pending receipt is written and the validating process is there, waiting for the scheduling lock. */
  function Launched(s: Issue, child: Pid): Issue { At(s.(receipt := Receipt(PendingStart, None, None, None)), child, ValidateScheduling) }

  lemma StartEnds(s: Issue, pid: Pid, c: Choice, foreign: set<Inputs>)
    requires s.scheduling == None && s.execution == None && pid !in s.processes && c.ok && c.child !in s.processes && c.child != pid && Orphaned(s) == {}
    ensures PublicationGate.Execute(At(s.(scheduling := Some(pid), execution := Some(pid)), pid, StartCheck), Steps(Step(pid, c), 3), foreign) ==
      Launched(s, c.child)
  {
    var s2 := s.(scheduling := Some(pid), execution := Some(pid));
    var s3 := Write(s2, PendingStart, None, None, None);
    AtTwice(s2, pid, StartCheck, StartPending);
    AtTwice(s3, pid, StartPending, StartLaunch);
    var last := At(s3, pid, StartLaunch);
    assert At(last, c.child, ValidateScheduling).processes - {pid} == Launched(s, c.child).processes;
    ThreeTo(At(s2, pid, StartCheck), At(s2, pid, StartPending), last, Launched(s, c.child), Step(pid, c), foreign);
  }

  /** From every reachable state with both locks free: a start that nothing refuses launches a validate and leaves
      a pending receipt exactly when no attempt of the issue is unconcluded, and otherwise it leaves everything as
      it was, the only pointer to that attempt included. */
  lemma UnrefusedStartLaunches(ops: seq<PublicationGate.Op>, foreign: set<Inputs>, pid: Pid, c: Choice)
    requires var s := PublicationGate.Execute(PublicationGate.INITIAL, ops, foreign);
      s.scheduling == None && s.execution == None && pid !in s.processes && c.ok && c.child !in s.processes && c.child != pid
    ensures var s := PublicationGate.Execute(PublicationGate.INITIAL, ops, foreign);
      var t := PublicationGate.Execute(s, Starting(pid, c), foreign);
      if exists a, j :: j !in foreign && a in Unconcluded(s.ledger.events, j) then t == s
      else
        t.receipt == Receipt(PendingStart, None, None, None) && t.processes == s.processes[c.child := ValidateScheduling] &&
        t.ledger == s.ledger && t.scheduling == None && t.execution == None
  {
    var s := PublicationGate.Execute(PublicationGate.INITIAL, ops, foreign);
    OrphanedMeansUnconcluded(ops, foreign);
    RunStep(s, Spawn(pid, Role.Start), Steps(Step(pid, c), 6), foreign);
    StartLocks(s, pid, c, foreign);
    if Orphaned(s) == {} {
      StartEnds(s, pid, c, foreign);
    } else {
      OrphanedStops(s, pid, StartCheck, c, foreign);
      StepsTo(At(s.(scheduling := Some(pid), execution := Some(pid)), pid, StartCheck), s, Step(pid, c), 3, foreign);
      NothingLeft(s, pid, Steps(Step(pid, c), 2), foreign);
    }
  }

  lemma StartIsPending(l: EvidenceLedger.State, i: Inputs, n: Id)
    requires EvidenceLedger.Valid(l) && Enabled(l, Begin(i, n))
    ensures var t := Apply(l, Begin(i, n));
      n in Unconcluded(t.events, i) && Pending(t.events, Execution(i)) == Pending(l.events, Execution(i)) + {n}
  {
    var t, start := Apply(l, Begin(i, n)), Event(Kind.Start, n, n, i, Execution(i));
    var last := |l.events|;
    assert t.events == l.events + [start] && t.events[last] == start;
    forall a ensures a in StartedUnder(t.events, Execution(i)) <==> a in StartedUnder(l.events, Execution(i)) || a == n {
      EventsStay(l.events, t.events, Execution(i), a);
    }
    forall a ensures a in ConcludedUnder(t.events, Execution(i)) <==> a in ConcludedUnder(l.events, Execution(i)) {
      EventsStay(l.events, t.events, Execution(i), a);
    }
    assert n in Announced(t.events, i);
    assert n !in ConcludedUnder(l.events, Execution(i));
  }

  /** One more event adds at most its own attempt. */
  lemma EventsStay(events: seq<Event>, more: seq<Event>, key: Executed, a: Id)
    requires |more| == |events| + 1 && more[..|events|] == events
    ensures a in StartedUnder(more, key) <==>
      a in StartedUnder(events, key) || (more[|events|].kind == Kind.Start && more[|events|].executionKey == key && more[|events|].attempt == a)
    ensures a in ConcludedUnder(more, key) <==>
      a in ConcludedUnder(events, key) || (Concludes(more[|events|]) && more[|events|].executionKey == key && more[|events|].attempt == a)
  {
    assert forall k :: 0 <= k < |events| ==> more[k] == events[k];
    if a in StartedUnder(events, key) {
      var k :| 0 <= k < |events| && events[k].kind == Kind.Start && events[k].executionKey == key && events[k].attempt == a;
      assert more[k] == events[k];
    }
    if a in ConcludedUnder(events, key) {
      var k :| 0 <= k < |events| && Concludes(events[k]) && events[k].executionKey == key && events[k].attempt == a;
      assert more[k] == events[k];
    }
  }

  lemma PassStands(l: EvidenceLedger.State, i: Inputs, n: Id, v: Id, evidence: map<string, Row>)
    requires EvidenceLedger.Valid(l) && Enabled(l, Begin(i, n)) && v !in l.records && evidence != map[]
    ensures var begun := Apply(l, Begin(i, n));
      Enabled(begun, Conclude(Passed, n, i, evidence, v)) &&
      var t := Apply(begun, Conclude(Passed, n, i, evidence, v));
      (Stands(t.events, v) <==> Pending(l.events, Execution(i)) == {}) && ConcludedAs(t, i, n, v, true) &&
      v in t.records && t.records[v] == Record(Passed, n, i, evidence)
  {
    StartIsPending(l, i, n);
    var begun := Apply(l, Begin(i, n));
    ApplyKeepsValid(l, Begin(i, n));
    var t := Apply(begun, Conclude(Passed, n, i, evidence, v));
    var last := |begun.events|;
    assert t.events == begun.events + [Event(Kind.Pass, v, n, i, Execution(i))];
    assert Decides(t.events, last, n) && Admits(t.events, last, v);
    assert LastAdmission(t.events, v, |t.events|) == last;
    forall a ensures a in Pending(t.events, Execution(i)) <==> a in Pending(l.events, Execution(i)) {
      EventsStay(begun.events, t.events, Execution(i), a);
      assert a == n ==> n !in Pending(l.events, Execution(i));
    }
    forall j ensures !Supersedes(t.events, v, j) { NotAdmittedBefore(begun, t.events, v, j); }
  }

  /** A validation identity that has no record was never admitted, so nothing supersedes its admission at the end. */
  lemma NotAdmittedBefore(l: EvidenceLedger.State, events: seq<Event>, v: Id, j: int)
    requires EvidenceLedger.Valid(l) && v !in l.records && |events| == |l.events| + 1 && events[..|l.events|] == l.events
    requires events[|l.events|].kind == Kind.Pass
    ensures !Supersedes(events, v, j)
  {
    assert forall k :: 0 <= k < |l.events| ==> events[k] == l.events[k] && !Admits(events, k, v);
  }
}
