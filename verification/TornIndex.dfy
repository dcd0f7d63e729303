/** The same protocol when an append to the ledger's index is cut short (tools/evidence_ledger.py:202-213).

    A cut append leaves the old index, the new one or a file every reader refuses
    (EventChain.TornAppendIsRefused). The first two are steps of PublicationGate; here is the third.
    `issue.ledger` keeps the lines that are whole. While the file is torn every call that reads it
    raises tampered before it writes anything, and nothing in the program repairs it. */
module TornIndex {
  import opened Options
  import opened EvidenceLedger
  import opened PublicationGate

  datatype Host = Host(issue: Issue, torn: bool)

  const WHOLE := Host(PublicationGate.INITIAL, false)

  /** Tear is a step whose append is cut: by a kill, which a Crash then completes, or by an I/O error. */
  datatype HostOp = Usual(op: PublicationGate.Op) | Tear(op: PublicationGate.Op)

  /** orphaned() opens the ledger only for a receipt that announced inputs and names no validation. */
  predicate Announcing(r: Receipt) { r.identity != None && r.validationId == None }

  predicate ReadsIndex(s: Issue, phase: Phase) {
    match phase
    case ValidateCheck => Announcing(s.receipt)
    case StartCheck => Announcing(s.receipt)
    case RecoverSelect => Announcing(s.receipt)
    case ValidateBegin(_) => true
    case ValidateGate(_, _) => true
    case ConcludeRecord(_, _) => true
    case RecoverRecord(_, _) => true
    case _ => false
  }

  /** A step over a torn index: what reads it raises, other issues' writers raise as well. */
  function Refusing(s: Issue, op: PublicationGate.Op, foreign: set<Inputs>): Issue {
    match op
    case Step(pid, c) =>
      if pid in s.processes && ReadsIndex(s, s.processes[pid])
      then PublicationGate.Advance(s, Step(pid, c.(ok := false, effect := Nothing)), foreign)
      else PublicationGate.Advance(s, op, foreign)
    case Foreign(_) => s
    case _ => PublicationGate.Advance(s, op, foreign)
  }

  /** What a step leaves when its append is cut: the record file, written before the event, may stay. */
  function Cut(op: PublicationGate.Op): PublicationGate.Op {
    match op
    case Step(pid, c) => Step(pid, c.(ok := false, effect := if c.effect == WholeEvent then RecordFile else c.effect))
    case Foreign(Conclude(outcome, attempt, inputs, evidence, v)) => Foreign(RecordOnly(outcome, attempt, inputs, evidence, v))
    case _ => op
  }

  /** The step appends an event when nothing cuts it. */
  predicate Appends(s: Issue, op: PublicationGate.Op, foreign: set<Inputs>) {
    |PublicationGate.Advance(s, op, foreign).ledger.events| > |s.ledger.events|
  }

  function Torn(s: Issue, op: PublicationGate.Op, foreign: set<Inputs>): Issue {
    if op.Foreign? && !op.op.Conclude? then s else PublicationGate.Advance(s, Cut(op), foreign)
  }

  function Advance(h: Host, op: HostOp, foreign: set<Inputs>): Host {
    if h.torn then Host(Refusing(h.issue, op.op, foreign), true)
    else if op.Tear? && Appends(h.issue, op.op, foreign) then Host(Torn(h.issue, op.op, foreign), true)
    else Host(PublicationGate.Advance(h.issue, op.op, foreign), false)
  }

  function Execute(h: Host, ops: seq<HostOp>, foreign: set<Inputs>): Host
    decreases |ops|
  {
    if ops == [] then h else Execute(Advance(h, ops[0], foreign), ops[1..], foreign)
  }

  function AllUsual(ops: seq<PublicationGate.Op>): (r: seq<HostOp>)
    ensures |r| == |ops| && forall k :: 0 <= k < |ops| ==> r[k] == Usual(ops[k])
  {
    seq(|ops|, k requires 0 <= k < |ops| => Usual(ops[k]))
  }

  // ---------------------------------------------------------------- the whole lines obey the protocol

  /** One step over the file is one or no step over its whole lines. */
  lemma StepOfWholeLines(h: Host, op: HostOp, foreign: set<Inputs>)
    ensures Advance(h, op, foreign).issue == h.issue ||
      exists w :: Advance(h, op, foreign).issue == PublicationGate.Advance(h.issue, w, foreign)
  {
    var s := h.issue;
    if h.torn {
      if op.op.Step? && op.op.pid in s.processes && ReadsIndex(s, s.processes[op.op.pid]) {
        var w := Step(op.op.pid, op.op.choice.(ok := false, effect := Nothing));
        assert Advance(h, op, foreign).issue == PublicationGate.Advance(s, w, foreign);
      } else if !op.op.Foreign? {
        assert Advance(h, op, foreign).issue == PublicationGate.Advance(s, op.op, foreign);
      }
    } else if op.Tear? && Appends(s, op.op, foreign) {
      if !(op.op.Foreign? && !op.op.op.Conclude?) {
        assert Advance(h, op, foreign).issue == PublicationGate.Advance(s, Cut(op.op), foreign);
      }
    } else {
      assert Advance(h, op, foreign).issue == PublicationGate.Advance(s, op.op, foreign);
    }
  }

  /** Whatever is torn and when, the whole lines, the receipt and the locks are those of a run without
      torn appends: everything PublicationGate proves of its reachable states holds of these. */
  lemma {:induction false} TornRunsAreRuns(h: Host, ops: seq<HostOp>, foreign: set<Inputs>)
    ensures exists w :: Execute(h, ops, foreign).issue == PublicationGate.Execute(h.issue, w, foreign)
    decreases |ops|
  {
    if ops == [] {
      assert PublicationGate.Execute(h.issue, [], foreign) == h.issue;
    } else {
      var next := Advance(h, ops[0], foreign);
      TornRunsAreRuns(next, ops[1..], foreign);
      var w :| Execute(next, ops[1..], foreign).issue == PublicationGate.Execute(next.issue, w, foreign);
      StepOfWholeLines(h, ops[0], foreign);
      if next.issue != h.issue {
        var step :| next.issue == PublicationGate.Advance(h.issue, step, foreign);
        assert ([step] + w)[1..] == w;
        assert PublicationGate.Execute(h.issue, [step] + w, foreign) == PublicationGate.Execute(next.issue, w, foreign);
      }
    }
  }

  // ---------------------------------------------------------------- a torn index is final

  lemma RefusingWritesNothing(s: Issue, op: PublicationGate.Op, foreign: set<Inputs>)
    ensures Refusing(s, op, foreign).ledger == s.ledger
  {
  }

  /** Once the index is torn no start, validate, recover or revocation of any issue writes to the
      ledger again: what is unconcluded then stays unconcluded. */
  lemma {:induction false} TornForGood(h: Host, ops: seq<HostOp>, foreign: set<Inputs>)
    requires h.torn
    ensures Execute(h, ops, foreign).torn && Execute(h, ops, foreign).issue.ledger == h.issue.ledger
    decreases |ops|
  {
    if ops != [] {
      RefusingWritesNothing(h.issue, ops[0].op, foreign);
      TornForGood(Advance(h, ops[0], foreign), ops[1..], foreign);
    }
  }

  /** The receipt too goes on leading to the attempt that was open when the index was torn. */
  lemma TornKeepsTheAttempt(before: seq<HostOp>, after: seq<HostOp>, foreign: set<Inputs>, a: Id, i: Inputs)
    requires i !in foreign && Execute(WHOLE, before, foreign).torn
    requires a in Unconcluded(Execute(WHOLE, before, foreign).issue.ledger.events, i)
    ensures var s := Execute(Execute(WHOLE, before, foreign), after, foreign).issue;
      a in Unconcluded(s.ledger.events, i) && s.receipt.identity == Some(i) && CrashedAttempt(s) == Some(a)
  {
    var h := Execute(WHOLE, before, foreign);
    TornForGood(h, after, foreign);
    RunsCompose(WHOLE, before, after, foreign);
    TornRunsAreRuns(WHOLE, before + after, foreign);
    var w :| Execute(WHOLE, before + after, foreign).issue == PublicationGate.Execute(PublicationGate.INITIAL, w, foreign);
    ReceiptLeadsToTheAttempt(w, foreign, a, i);
  }

  lemma {:induction false} RunsCompose(h: Host, before: seq<HostOp>, after: seq<HostOp>, foreign: set<Inputs>)
    ensures Execute(h, before + after, foreign) == Execute(Execute(h, before, foreign), after, foreign)
    decreases |before|
  {
    if before == [] {
      assert before + after == after;
    } else {
      assert (before + after)[1..] == before[1..] + after;
      RunsCompose(Advance(h, before[0], foreign), before[1..], after, foreign);
    }
  }

  /** Another issue's start is enough: cut short it tears the index at any moment, whatever is open. */
  lemma AnyStartMayTear(ops: seq<HostOp>, foreign: set<Inputs>, f: Inputs, n: Id)
    requires var h := Execute(WHOLE, ops, foreign);
      !h.torn && f in foreign && Enabled(h.issue.ledger, EvidenceLedger.Begin(f, n))
    ensures var h := Execute(WHOLE, ops, foreign);
      Execute(WHOLE, ops + [Tear(Foreign(EvidenceLedger.Begin(f, n)))], foreign) == Host(h.issue, true)
  {
    var h := Execute(WHOLE, ops, foreign);
    var op := Tear(Foreign(EvidenceLedger.Begin(f, n)));
    RunsCompose(WHOLE, ops, [op], foreign);
    assert PublicationGate.Advance(h.issue, op.op, foreign).ledger == EvidenceLedger.Apply(h.issue.ledger, op.op.op);
    assert Execute(Advance(h, op, foreign), [op][1..], foreign) == Advance(h, op, foreign);
  }

  // ---------------------------------------------------------------- recover

  lemma {:induction false} UsualRunsAreRuns(s: Issue, ops: seq<PublicationGate.Op>, foreign: set<Inputs>)
    ensures Execute(Host(s, false), AllUsual(ops), foreign) == Host(PublicationGate.Execute(s, ops, foreign), false)
    decreases |ops|
  {
    if ops != [] {
      assert AllUsual(ops)[1..] == AllUsual(ops[1..]);
      UsualRunsAreRuns(PublicationGate.Advance(s, ops[0], foreign), ops[1..], foreign);
    }
  }

  /** While nothing reads the index a torn file changes nothing. */
  lemma UnreadIsUsual(s: Issue, pid: Pid, c: Choice, foreign: set<Inputs>)
    requires pid in s.processes ==> !ReadsIndex(s, s.processes[pid])
    ensures Refusing(s, Step(pid, c), foreign) == PublicationGate.Advance(s, Step(pid, c), foreign)
  {
  }

  /** recover over a torn index ends where it reads it, and leaves the state as it found it. */
  lemma TornRecoverStops(s: Issue, pid: Pid, v: Id, foreign: set<Inputs>)
    requires s.scheduling == None && s.execution == None && pid !in s.processes && Announcing(s.receipt)
    ensures Execute(Host(s, true), AllUsual(Recovery(pid, v)), foreign) == Host(s, true)
  {
    var step := Step(pid, Unrefused(v));
    var ops := AllUsual(Recovery(pid, v));
    var s1 := At(s, pid, RecoverScheduling);
    var locked := s.(scheduling := Some(pid));
    var both := locked.(execution := Some(pid));
    RecoveryLocksScheduling(s, pid, v, foreign);
    RecoveryLocksExecution(locked, pid, v, foreign);
    RecoveryGoesOn(both, pid, v, foreign);
    assert Refusing(s1, step, foreign) == At(locked, pid, RecoverExecution);
    assert Refusing(At(locked, pid, RecoverExecution), step, foreign) == At(both, pid, RecoverTerminated);
    assert Refusing(At(both, pid, RecoverTerminated), step, foreign) == At(both, pid, RecoverSelect);
    assert Refusing(At(both, pid, RecoverSelect), step, foreign) == s by {
      assert At(both, pid, RecoverSelect).processes - {pid} == s.processes;
    }
    assert Refusing(s, step, foreign) == s;
    Taken(s, s1, ops, 0, foreign);
    Taken(s1, At(locked, pid, RecoverExecution), ops, 1, foreign);
    Taken(At(locked, pid, RecoverExecution), At(both, pid, RecoverTerminated), ops, 2, foreign);
    Taken(At(both, pid, RecoverTerminated), At(both, pid, RecoverSelect), ops, 3, foreign);
    Taken(At(both, pid, RecoverSelect), s, ops, 4, foreign);
    Taken(s, s, ops, 5, foreign);
    Taken(s, s, ops, 6, foreign);
    assert ops[0..] == ops;
  }

  lemma Taken(s: Issue, t: Issue, ops: seq<HostOp>, k: nat, foreign: set<Inputs>)
    requires k < |ops| && Refusing(s, ops[k].op, foreign) == t
    ensures Execute(Host(s, true), ops[k..], foreign) == Execute(Host(t, true), ops[k + 1..], foreign)
  {
    assert ops[k..][1..] == ops[k + 1..];
  }

  /** From any reachable state whose two locks are free, and so after any crash, a recover that the
      host does not refuse concludes the crashed attempt as FAIL and leaves nothing of the issue open,
      if and only if the index is whole; over a torn one it changes nothing. */
  lemma RecoverLeavesNothingOpen(ops: seq<HostOp>, foreign: set<Inputs>, pid: Pid, v: Id, a: Id, i: Inputs)
    requires var s := Execute(WHOLE, ops, foreign).issue;
      s.scheduling == None && s.execution == None && pid !in s.processes && v !in s.ledger.records &&
      i !in foreign && a in Unconcluded(s.ledger.events, i)
    ensures var h := Execute(WHOLE, ops, foreign);
      var t := Execute(h, AllUsual(Recovery(pid, v)), foreign);
      (NoneOpen(t.issue.ledger, foreign) <==> !h.torn) &&
      (h.torn ==> t == h) &&
      (!h.torn ==>
        ConcludedAs(t.issue.ledger, i, a, v, false) && t.issue.receipt == Receipt(Status.Fail, Some(i), Some(a), Some(v)) &&
        t.issue.scheduling == None && t.issue.execution == None)
  {
    var h := Execute(WHOLE, ops, foreign);
    TornRunsAreRuns(WHOLE, ops, foreign);
    var w :| h.issue == PublicationGate.Execute(PublicationGate.INITIAL, w, foreign);
    ReceiptLeadsToTheAttempt(w, foreign, a, i);
    if h.torn {
      TornRecoverStops(h.issue, pid, v, foreign);
      ReachableHolds(w, foreign);
      UnconcludedIsOpen(h.issue.ledger, a, i);
      assert Open(h.issue.ledger, a, i);
    } else {
      UsualRunsAreRuns(h.issue, Recovery(pid, v), foreign);
      RecoverClosesTheAttempt(w, foreign, pid, v, a, i);
    }
  }
}
