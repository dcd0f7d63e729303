/** start, validate and recover of one issue (tools/publication/gate.py) as a protocol over steps.

    Any number of processes run concurrently. A step is one lock operation, one receipt
    replacement or one ledger write; a process may be killed between any two steps, and the
    kernel then frees its locks. Every answer the program gets from outside (inputs, the Gate's
    result, unit and lease state, I/O errors) is a free choice. `foreign` holds the inputs other
    issues announce; this issue announces none of them. */
module PublicationGate {
  import opened Options
  import opened EvidenceLedger

  datatype Status = Absent | PendingStart | Running | Pass | Fail
  datatype Receipt = Receipt(status: Status, identity: Option<Inputs>, attempt: Option<Id>, validationId: Option<Id>)

  type Pid = nat

  datatype Phase =
    | ValidateScheduling | ValidateExecution | ValidateCheck | ValidateClaim | ValidateRelease | ValidateInputs
    | ValidateIdentity(identity: Inputs) | ValidateBegin(identity: Inputs)
    | ValidateNamed(identity: Inputs, attempt: Id) | ValidateGate(identity: Inputs, attempt: Id)
    | ValidatePublish(identity: Inputs, attempt: Id, validationId: Id)
    | ConcludeRecord(known: Option<Inputs>, begun: Option<Id>)
    | ConcludeWrite(known: Option<Inputs>, begun: Option<Id>, concluded: Option<Id>)
    | StartScheduling | StartExecution | StartUnit | StartCheck | StartPending | StartLaunch
    | RecoverScheduling | RecoverExecution | RecoverTerminated | RecoverSelect
    | RecoverRecord(identity: Inputs, attempt: Id) | RecoverWrite(identity: Inputs, attempt: Id, validationId: Id)

  datatype Issue = Issue(
    ledger: EvidenceLedger.State,
    receipt: Receipt,
    scheduling: Option<Pid>,
    execution: Option<Pid>,
    processes: map<Pid, Phase>)

  const INITIAL := Issue(EMPTY, Receipt(Absent, None, None, None), None, None, map[])

  /** What a ledger call had written when it returned or raised. */
  datatype Effect = Nothing | RecordFile | WholeEvent

  datatype Choice = Choice(ok: bool, effect: Effect, inputs: Inputs, nonce: Id, evidence: map<string, Row>, child: Pid)

  datatype Role = Start | Validate | Recover

  datatype Op =
    | Spawn(pid: Pid, role: Role)
    | Step(pid: Pid, choice: Choice)
    | Crash(pid: Pid)
    | Foreign(op: EvidenceLedger.Op)

  // ---------------------------------------------------------------- the program

  function Orphaned(s: Issue): set<Id> {
    if s.receipt.identity == None || s.receipt.validationId != None then {}
    else Unconcluded(s.ledger.events, s.receipt.identity.value)
  }

  /** crashed_attempt(): the one attempt recover may conclude. */
  function CrashedAttempt(s: Issue): Option<Id> {
    var attempts, named := Orphaned(s), s.receipt.attempt;
    if named != None && named.value in attempts then named
    else if named == None && |attempts| == 1 then Some(Only(attempts))
    else None
  }

  function Only(attempts: set<Id>): (a: Id)
    requires |attempts| == 1
    ensures attempts == {a}
  {
    SingletonHasOne(attempts);
    var a :| a in attempts; a
  }

  lemma SingletonHasOne(attempts: set<Id>)
    requires |attempts| == 1
    ensures exists a :: a in attempts
    ensures forall a, b :: a in attempts && b in attempts ==> a == b
    ensures forall a :: a in attempts ==> attempts == {a}
  {
    forall a, b | a in attempts && b in attempts ensures a == b {
      assert |attempts - {a}| == 0;
      assert b !in attempts - {a};
    }
    if a :| a in attempts { assert attempts == {a}; }
  }

  function At(s: Issue, pid: Pid, phase: Phase): Issue { s.(processes := s.processes[pid := phase]) }

  /** The process ends, by return, exception or kill: its locks are free. */
  function Exit(s: Issue, pid: Pid): Issue {
    s.(processes := s.processes - {pid},
       scheduling := if s.scheduling == Some(pid) then None else s.scheduling,
       execution := if s.execution == Some(pid) then None else s.execution)
  }

  function Write(s: Issue, status: Status, identity: Option<Inputs>, attempt: Option<Id>, validationId: Option<Id>): Issue {
    s.(receipt := Receipt(status, identity, attempt, validationId))
  }

  function Scheduled(s: Issue, pid: Pid, next: Phase): Issue {
    if s.scheduling == None then At(s.(scheduling := Some(pid)), pid, next) else s
  }

  function Executing(s: Issue, pid: Pid, next: Phase): Issue {
    if s.execution == None then At(s.(execution := Some(pid)), pid, next) else Exit(s, pid)
  }

  function Recorded(s: Issue, outcome: Outcome, attempt: Id, identity: Inputs, c: Choice): Issue {
    match c.effect
    case Nothing => s
    case RecordFile => s.(ledger := Apply(s.ledger, EvidenceLedger.RecordOnly(outcome, attempt, identity, c.evidence, c.nonce)))
    case WholeEvent => s.(ledger := Apply(s.ledger, EvidenceLedger.Conclude(outcome, attempt, identity, c.evidence, c.nonce)))
  }

  predicate RecordReturns(s: Issue, outcome: Outcome, attempt: Id, identity: Inputs, c: Choice) {
    c.ok && c.effect == WholeEvent && Enabled(s.ledger, EvidenceLedger.Conclude(outcome, attempt, identity, c.evidence, c.nonce))
  }

  function ValidateStep(s: Issue, pid: Pid, phase: Phase, c: Choice, foreign: set<Inputs>): Issue
    requires phase.ValidateInputs? || phase.ValidateIdentity? || phase.ValidateBegin? || phase.ValidateNamed? ||
             phase.ValidateGate? || phase.ValidatePublish?
  {
    match phase
    case ValidateInputs =>
      At(s, pid, if c.ok && Named(c.inputs) && c.inputs !in foreign then ValidateIdentity(c.inputs) else ConcludeRecord(None, None))
    case ValidateIdentity(identity) =>
      if c.ok then At(Write(s, Running, Some(identity), None, None), pid, ValidateBegin(identity))
      else At(s, pid, ConcludeRecord(Some(identity), None))
    case ValidateBegin(identity) =>
      var begin := EvidenceLedger.Begin(identity, c.nonce);
      var t := if c.effect == WholeEvent then s.(ledger := Apply(s.ledger, begin)) else s;
      At(t, pid, if c.ok && c.effect == WholeEvent && Enabled(s.ledger, begin) then ValidateNamed(identity, c.nonce)
                 else ConcludeRecord(Some(identity), None))
    case ValidateNamed(identity, attempt) =>
      if c.ok then At(Write(s, Running, Some(identity), Some(attempt), None), pid, ValidateGate(identity, attempt))
      else At(s, pid, ConcludeRecord(Some(identity), Some(attempt)))
    case ValidateGate(identity, attempt) =>
      At(Recorded(s, Passed, attempt, identity, c), pid,
         if RecordReturns(s, Passed, attempt, identity, c) then ValidatePublish(identity, attempt, c.nonce)
         else ConcludeRecord(Some(identity), Some(attempt)))
    case ValidatePublish(identity, attempt, validationId) =>
      if c.ok then Exit(Write(s, Status.Pass, Some(identity), Some(attempt), Some(validationId)), pid)
      else At(s, pid, ConcludeRecord(Some(identity), Some(attempt)))
  }

  function ConcludeStep(s: Issue, pid: Pid, phase: Phase, c: Choice): Issue
    requires phase.ConcludeRecord? || phase.ConcludeWrite?
  {
    match phase
    case ConcludeRecord(known, begun) =>
      if begun == None || known == None then At(s, pid, ConcludeWrite(known, begun, None))
      else At(Recorded(s, Failed, begun.value, known.value, c), pid,
              ConcludeWrite(known, begun, if RecordReturns(s, Failed, begun.value, known.value, c) then Some(c.nonce) else None))
    case ConcludeWrite(known, begun, concluded) =>
      Exit(if c.ok then Write(s, Status.Fail, known, begun, concluded) else s, pid)
  }

  function RecoverStep(s: Issue, pid: Pid, phase: Phase, c: Choice): Issue
    requires phase.RecoverSelect? || phase.RecoverRecord? || phase.RecoverWrite?
  {
    match phase
    case RecoverSelect =>
      var attempt := CrashedAttempt(s);
      if c.ok && attempt != None && s.receipt.identity != None
      then At(s, pid, RecoverRecord(s.receipt.identity.value, attempt.value))
      else Exit(s, pid)
    case RecoverRecord(identity, attempt) =>
      var t := Recorded(s, Failed, attempt, identity, c);
      if RecordReturns(s, Failed, attempt, identity, c) then At(t, pid, RecoverWrite(identity, attempt, c.nonce)) else Exit(t, pid)
    case RecoverWrite(identity, attempt, validationId) =>
      Exit(if c.ok then Write(s, Status.Fail, Some(identity), Some(attempt), Some(validationId)) else s, pid)
  }

  /** The phases before a process owns the run: locks, checks and the first receipt. */
  predicate Entering(phase: Phase) {
    phase.ValidateScheduling? || phase.ValidateExecution? || phase.ValidateCheck? || phase.ValidateClaim? || phase.ValidateRelease? ||
    phase.StartScheduling? || phase.StartExecution? || phase.StartUnit? || phase.StartCheck? || phase.StartPending? || phase.StartLaunch? ||
    phase.RecoverScheduling? || phase.RecoverExecution? || phase.RecoverTerminated?
  }

  function EntryStep(s: Issue, pid: Pid, phase: Phase, c: Choice): Issue
    requires Entering(phase)
  {
    match phase
    case ValidateScheduling => Scheduled(s, pid, ValidateExecution)
    case ValidateExecution => Executing(s, pid, ValidateCheck)
    case ValidateCheck => if c.ok && Orphaned(s) == {} then At(s, pid, ValidateClaim) else Exit(s, pid)
    case ValidateClaim => if c.ok then At(Write(s, Running, None, None, None), pid, ValidateRelease) else Exit(s, pid)
    case ValidateRelease => At(s.(scheduling := None), pid, ValidateInputs)
    case StartScheduling => Scheduled(s, pid, StartExecution)
    case StartExecution => Executing(s, pid, StartUnit)
    case StartUnit => if c.ok then At(s, pid, StartCheck) else Exit(s, pid)
    case StartCheck => if c.ok && Orphaned(s) == {} then At(s, pid, StartPending) else Exit(s, pid)
    case StartPending => if c.ok then At(Write(s, PendingStart, None, None, None), pid, StartLaunch) else Exit(s, pid)
    case StartLaunch => Exit(if c.ok && c.child !in s.processes then At(s, c.child, ValidateScheduling) else s, pid)
    case RecoverScheduling => Scheduled(s, pid, RecoverExecution)
    case RecoverExecution => Executing(s, pid, RecoverTerminated)
    case RecoverTerminated => if c.ok then At(s, pid, RecoverSelect) else Exit(s, pid)
  }

  function StepOf(s: Issue, pid: Pid, phase: Phase, c: Choice, foreign: set<Inputs>): Issue {
    if Entering(phase) then EntryStep(s, pid, phase, c)
    else if phase.ConcludeRecord? || phase.ConcludeWrite? then ConcludeStep(s, pid, phase, c)
    else if phase.RecoverSelect? || phase.RecoverRecord? || phase.RecoverWrite? then RecoverStep(s, pid, phase, c)
    else ValidateStep(s, pid, phase, c, foreign)
  }

  function Entry(role: Role): Phase {
    match role
    case Start => StartScheduling
    case Validate => ValidateScheduling
    case Recover => RecoverScheduling
  }

  /** Other issues share the ledger file; they announce and conclude only their own inputs, and anyone may revoke. */
  predicate Elsewhere(op: EvidenceLedger.Op, foreign: set<Inputs>) {
    op.Withdraw? || op.inputs in foreign
  }

  function Advance(s: Issue, op: Op, foreign: set<Inputs>): Issue {
    match op
    case Spawn(pid, role) => if pid in s.processes then s else At(s, pid, Entry(role))
    case Step(pid, choice) => if pid in s.processes then StepOf(s, pid, s.processes[pid], choice, foreign) else s
    case Crash(pid) => Exit(s, pid)
    case Foreign(write) => if Elsewhere(write, foreign) then s.(ledger := Apply(s.ledger, write)) else s
  }

  function Execute(s: Issue, ops: seq<Op>, foreign: set<Inputs>): Issue
    decreases |ops|
  {
    if ops == [] then s else Execute(Advance(s, ops[0], foreign), ops[1..], foreign)
  }

  // ---------------------------------------------------------------- what every state keeps

  /** A started attempt of these inputs that no event has concluded. */
  ghost predicate Open(l: EvidenceLedger.State, attempt: Id, inputs: Inputs) {
    StartedBy(l.events, |l.events|, attempt, inputs) && forall j :: !Decides(l.events, j, attempt)
  }

  ghost predicate NoneOpen(l: EvidenceLedger.State, foreign: set<Inputs>) {
    forall a, i :: Open(l, a, i) ==> i in foreign
  }

  ghost predicate OnlyOpen(l: EvidenceLedger.State, identity: Inputs, attempt: Id, foreign: set<Inputs>) {
    identity !in foreign && Open(l, attempt, identity) &&
    forall a, i :: Open(l, a, i) && i !in foreign ==> a == attempt && i == identity
  }

  /** Nothing of this issue is open, or one attempt of these inputs is: `named` when that is known. */
  ghost predicate Within(l: EvidenceLedger.State, known: Option<Inputs>, named: Option<Id>, foreign: set<Inputs>) {
    NoneOpen(l, foreign) ||
    (known != None && exists a: Id :: OnlyOpen(l, known.value, a, foreign) && (named == None || named == Some(a)))
  }

  /** Nothing of this issue is unconcluded, or exactly one attempt is and the receipt leads to it. */
  ghost predicate Covered(l: EvidenceLedger.State, r: Receipt, foreign: set<Inputs>) {
    NoneOpen(l, foreign) || (r.validationId == None && Within(l, r.identity, r.attempt, foreign))
  }

  predicate HoldsScheduling(phase: Phase) {
    phase.ValidateExecution? || phase.ValidateCheck? || phase.ValidateClaim? || phase.ValidateRelease? ||
    phase.StartExecution? || phase.RecoverExecution? || HoldsBoth(phase)
  }

  predicate HoldsBoth(phase: Phase) {
    phase.StartUnit? || phase.StartCheck? || phase.StartPending? || phase.StartLaunch? || phase.RecoverTerminated? ||
    phase.RecoverSelect? || phase.RecoverRecord? || phase.RecoverWrite?
  }

  predicate HoldsExecution(phase: Phase) {
    phase.ValidateCheck? || phase.ValidateClaim? || phase.ValidateRelease? || phase.ValidateInputs? || phase.ValidateIdentity? ||
    phase.ValidateBegin? || phase.ValidateNamed? || phase.ValidateGate? || phase.ValidatePublish? || phase.ConcludeRecord? ||
    phase.ConcludeWrite? || HoldsBoth(phase)
  }

  ghost predicate Locks(s: Issue) {
    (forall p :: p in s.processes && HoldsScheduling(s.processes[p]) ==> s.scheduling == Some(p)) &&
    (forall p :: p in s.processes && HoldsExecution(s.processes[p]) ==> s.execution == Some(p))
  }

  /** The ledger concluded this attempt, for these inputs, under this validation identity. */
  ghost predicate ConcludedAs(l: EvidenceLedger.State, identity: Inputs, attempt: Id, validationId: Id, passed: bool) {
    exists j :: Decides(l.events, j, attempt) && l.events[j].inputKey == identity &&
      l.events[j].validationId == validationId && (l.events[j].kind == Kind.Pass <==> passed)
  }

  /** A receipt that names a validation names the ledger's conclusion of its own attempt; PASS is written for a PASS only. */
  ghost predicate Truthful(l: EvidenceLedger.State, r: Receipt) {
    (r.status == Status.Pass ==> r.validationId != None) &&
    (r.validationId != None ==>
      r.identity != None && r.attempt != None &&
      ConcludedAs(l, r.identity.value, r.attempt.value, r.validationId.value, r.status == Status.Pass))
  }

  /** What a process has established when it reaches a phase; only phases under the execution lock claim anything. */
  ghost predicate PhaseHolds(l: EvidenceLedger.State, r: Receipt, phase: Phase, foreign: set<Inputs>) {
    match phase
    case ValidateClaim => NoneOpen(l, foreign)
    case ValidateRelease => NoneOpen(l, foreign)
    case ValidateInputs => NoneOpen(l, foreign)
    case ValidateIdentity(identity) => NoneOpen(l, foreign) && identity !in foreign
    case ValidateBegin(identity) => NoneOpen(l, foreign) && identity !in foreign && r == Receipt(Running, Some(identity), None, None)
    case ValidateNamed(identity, attempt) => OnlyOpen(l, identity, attempt, foreign) && r == Receipt(Running, Some(identity), None, None)
    case ValidateGate(identity, attempt) => OnlyOpen(l, identity, attempt, foreign) && r == Receipt(Running, Some(identity), Some(attempt), None)
    case ValidatePublish(identity, attempt, validationId) =>
      identity !in foreign && NoneOpen(l, foreign) && ConcludedAs(l, identity, attempt, validationId, true)
    case ConcludeRecord(known, begun) => Own(known, foreign) && Within(l, known, begun, foreign) && (begun != None ==> known != None)
    case ConcludeWrite(known, begun, concluded) =>
      Own(known, foreign) && Within(l, known, begun, foreign) &&
      (concluded != None ==>
        NoneOpen(l, foreign) && known != None && begun != None &&
        ConcludedAs(l, known.value, begun.value, concluded.value, false))
    case StartPending => NoneOpen(l, foreign)
    case StartLaunch => NoneOpen(l, foreign)
    case RecoverRecord(identity, attempt) => OnlyOpen(l, identity, attempt, foreign)
    case RecoverWrite(identity, attempt, validationId) =>
      identity !in foreign && NoneOpen(l, foreign) && ConcludedAs(l, identity, attempt, validationId, false)
    case _ => true
  }

  ghost predicate Facts(l: EvidenceLedger.State, r: Receipt, foreign: set<Inputs>) {
    Valid(l) && Covered(l, r, foreign) && Truthful(l, r) && Own(r.identity, foreign)
  }

  predicate Own(identity: Option<Inputs>, foreign: set<Inputs>) {
    identity != None ==> identity.value !in foreign
  }

  ghost predicate Inv(s: Issue, foreign: set<Inputs>) {
    Facts(s.ledger, s.receipt, foreign) && Locks(s) &&
    forall p :: p in s.processes ==> PhaseHolds(s.ledger, s.receipt, s.processes[p], foreign)
  }

  // ---------------------------------------------------------------- how a ledger write changes what is open

  lemma BeginOpens(l: EvidenceLedger.State, inputs: Inputs, attempt: Id, a: Id, i: Inputs)
    requires Valid(l) && Enabled(l, EvidenceLedger.Begin(inputs, attempt))
    ensures Open(Apply(l, EvidenceLedger.Begin(inputs, attempt)), a, i) <==> Open(l, a, i) || (a == attempt && i == inputs)
  {
    var op := EvidenceLedger.Begin(inputs, attempt);
    var t, n := Apply(l, op), |l.events|;
    assert t.events[n] == Event(Kind.Start, attempt, attempt, inputs, Execution(inputs));
    assert forall j :: 0 <= j < n ==> t.events[j] == l.events[j];
    if StartedBy(l.events, n, a, i) { StartedByExtends(l.events, Written(l, op), n, n + 1, a, i); }
    forall j ensures Decides(t.events, j, a) <==> Decides(l.events, j, a) { }
    assert a == attempt ==> forall j :: !Decides(l.events, j, a);
    if a == attempt && i == inputs { assert StartedBy(t.events, n + 1, a, i); }
    if StartedBy(t.events, n + 1, a, i) && !(a == attempt && i == inputs) {
      var k :| 0 <= k < n + 1 && t.events[k].kind == Kind.Start && t.events[k].attempt == a && t.events[k].inputKey == i;
      assert k < n && l.events[k] == t.events[k];
      assert StartedBy(l.events, n, a, i);
    }
  }

  lemma OtherWritesOpenNothing(l: EvidenceLedger.State, op: EvidenceLedger.Op, a: Id, i: Inputs)
    requires Valid(l) && Enabled(l, op) && !op.Begin?
    ensures Open(Apply(l, op), a, i) <==> Open(l, a, i) && !(op.Conclude? && a == op.attempt)
  {
    var t, n := Apply(l, op), |l.events|;
    OtherWritesStartNothing(l, op, a, i);
    forall j ensures Decides(t.events, j, a) <==> Decides(l.events, j, a) || (op.Conclude? && a == op.attempt && j == n) { }
    if op.Conclude? && a == op.attempt { assert Decides(t.events, n, a); }
  }

  lemma OtherWritesStartNothing(l: EvidenceLedger.State, op: EvidenceLedger.Op, a: Id, i: Inputs)
    requires Enabled(l, op) && !op.Begin?
    ensures StartedBy(Apply(l, op).events, |Apply(l, op).events|, a, i) <==> StartedBy(l.events, |l.events|, a, i)
  {
    var t, n := Apply(l, op), |l.events|;
    assert forall j :: 0 <= j < n ==> t.events[j] == l.events[j];
    if StartedBy(l.events, n, a, i) { StartedByExtends(l.events, Written(l, op), n, |t.events|, a, i); }
    if StartedBy(t.events, |t.events|, a, i) {
      var k :| 0 <= k < |t.events| && t.events[k].kind == Kind.Start && t.events[k].attempt == a && t.events[k].inputKey == i;
      assert k < n && l.events[k] == t.events[k];
      assert StartedBy(l.events, n, a, i);
    }
  }

  lemma ConcludedAsStays(l: EvidenceLedger.State, op: EvidenceLedger.Op, identity: Inputs, attempt: Id, validationId: Id, passed: bool)
    requires ConcludedAs(l, identity, attempt, validationId, passed)
    ensures ConcludedAs(Apply(l, op), identity, attempt, validationId, passed)
  {
    var j :| Decides(l.events, j, attempt) && l.events[j].inputKey == identity &&
      l.events[j].validationId == validationId && (l.events[j].kind == Kind.Pass <==> passed);
    assert Apply(l, op).events[j] == l.events[j];
    assert Decides(Apply(l, op).events, j, attempt);
  }

  lemma OneStart(l: EvidenceLedger.State, attempt: Id, i: Inputs, j: Inputs)
    requires Valid(l) && StartedBy(l.events, |l.events|, attempt, i) && StartedBy(l.events, |l.events|, attempt, j)
    ensures i == j
  {
  }

  /** What a write of another issue, or a revocation, leaves alone. */
  lemma ForeignLeavesOpen(l: EvidenceLedger.State, op: EvidenceLedger.Op, foreign: set<Inputs>, a: Id, i: Inputs)
    requires Valid(l) && Elsewhere(op, foreign) && i !in foreign
    ensures Open(Apply(l, op), a, i) <==> Open(l, a, i)
  {
    if Enabled(l, op) {
      if op.Begin? {
        BeginOpens(l, op.inputs, op.attempt, a, i);
      } else {
        OtherWritesOpenNothing(l, op, a, i);
        if op.Conclude? && a == op.attempt && Open(l, a, i) {
          UnconcludedIsOpen(l, a, op.inputs);
          OneStart(l, a, i, op.inputs);
        }
      }
    }
  }

  /** A completed record() leaves nothing else open and closes the one attempt it names. */
  lemma ConcludeCloses(l: EvidenceLedger.State, op: EvidenceLedger.Op, foreign: set<Inputs>)
    requires Valid(l) && op.Conclude? && Enabled(l, op)
    requires NoneOpen(l, foreign) || OnlyOpen(l, op.inputs, op.attempt, foreign)
    ensures NoneOpen(Apply(l, op), foreign)
    ensures ConcludedAs(Apply(l, op), op.inputs, op.attempt, op.validationId, op.outcome == Passed)
  {
    var t, n := Apply(l, op), |l.events|;
    forall a, i ensures Open(t, a, i) <==> Open(l, a, i) && a != op.attempt {
      OtherWritesOpenNothing(l, op, a, i);
    }
    assert t.events[n] == Written(l, op)[0];
    assert Decides(t.events, n, op.attempt);
  }

  lemma RecordFileChangesNothing(l: EvidenceLedger.State, op: EvidenceLedger.Op, foreign: set<Inputs>)
    requires Valid(l) && (op.RecordOnly? || !Enabled(l, op))
    ensures NoneOpen(l, foreign) ==> NoneOpen(Apply(l, op), foreign)
    ensures forall i, a :: OnlyOpen(l, i, a, foreign) ==> OnlyOpen(Apply(l, op), i, a, foreign)
  {
    assert Apply(l, op).events == l.events;
    assert forall a, i :: Open(Apply(l, op), a, i) <==> Open(l, a, i);
  }

  /** record() on the one open attempt closes it exactly when its event is written. */
  lemma RecordedCloses(s: Issue, outcome: Outcome, attempt: Id, identity: Inputs, c: Choice, foreign: set<Inputs>)
    requires Valid(s.ledger)
    requires NoneOpen(s.ledger, foreign) || OnlyOpen(s.ledger, identity, attempt, foreign)
    ensures var l := Recorded(s, outcome, attempt, identity, c).ledger;
      Valid(l) && (NoneOpen(l, foreign) || OnlyOpen(l, identity, attempt, foreign)) &&
      (NoneOpen(s.ledger, foreign) ==> NoneOpen(l, foreign)) &&
      (RecordReturns(s, outcome, attempt, identity, c) ==>
        ConcludedAs(l, identity, attempt, c.nonce, outcome == Passed) && NoneOpen(l, foreign))
    ensures Truthful(s.ledger, s.receipt) ==> Truthful(Recorded(s, outcome, attempt, identity, c).ledger, s.receipt)
  {
    if c.effect == Nothing { return; }
    var op := if c.effect == RecordFile then EvidenceLedger.RecordOnly(outcome, attempt, identity, c.evidence, c.nonce)
              else EvidenceLedger.Conclude(outcome, attempt, identity, c.evidence, c.nonce);
    ApplyKeepsValid(s.ledger, op);
    WriteKeepsTruth(s.ledger, s.receipt, op);
    if op.Conclude? && Enabled(s.ledger, op) { ConcludeCloses(s.ledger, op, foreign); }
    else { RecordFileChangesNothing(s.ledger, op, foreign); }
  }

  lemma WriteKeepsTruth(l: EvidenceLedger.State, r: Receipt, op: EvidenceLedger.Op)
    ensures Truthful(l, r) ==> Truthful(Apply(l, op), r)
  {
    if Truthful(l, r) && r.validationId != None {
      ConcludedAsStays(l, op, r.identity.value, r.attempt.value, r.validationId.value, r.status == Status.Pass);
    }
  }

  /** Orphaned attempts are exactly what is open for the inputs the receipt announced. */
  lemma OrphanedExactly(s: Issue, foreign: set<Inputs>)
    requires Facts(s.ledger, s.receipt, foreign)
    ensures Orphaned(s) == {} ==> NoneOpen(s.ledger, foreign)
    ensures !NoneOpen(s.ledger, foreign) ==>
      s.receipt.identity != None && CrashedAttempt(s) != None &&
      OnlyOpen(s.ledger, s.receipt.identity.value, CrashedAttempt(s).value, foreign)
  {
    if !NoneOpen(s.ledger, foreign) {
      var identity := s.receipt.identity.value;
      var a: Id :| OnlyOpen(s.ledger, identity, a, foreign) && (s.receipt.attempt == None || s.receipt.attempt == Some(a));
      forall b ensures b in Orphaned(s) <==> b == a {
        UnconcludedIsOpen(s.ledger, b, identity);
        assert b == a ==> Open(s.ledger, b, identity);
        assert Open(s.ledger, b, identity) <==> b in Orphaned(s);
      }
      assert Orphaned(s) == {a};
    }
  }

  /** crashed_attempt() never selects anything but the one open attempt of this issue. */
  lemma SelectionIsTheOpenOne(s: Issue, foreign: set<Inputs>)
    requires Facts(s.ledger, s.receipt, foreign) && CrashedAttempt(s) != None
    ensures s.receipt.identity != None && OnlyOpen(s.ledger, s.receipt.identity.value, CrashedAttempt(s).value, foreign)
  {
    var a, identity := CrashedAttempt(s).value, s.receipt.identity.value;
    UnconcludedIsOpen(s.ledger, a, identity);
    assert Open(s.ledger, a, identity);
    OrphanedExactly(s, foreign);
  }

  // ---------------------------------------------------------------- every step keeps the invariant

  lemma BeginFacts(s: Issue, pid: Pid, c: Choice, foreign: set<Inputs>)
    requires Inv(s, foreign) && pid in s.processes && s.processes[pid].ValidateBegin?
    ensures var t := StepOf(s, pid, s.processes[pid], c, foreign);
      Facts(t.ledger, t.receipt, foreign) && pid in t.processes && PhaseHolds(t.ledger, t.receipt, t.processes[pid], foreign)
  {
    var identity := s.processes[pid].identity;
    var begin := EvidenceLedger.Begin(identity, c.nonce);
    assert PhaseHolds(s.ledger, s.receipt, s.processes[pid], foreign);
    if c.effect == WholeEvent && Enabled(s.ledger, begin) {
      var l := Apply(s.ledger, begin);
      ApplyKeepsValid(s.ledger, begin);
      forall a, i ensures Open(l, a, i) <==> Open(s.ledger, a, i) || (a == c.nonce && i == identity) {
        BeginOpens(s.ledger, identity, c.nonce, a, i);
      }
      assert OnlyOpen(l, identity, c.nonce, foreign);
    }
  }

  /** What record() on the attempt a process names leaves behind, whichever procedure calls it. */
  lemma RecordedFacts(s: Issue, outcome: Outcome, attempt: Id, identity: Inputs, c: Choice, foreign: set<Inputs>)
    requires Facts(s.ledger, s.receipt, foreign)
    requires NoneOpen(s.ledger, foreign) || OnlyOpen(s.ledger, identity, attempt, foreign)
    ensures var l := Recorded(s, outcome, attempt, identity, c).ledger;
      Facts(l, s.receipt, foreign) && Within(l, Some(identity), Some(attempt), foreign)
    ensures RecordReturns(s, outcome, attempt, identity, c) ==>
      var l := Recorded(s, outcome, attempt, identity, c).ledger;
      NoneOpen(l, foreign) && ConcludedAs(l, identity, attempt, c.nonce, outcome == Passed)
  {
    RecordedCloses(s, outcome, attempt, identity, c, foreign);
    var l, r := Recorded(s, outcome, attempt, identity, c).ledger, s.receipt;
    if !NoneOpen(l, foreign) {
      assert r.identity == Some(identity) && (r.attempt == None || r.attempt == Some(attempt));
      assert Within(l, r.identity, r.attempt, foreign);
    }
  }

  lemma RecordFacts(s: Issue, pid: Pid, c: Choice, foreign: set<Inputs>)
    requires Inv(s, foreign) && pid in s.processes && (s.processes[pid].ValidateGate? || s.processes[pid].RecoverRecord?)
    ensures var t := StepOf(s, pid, s.processes[pid], c, foreign);
      Facts(t.ledger, t.receipt, foreign) && (pid in t.processes ==> PhaseHolds(t.ledger, t.receipt, t.processes[pid], foreign))
  {
    var phase := s.processes[pid];
    assert PhaseHolds(s.ledger, s.receipt, phase, foreign);
    RecordedFacts(s, if phase.ValidateGate? then Passed else Failed, phase.attempt, phase.identity, c, foreign);
  }

  lemma ConcludeFacts(s: Issue, pid: Pid, c: Choice, foreign: set<Inputs>)
    requires Inv(s, foreign) && pid in s.processes && s.processes[pid].ConcludeRecord?
    ensures var t := StepOf(s, pid, s.processes[pid], c, foreign);
      Facts(t.ledger, t.receipt, foreign) && pid in t.processes && PhaseHolds(t.ledger, t.receipt, t.processes[pid], foreign)
  {
    var phase := s.processes[pid];
    assert PhaseHolds(s.ledger, s.receipt, phase, foreign);
    if phase.begun != None { RecordedFacts(s, Failed, phase.begun.value, phase.known.value, c, foreign); }
  }

  /** Steps that replace receipt.json. */
  predicate Replaces(phase: Phase) {
    phase.ValidateClaim? || phase.ValidateIdentity? || phase.ValidateNamed? || phase.ValidatePublish? ||
    phase.ConcludeWrite? || phase.StartPending? || phase.RecoverWrite?
  }

  lemma ReplacingFacts(s: Issue, pid: Pid, c: Choice, foreign: set<Inputs>)
    requires Inv(s, foreign) && pid in s.processes && Replaces(s.processes[pid])
    ensures var t := StepOf(s, pid, s.processes[pid], c, foreign);
      t.ledger == s.ledger && Facts(t.ledger, t.receipt, foreign) &&
      (pid in t.processes ==> PhaseHolds(t.ledger, t.receipt, t.processes[pid], foreign))
  {
    assert PhaseHolds(s.ledger, s.receipt, s.processes[pid], foreign);
  }

  lemma EntryFacts(s: Issue, pid: Pid, c: Choice, foreign: set<Inputs>)
    requires Inv(s, foreign) && pid in s.processes && Entering(s.processes[pid]) && !Replaces(s.processes[pid])
    ensures var t := EntryStep(s, pid, s.processes[pid], c);
      t.ledger == s.ledger && t.receipt == s.receipt &&
      (pid in t.processes ==> PhaseHolds(t.ledger, t.receipt, t.processes[pid], foreign))
  {
    var phase := s.processes[pid];
    assert PhaseHolds(s.ledger, s.receipt, phase, foreign);
    if phase.ValidateCheck? || phase.StartCheck? { OrphanedExactly(s, foreign); }
  }

  lemma SelectFacts(s: Issue, pid: Pid, c: Choice, foreign: set<Inputs>)
    requires Inv(s, foreign) && pid in s.processes && (s.processes[pid].ValidateInputs? || s.processes[pid].RecoverSelect?)
    ensures var t := StepOf(s, pid, s.processes[pid], c, foreign);
      t.ledger == s.ledger && t.receipt == s.receipt &&
      (pid in t.processes ==> PhaseHolds(t.ledger, t.receipt, t.processes[pid], foreign))
  {
    var phase := s.processes[pid];
    assert PhaseHolds(s.ledger, s.receipt, phase, foreign);
    if phase.RecoverSelect? && CrashedAttempt(s) != None { SelectionIsTheOpenOne(s, foreign); }
  }

  /** What one step of a process does to the locks and to the other processes. */
  ghost predicate Moves(s: Issue, t: Issue, pid: Pid) {
    if pid in t.processes then
      t.processes == s.processes[pid := t.processes[pid]] && t.scheduling == s.scheduling && t.execution == s.execution &&
      pid in s.processes &&
      (HoldsScheduling(t.processes[pid]) ==> HoldsScheduling(s.processes[pid])) &&
      (HoldsExecution(t.processes[pid]) ==> HoldsExecution(s.processes[pid]))
    else
      t.processes == Exit(s, pid).processes && t.scheduling == Exit(s, pid).scheduling && t.execution == Exit(s, pid).execution
  }

  lemma ValidateMoves(s: Issue, pid: Pid, phase: Phase, c: Choice, foreign: set<Inputs>)
    requires pid in s.processes && s.processes[pid] == phase
    requires phase.ValidateInputs? || phase.ValidateIdentity? || phase.ValidateBegin? || phase.ValidateNamed? ||
             phase.ValidateGate? || phase.ValidatePublish?
    ensures Moves(s, ValidateStep(s, pid, phase, c, foreign), pid)
  {
  }

  lemma OtherMoves(s: Issue, pid: Pid, phase: Phase, c: Choice)
    requires pid in s.processes && s.processes[pid] == phase
    ensures phase.ConcludeRecord? || phase.ConcludeWrite? ==> Moves(s, ConcludeStep(s, pid, phase, c), pid)
    ensures phase.RecoverSelect? || phase.RecoverRecord? || phase.RecoverWrite? ==> Moves(s, RecoverStep(s, pid, phase, c), pid)
  {
  }

  predicate Unmoved(s: Issue, t: Issue, p: Pid) {
    p in t.processes ==> (p in s.processes && t.processes[p] == s.processes[p]) || t.processes[p] == ValidateScheduling
  }

  lemma MovesKeepLocks(s: Issue, t: Issue, pid: Pid)
    requires Locks(s) && Moves(s, t, pid)
    ensures Locks(t) && forall p :: p != pid ==> Unmoved(s, t, p)
  {
  }

  lemma StepKeepsLocks(s: Issue, pid: Pid, c: Choice, foreign: set<Inputs>)
    requires Locks(s) && pid in s.processes
    ensures var t := StepOf(s, pid, s.processes[pid], c, foreign); Locks(t) && forall p :: p != pid ==> Unmoved(s, t, p)
  {
    var phase := s.processes[pid];
    var t := StepOf(s, pid, phase, c, foreign);
    if phase.ValidateInputs? || phase.ValidateIdentity? || phase.ValidateBegin? || phase.ValidateNamed? ||
       phase.ValidateGate? || phase.ValidatePublish? {
      ValidateMoves(s, pid, phase, c, foreign);
      MovesKeepLocks(s, t, pid);
    } else if phase.ConcludeRecord? || phase.ConcludeWrite? || phase.RecoverSelect? || phase.RecoverRecord? || phase.RecoverWrite? {
      OtherMoves(s, pid, phase, c);
      MovesKeepLocks(s, t, pid);
    } else {
      EntryKeepsLocks(s, pid, c);
    }
  }

  lemma EntryKeepsLocks(s: Issue, pid: Pid, c: Choice)
    requires Locks(s) && pid in s.processes && Entering(s.processes[pid])
    ensures var t := EntryStep(s, pid, s.processes[pid], c); Locks(t) && forall p :: p != pid ==> Unmoved(s, t, p)
  {
    var phase := s.processes[pid];
    if phase.ValidateScheduling? || phase.StartScheduling? || phase.RecoverScheduling? ||
       phase.ValidateExecution? || phase.StartExecution? || phase.RecoverExecution? {
      AcquiringKeepsLocks(s, pid, c);
    } else if phase.ValidateRelease? || phase.StartLaunch? {
      ReleasingKeepsLocks(s, pid, c);
    } else {
      MovesKeepLocks(s, EntryStep(s, pid, phase, c), pid);
    }
  }

  lemma AcquiringKeepsLocks(s: Issue, pid: Pid, c: Choice)
    requires Locks(s) && pid in s.processes
    requires var phase := s.processes[pid];
      phase.ValidateScheduling? || phase.StartScheduling? || phase.RecoverScheduling? ||
      phase.ValidateExecution? || phase.StartExecution? || phase.RecoverExecution?
    ensures var t := EntryStep(s, pid, s.processes[pid], c); Locks(t) && forall p :: p != pid ==> Unmoved(s, t, p)
  {
  }

  lemma ReleasingKeepsLocks(s: Issue, pid: Pid, c: Choice)
    requires Locks(s) && pid in s.processes && (s.processes[pid].ValidateRelease? || s.processes[pid].StartLaunch?)
    ensures var t := EntryStep(s, pid, s.processes[pid], c); Locks(t) && forall p :: p != pid ==> Unmoved(s, t, p)
  {
  }

  lemma StepKeepsInv(s: Issue, pid: Pid, c: Choice, foreign: set<Inputs>)
    requires Inv(s, foreign) && pid in s.processes
    ensures Inv(StepOf(s, pid, s.processes[pid], c, foreign), foreign)
  {
    var phase := s.processes[pid];
    var t := StepOf(s, pid, phase, c, foreign);
    StepKeepsLocks(s, pid, c, foreign);
    if phase.ValidateBegin? { BeginFacts(s, pid, c, foreign); }
    else if Replaces(phase) { ReplacingFacts(s, pid, c, foreign); }
    else if Entering(phase) { EntryFacts(s, pid, c, foreign); }
    else if phase.ValidateInputs? || phase.RecoverSelect? { SelectFacts(s, pid, c, foreign); }
    else if phase.ConcludeRecord? { ConcludeFacts(s, pid, c, foreign); }
    else { RecordFacts(s, pid, c, foreign); }
    forall p | p in t.processes && p != pid ensures PhaseHolds(t.ledger, t.receipt, t.processes[p], foreign) {
      assert Unmoved(s, t, p);
      if t.processes[p] != ValidateScheduling {
        assert PhaseHolds(s.ledger, s.receipt, s.processes[p], foreign);
        assert HoldsExecution(phase) ==> !HoldsExecution(s.processes[p]);
      }
    }
  }

  lemma ForeignKeepsInv(s: Issue, write: EvidenceLedger.Op, foreign: set<Inputs>)
    requires Inv(s, foreign) && Elsewhere(write, foreign)
    ensures Inv(s.(ledger := Apply(s.ledger, write)), foreign)
  {
    var l := Apply(s.ledger, write);
    ApplyKeepsValid(s.ledger, write);
    forall a, i | i !in foreign ensures Open(l, a, i) <==> Open(s.ledger, a, i) {
      ForeignLeavesOpen(s.ledger, write, foreign, a, i);
    }
    forall identity: Inputs, a: Id, v: Id, passed | ConcludedAs(s.ledger, identity, a, v, passed)
      ensures ConcludedAs(l, identity, a, v, passed)
    {
      ConcludedAsStays(s.ledger, write, identity, a, v, passed);
    }
    assert NoneOpen(s.ledger, foreign) ==> NoneOpen(l, foreign);
    assert forall i, a :: OnlyOpen(s.ledger, i, a, foreign) ==> OnlyOpen(l, i, a, foreign);
    assert forall k, n :: Within(s.ledger, k, n, foreign) ==> Within(l, k, n, foreign);
    forall p | p in s.processes ensures PhaseHolds(l, s.receipt, s.processes[p], foreign) {
      assert PhaseHolds(s.ledger, s.receipt, s.processes[p], foreign);
    }
  }

  lemma AdvanceKeepsInv(s: Issue, op: Op, foreign: set<Inputs>)
    requires Inv(s, foreign)
    ensures Inv(Advance(s, op, foreign), foreign)
  {
    match op
    case Spawn(pid, role) =>
    case Crash(pid) =>
    case Step(pid, c) => if pid in s.processes { StepKeepsInv(s, pid, c, foreign); }
    case Foreign(write) => if Elsewhere(write, foreign) { ForeignKeepsInv(s, write, foreign); }
  }

  lemma {:induction false} ExecuteKeepsInv(s: Issue, ops: seq<Op>, foreign: set<Inputs>)
    requires Inv(s, foreign)
    ensures Inv(Execute(s, ops, foreign), foreign)
    decreases |ops|
  {
    if ops != [] {
      AdvanceKeepsInv(s, ops[0], foreign);
      ExecuteKeepsInv(Advance(s, ops[0], foreign), ops[1..], foreign);
    }
  }

  lemma ReachableHolds(ops: seq<Op>, foreign: set<Inputs>)
    ensures Inv(Execute(INITIAL, ops, foreign), foreign)
  {
    forall a, i ensures !Open(INITIAL.ledger, a, i) { }
    ExecuteKeepsInv(INITIAL, ops, foreign);
  }

  // ---------------------------------------------------------------- what a reader of receipt.json can rely on

  /** In every reachable state, kills included, at most one attempt of this issue is unconcluded. */
  lemma AtMostOneUnconcluded(ops: seq<Op>, foreign: set<Inputs>, a: Id, i: Inputs, b: Id, j: Inputs)
    requires i !in foreign && j !in foreign
    requires var events := Execute(INITIAL, ops, foreign).ledger.events; a in Unconcluded(events, i) && b in Unconcluded(events, j)
    ensures a == b && i == j
  {
    ReachableHolds(ops, foreign);
    var l := Execute(INITIAL, ops, foreign).ledger;
    UnconcludedIsOpen(l, a, i);
    UnconcludedIsOpen(l, b, j);
    assert Open(l, a, i) && Open(l, b, j);
  }

  /** An unconcluded attempt is never lost: at every moment the receipt names its inputs, and its
      id or no id, and crashed_attempt() selects exactly this attempt. */
  lemma ReceiptLeadsToTheAttempt(ops: seq<Op>, foreign: set<Inputs>, a: Id, i: Inputs)
    requires i !in foreign
    requires a in Unconcluded(Execute(INITIAL, ops, foreign).ledger.events, i)
    ensures var s := Execute(INITIAL, ops, foreign);
      s.receipt.identity == Some(i) && s.receipt.validationId == None &&
      (s.receipt.attempt == None || s.receipt.attempt == Some(a)) && CrashedAttempt(s) == Some(a)
  {
    ReachableHolds(ops, foreign);
    var s := Execute(INITIAL, ops, foreign);
    UnconcludedIsOpen(s.ledger, a, i);
    assert Open(s.ledger, a, i);
    OrphanedExactly(s, foreign);
  }

  /** A receipt that names a validation names the ledger's own conclusion of its attempt and inputs; PASS only for a PASS. */
  lemma ReceiptIsBacked(ops: seq<Op>, foreign: set<Inputs>)
    ensures var s := Execute(INITIAL, ops, foreign);
      (s.receipt.status == Status.Pass ==> s.receipt.validationId != None) &&
      (s.receipt.validationId != None ==>
        s.receipt.identity != None && s.receipt.attempt != None &&
        ConcludedAs(s.ledger, s.receipt.identity.value, s.receipt.attempt.value, s.receipt.validationId.value, s.receipt.status == Status.Pass))
  {
    ReachableHolds(ops, foreign);
  }

  /** recover when nothing refuses it; `v` is the fresh identity of its FAIL record. */
  function Unrefused(v: Id): Choice { Choice(true, WholeEvent, Inputs("", "", "", ""), v, map[], 0) }

  function Steps(op: Op, n: nat): seq<Op> { seq(n, _ => op) }

  function Recovery(pid: Pid, v: Id): seq<Op> { [Spawn(pid, Recover)] + Steps(Step(pid, Unrefused(v)), 6) }

  lemma Unroll(s: Issue, op: Op, n: nat, foreign: set<Inputs>)
    ensures Execute(s, Steps(op, n), foreign) == if n == 0 then s else Execute(Advance(s, op, foreign), Steps(op, n - 1), foreign)
  {
    if n > 0 { assert Steps(op, n)[1..] == Steps(op, n - 1); }
  }

  /** What recover has locked when it reads the receipt. */
  function Selecting(s: Issue, pid: Pid): Issue {
    s.(scheduling := Some(pid), execution := Some(pid), processes := s.processes[pid := RecoverSelect])
  }

  lemma RecoveryLocksScheduling(s: Issue, pid: Pid, v: Id, foreign: set<Inputs>)
    requires s.scheduling == None
    ensures Advance(At(s, pid, RecoverScheduling), Step(pid, Unrefused(v)), foreign) == At(s.(scheduling := Some(pid)), pid, RecoverExecution)
  {
    assert At(At(s, pid, RecoverScheduling).(scheduling := Some(pid)), pid, RecoverExecution).processes ==
      At(s.(scheduling := Some(pid)), pid, RecoverExecution).processes;
  }

  lemma RecoveryLocksExecution(s: Issue, pid: Pid, v: Id, foreign: set<Inputs>)
    requires s.execution == None
    ensures Advance(At(s, pid, RecoverExecution), Step(pid, Unrefused(v)), foreign) == At(s.(execution := Some(pid)), pid, RecoverTerminated)
  {
    assert At(At(s, pid, RecoverExecution).(execution := Some(pid)), pid, RecoverTerminated).processes ==
      At(s.(execution := Some(pid)), pid, RecoverTerminated).processes;
  }

  lemma RecoveryGoesOn(s: Issue, pid: Pid, v: Id, foreign: set<Inputs>)
    ensures Advance(At(s, pid, RecoverTerminated), Step(pid, Unrefused(v)), foreign) == At(s, pid, RecoverSelect)
  {
    assert At(At(s, pid, RecoverTerminated), pid, RecoverSelect).processes == At(s, pid, RecoverSelect).processes;
  }

  lemma RecoveryEnters(s: Issue, pid: Pid, v: Id, foreign: set<Inputs>)
    requires s.scheduling == None && s.execution == None && pid !in s.processes
    ensures Execute(s, Recovery(pid, v), foreign) == Execute(Selecting(s, pid), Steps(Step(pid, Unrefused(v)), 3), foreign)
  {
    var step := Op.Step(pid, Unrefused(v));
    RecoverySpawns(s, pid, v, foreign);
    var locked := s.(scheduling := Some(pid));
    RecoveryLocksScheduling(s, pid, v, foreign);
    UnrollTo(At(s, pid, RecoverScheduling), At(locked, pid, RecoverExecution), step, 6, foreign);
    RecoveryLocksExecution(locked, pid, v, foreign);
    var both := locked.(execution := Some(pid));
    UnrollTo(At(locked, pid, RecoverExecution), At(both, pid, RecoverTerminated), step, 5, foreign);
    RecoveryGoesOn(both, pid, v, foreign);
    UnrollTo(At(both, pid, RecoverTerminated), Selecting(s, pid), step, 4, foreign);
  }

  lemma UnrollTo(s: Issue, t: Issue, op: Op, n: nat, foreign: set<Inputs>)
    requires n > 0 && Advance(s, op, foreign) == t
    ensures Execute(s, Steps(op, n), foreign) == Execute(t, Steps(op, n - 1), foreign)
  {
    Unroll(s, op, n, foreign);
  }

  lemma RecoverySpawns(s: Issue, pid: Pid, v: Id, foreign: set<Inputs>)
    requires pid !in s.processes
    ensures Execute(s, Recovery(pid, v), foreign) == Execute(At(s, pid, RecoverScheduling), Steps(Step(pid, Unrefused(v)), 6), foreign)
  {
    assert Recovery(pid, v)[1..] == Steps(Step(pid, Unrefused(v)), 6);
  }

  lemma RecoveryConcludes(s: Issue, pid: Pid, v: Id, a: Id, i: Inputs, foreign: set<Inputs>)
    requires pid in s.processes && s.processes[pid] == RecoverSelect
    requires CrashedAttempt(s) == Some(a) && s.receipt.identity == Some(i)
    requires Enabled(s.ledger, EvidenceLedger.Conclude(Failed, a, i, map[], v))
    ensures Advance(Advance(s, Step(pid, Unrefused(v)), foreign), Step(pid, Unrefused(v)), foreign) ==
      At(s.(ledger := Apply(s.ledger, EvidenceLedger.Conclude(Failed, a, i, map[], v))), pid, RecoverWrite(i, a, v))
  {
    var s5 := Advance(s, Step(pid, Unrefused(v)), foreign);
    assert s5 == At(s, pid, RecoverRecord(i, a));
  }

  lemma RecoverySteps(s: Issue, pid: Pid, v: Id, a: Id, i: Inputs, foreign: set<Inputs>)
    requires s.scheduling == None && s.execution == None && pid !in s.processes
    requires CrashedAttempt(s) == Some(a) && s.receipt.identity == Some(i)
    requires Enabled(s.ledger, EvidenceLedger.Conclude(Failed, a, i, map[], v))
    ensures Execute(s, Recovery(pid, v), foreign) ==
      s.(ledger := Apply(s.ledger, EvidenceLedger.Conclude(Failed, a, i, map[], v)),
         receipt := Receipt(Status.Fail, Some(i), Some(a), Some(v)))
  {
    var step := Op.Step(pid, Unrefused(v));
    RecoveryEnters(s, pid, v, foreign);
    var s4 := Selecting(s, pid);
    assert CrashedAttempt(s4) == CrashedAttempt(s);
    RecoveryConcludes(s4, pid, v, a, i, foreign);
    var s5 := Advance(s4, step, foreign);
    var s6 := At(s4.(ledger := Apply(s.ledger, EvidenceLedger.Conclude(Failed, a, i, map[], v))), pid, RecoverWrite(i, a, v));
    Unroll(s4, step, 3, foreign);
    Unroll(s5, step, 2, foreign);
    Unroll(s6, step, 1, foreign);
    RecoveryWrites(s6, s, pid, v, a, i, foreign);
    Unroll(Advance(s6, step, foreign), step, 0, foreign);
  }

  lemma RecoveryWrites(s: Issue, before: Issue, pid: Pid, v: Id, a: Id, i: Inputs, foreign: set<Inputs>)
    requires pid !in before.processes && before.scheduling == None && before.execution == None
    requires s.processes == before.processes[pid := RecoverWrite(i, a, v)] && s.scheduling == s.execution == Some(pid)
    ensures Advance(s, Step(pid, Unrefused(v)), foreign) ==
      before.(ledger := s.ledger, receipt := Receipt(Status.Fail, Some(i), Some(a), Some(v)))
  {
    assert s.processes - {pid} == before.processes;
  }

  /** Over a whole index, from any reachable state whose two locks are free, one recover that
      is not refused concludes the crashed attempt as FAIL and leaves nothing of the issue open. */
  lemma RecoverClosesTheAttempt(ops: seq<Op>, foreign: set<Inputs>, pid: Pid, v: Id, a: Id, i: Inputs)
    requires var s := Execute(INITIAL, ops, foreign);
      s.scheduling == None && s.execution == None && pid !in s.processes && v !in s.ledger.records &&
      i !in foreign && a in Unconcluded(s.ledger.events, i)
    ensures var t := Execute(Execute(INITIAL, ops, foreign), Recovery(pid, v), foreign);
      NoneOpen(t.ledger, foreign) && ConcludedAs(t.ledger, i, a, v, false) &&
      t.receipt == Receipt(Status.Fail, Some(i), Some(a), Some(v)) && t.scheduling == None && t.execution == None
  {
    ReachableHolds(ops, foreign);
    ReceiptLeadsToTheAttempt(ops, foreign, a, i);
    var s := Execute(INITIAL, ops, foreign);
    UnconcludedIsOpen(s.ledger, a, i);
    var conclude := EvidenceLedger.Conclude(Failed, a, i, map[], v);
    RecoverySteps(s, pid, v, a, i, foreign);
    SelectionIsTheOpenOne(s, foreign);
    ConcludeCloses(s.ledger, conclude, foreign);
  }
}
