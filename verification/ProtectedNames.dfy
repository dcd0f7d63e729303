/** The file names at which evidence accepted for a pin is always safe from cleanup. */
module ProtectedNames {
  import L = EvidenceLedger
  import opened Options
  import opened Strings
  import opened Json
  import opened EvidencePins
  import opened Reports
  import opened RetentionProtocol
  import opened EndangeredEvidence

  lemma ReachedStep(h: Host, m: Machine, op: RetentionProtocol.Op)
    requires Reached(h, m)
    ensures Reached(h, Step(h, m, op))
  {
    var ops: seq<RetentionProtocol.Op> :| Execute(h, INITIAL, ops) == m;
    ExecuteOneMore(h, INITIAL, ops, op);
    assert Execute(h, INITIAL, ops + [op]) == Step(h, m, op);
  }

  lemma {:induction false} ExecuteOneMore(h: Host, m: Machine, ops: seq<RetentionProtocol.Op>, op: RetentionProtocol.Op)
    ensures Execute(h, m, ops + [op]) == Step(h, Execute(h, m, ops), op)
    decreases |ops|
  {
    if ops == [] {
      assert Execute(h, Step(h, m, op), []) == Step(h, m, op);
      assert ops + [op] == [op];
    } else {
      assert (ops + [op])[1..] == ops[1..] + [op];
      ExecuteOneMore(h, Step(h, m, ops[0]), ops[1..], op);
    }
  }

  lemma {:induction false} ReachedOn(h: Host, m: Machine, ops: seq<RetentionProtocol.Op>, k: string, proof: Proof)
    requires Reached(h, m) && Stays(h, m, ops, k, proof)
    ensures Reached(h, Execute(h, m, ops)) && PinnedBy(Execute(h, m, ops), k, proof)
    decreases |ops|
  {
    if ops != [] {
      ReachedStep(h, m, ops[0]);
      ReachedOn(h, Step(h, m, ops[0]), ops[1..], k, proof);
    }
  }

  /** Evidence at this path, once accepted for a pin in an unshared run, keeps its bytes while the pin is stored. */
  ghost predicate Protected(path: Path) {
    forall h: Host, m: Machine, k: string ::
      Reached(h, m) && k in m.pins.pins && k in m.proofs && m.proofs[k].unshared && path in m.proofs[k].files ==>
        Has(m.disk, m.pins.pins[k].run, path, m.proofs[k].files[path])
  }

  // ---------------------------------------------------------------- a host where such evidence is pinned

  const RUN: Run := "run-000000000000"
  const BYTES: Bytes := "evidence"

  predicate ReportOnly(evidence: map<string, L.Row>) { evidence.Keys == {"report"} }

  ghost predicate StandingPass(ledger: L.State, v: L.Id) {
    v in ledger.records && ledger.records[v].outcome == L.Passed && ReportOnly(ledger.records[v].evidence) && L.Stands(ledger.events, v)
  }

  lemma ConcludedStands(inputs: L.Inputs, evidence: map<string, L.Row>)
    requires L.Named(inputs) && ReportOnly(evidence)
    ensures StandingPass(L.Apply(L.Apply(L.EMPTY, L.Begin(inputs, 0)), L.Conclude(L.Passed, 0, inputs, evidence, 1)), 1)
  {
    var s := L.Apply(L.EMPTY, L.Begin(inputs, 0));
    var start := L.Event(L.Start, 0, 0, inputs, L.Execution(inputs));
    assert s.events == [start];
    assert L.ConcludedUnder(s.events, L.Execution(inputs)) == {};
    assert s.events[0].attempt in L.Announced(s.events, inputs) && s.events[0].attempt in L.StartedUnder(s.events, L.Execution(inputs));
    assert "report" in evidence;
    var t := L.Apply(s, L.Conclude(L.Passed, 0, inputs, evidence, 1));
    var pass := L.Event(L.Pass, 1, 0, inputs, L.Execution(inputs));
    assert t.events == [start, pass];
    OnlyPassStands(t.events, start, pass);
  }

  lemma OnlyPassStands(events: seq<L.Event>, start: L.Event, pass: L.Event)
    requires events == [start, pass] && start.kind == L.Start && pass.kind == L.Pass && pass.validationId == 1
    requires start.attempt == pass.attempt && start.executionKey == pass.executionKey
    ensures L.Stands(events, 1)
  {
    assert L.LastAdmission(events, 1, 2) == 1 && L.LastAdmission(events, 1, 1) == -1;
    assert events[1].attempt in L.ConcludedUnder(events, pass.executionKey);
    assert L.StartedUnder(events, pass.executionKey) == {start.attempt};
  }

  predicate Apart(p: Path, q: Path) { p != [] && q != [] && p != q && !(p < q) && !(q < p) }

  ghost predicate PinnedAt(h: Host, m: Machine, k: string, path: Path) {
    Reached(h, m) && m.cleaner.Away? && k in m.pins.pins && m.pins.pins[k].run == RUN && m.pins.pins[k].expiresAt > m.now &&
    k in m.proofs && m.proofs[k].run == RUN && path in m.proofs[k].files && m.proofs[k].files[path] == BYTES &&
    m.proofs[k].unshared == Unshared(m.disk, RUN) && Has(m.disk, RUN, path, BYTES)
  }

  /** One run with these files, one of them the evidence. */
  predicate Offers(tree: Names, content: Content, path: Path) {
    Plain(tree) && (forall p :: p in tree ==> tree[p] in content) && path in tree && content[tree[path]].bytes == BYTES && !Cleanable(path)
  }

  function OneRun(tree: Names, content: Content): Disk { Disk(map[RUN := tree], content) }

  /** The validation of a host that accepts this evidence; the only record it reads is the evidence itself, as an
      unfinished record of the archive `other`. */
  function HostOf(budget: nat, path: Path, pin: Pin, other: Bytes): Host {
    Host(budget, (v: Value) => "", (b: Bytes) => b, (r: L.Row) => Row(RUN, path, BYTES), (v: L.Id) => pin.validationId,
         (b: Bytes) => if b == BYTES then Incomplete(other, true) else Unreadable, (a: Bytes, b: Bytes) => a == other && b == BYTES)
  }

  /** A host whose publisher has just reserved a live pin naming the evidence. */
  lemma ReserveAt(tree: Names, content: Content, path: Path, other: Bytes, k: string) returns (h: Host, m: Machine)
    requires Offers(tree, content, path)
    ensures PinnedAt(h, m, k, path) && m.disk == OneRun(tree, content) && m.publisher == Reserving(1, k) && m.now == 0
    ensures h.parse(BYTES) == Incomplete(h.sha(other), true) && h.verifies(other, BYTES)
    ensures m.pins.pins[k].validationId == h.named(1) && 1 in m.ledger.records && "report" in m.ledger.records[1].evidence
    ensures (forall row: L.Row :: h.located(row) == Row(RUN, path, BYTES)) && h.sha == ((b: Bytes) => b)
  {
    var some := Pin("", Null, "", RUN, 0, 1, map[], "");
    var pin: Pin :| pin.validationId == some.validationId && pin.run == RUN && pin.expiresAt == 1;
    h := HostOf(Reserved(OneRun(tree, content), map[k := Unconfirmed(pin)], {}), path, pin, other);
    assert Execute(h, INITIAL, []) == INITIAL;
    m := Recording(h);
    m := Captured(h, m, tree, content);
    m := Admission(h, m, pin, path, k);
  }

  /** The same after the publisher has left. */
  lemma PinAt(tree: Names, content: Content, path: Path, other: Bytes, k: string) returns (h: Host, m: Machine)
    requires Offers(tree, content, path)
    ensures PinnedAt(h, m, k, path) && m.disk == OneRun(tree, content)
    ensures h.parse(BYTES) == Incomplete(h.sha(other), true) && h.verifies(other, BYTES)
  {
    h, m := ReserveAt(tree, content, path, other, k);
    PublishReached(h, m, Leave);
    m := m.(publisher := Idle);
  }

  lemma Recording(h: Host) returns (m: Machine)
    requires Reached(h, INITIAL)
    ensures Reached(h, m) && m == INITIAL.(ledger := m.ledger) && StandingPass(m.ledger, 1)
  {
    var inputs := L.Inputs("approval", "commit", "environment", "tree");
    var evidence := map["report" := L.Row("", 0)];
    ConcludedStands(inputs, evidence);
    ReachedStep(h, INITIAL, Record(L.Begin(inputs, 0)));
    m := INITIAL.(ledger := L.Apply(L.EMPTY, L.Begin(inputs, 0)));
    ReachedStep(h, m, Record(L.Conclude(L.Passed, 0, inputs, evidence, 1)));
    m := m.(ledger := L.Apply(m.ledger, L.Conclude(L.Passed, 0, inputs, evidence, 1)));
  }

  lemma Captured(h: Host, before: Machine, tree: Names, content: Content) returns (m: Machine)
    requires Reached(h, before) && before == INITIAL.(ledger := before.ledger) && Plain(tree) && forall p :: p in tree ==> tree[p] in content
    ensures Reached(h, m) && m == before.(disk := OneRun(tree, content))
  {
    m := Step(h, before, Capture(RUN, tree, content));
    assert map[] + content == content;
    ReachedStep(h, before, Capture(RUN, tree, content));
  }

  lemma CanReserve(h: Host, m: Machine, pin: Pin, path: Path, k: string)
    requires m.publisher == Verified(1) && m.cleaner.Away? && m.now == 0 && m.pins.pins == map[] && StandingPass(m.ledger, 1)
    requires Has(m.disk, RUN, path, BYTES) && !Cleanable(path) && pin.run == RUN && pin.validationId == h.named(1)
    requires h.budget == Reserved(m.disk, map[k := Unconfirmed(pin)], {})
    requires h.sha == ((b: Bytes) => b) && h.located == ((r: L.Row) => Row(RUN, path, BYTES))
    ensures var reserve := Reserve(k, pin, {}, 0);
      CanPublish(h, m, reserve) && var t := AfterPublish(h, m, reserve);
      t.pins.pins == map[k := Unconfirmed(pin)] && k in t.proofs && path in t.proofs[k].files && t.proofs[k].files[path] == BYTES &&
      t.proofs[k].run == RUN && t.proofs[k].unshared == Unshared(m.disk, RUN)
  {
    EvidenceIsAccepted(h, m.disk, m.ledger.records[1], path);
    OnlyPin(h, m.disk, m.pins.pins, pin, k);
  }

  lemma EvidenceIsAccepted(h: Host, d: Disk, record: L.Record, path: Path)
    requires ReportOnly(record.evidence) && Has(d, RUN, path, BYTES) && !Cleanable(path)
    requires h.sha == ((b: Bytes) => b) && h.located == ((r: L.Row) => Row(RUN, path, BYTES))
    ensures "report" in Evidence(h, record) && Accepted(d, RUN, Evidence(h, record), h.sha) && path in Paths(Evidence(h, record))
  {
    var evidence := Evidence(h, record);
    assert evidence["report"].path in Paths(evidence);
    forall n | n in evidence ensures CheckRow(d, RUN, evidence[n], h.sha) == None { }
  }

  lemma OnlyPin(h: Host, d: Disk, pins: map<string, Pin>, pin: Pin, k: string)
    requires pins == map[] && h.budget == Reserved(d, map[k := Unconfirmed(pin)], {})
    ensures Stored(d, {}, h.digest, pins, PinRun(k, pin, h.budget, 0)) == Some(map[k := Unconfirmed(pin)])
  {
    assert Live(pins, 0)[k := Unconfirmed(pin)] == map[k := Unconfirmed(pin)];
  }

  lemma Admission(h: Host, before: Machine, pin: Pin, path: Path, k: string) returns (m: Machine)
    requires Reached(h, before) && before == INITIAL.(ledger := before.ledger, disk := before.disk) && StandingPass(before.ledger, 1)
    requires Has(before.disk, RUN, path, BYTES) && !Cleanable(path) && pin.run == RUN && pin.validationId == h.named(1) && pin.expiresAt == 1
    requires h.budget == Reserved(before.disk, map[k := Unconfirmed(pin)], {})
    requires h.sha == ((b: Bytes) => b) && h.located == ((r: L.Row) => Row(RUN, path, BYTES))
    ensures PinnedAt(h, m, k, path) && m.disk == before.disk && m.ledger == before.ledger && m.publisher == Reserving(1, k) && m.now == 0
    ensures m.pins.pins[k].validationId == h.named(1)
  {
    m := before;
    PublishReached(h, m, Hold);
    m := m.(publisher := Held);
    PublishReached(h, m, Verify(1));
    m := m.(publisher := Verified(1));
    CanReserve(h, m, pin, path, k);
    PublishReached(h, m, Reserve(k, pin, {}, 0));
    m := AfterPublish(h, m, Reserve(k, pin, {}, 0));
  }

  lemma PublishReached(h: Host, m: Machine, p: Publish)
    requires Reached(h, m) && CanPublish(h, m, p)
    ensures Reached(h, AfterPublish(h, m, p))
  {
    ReachedStep(h, m, Publishing(p));
  }

  // ---------------------------------------------------------------- the names cleanup writes are not protected

  lemma EndangeredIsUnprotected(h: Host, m: Machine, k: string, path: Path)
    requires PinnedAt(h, m, k, path) && m.proofs[k].unshared && Endangered(h, m.disk, RUN, path)
    ensures !Protected(path)
  {
    LostExactly(h, m, k, path);
    var t: Machine :| Reaches(h, m, t, k, m.proofs[k]) && !Intact(t.disk, m.proofs[k], path);
    var ops: seq<RetentionProtocol.Op> :| Leads(h, m, ops, t, k, m.proofs[k]);
    ReachedOn(h, m, ops, k, m.proofs[k]);
    assert !Has(t.disk, t.pins.pins[k].run, path, t.proofs[k].files[path]);
  }

  /** Evidence under a name compaction writes, in a run that names its source or whose unfinished record is that evidence. */
  lemma CompactionOverwrites(path: Path)
    requires path in FOUR
    ensures !Protected(path)
  {
    var second := if path == MARKER then PACKAGE else SOURCE;
    var k, other := "pin", "other";
    var tree: Names := map[path := 0, second := 1];
    var content: Content := map[0 := File(BYTES, 0), 1 := File(other, 0)];
    TwoFiles(tree, path, second);
    var h, m := PinAt(tree, content, path, other, k);
    if path == MARKER { SaveIsDue(h, content, tree, other); } else { ArchiveIsDue(tree, path); }
    Overwrites(h, m, k, path, tree, content);
    EndangeredIsUnprotected(h, m, k, path);
  }

  lemma Overwrites(h: Host, m: Machine, k: string, path: Path, tree: Names, content: Content)
    requires path in FOUR && PinnedAt(h, m, k, path) && m.disk == OneRun(tree, content) && tree[path] == 0
    requires if path == MARKER then SavesRecord(h, content, tree) else StartsArchive(tree) && !Directory(tree, PACKAGE)
    ensures Endangered(h, m.disk, RUN, path)
  {
    assert Tree(m.disk, RUN) == tree;
    if path in IN_PLACE { assert OverwrittenIn(h, m.disk, RUN, 0); }
  }

  lemma TwoFiles(tree: Names, path: Path, second: Path)
    requires path in FOUR && second == (if path == MARKER then PACKAGE else SOURCE) && tree == map[path := 0, second := 1]
    ensures Plain(tree) && Unshared(OneRun(tree, map[]), RUN) && path != second && !Cleanable(path) && MARKER != SOURCE
    ensures forall content: Content :: Unshared(OneRun(tree, content), RUN)
  {
    NamesDiffer();
    if Cleanable(path) { CleanableFirst(path); }
  }

  lemma ArchiveIsDue(tree: Names, path: Path)
    requires path in FOUR && path != MARKER && tree == map[path := 0, SOURCE := 1]
    ensures StartsArchive(tree) && !Directory(tree, PACKAGE)
  {
    NamesDiffer();
  }

  lemma SaveIsDue(h: Host, content: Content, tree: Names, other: Bytes)
    requires tree == map[MARKER := 0, PACKAGE := 1] && content == map[0 := File(BYTES, 0), 1 := File(other, 0)]
    requires h.parse(BYTES) == Incomplete(h.sha(other), true) && h.verifies(other, BYTES)
    ensures SavesRecord(h, content, tree)
  {
    NamesDiffer();
    assert tree[MARKER] == 0 && tree[PACKAGE] == 1;
    assert !Directory(tree, PENDING);
  }

  // ---------------------------------------------------------------- nor is anything linked to them

  /** Any other evidence, as a hard link of a leftover partial archive in a run that names its source. */
  function LinkedTree(path: Path): Names { map[path := 0, PARTIAL := 0, SOURCE := 1] }

  const LINKED_FILES: Content := map[0 := File(BYTES, 0), 1 := File("", 0)]

  predicate Ordinary(path: Path) {
    path !in FOUR && !Cleanable(path) && Apart(path, PARTIAL) && Apart(path, SOURCE) && Apart(path, MARKER)
  }

  lemma LinkedIsOffered(path: Path)
    requires Ordinary(path)
    ensures Offers(LinkedTree(path), LINKED_FILES, path) && StartsArchive(LinkedTree(path))
    ensures !Unshared(OneRun(LinkedTree(path), LINKED_FILES), RUN)
  {
    NamesDiffer();
    var d := OneRun(LinkedTree(path), LINKED_FILES);
    assert !Parted(d, RUN, path, RUN, PARTIAL);
    assert !Directory(LinkedTree(path), MARKER) && !Directory(LinkedTree(path), PARTIAL);
  }

  /** Compaction truncates the partial archive in place and so the evidence with it, whatever its name. */
  lemma CompactionWritesThrough(path: Path) returns (h: Host, m: Machine)
    requires Ordinary(path)
    ensures PinnedAt(h, m, "pin", path) && CanBeLost(h, m, "pin", path)
  {
    LinkedIsOffered(path);
    h, m := PinAt(LinkedTree(path), LINKED_FILES, path, "", "pin");
    assert OverwrittenIn(h, m.disk, RUN, 0);
    LostExactly(h, m, "pin", path);
  }

  /** Success is sent over the lost bytes when such a pass comes between reserving and sending. */
  lemma SuccessOverLostEvidence(path: Path) returns (h: Host, m: Machine)
    requires Ordinary(path)
    ensures Reached(h, m) && m.publisher == Holding(1, "pin") && 1 in m.ledger.records && "pin" in m.pins.pins && m.pins.pins["pin"].run == RUN
    ensures !Accepted(m.disk, RUN, Evidence(h, m.ledger.records[1]), h.sha)
  {
    LinkedIsOffered(path);
    var t: Machine;
    h, t := ReserveAt(LinkedTree(path), LINKED_FILES, path, "", "pin");
    ReachedInv(h, t);
    m := Truncated(h, t, path, "pin");
    PublishReached(h, m, Enter);
    m := AfterPublish(h, m, Enter);
    var evidence := Evidence(h, m.ledger.records[1]);
    assert CheckRow(m.disk, RUN, evidence["report"], h.sha) != None;
  }

  /** A pass that is killed while it writes the archive. */
  lemma Truncated(h: Host, t: Machine, path: Path, k: string) returns (m: Machine)
    requires Ordinary(path) && PinnedAt(h, t, k, path) && t.disk == OneRun(LinkedTree(path), LINKED_FILES)
    requires t.publisher == Reserving(1, k) && StartsArchive(LinkedTree(path)) && t.pins.pins[k].expiresAt > t.now
    ensures Reached(h, m) && m.cleaner.Away? && m.publisher == t.publisher && m.ledger == t.ledger && m.now == t.now
    ensures k in m.pins.pins && m.pins.pins[k] == t.pins.pins[k] && path in Tree(m.disk, RUN) && Differs(m.disk, RUN, path, BYTES)
  {
    var bytes := NovelBytes(t.disk, BYTES);
    NamesDiffer();
    CleanReached(h, t, Lock);
    m := AfterClean(h, t, Lock);
    WrittenInOne(m.disk, RUN, PARTIAL, 2, bytes);
    CleanReached(h, m, StartPackage(RUN, 2, bytes));
    m := AfterClean(h, m, StartPackage(RUN, 2, bytes));
    CleanReached(h, m, Stop);
    m := AfterClean(h, m, Stop);
  }

  lemma CleanReached(h: Host, m: Machine, c: Clean)
    requires Reached(h, m) && CanClean(h, m, c)
    ensures Reached(h, AfterClean(h, m, c))
  {
    ReachedStep(h, m, Cleaning(c));
  }

  /** A report that sorts before this one and is no directory of it: least names from some part on. */
  lemma EarlierReport(base: Path) returns (prior: Path)
    requires Report(base) && Follows(base)
    ensures Report(prior) && PathBefore(prior, base) && Apart(prior, base) && Apart(prior, Temporary(base))
  {
    var i :| 1 <= i < |base| && base[i] != LEAST;
    prior := base[..i] + [LEAST];
    var name := base[i];
    assert name in base && Name(name);
    LeastIsBefore(name);
    SiblingsCompare(base[..i], LEAST, name, base[i + 1..]);
    assert base == base[..i] + [name] + base[i + 1..];
    PathsAreOrdered(prior, base);
    assert prior[i] == LEAST && Temporary(base)[i] != LEAST by { assert i == |base| - 1 ==> Temporary(base)[i] == name + SUFFIX; }
    forall part | part in prior ensures Name(part) { assert part in base[..i] || part == LEAST; }
    assert Temporary(base)[..i] == base[..i];
  }

  lemma LeastIsBefore(name: string)
    requires Name(name) && name != LEAST
    ensures StringBefore(LEAST, name)
  {
    assert name[0] in name && name[0] != '\0';
    assert LEAST[0] == '\U{1}' && LEAST[1..] == "";
    if name[0] == LEAST[0] { assert name == [name[0]] + name[1..]; }
  }

  /** Evidence that is a link to an earlier report, beside a report of the same content that is not. */
  lemma DeduplicationConsumes(path: Path)
    requires TemporaryName(path) && Follows(Base(path))
    ensures !Protected(path)
  {
    BaseIsReport(path);
    var base := Base(path);
    var prior := EarlierReport(base);
    var tree: Names := map[path := 0, base := 1, prior := 0];
    var content: Content := map[0 := File(BYTES, 0), 1 := File(BYTES, 0)];
    TemporaryApart(base);
    ReportsOnly(tree, content, path, base, prior);
    var h, m := PinAt(tree, content, path, "", "pin");
    DueAt(content, tree, path, base, prior);
    EndangeredIsUnprotected(h, m, "pin", path);
  }

  lemma ReportsOnly(tree: Names, content: Content, path: Path, base: Path, prior: Path)
    requires Report(path) && Report(base) && Report(prior) && Apart(path, base) && Apart(base, prior) && Apart(path, prior)
    requires tree == map[path := 0, base := 1, prior := 0]
    ensures Plain(tree) && Unshared(OneRun(tree, content), RUN)
  {
    forall p | p in tree ensures p != [] && !Directory(tree, p) { assert p == path || p == base || p == prior; }
    ReportsAreUnshared(OneRun(tree, content), tree);
  }

  lemma ReportsAreUnshared(d: Disk, tree: Names)
    requires d.runs == map[RUN := tree] && forall p :: p in tree ==> Report(p)
    ensures Unshared(d, RUN)
  {
    assert |PARTIAL| == 1 && |PENDING| == 1;
  }

  lemma TemporaryApart(base: Path)
    requires Report(base)
    ensures Report(Temporary(base)) && Apart(Temporary(base), base) && !Cleanable(Temporary(base)) && Temporary(base) !in FOUR
  {
    TemporaryComesAfter(base);
    TemporaryIsNamed(base);
    assert |Temporary(base)| == |base| > 1 && Temporary(base)[0] == "reports";
    if Cleanable(Temporary(base)) { CleanableFirst(Temporary(base)); }
  }

  lemma DueAt(content: Content, tree: Names, path: Path, base: Path, prior: Path)
    requires Report(base) && Report(prior) && path == Temporary(base) && PathBefore(prior, base)
    requires Apart(path, base) && Apart(base, prior) && Apart(path, prior)
    requires tree == map[path := 0, base := 1, prior := 0] && content == map[0 := File(BYTES, 0), 1 := File(BYTES, 0)]
    ensures WillConsume(content, tree, path)
  {
    TemporaryIsNamed(base);
    TemporaryComesAfter(base);
    PathsTransitive(prior, base, path);
    assert IsLeast(prior, Alike(content, tree, base));
    LeastIsUnique(prior, First(content, tree, base), Alike(content, tree, base));
    assert !Directory(tree, path);
    forall x | x in tree && Report(x) && PathBefore(x, base) ensures !Blocked(content, tree, x) {
      PathsAreOrdered(x, base);
      PathsAreOrdered(path, base);
      assert x == prior;
      assert IsLeast(prior, Alike(content, tree, prior));
      LeastIsUnique(prior, First(content, tree, prior), Alike(content, tree, prior));
    }
  }

  /** Whatever pass runs, evidence accepted for a pin in an unshared run keeps its bytes exactly when it bears none of the four
      names compaction writes, nor that of a temporary link to which some earlier report can lead. */
  lemma ProtectedExactly(path: Path)
    ensures Protected(path) <==> !Rewritten(path)
  {
    if path in FOUR {
      CompactionOverwrites(path);
    } else if Rewritten(path) {
      DeduplicationConsumes(path);
    } else {
      forall h: Host, m: Machine, k: string |
          Reached(h, m) && k in m.pins.pins && k in m.proofs && m.proofs[k].unshared && path in m.proofs[k].files
        ensures Has(m.disk, m.pins.pins[k].run, path, m.proofs[k].files[path])
      {
        var ops: seq<RetentionProtocol.Op> :| Execute(h, INITIAL, ops) == m;
        PinnedEvidenceIsKept(h, ops, k, path);
      }
    }
  }
}
