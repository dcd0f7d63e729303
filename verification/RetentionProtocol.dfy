/** Pinning, publishing and cleaning up one evidence volume at the same time: the publisher
    (tools/remote-gate/evidence_admission.py), the pin operations (tools/quality-host/evidence_pins.py)
    and the cleanup pass (tools/quality-host/bounded_retention.py, bounded_records.py and
    tools/compact_gate_evidence.py), each step of which may be the last before a crash.

    The pin lock is held by a publisher in Holding or Patched and by a cleanup pass that is not Away;
    the ledger's shared lock is held by every publisher that is not Idle. Locks vanish with their holder. */
module RetentionProtocol {
  import opened Options
  import opened Strings
  import C = Compaction
  import L = EvidenceLedger
  import opened Json
  import opened EvidencePins
  import opened Reports
  import opened BoundedRecords
  import opened Walk

  /** What the bytes of a compaction record say: whether it is done, the archive it names, and whether
      everything it is to remove may be removed. */
  datatype MarkerText = Unreadable | Complete | Incomplete(archive: string, allowed: bool)

  /** What is fixed on one host. `verifies` says whether an archive holds what a compaction record lists. */
  datatype Host = Host(
    budget: nat, digest: Value -> string, sha: Bytes -> string, located: L.Row -> Row, named: L.Id -> string,
    parse: Bytes -> MarkerText, verifies: (Bytes, Bytes) -> bool)

  datatype Publisher =
    | Idle
    | Held
    | Verified(v: L.Id)
    | Reserving(v: L.Id, id: string)
    | Holding(v: L.Id, id: string)
    | Patched(v: L.Id, id: string)

  /** Where compaction is: an archive written, moved into place, its record written and moved, first to say
      what is to be removed and last that it is. */
  datatype Work =
    | Choosing
    | Archiving(run: Run)
    | Archived(run: Run)
    | Finishing(run: Run, allowed: bool)
    | Saving(run: Run, final: bool)

  /** `pinned`: the runs of the pins the pass read when it took the lock. */
  datatype Cleaner =
    | Away
    | Compacting(pinned: set<Run>, work: Work)
    | Resuming(pinned: set<Run>)
    | Keeping(pinned: set<Run>)
    | Registered(pinned: set<Run>, run: Run)
    | Renamed(pinned: set<Run>, run: Run)

  /** What was read when a pin was accepted, and whether the files of the run then shared their inodes with
      nothing compaction writes in place; kept for the record only. */
  datatype Proof = Proof(v: L.Id, run: Run, files: map<Path, Bytes>, unshared: bool)

  datatype Machine = Machine(
    now: int, ledger: L.State, disk: Disk, index: set<Run>, retiring: set<Run>, pins: State,
    publisher: Publisher, cleaner: Cleaner, proofs: map<string, Proof>, successes: set<string>)

  datatype Publish =
    | Hold
    | Verify(v: L.Id)
    | Reserve(id: string, pin: Pin, current: set<Run>, moment: int)
    | Enter
    | Patch
    | Finish(checked: int)
    | Leave

  datatype Clean =
    | Lock
    | Scratch(run: Run, doomed: set<Path>)
    | StartPackage(run: Run, inode: Inode, bytes: Bytes)
    | Defer
    | MovePackage
    | ResumeCompaction(run: Run)
    | Remove(doomed: set<Path>)
    | WriteMarker(inode: Inode, bytes: Bytes)
    | MoveMarker
    | Resume
    | Erase(run: Run)
    | Keep
    | LinkNew(run: Run, path: Path)
    | Replace(run: Run, path: Path)
    | Register(run: Run)
    | Rename
    | Trim(rows: set<Run>)
    | Stop

  datatype Op =
    | Tick(now: int)
    | Capture(run: Run, tree: Names, files: Content)
    | Record(entry: L.Op)
    | Sweep(write: EvidencePins.Op)
    | Publishing(p: Publish)
    | Cleaning(c: Clean)

  const INITIAL := Machine(0, L.EMPTY, Disk(map[], map[]), {}, {}, EMPTY, Idle, Away, map[], {})

  // ---------------------------------------------------------------- paths cleanup may write or remove

  const PACKAGE: Path := ["review-record.tar.gz"]
  const PARTIAL: Path := ["review-record.tar.partial"]
  const MARKER: Path := [C.RECORD]
  const PENDING: Path := ["compact-retention.new"]
  const SOURCE: Path := ["source-inputs.json"]

  /** The files compaction opens in place: a leftover of that name is truncated, through whatever it is linked to. */
  const IN_PLACE: set<Path> := {PARTIAL, PENDING}
  const FOUR: set<Path> := {PACKAGE, PARTIAL, MARKER, PENDING}

  /** The least name a file can have. */
  const LEAST: string := ['\U{1}']

  /** Some report that is not one of its directories sorts before this one. */
  predicate Follows(path: Path) { exists i :: 1 <= i < |path| && path[i] != LEAST }

  /** The names of the files compaction writes, and of the links deduplication can rename. */
  predicate Rewritten(path: Path) { path in FOUR || (TemporaryName(path) && Follows(Base(path))) }

  const SCRATCH: set<Path> := {["tmp"], ["cargo-home"], ["target"]}

  predicate InScratch(path: Path) { exists directory :: directory in SCRATCH && Under(path, directory) }

  /** Below a path finish_compaction() accepts. */
  predicate Compactible(path: Path) { exists n :: 0 <= n <= |path| && C.Removable(path[..n]) }

  lemma RemovedIsCleanable(path: Path)
    requires InScratch(path) || Compactible(path)
    ensures Cleanable(path)
  {
    if InScratch(path) {
      var directory :| directory in SCRATCH && Under(path, directory);
      assert directory in CLEANABLE;
    } else {
      var n :| 0 <= n <= |path| && C.Removable(path[..n]);
      C.BelowRemovable(path[..n], path);
    }
  }

  // ---------------------------------------------------------------- steps

  predicate LockFree(m: Machine) { m.cleaner.Away? && !m.publisher.Holding? && !m.publisher.Patched? }

  predicate Has(d: Disk, run: Run, path: Path, bytes: Bytes) {
    path in Tree(d, run) && Tree(d, run)[path] in d.content && d.content[Tree(d, run)[path]].bytes == bytes
  }

  function BytesAt(d: Disk, run: Run, path: Path): Bytes {
    if path in Tree(d, run) && Tree(d, run)[path] in d.content then d.content[Tree(d, run)[path]].bytes else ""
  }

  /** The ledger record's evidence as the host finds it. */
  function Evidence(h: Host, record: L.Record): map<string, Row> { map n | n in record.evidence :: h.located(record.evidence[n]) }

  function Paths(evidence: map<string, Row>): set<Path> { set n | n in evidence :: evidence[n].path }

  function ReadProof(d: Disk, v: L.Id, run: Run, evidence: map<string, Row>): Proof {
    Proof(v, run, map p | p in Paths(evidence) :: BytesAt(d, run, p), Unshared(d, run))
  }

  /** This file is not a hard link of that one. */
  predicate Parted(d: Disk, run: Run, path: Path, r: Run, name: Path) {
    path in Tree(d, run) && name in Tree(d, r) ==> Tree(d, run)[path] != Tree(d, r)[name]
  }

  /** Beside the four files themselves, no file of the run is a hard link of a partial archive or pending record. */
  predicate Unshared(d: Disk, run: Run) {
    forall r, name, path :: r in d.runs && name in IN_PLACE && path in Tree(d, run) && path !in FOUR ==> Parted(d, run, path, r, name)
  }

  /** open(path, 'w'): a file that is there keeps its inode, which then holds the new bytes under every name it has. */
  function Written(d: Disk, run: Run, name: Path, inode: Inode, bytes: Bytes): Disk {
    var target := if name in Tree(d, run) then Tree(d, run)[name] else inode;
    Disk(d.runs[run := Tree(d, run)[name := target]],
         d.content[target := File(bytes, if target in d.content then d.content[target].mode else NEW_FILE)])
  }

  const NEW_FILE := 420

  predicate IsLive(pins: map<string, Pin>, id: string, moment: int) { id in pins && pins[id].expiresAt > moment }

  ghost predicate CanPublish(h: Host, m: Machine, p: Publish) {
    match p
    case Hold => m.publisher.Idle?
    case Verify(v) =>
      m.publisher.Held? && v in m.ledger.records && m.ledger.records[v].outcome == L.Passed && L.Stands(m.ledger.events, v)
    case Reserve(id, pin, current, moment) =>
      m.publisher.Verified? && LockFree(m) && moment <= m.now && m.publisher.v in m.ledger.records &&
      var evidence := Evidence(h, m.ledger.records[m.publisher.v]);
      "report" in evidence && pin.validationId == h.named(m.publisher.v) && Accepted(m.disk, pin.run, evidence, h.sha) &&
      Stored(m.disk, current, h.digest, m.pins.pins, PinRun(id, pin, h.budget, moment)).Some?
    case Enter =>
      m.publisher.Reserving? && LockFree(m) && IsLive(m.pins.pins, m.publisher.id, m.now) &&
      m.pins.pins[m.publisher.id].validationId == h.named(m.publisher.v)
    case Patch => m.publisher.Holding?
    case Finish(checked) => m.publisher.Patched? && checked <= m.now && IsLive(m.pins.pins, m.publisher.id, checked)
    case Leave => true
  }

  ghost function AfterPublish(h: Host, m: Machine, p: Publish): Machine
    requires CanPublish(h, m, p)
  {
    match p
    case Hold => m.(publisher := Held)
    case Verify(v) => m.(publisher := Verified(v))
    case Reserve(id, pin, current, moment) =>
      var v := m.publisher.v;
      m.(publisher := Reserving(v, id),
         pins := Apply(m.disk, current, h.digest, m.pins, PinRun(id, pin, h.budget, moment)),
         proofs := m.proofs[id := ReadProof(m.disk, v, pin.run, Evidence(h, m.ledger.records[v]))])
    case Enter => m.(publisher := Holding(m.publisher.v, m.publisher.id))
    case Patch => m.(publisher := Patched(m.publisher.v, m.publisher.id), successes := m.successes + {m.publisher.id})
    case Finish(checked) =>
      m.(publisher := Idle,
         pins := Apply(m.disk, {}, h.digest, m.pins, Confirm(m.publisher.id, h.named(m.publisher.v), checked, m.now)))
    case Leave => m.(publisher := Idle)
  }

  /** compact() begins a new archive: there is no record yet and the run names its source. */
  predicate StartsArchive(tree: Names) {
    MARKER !in tree && !Directory(tree, MARKER) && SOURCE in tree && !Directory(tree, PARTIAL)
  }

  /** compact() takes up an unfinished record whose archive is unchanged. */
  predicate CanResume(h: Host, content: Content, tree: Names, allowed: bool) {
    MARKER in tree && tree[MARKER] in content && PACKAGE in tree && tree[PACKAGE] in content &&
    var marker, package := content[tree[MARKER]].bytes, content[tree[PACKAGE]].bytes;
    h.parse(marker) == Incomplete(h.sha(package), allowed) && h.verifies(package, marker)
  }

  predicate Works(m: Machine) { m.cleaner.Compacting? && !m.cleaner.work.Choosing? }

  /** A file may be opened under this name; a new one gets an unused inode. */
  predicate CanOpen(d: Disk, run: Run, name: Path, inode: Inode) {
    run in d.runs && !Directory(Tree(d, run), name) && (name !in Tree(d, run) ==> inode !in d.content)
  }

  /** An archive or record carries the time it was made: it is unlike every file on the disk. */
  predicate Novel(d: Disk, bytes: Bytes) { forall i :: i in d.content ==> d.content[i].bytes != bytes }

  ghost predicate CanClean(h: Host, m: Machine, c: Clean) {
    match c
    case Lock => LockFree(m)
    case Scratch(run, doomed) =>
      m.cleaner.Compacting? && m.cleaner.work.Choosing? && run in m.disk.runs && forall p :: p in doomed ==> InScratch(p)
    case StartPackage(run, inode, bytes) =>
      m.cleaner.Compacting? && m.cleaner.work.Choosing? && StartsArchive(Tree(m.disk, run)) && CanOpen(m.disk, run, PARTIAL, inode) &&
      Novel(m.disk, bytes)
    case Defer => Works(m) && m.cleaner.work.Archiving?
    case MovePackage =>
      Works(m) && m.cleaner.work.Archiving? && PARTIAL in Tree(m.disk, m.cleaner.work.run) && !Directory(Tree(m.disk, m.cleaner.work.run), PACKAGE)
    case ResumeCompaction(run) =>
      m.cleaner.Compacting? && m.cleaner.work.Choosing? && exists allowed :: CanResume(h, m.disk.content, Tree(m.disk, run), allowed)
    case Remove(doomed) => Works(m) && m.cleaner.work.Finishing? && m.cleaner.work.run in m.disk.runs && forall p :: p in doomed ==> Compactible(p)
    case WriteMarker(inode, bytes) =>
      Works(m) && (m.cleaner.work.Archived? || (m.cleaner.work.Finishing? && m.cleaner.work.allowed)) &&
      CanOpen(m.disk, m.cleaner.work.run, PENDING, inode) && Novel(m.disk, bytes)
    case MoveMarker =>
      Works(m) && m.cleaner.work.Saving? && PENDING in Tree(m.disk, m.cleaner.work.run) && !Directory(Tree(m.disk, m.cleaner.work.run), MARKER)
    case Resume => m.cleaner.Compacting? && m.cleaner.work.Choosing?
    case Erase(run) =>
      (m.cleaner.Resuming? && run in m.retiring && run in m.index && run !in m.cleaner.pinned) || (m.cleaner.Renamed? && m.cleaner.run == run)
    case Keep => (m.cleaner.Resuming? && m.retiring == {}) || (m.cleaner.Renamed? && m.cleaner.run !in m.retiring)
    case LinkNew(run, path) => m.cleaner.Keeping? && CanLink(m.disk.content, Tree(m.disk, run), path)
    case Replace(run, path) => m.cleaner.Keeping? && CanRename(m.disk.content, Tree(m.disk, run), path)
    case Register(run) => m.cleaner.Keeping? && run in m.disk.runs && run !in m.cleaner.pinned && run !in m.retiring
    case Rename => m.cleaner.Registered?
    case Trim(rows) => m.cleaner.Keeping? && rows <= m.index
    case Stop => true
  }

  function WithTree(d: Disk, run: Run, tree: Names): Disk { d.(runs := d.runs[run := tree]) }

  function Moved(tree: Names, source: Path, target: Path): Names
    requires source in tree
  {
    (tree - {source})[target := tree[source]]
  }

  ghost function AfterClean(h: Host, m: Machine, c: Clean): Machine
    requires CanClean(h, m, c)
  {
    match c
    case Lock =>
      var live := Live(m.pins.pins, m.now);
      m.(pins := if live == m.pins.pins then m.pins else State(m.pins.sequence + 1, live), cleaner := Compacting(Runs(live), Choosing))
    case Scratch(run, doomed) => m.(disk := WithTree(m.disk, run, m.disk.runs[run] - doomed))
    case StartPackage(run, inode, bytes) =>
      m.(disk := Written(m.disk, run, PARTIAL, inode, bytes), cleaner := Compacting(m.cleaner.pinned, Archiving(run)))
    case Defer => m.(cleaner := Compacting(m.cleaner.pinned, Choosing))
    case MovePackage =>
      var run := m.cleaner.work.run;
      m.(disk := WithTree(m.disk, run, Moved(Tree(m.disk, run), PARTIAL, PACKAGE)), cleaner := Compacting(m.cleaner.pinned, Archived(run)))
    case ResumeCompaction(run) =>
      var allowed :| CanResume(h, m.disk.content, Tree(m.disk, run), allowed);
      m.(cleaner := Compacting(m.cleaner.pinned, Finishing(run, allowed)))
    case Remove(doomed) => m.(disk := WithTree(m.disk, m.cleaner.work.run, m.disk.runs[m.cleaner.work.run] - doomed))
    case WriteMarker(inode, bytes) =>
      var run := m.cleaner.work.run;
      m.(disk := Written(m.disk, run, PENDING, inode, bytes), cleaner := Compacting(m.cleaner.pinned, Saving(run, m.cleaner.work.Finishing?)))
    case MoveMarker =>
      var run := m.cleaner.work.run;
      m.(disk := WithTree(m.disk, run, Moved(Tree(m.disk, run), PENDING, MARKER)),
         cleaner := Compacting(m.cleaner.pinned, if m.cleaner.work.final then Choosing else Finishing(run, true)))
    case Resume => m.(cleaner := Resuming(m.cleaner.pinned))
    case Erase(run) => m.(retiring := m.retiring - {run})
    case Keep => m.(cleaner := Keeping(m.cleaner.pinned))
    case LinkNew(run, path) => m.(disk := WithTree(m.disk, run, AfterLink(m.disk.content, Tree(m.disk, run), path)))
    case Replace(run, path) => m.(disk := WithTree(m.disk, run, AfterRename(m.disk.content, Tree(m.disk, run), path)))
    case Register(run) => m.(index := m.index + {run}, cleaner := Registered(m.cleaner.pinned, run))
    case Rename =>
      var run := m.cleaner.run;
      m.(disk := Without(m.disk, run), retiring := m.retiring + {run}, cleaner := Renamed(m.cleaner.pinned, run))
    case Trim(rows) => m.(index := rows, cleaner := Away)
    case Stop => m.(cleaner := Away)
  }

  /** A run appears when its capture is complete. Its files are new or linked to one another; as long as
      nothing is pinned they may also be links to files of other runs. */
  predicate CanCapture(m: Machine, run: Run, tree: Names, files: Content) {
    run !in m.disk.runs && run !in m.retiring && Plain(tree) && (forall i :: i in files ==> i !in m.disk.content) &&
    forall p :: p in tree ==> tree[p] in files || (m.pins.pins == map[] && tree[p] in m.disk.content)
  }

  ghost function Step(h: Host, m: Machine, op: Op): Machine {
    match op
    case Tick(now) => if now >= m.now then m.(now := now) else m
    case Capture(run, tree, files) =>
      if CanCapture(m, run, tree, files) then m.(disk := Disk(m.disk.runs[run := tree], m.disk.content + files)) else m
    case Record(entry) => if m.publisher.Idle? then m.(ledger := L.Apply(m.ledger, entry)) else m
    case Sweep(write) =>
      if LockFree(m) && write.moment <= m.now && (write.Extend? || write.Release?)
      then m.(pins := Apply(m.disk, {}, h.digest, m.pins, write)) else m
    case Publishing(p) => if CanPublish(h, m, p) then AfterPublish(h, m, p) else m
    case Cleaning(c) => if CanClean(h, m, c) then AfterClean(h, m, c) else m
  }

  ghost function Execute(h: Host, m: Machine, ops: seq<Op>): Machine
    decreases |ops|
  {
    if ops == [] then m else Execute(h, Step(h, m, ops[0]), ops[1..])
  }

  // ---------------------------------------------------------------- what every step keeps

  /** What a step may do to a run whose files are unshared: they stay so, and every file it may not remove or
      rewrite keeps its bytes. */
  ghost predicate Preserves(d: Disk, e: Disk, run: Run) {
    (run in d.runs ==> run in e.runs) && (Unshared(d, run) ==> Unshared(e, run) && forall path :: FileKept(d, e, run, path))
  }

  predicate FileKept(d: Disk, e: Disk, run: Run, path: Path) {
    path in Tree(d, run) && Tree(d, run)[path] in d.content && !Cleanable(path) && !Rewritten(path) ==>
      Has(e, run, path, d.content[Tree(d, run)[path]].bytes)
  }

  /** The files of a proof are outside what cleanup removes; accepted unshared, the run stays so and those files
      cleanup does not rewrite have their bytes. */
  predicate Guarded(d: Disk, proof: Proof) {
    proof.run in d.runs && (forall p :: p in proof.files ==> !Cleanable(p)) &&
    (proof.unshared ==>
      Unshared(d, proof.run) && forall p :: p in proof.files ==> Rewritten(p) || Has(d, proof.run, p, proof.files[p]))
  }

  /** Every name leads to a file, and no file is a directory of another. */
  predicate Sound(d: Disk) { Backed(d) && forall r :: r in d.runs ==> Plain(d.runs[r]) }

  predicate Plain(tree: Names) { forall p :: p in tree ==> p != [] && !Directory(tree, p) }

  predicate Files(m: Machine) {
    forall k :: k in m.pins.pins ==> k in m.proofs && m.proofs[k].run == m.pins.pins[k].run && Guarded(m.disk, m.proofs[k])
  }

  predicate Locks(m: Machine) {
    m.cleaner.Away? || (m.cleaner.pinned == Runs(m.pins.pins) && !m.publisher.Holding? && !m.publisher.Patched?)
  }

  /** Every renamed directory is named in the index; none of them is a run again. */
  predicate Leftovers(m: Machine) {
    m.retiring <= m.index && m.retiring !! m.disk.runs.Keys &&
    (m.cleaner.Keeping? || m.cleaner.Registered? ==> m.retiring == {}) &&
    (m.cleaner.Registered? ==> m.cleaner.run in m.index && m.cleaner.run !in m.cleaner.pinned) &&
    (m.cleaner.Renamed? ==> m.retiring <= {m.cleaner.run} && m.cleaner.run in m.index)
  }

  /** The proof is what the ledger record of this validation names, byte for byte. */
  ghost predicate Attests(h: Host, ledger: L.State, proof: Proof) {
    proof.v in ledger.records && proof.files.Keys == Paths(Evidence(h, ledger.records[proof.v])) &&
    forall n :: n in Evidence(h, ledger.records[proof.v]) ==>
      var row := Evidence(h, ledger.records[proof.v])[n];
      row.run == proof.run && !Cleanable(row.path) && h.sha(proof.files[row.path]) == row.sha256
  }

  predicate HasPin(p: Publisher) { p.Reserving? || p.Holding? || p.Patched? }

  predicate HasValidation(p: Publisher) { p.Verified? || HasPin(p) }

  ghost predicate Admitted(h: Host, m: Machine) {
    (HasValidation(m.publisher) ==> m.publisher.v in m.ledger.records && L.Stands(m.ledger.events, m.publisher.v)) &&
    (HasPin(m.publisher) ==>
      m.publisher.id in m.proofs && m.proofs[m.publisher.id].v == m.publisher.v && Attests(h, m.ledger, m.proofs[m.publisher.id])) &&
    (m.publisher.Holding? || m.publisher.Patched? ==> m.publisher.id in m.pins.pins)
  }

  /** A confirmed publication was published as a success first. */
  predicate Successes(m: Machine) {
    (m.publisher.Patched? ==> m.publisher.id in m.successes) &&
    forall k :: k in m.pins.pins ==> ConfirmedAfterSuccess(m.pins.pins[k], k, m.successes)
  }

  predicate ConfirmedAfterSuccess(pin: Pin, k: string, successes: set<string>) {
    IsConfirmed(pin) ==> k in successes
  }

  ghost predicate Inv(h: Host, m: Machine) {
    Sound(m.disk) && Files(m) && Locks(m) && Leftovers(m) && Admitted(h, m) && Successes(m)
  }

  lemma PreservedFilesStay(m: Machine, e: Disk)
    requires Files(m) && forall run :: run in Runs(m.pins.pins) ==> Preserves(m.disk, e, run)
    ensures Files(m.(disk := e))
  {
    forall k | k in m.pins.pins ensures Guarded(e, m.proofs[k]) {
      var proof := m.proofs[k];
      assert proof.run in Runs(m.pins.pins) && Preserves(m.disk, e, proof.run);
      if proof.unshared {
        forall p | p in proof.files && !Rewritten(p) ensures Has(e, proof.run, p, proof.files[p]) {
          assert Has(m.disk, proof.run, p, proof.files[p]) && FileKept(m.disk, e, proof.run, p);
        }
      }
    }
  }

  // ---------------------------------------------------------------- cleanup steps

  /** The run whose files a step changes, if it changes any. */
  function Touched(m: Machine, c: Clean): set<Run> {
    match c
    case Scratch(run, _) => {run}
    case StartPackage(run, _, _) => {run}
    case LinkNew(run, _) => {run}
    case Replace(run, _) => {run}
    case MovePackage => if Works(m) then {m.cleaner.work.run} else {}
    case Remove(_) => if Works(m) then {m.cleaner.work.run} else {}
    case WriteMarker(_, _) => if Works(m) then {m.cleaner.work.run} else {}
    case MoveMarker => if Works(m) then {m.cleaner.work.run} else {}
    case Rename => if m.cleaner.Registered? then {m.cleaner.run} else {}
    case _ => {}
  }

  /** The inode a step writes in place, if any. */
  function Overwritten(m: Machine, c: Clean): set<Inode> {
    match c
    case StartPackage(run, _, _) => InodeOf(m.disk, run, PARTIAL)
    case WriteMarker(_, _) => if Works(m) then InodeOf(m.disk, m.cleaner.work.run, PENDING) else {}
    case _ => {}
  }

  function InodeOf(d: Disk, run: Run, path: Path): set<Inode> { if path in Tree(d, run) then {Tree(d, run)[path]} else {} }

  /** No file disappears, and the content of all but these stays. */
  predicate Grows(d: Disk, e: Disk, but: set<Inode>) {
    forall i :: i in d.content ==> i in e.content && (i in but || e.content[i] == d.content[i])
  }

  ghost predicate OnlyIn(d: Disk, e: Disk, runs: set<Run>) {
    forall r :: r !in runs ==> (r in e.runs <==> r in d.runs) && Tree(e, r) == Tree(d, r)
  }

  lemma TreeInOne(d: Disk, run: Run, tree: Names)
    ensures Grows(d, WithTree(d, run, tree), {}) && OnlyIn(d, WithTree(d, run, tree), {run})
  {
  }

  lemma WrittenInOne(d: Disk, run: Run, name: Path, inode: Inode, bytes: Bytes)
    requires CanOpen(d, run, name, inode)
    ensures var e := Written(d, run, name, inode, bytes);
      Grows(d, e, InodeOf(d, run, name)) && OnlyIn(d, e, {run}) && Has(e, run, name, bytes) &&
      (forall p :: p != name ==> (p in Tree(e, run) <==> p in Tree(d, run)) && (p in Tree(d, run) ==> Tree(e, run)[p] == Tree(d, run)[p])) &&
      if name in Tree(d, run) then Tree(e, run) == Tree(d, run) else Tree(e, run)[name] !in d.content
  {
  }

  lemma GoneInOne(d: Disk, run: Run)
    ensures Grows(d, Without(d, run), {}) && OnlyIn(d, Without(d, run), {run})
  {
  }

  /** Only the touched run's tree changes, and only a file written in place has other content. */
  lemma OnlyTouched(h: Host, m: Machine, c: Clean)
    requires CanClean(h, m, c)
    ensures Grows(m.disk, AfterClean(h, m, c).disk, Overwritten(m, c)) && OnlyIn(m.disk, AfterClean(h, m, c).disk, Touched(m, c))
    ensures !c.Rename? ==> AfterClean(h, m, c).disk.runs.Keys == m.disk.runs.Keys
  {
    match c
    case Scratch(run, doomed) => TreeInOne(m.disk, run, m.disk.runs[run] - doomed);
    case StartPackage(run, inode, bytes) => WrittenInOne(m.disk, run, PARTIAL, inode, bytes);
    case MovePackage => TreeInOne(m.disk, m.cleaner.work.run, Moved(Tree(m.disk, m.cleaner.work.run), PARTIAL, PACKAGE));
    case Remove(doomed) => TreeInOne(m.disk, m.cleaner.work.run, m.disk.runs[m.cleaner.work.run] - doomed);
    case WriteMarker(inode, bytes) => WrittenInOne(m.disk, m.cleaner.work.run, PENDING, inode, bytes);
    case MoveMarker => TreeInOne(m.disk, m.cleaner.work.run, Moved(Tree(m.disk, m.cleaner.work.run), PENDING, MARKER));
    case LinkNew(run, path) => TreeInOne(m.disk, run, AfterLink(m.disk.content, Tree(m.disk, run), path));
    case Replace(run, path) => TreeInOne(m.disk, run, AfterRename(m.disk.content, Tree(m.disk, run), path));
    case Rename => GoneInOne(m.disk, m.cleaner.run);
    case _ =>
  }

  /** A file compaction opens was of this inode before the step, or is new. */
  lemma OpenedWas(h: Host, m: Machine, c: Clean, r: Run, name: Path)
    requires CanClean(h, m, c) && name in IN_PLACE && name in Tree(AfterClean(h, m, c).disk, r)
    ensures var e := AfterClean(h, m, c).disk;
      Tree(e, r)[name] !in m.disk.content || (name in Tree(m.disk, r) && Tree(e, r)[name] == Tree(m.disk, r)[name])
  {
    OnlyTouched(h, m, c);
    if r in Touched(m, c) {
      NamesDiffer();
      if c.StartPackage? { WrittenInOne(m.disk, r, PARTIAL, c.inode, c.bytes); }
      if c.WriteMarker? { WrittenInOne(m.disk, r, PENDING, c.inode, c.bytes); }
      if c.LinkNew? { assert |Temporary(c.path)| > 1; }
      if c.Replace? { assert |Temporary(c.path)| > 1 && |c.path| > 1; }
    }
  }

  lemma NamesDiffer()
    ensures PARTIAL != PENDING && PARTIAL != MARKER && PARTIAL != PACKAGE && PENDING != MARKER && PENDING != PACKAGE && MARKER != PACKAGE
    ensures SOURCE !in FOUR
  {
    assert PARTIAL[0][0] == 'r' && PACKAGE[0][0] == 'r' && PENDING[0][0] == 'c' && MARKER[0][0] == 'c' && SOURCE[0][0] == 's';
    assert |PARTIAL[0]| == 25 && |PACKAGE[0]| == 20 && |PENDING[0]| == 21 && |MARKER[0]| == 22;
  }

  /** A file of another name was of this inode before the step under such a name. */
  lemma OrdinaryWas(h: Host, m: Machine, c: Clean, run: Run, path: Path) returns (was: Path)
    requires CanClean(h, m, c) && path !in FOUR && path in Tree(AfterClean(h, m, c).disk, run)
    ensures was !in FOUR && was in Tree(m.disk, run) && Tree(m.disk, run)[was] == Tree(AfterClean(h, m, c).disk, run)[path]
    ensures was == path || (Report(was) && Report(path))
  {
    OnlyTouched(h, m, c);
    was := path;
    if run in Touched(m, c) {
      if c.StartPackage? { WrittenInOne(m.disk, run, PARTIAL, c.inode, c.bytes); }
      else if c.WriteMarker? { WrittenInOne(m.disk, run, PENDING, c.inode, c.bytes); }
      else if c.LinkNew? || c.Replace? { was := ReportWas(m.disk.content, Tree(m.disk, run), c.path, path, c.LinkNew?); }
    }
  }

  lemma ReportWas(content: Content, tree: Names, x: Path, path: Path, link: bool) returns (was: Path)
    requires if link then CanLink(content, tree, x) else CanRename(content, tree, x)
    requires path !in FOUR && path in (if link then AfterLink(content, tree, x) else AfterRename(content, tree, x))
    ensures was !in FOUR && was in tree && tree[was] == (if link then AfterLink(content, tree, x) else AfterRename(content, tree, x))[path]
    ensures was == path || (Report(was) && Report(path))
  {
    TemporaryIsNamed(x);
    was := if path == (if link then Temporary(x) else x) then First(content, tree, x) else path;
  }

  lemma UnsharedStays(h: Host, m: Machine, c: Clean, run: Run)
    requires Sound(m.disk) && CanClean(h, m, c) && Unshared(m.disk, run)
    ensures Unshared(AfterClean(h, m, c).disk, run)
  {
    var e := AfterClean(h, m, c).disk;
    forall r, name, path | r in e.runs && name in IN_PLACE && path in Tree(e, run) && path !in FOUR ensures Parted(e, run, path, r, name) {
      if name in Tree(e, r) {
        OpenedWas(h, m, c, r, name);
        var was := OrdinaryWas(h, m, c, run, path);
        TreeIsSound(m.disk, run);
        if name in Tree(m.disk, r) { assert Parted(m.disk, run, was, r, name); }
      }
    }
  }

  /** What is written in place is no ordinary file of an unshared run. */
  lemma OverwrittenIsElsewhere(m: Machine, c: Clean, run: Run, path: Path)
    requires Unshared(m.disk, run) && path in Tree(m.disk, run) && path !in FOUR
    ensures Tree(m.disk, run)[path] !in Overwritten(m, c)
  {
    if c.StartPackage? && PARTIAL in Tree(m.disk, c.run) { assert Parted(m.disk, run, path, c.run, PARTIAL); }
    if c.WriteMarker? && Works(m) && PENDING in Tree(m.disk, m.cleaner.work.run) {
      assert Parted(m.disk, run, path, m.cleaner.work.run, PENDING);
    }
  }

  lemma WrittenIsSound(d: Disk, run: Run, name: Path, inode: Inode, bytes: Bytes)
    requires Sound(d) && CanOpen(d, run, name, inode) && |name| == 1
    ensures Sound(Written(d, run, name, inode, bytes))
  {
    var e := Written(d, run, name, inode, bytes);
    WrittenInOne(d, run, name, inode, bytes);
    assert Plain(d.runs[run]);
    forall p | p in e.runs[run] ensures p != [] && !Directory(e.runs[run], p) {
      assert p != name ==> !Directory(d.runs[run], p);
    }
  }

  lemma FewerIsPlain(tree: Names, doomed: set<Path>)
    requires Plain(tree)
    ensures Plain(tree - doomed)
  {
    forall p | p in tree - doomed ensures !Directory(tree - doomed, p) { assert !Directory(tree, p); }
  }

  lemma MovedIsPlain(tree: Names, source: Path, target: Path)
    requires Plain(tree) && source in tree && |target| == 1 && !Directory(tree, target)
    ensures Plain(Moved(tree, source, target))
  {
    var next := Moved(tree, source, target);
    forall p | p in next ensures p != [] && !Directory(next, p) {
      assert p != target ==> !Directory(tree, p);
    }
  }

  lemma LinkIsPlain(content: Content, tree: Names, x: Path)
    requires Plain(tree) && CanLink(content, tree, x)
    ensures Plain(AfterLink(content, tree, x))
  {
    forall p | p in AfterLink(content, tree, x) ensures !Directory(AfterLink(content, tree, x), p) {
      LinkKeepsDirectories(content, tree, x, p);
      assert p != Temporary(x) ==> !Directory(tree, p);
    }
  }

  lemma RenameIsPlain(content: Content, tree: Names, x: Path)
    requires Plain(tree) && CanRename(content, tree, x)
    ensures Plain(AfterRename(content, tree, x))
  {
    forall p | p in AfterRename(content, tree, x) ensures !Directory(AfterRename(content, tree, x), p) {
      RenameKeepsDirectories(content, tree, x, p);
      assert !Directory(tree, p);
    }
  }

  lemma WithTreeIsSound(d: Disk, run: Run, tree: Names)
    requires Sound(d) && Plain(tree) && forall p :: p in tree ==> tree[p] in d.content
    ensures Sound(WithTree(d, run, tree))
  {
  }

  lemma TreeIsSound(d: Disk, run: Run)
    requires Sound(d)
    ensures Plain(Tree(d, run)) && forall p :: p in Tree(d, run) ==> Tree(d, run)[p] in d.content
  {
  }

  lemma CompactionIsSound(h: Host, m: Machine, c: Clean)
    requires Sound(m.disk) && CanClean(h, m, c) && !c.LinkNew? && !c.Replace?
    ensures Sound(AfterClean(h, m, c).disk)
  {
    match c
    case Scratch(run, doomed) =>
      TreeIsSound(m.disk, run);
      FewerIsPlain(m.disk.runs[run], doomed);
      WithTreeIsSound(m.disk, run, m.disk.runs[run] - doomed);
    case Remove(doomed) =>
      var run := m.cleaner.work.run;
      TreeIsSound(m.disk, run);
      FewerIsPlain(m.disk.runs[run], doomed);
      WithTreeIsSound(m.disk, run, m.disk.runs[run] - doomed);
    case StartPackage(run, inode, bytes) => WrittenIsSound(m.disk, run, PARTIAL, inode, bytes);
    case WriteMarker(inode, bytes) => WrittenIsSound(m.disk, m.cleaner.work.run, PENDING, inode, bytes);
    case MovePackage =>
      TreeIsSound(m.disk, m.cleaner.work.run);
      MovedIsPlain(Tree(m.disk, m.cleaner.work.run), PARTIAL, PACKAGE);
      WithTreeIsSound(m.disk, m.cleaner.work.run, Moved(Tree(m.disk, m.cleaner.work.run), PARTIAL, PACKAGE));
    case MoveMarker =>
      TreeIsSound(m.disk, m.cleaner.work.run);
      MovedIsPlain(Tree(m.disk, m.cleaner.work.run), PENDING, MARKER);
      WithTreeIsSound(m.disk, m.cleaner.work.run, Moved(Tree(m.disk, m.cleaner.work.run), PENDING, MARKER));
    case _ =>
  }

  lemma CleanIsSound(h: Host, m: Machine, c: Clean)
    requires Sound(m.disk) && CanClean(h, m, c)
    ensures Sound(AfterClean(h, m, c).disk)
  {
    if c.LinkNew? {
      TreeIsSound(m.disk, c.run);
      LinkIsPlain(m.disk.content, Tree(m.disk, c.run), c.path);
      WithTreeIsSound(m.disk, c.run, AfterLink(m.disk.content, Tree(m.disk, c.run), c.path));
    } else if c.Replace? {
      TreeIsSound(m.disk, c.run);
      RenameIsPlain(m.disk.content, Tree(m.disk, c.run), c.path);
      WithTreeIsSound(m.disk, c.run, AfterRename(m.disk.content, Tree(m.disk, c.run), c.path));
    } else {
      CompactionIsSound(h, m, c);
    }
  }

  lemma CompactionPreserves(h: Host, m: Machine, c: Clean, run: Run, path: Path)
    requires CanClean(h, m, c) && !c.LinkNew? && !c.Replace? && (c.Rename? ==> run != m.cleaner.run) && Unshared(m.disk, run)
    ensures FileKept(m.disk, AfterClean(h, m, c).disk, run, path)
  {
    OnlyTouched(h, m, c);
    if path in Tree(m.disk, run) && path !in FOUR { OverwrittenIsElsewhere(m, c, run, path); }
    if run in Touched(m, c) {
      if c.Scratch? && path in c.doomed { RemovedIsCleanable(path); }
      if c.Remove? && path in c.doomed { RemovedIsCleanable(path); }
      if c.StartPackage? { WrittenInOne(m.disk, run, PARTIAL, c.inode, c.bytes); }
      if c.WriteMarker? { WrittenInOne(m.disk, run, PENDING, c.inode, c.bytes); }
    }
  }

  /** A report that becomes a link follows another report. */
  lemma ReplacedFollows(content: Content, tree: Names, x: Path)
    requires Plain(tree) && Arrived(content, tree, x)
    ensures Follows(x)
  {
    var f := First(content, tree, x);
    FirstIsBefore(content, tree, x);
    assert !(f < x) by { assert !Directory(tree, f); }
    if !Follows(x) { LeastHasNoneBefore(f, x, 1); }
  }

  /** From part i on x has only least names: what sorts before it and is no directory of it differs before i. */
  lemma {:induction false} LeastHasNoneBefore(f: Path, x: Path, i: nat)
    requires Report(f) && Report(x) && PathBefore(f, x) && 1 <= i <= |x| && i <= |f| && f[..i] == x[..i]
    requires forall j :: i <= j < |x| ==> x[j] == LEAST
    ensures f < x
    decreases |x| - i
  {
    PartsBefore(f, x, i);
    if i < |f| && i < |x| {
      assert f[i] in f && Name(f[i]);
      StringsAreOrdered(f[i], LEAST);
      assert f[i] == LEAST by { if StringBefore(f[i], LEAST) { NothingBeforeLeast(f[i]); } }
      assert f[..i + 1] == f[..i] + [f[i]] && x[..i + 1] == x[..i] + [x[i]];
      LeastHasNoneBefore(f, x, i + 1);
    }
  }

  lemma NothingBeforeLeast(name: string)
    requires Name(name)
    ensures !StringBefore(name, LEAST)
  {
    assert name[0] in name && name[0] != '\0';
    assert LEAST[1..] == "";
  }

  lemma {:induction false} PartsBefore(f: Path, x: Path, i: nat)
    requires PathBefore(f, x) && i <= |f| && i <= |x| && f[..i] == x[..i]
    ensures i < |x| && (i < |f| ==> f[i] == x[i] || StringBefore(f[i], x[i]))
    ensures PathBefore(f[i..], x[i..])
    decreases i
  {
    if i == 0 {
      assert f[0..] == f && x[0..] == x;
    } else {
      assert f[0] == f[..i][0] == x[..i][0] == x[0];
      StringsAreOrdered(f[0], f[0]);
      assert f[1..][..i - 1] == f[..i][1..] && x[1..][..i - 1] == x[..i][1..];
      PartsBefore(f[1..], x[1..], i - 1);
      assert f[1..][i - 1..] == f[i..] && x[1..][i - 1..] == x[i..];
    }
  }

  /** A rename takes away only a link whose report follows another, and leaves the bytes of the others. */
  lemma RenamePreserves(content: Content, tree: Names, x: Path, path: Path)
    requires Plain(tree) && CanRename(content, tree, x) && path in tree && tree[path] in content && !Rewritten(path)
    ensures var next := AfterRename(content, tree, x); path in next && next[path] in content && content[next[path]] == content[tree[path]]
  {
    if path == Temporary(x) {
      TemporaryIsNamed(x);
      ReplacedFollows(content, tree, x);
    } else {
      RenameKeepsContent(content, tree, x, path);
    }
  }

  lemma DeduplicationPreserves(h: Host, m: Machine, c: Clean, run: Run, path: Path)
    requires Sound(m.disk) && CanClean(h, m, c) && (c.LinkNew? || c.Replace?)
    ensures FileKept(m.disk, AfterClean(h, m, c).disk, run, path)
  {
    OnlyTouched(h, m, c);
    TreeIsSound(m.disk, c.run);
    if c.Replace? && run == c.run && path in Tree(m.disk, run) && !Rewritten(path) {
      RenamePreserves(m.disk.content, Tree(m.disk, run), c.path, path);
    }
  }

  lemma CleanPreserves(h: Host, m: Machine, c: Clean, run: Run)
    requires Sound(m.disk) && Locks(m) && Leftovers(m) && CanClean(h, m, c) && run in Runs(m.pins.pins)
    ensures Preserves(m.disk, AfterClean(h, m, c).disk, run)
  {
    OnlyTouched(h, m, c);
    if Unshared(m.disk, run) {
      UnsharedStays(h, m, c, run);
      forall path ensures FileKept(m.disk, AfterClean(h, m, c).disk, run, path) {
        if c.LinkNew? || c.Replace? { DeduplicationPreserves(h, m, c, run, path); } else { CompactionPreserves(h, m, c, run, path); }
      }
    }
  }

  lemma CleanKeepsFiles(h: Host, m: Machine, c: Clean)
    requires Sound(m.disk) && Files(m) && Locks(m) && Leftovers(m) && CanClean(h, m, c)
    ensures Files(AfterClean(h, m, c))
  {
    var t := AfterClean(h, m, c);
    forall run | run in Runs(m.pins.pins) ensures Preserves(m.disk, t.disk, run) { CleanPreserves(h, m, c, run); }
    PreservedFilesStay(m, t.disk);
  }

  lemma CleanKeepsLocks(h: Host, m: Machine, c: Clean)
    requires Locks(m) && Leftovers(m) && CanClean(h, m, c)
    ensures Locks(AfterClean(h, m, c)) && Leftovers(AfterClean(h, m, c))
  {
    OnlyTouched(h, m, c);
  }

  lemma CleanKeepsInv(h: Host, m: Machine, c: Clean)
    requires Inv(h, m) && CanClean(h, m, c)
    ensures Inv(h, AfterClean(h, m, c))
  {
    CleanIsSound(h, m, c);
    CleanKeepsFiles(h, m, c);
    CleanKeepsLocks(h, m, c);
  }

  // ---------------------------------------------------------------- pin writes

  /** A write other than a new pin only drops pins, or changes one in place without moving it to another run. */
  lemma WriteKeepsRuns(h: Host, d: Disk, current: set<Run>, s: State, op: EvidencePins.Op, k: string)
    requires !op.PinRun? && k in Apply(d, current, h.digest, s, op).pins
    ensures k in s.pins && Apply(d, current, h.digest, s, op).pins[k].run == s.pins[k].run
    ensures !op.Confirm? ==> Apply(d, current, h.digest, s, op).pins[k].publication == s.pins[k].publication
    ensures op.Confirm? && k != op.id ==> Apply(d, current, h.digest, s, op).pins[k] == s.pins[k]
  {
  }

  lemma SweepKeepsInv(h: Host, m: Machine, write: EvidencePins.Op)
    requires Inv(h, m) && LockFree(m) && (write.Extend? || write.Release?)
    ensures Inv(h, m.(pins := Apply(m.disk, {}, h.digest, m.pins, write)))
  {
    var t := m.(pins := Apply(m.disk, {}, h.digest, m.pins, write));
    forall k | k in t.pins.pins
      ensures k in m.proofs && m.proofs[k].run == t.pins.pins[k].run && Guarded(m.disk, m.proofs[k])
      ensures ConfirmedAfterSuccess(t.pins.pins[k], k, m.successes)
    {
      WriteKeepsRuns(h, m.disk, {}, m.pins, write, k);
      assert ConfirmedAfterSuccess(m.pins.pins[k], k, m.successes);
    }
  }

  lemma FinishKeepsInv(h: Host, m: Machine, checked: int)
    requires Inv(h, m) && CanPublish(h, m, Finish(checked))
    ensures Inv(h, AfterPublish(h, m, Finish(checked)))
  {
    var t := AfterPublish(h, m, Finish(checked));
    var write := Confirm(m.publisher.id, h.named(m.publisher.v), checked, m.now);
    forall k | k in t.pins.pins
      ensures k in m.proofs && m.proofs[k].run == t.pins.pins[k].run && Guarded(m.disk, m.proofs[k])
      ensures ConfirmedAfterSuccess(t.pins.pins[k], k, m.successes)
    {
      WriteKeepsRuns(h, m.disk, {}, m.pins, write, k);
      assert ConfirmedAfterSuccess(m.pins.pins[k], k, m.successes);
    }
  }

  // ---------------------------------------------------------------- the publisher

  lemma AcceptedIsGuarded(h: Host, d: Disk, ledger: L.State, v: L.Id, run: Run)
    requires v in ledger.records && var evidence := Evidence(h, ledger.records[v]); "report" in evidence && Accepted(d, run, evidence, h.sha)
    ensures var proof := ReadProof(d, v, run, Evidence(h, ledger.records[v])); Guarded(d, proof) && Attests(h, ledger, proof)
  {
    var evidence := Evidence(h, ledger.records[v]);
    var proof := ReadProof(d, v, run, evidence);
    assert CheckRow(d, run, evidence["report"], h.sha) == None;
    forall p | p in proof.files ensures !Cleanable(p) && Has(d, run, p, proof.files[p]) {
      var n :| n in evidence && evidence[n].path == p;
      assert CheckRow(d, run, evidence[n], h.sha) == None;
    }
    forall n | n in evidence
      ensures evidence[n].run == run && !Cleanable(evidence[n].path) && h.sha(proof.files[evidence[n].path]) == evidence[n].sha256
    {
      assert CheckRow(d, run, evidence[n], h.sha) == None;
    }
  }

  lemma ReserveKeepsInv(h: Host, m: Machine, p: Publish)
    requires Inv(h, m) && p.Reserve? && CanPublish(h, m, p)
    ensures Inv(h, AfterPublish(h, m, p))
  {
    var t := AfterPublish(h, m, p);
    var v := m.publisher.v;
    AcceptedIsGuarded(h, m.disk, m.ledger, v, p.pin.run);
    forall k | k in t.pins.pins
      ensures k in t.proofs && t.proofs[k].run == t.pins.pins[k].run && Guarded(m.disk, t.proofs[k])
      ensures ConfirmedAfterSuccess(t.pins.pins[k], k, m.successes)
    {
      if k != p.id { assert ConfirmedAfterSuccess(m.pins.pins[k], k, m.successes); }
    }
  }

  lemma PublishKeepsInv(h: Host, m: Machine, p: Publish)
    requires Inv(h, m) && CanPublish(h, m, p)
    ensures Inv(h, AfterPublish(h, m, p))
  {
    if p.Reserve? { ReserveKeepsInv(h, m, p); }
    else if p.Finish? { FinishKeepsInv(h, m, p.checked); }
    else if p.Patch? {
      forall k | k in m.pins.pins ensures ConfirmedAfterSuccess(m.pins.pins[k], k, m.successes + {m.publisher.id}) {
        assert ConfirmedAfterSuccess(m.pins.pins[k], k, m.successes);
      }
    }
  }

  // ---------------------------------------------------------------- everything else on the host

  lemma CapturePreserves(m: Machine, run: Run, tree: Names, files: Content, r: Run)
    requires Sound(m.disk) && CanCapture(m, run, tree, files) && m.pins.pins != map[] && r in m.disk.runs
    ensures Preserves(m.disk, Disk(m.disk.runs[run := tree], m.disk.content + files), r)
  {
    var e := Disk(m.disk.runs[run := tree], m.disk.content + files);
    if Unshared(m.disk, r) {
      TreeIsSound(m.disk, r);
      forall q, name, path | q in e.runs && name in IN_PLACE && path in Tree(e, r) && path !in FOUR ensures Parted(e, r, path, q, name) {
        if q != run { assert Parted(m.disk, r, path, q, name); }
      }
    }
  }

  lemma CaptureKeepsInv(h: Host, m: Machine, run: Run, tree: Names, files: Content)
    requires Inv(h, m) && CanCapture(m, run, tree, files)
    ensures Inv(h, m.(disk := Disk(m.disk.runs[run := tree], m.disk.content + files)))
  {
    var e := Disk(m.disk.runs[run := tree], m.disk.content + files);
    forall k | k in m.pins.pins ensures Guarded(e, m.proofs[k]) {
      var proof := m.proofs[k];
      assert Guarded(m.disk, proof);
      CapturePreserves(m, run, tree, files, proof.run);
      if proof.unshared {
        forall p | p in proof.files && !Rewritten(p) ensures Has(e, proof.run, p, proof.files[p]) {
          assert Has(m.disk, proof.run, p, proof.files[p]) && FileKept(m.disk, e, proof.run, p);
        }
      }
    }
    forall r | r in e.runs ensures Plain(e.runs[r]) { }
  }

  lemma StepKeepsInv(h: Host, m: Machine, op: Op)
    requires Inv(h, m)
    ensures Inv(h, Step(h, m, op))
  {
    match op
    case Tick(now) =>
    case Capture(run, tree, files) => if CanCapture(m, run, tree, files) { CaptureKeepsInv(h, m, run, tree, files); }
    case Record(entry) =>
    case Sweep(write) => if LockFree(m) && (write.Extend? || write.Release?) { SweepKeepsInv(h, m, write); }
    case Publishing(p) => if CanPublish(h, m, p) { PublishKeepsInv(h, m, p); }
    case Cleaning(c) => if CanClean(h, m, c) { CleanKeepsInv(h, m, c); }
  }

  lemma {:induction false} ExecuteKeepsInv(h: Host, m: Machine, ops: seq<Op>)
    requires Inv(h, m)
    ensures Inv(h, Execute(h, m, ops))
    decreases |ops|
  {
    if ops != [] {
      StepKeepsInv(h, m, ops[0]);
      ExecuteKeepsInv(h, Step(h, m, ops[0]), ops[1..]);
    }
  }

  // ---------------------------------------------------------------- the promises

  /** Whatever interleaving led here: every evidence file a stored pin was accepted for in an unshared run still
      has the bytes it was accepted with, unless cleanup rewrites files of that name. */
  lemma PinnedEvidenceIsKept(h: Host, ops: seq<Op>, k: string, path: Path)
    requires var m := Execute(h, INITIAL, ops);
      k in m.pins.pins && k in m.proofs && m.proofs[k].unshared && path in m.proofs[k].files && !Rewritten(path)
    ensures var m := Execute(h, INITIAL, ops); Has(m.disk, m.pins.pins[k].run, path, m.proofs[k].files[path])
  {
    ExecuteKeepsInv(h, INITIAL, ops);
    assert Guarded(Execute(h, INITIAL, ops).disk, Execute(h, INITIAL, ops).proofs[k]);
  }

  /** When success is sent, the validation stands in the ledger, its pin is stored, and, accepted in an unshared
      run, it would be accepted again for exactly the evidence of its ledger record. */
  lemma SuccessIsBacked(h: Host, ops: seq<Op>)
    requires Execute(h, INITIAL, ops).publisher.Holding?
    ensures var m := Execute(h, INITIAL, ops);
      var v := m.publisher.v;
      v in m.ledger.records && L.Stands(m.ledger.events, v) && m.publisher.id in m.pins.pins && m.publisher.id in m.proofs &&
      var evidence := Evidence(h, m.ledger.records[v]);
      m.proofs[m.publisher.id].unshared && (forall n :: n in evidence ==> !Rewritten(evidence[n].path)) ==>
        Accepted(m.disk, m.pins.pins[m.publisher.id].run, evidence, h.sha)
  {
    ExecuteKeepsInv(h, INITIAL, ops);
    var m := Execute(h, INITIAL, ops);
    var proof := m.proofs[m.publisher.id];
    var evidence := Evidence(h, m.ledger.records[m.publisher.v]);
    assert Guarded(m.disk, proof);
    if proof.unshared && forall n :: n in evidence ==> !Rewritten(evidence[n].path) {
      forall n | n in evidence ensures CheckRow(m.disk, proof.run, evidence[n], h.sha) == None {
        assert evidence[n].path in Paths(evidence);
        assert Has(m.disk, proof.run, evidence[n].path, proof.files[evidence[n].path]);
      }
    }
  }

  /** A confirmed publication, and so a merge source, was sent as a success before. */
  lemma ConfirmedWasPublished(h: Host, ops: seq<Op>, k: string)
    requires var m := Execute(h, INITIAL, ops); k in m.pins.pins && IsConfirmed(m.pins.pins[k])
    ensures k in Execute(h, INITIAL, ops).successes
  {
    ExecuteKeepsInv(h, INITIAL, ops);
    assert ConfirmedAfterSuccess(Execute(h, INITIAL, ops).pins.pins[k], k, Execute(h, INITIAL, ops).successes);
  }

  /** Whatever step a crash followed: the next pass finds every left-over directory named in the index
      and none of them pinned, so resuming the deletions never refuses. */
  lemma ResumedDeletionsAreRegistered(h: Host, ops: seq<Op>)
    ensures var m := Execute(h, INITIAL, ops); m.retiring <= m.index && m.retiring !! Runs(m.pins.pins)
  {
    ExecuteKeepsInv(h, INITIAL, ops);
    var m := Execute(h, INITIAL, ops);
    forall k | k in m.pins.pins ensures m.pins.pins[k].run in m.disk.runs { assert Guarded(m.disk, m.proofs[k]); }
  }

  // ---------------------------------------------------------------- a pin stays until it expires or is released

  predicate Drops(op: Op, k: string, until: int) {
    (op.Sweep? && op.write.Release? && k in op.write.ids) ||
    (op.Publishing? && op.p.Reserve? && op.p.id == k && op.p.pin.expiresAt < until)
  }

  lemma StepKeepsPin(h: Host, m: Machine, op: Op, k: string, until: int)
    requires k in m.pins.pins && m.pins.pins[k].expiresAt >= until && until > m.now && !Drops(op, k, until)
    ensures var t := Step(h, m, op); t.now >= m.now && k in t.pins.pins && t.pins.pins[k].expiresAt >= until
  {
  }

  /** A pin nobody releases stays stored at least until the expiry it was given. */
  lemma {:induction false} PinStays(h: Host, m: Machine, ops: seq<Op>, k: string, until: int)
    requires k in m.pins.pins && m.pins.pins[k].expiresAt >= until
    requires (forall op :: op in ops ==> !Drops(op, k, until)) && Execute(h, m, ops).now < until
    ensures k in Execute(h, m, ops).pins.pins && Execute(h, m, ops).now >= m.now
    decreases |ops|
  {
    if ops != [] {
      var t := Step(h, m, ops[0]);
      TimeMovesOn(h, t, ops[1..]);
      assert t.now >= m.now;
      StepKeepsPin(h, m, ops[0], k, until);
      PinStays(h, t, ops[1..], k, until);
    }
  }

  lemma {:induction false} TimeMovesOn(h: Host, m: Machine, ops: seq<Op>)
    ensures Execute(h, m, ops).now >= m.now
    decreases |ops|
  {
    if ops != [] { TimeMovesOn(h, Step(h, m, ops[0]), ops[1..]); }
  }
}
