/** Which evidence of a live pin a cleanup pass can still lose. check_files() (tools/quality-host/evidence_pins.py)
    refuses only evidence that cleanup removes, not evidence that cleanup writes. */
module EndangeredEvidence {
  import opened Options
  import opened EvidencePins
  import opened Reports
  import opened Walk
  import opened RetentionProtocol

  /** compact() finishes an unfinished record of this run and saves it. */
  predicate SavesRecord(h: Host, content: Content, tree: Names) { CanResume(h, content, tree, true) && !Directory(tree, PENDING) }

  /** compact() saves a record of this run: a first one beside a new archive, or the last one. */
  predicate Saves(h: Host, content: Content, tree: Names) {
    (StartsArchive(tree) && !Directory(tree, PACKAGE)) || SavesRecord(h, content, tree)
  }

  predicate NamesInode(tree: Names, path: Path, inode: Inode) { path in tree && tree[path] == inode }

  /** Compaction of this run writes this inode in place. */
  predicate OverwrittenIn(h: Host, d: Disk, run: Run, inode: Inode) {
    (NamesInode(Tree(d, run), PARTIAL, inode) && StartsArchive(Tree(d, run))) ||
    (NamesInode(Tree(d, run), PENDING, inode) && Saves(h, d.content, Tree(d, run)))
  }

  predicate Exposed(h: Host, d: Disk, inode: Inode) { exists run :: run in d.runs && OverwrittenIn(h, d, run, inode) }

  /** Some later pass can overwrite or rename away the evidence file at this path: its inode is that of a file
      compaction is about to write in place, in this run or another; it bears a name onto which compaction
      is about to move another file; or it is a link to a report of equal content that sorts before the
      report beside it, which is no such link yet, and the walk comes that far. */
  ghost predicate Endangered(h: Host, d: Disk, run: Run, path: Path) {
    var tree := Tree(d, run);
    path in tree &&
    (Exposed(h, d, tree[path]) || (path == PACKAGE && StartsArchive(tree)) || (path == MARKER && SavesRecord(h, d.content, tree)) ||
     WillConsume(d.content, tree, path))
  }

  /** A report the walk may still relink or rename away. */
  ghost predicate Unsettled(content: Content, tree: Names, path: Path)
    requires path in tree
  {
    Report(path) && (TemporaryName(path) || !Linked(content, tree, path))
  }

  /** The inodes on which the bytes of this file depend: its own, and those of all reports for one the walk
      may still change. */
  ghost function Concern(d: Disk, run: Run, path: Path): set<Inode>
    requires path in Tree(d, run)
  {
    var tree := Tree(d, run);
    if Unsettled(d.content, tree, path) then set p | p in tree && Report(p) :: tree[p] else {tree[path]}
  }

  /** The record and archive of this run are no hard links of a partial archive or pending record. */
  predicate RecordApart(d: Disk, run: Run) {
    forall r, name, n :: r in d.runs && name in IN_PLACE && n in {MARKER, PACKAGE} ==> Parted(d, run, n, r, name)
  }

  /** A save of this run's record would write the evidence. */
  ghost predicate Depends(d: Disk, run: Run, path: Path, r: Run)
    requires path in Tree(d, run)
  {
    (PENDING in Tree(d, r) && Tree(d, r)[PENDING] in Concern(d, run, path)) || (r == run && path == MARKER)
  }

  ghost predicate Apart(d: Disk, run: Run, path: Path)
    requires path in Tree(d, run)
  {
    forall r :: r in d.runs && Depends(d, run, path, r) ==> RecordApart(d, r)
  }

  /** Compaction is about to write in place over another report on which the evidence depends, or may do so over the record or archive
      that decide whether a record linked with the evidence is saved. */
  ghost predicate Entangled(h: Host, d: Disk, run: Run, path: Path)
    requires path in Tree(d, run)
  {
    !Apart(d, run, path) || exists inode :: inode in Concern(d, run, path) && inode != Tree(d, run)[path] && Exposed(h, d, inode)
  }

  // ---------------------------------------------------------------- what the answer depends on

  const WRITTEN: set<string> := {PARTIAL[0], PACKAGE[0], PENDING[0], MARKER[0], SOURCE[0]}
  const REPORTS: set<string> := {"reports"}

  /** The files below these names of the run directory are the same. */
  ghost predicate SameAt(tree: Names, next: Names, names: set<string>) {
    forall p: Path :: p != [] && p[0] in names ==> SameName(tree, next, p)
  }

  predicate SameName(tree: Names, next: Names, p: Path) { (p in tree <==> p in next) && (p in tree ==> next[p] == tree[p]) }

  predicate SameFile(content: Content, more: Content, inode: Inode) {
    inode in content && inode in more && more[inode] == content[inode]
  }

  /** The record and archive of a run have the same content. */
  predicate SameRecord(content: Content, tree: Names, more: Content) {
    forall n :: n in {MARKER, PACKAGE} && n in tree ==> SameFile(content, more, tree[n])
  }

  predicate SameReports(content: Content, tree: Names, more: Content) {
    forall p :: p in tree && Report(p) ==> SameFile(content, more, tree[p])
  }

  lemma SameDirectory(tree: Names, next: Names, names: set<string>, p: Path)
    requires SameAt(tree, next, names) && p != [] && p[0] in names
    ensures Directory(next, p) <==> Directory(tree, p)
  {
    if Directory(tree, p) {
      var q :| q in tree && p < q;
      assert q[0] == p[0] && SameName(tree, next, q);
    }
    if Directory(next, p) {
      var q :| q in next && p < q;
      assert q[0] == p[0] && SameName(tree, next, q);
    }
  }

  /** Whether an archive is begun depends only on which files there are. */
  lemma ArchivingDependsOnNames(tree: Names, next: Names)
    requires SameAt(tree, next, WRITTEN)
    ensures StartsArchive(next) <==> StartsArchive(tree)
    ensures Directory(next, PACKAGE) <==> Directory(tree, PACKAGE)
    ensures Directory(next, PENDING) <==> Directory(tree, PENDING)
  {
    SameDirectory(tree, next, WRITTEN, MARKER);
    SameDirectory(tree, next, WRITTEN, PARTIAL);
    SameDirectory(tree, next, WRITTEN, PACKAGE);
    SameDirectory(tree, next, WRITTEN, PENDING);
    assert SameName(tree, next, MARKER) && SameName(tree, next, SOURCE);
  }

  /** Whether a record is saved depends also on what the record and the archive hold. */
  lemma SavingDependsOnRecord(h: Host, content: Content, tree: Names, more: Content, next: Names)
    requires SameAt(tree, next, WRITTEN) && SameRecord(content, tree, more)
    ensures SavesRecord(h, more, next) <==> SavesRecord(h, content, tree)
  {
    ArchivingDependsOnNames(tree, next);
    assert SameName(tree, next, MARKER) && SameName(tree, next, PACKAGE);
    assert MARKER in tree ==> SameFile(content, more, tree[MARKER]);
    assert PACKAGE in tree ==> SameFile(content, more, tree[PACKAGE]);
  }

  lemma SameAlike(content: Content, tree: Names, more: Content, next: Names, p: Path)
    requires SameAt(tree, next, REPORTS) && SameReports(content, tree, more)
    requires p in tree && Report(p)
    ensures p in next && Alike(more, next, p) == Alike(content, tree, p)
  {
    assert SameName(tree, next, p);
    forall q | Report(q) ensures q in Alike(more, next, p) <==> q in Alike(content, tree, p) { assert SameName(tree, next, q); }
  }

  lemma SameLinked(content: Content, tree: Names, more: Content, next: Names, p: Path)
    requires SameAt(tree, next, REPORTS) && SameReports(content, tree, more)
    requires p in tree && Report(p)
    ensures p in next && First(more, next, p) == First(content, tree, p) && next[First(content, tree, p)] == tree[First(content, tree, p)]
    ensures (Linked(more, next, p) <==> Linked(content, tree, p)) && (Blocked(more, next, p) <==> Blocked(content, tree, p))
  {
    SameAlike(content, tree, more, next, p);
    LeastIsUnique(First(more, next, p), First(content, tree, p), Alike(content, tree, p));
    assert SameName(tree, next, p) && SameName(tree, next, First(content, tree, p)) && SameName(tree, next, Temporary(p));
    SameDirectory(tree, next, REPORTS, Temporary(p));
  }

  /** The walk looks only at the reports. */
  lemma WalkDependsOnReports(content: Content, tree: Names, more: Content, next: Names, e: Path)
    requires SameAt(tree, next, REPORTS) && SameReports(content, tree, more) && e in tree
    ensures WillConsume(more, next, e) <==> WillConsume(content, tree, e)
  {
    if TemporaryName(e) {
      var b := Base(e);
      assert SameName(tree, next, e) by { BaseIsReport(e); TemporaryIsNamed(b); }
      assert SameName(tree, next, b) by { BaseIsReport(e); }
      forall x | x in tree && Report(x) ensures x in next && (Blocked(more, next, x) <==> Blocked(content, tree, x)) {
        SameLinked(content, tree, more, next, x);
      }
      forall x | x in next && Report(x) ensures x in tree { assert SameName(tree, next, x); }
      if b in tree && Report(b) { SameLinked(content, tree, more, next, b); }
    }
  }

  // ---------------------------------------------------------------- what each cleanup step leaves alone

  lemma CleanableFirst(path: Path)
    requires Cleanable(path)
    ensures path != [] && path[0] !in WRITTEN && path[0] !in REPORTS
  {
    var directory :| directory in CLEANABLE && Under(path, directory);
    assert path[0] == directory[0];
    assert directory[0] in {"probes", "http-server", "workspace", "tmp", "cargo-home", "target"};
    OtherNames(directory[0]);
  }

  lemma OtherNames(name: string)
    requires name in {"probes", "http-server", "workspace", "tmp", "cargo-home", "target"}
    ensures name !in WRITTEN && name !in REPORTS
  {
    assert name[0] in {'p', 'h', 'w', 't', 'c'};
    assert PARTIAL[0][0] == 'r' && PACKAGE[0][0] == 'r' && "reports"[0] == 'r' && SOURCE[0][0] == 's';
    assert PENDING[0][1] == 'o' && MARKER[0][1] == 'o' && "cargo-home"[1] == 'a';
  }

  lemma RemovalLeaves(tree: Names, doomed: set<Path>)
    requires forall p :: p in doomed ==> Cleanable(p)
    ensures SameAt(tree, tree - doomed, WRITTEN) && SameAt(tree, tree - doomed, REPORTS)
  {
    forall p: Path | p != [] && (p[0] in WRITTEN || p[0] in REPORTS) ensures SameName(tree, tree - doomed, p) {
      if p in doomed { CleanableFirst(p); }
    }
  }

  lemma WalkLeaves(content: Content, tree: Names, x: Path)
    requires x in tree && Report(x)
    ensures SameAt(tree, AfterLink(content, tree, x), WRITTEN) && SameAt(tree, AfterRename(content, tree, x), WRITTEN)
  {
    assert Temporary(x)[0] == "reports" && x[0] == "reports";
    assert "reports" !in WRITTEN by {
      assert "reports"[2] == 'p' && PARTIAL[0][2] == 'v' && PACKAGE[0][2] == 'v' && "reports"[0] == 'r';
      assert PENDING[0][0] == 'c' && MARKER[0][0] == 'c' && SOURCE[0][0] == 's';
    }
  }

  // ---------------------------------------------------------------- what is not endangered stays so

  predicate WorksOn(m: Machine, run: Run) { Works(m) && m.cleaner.work.run == run }

  /** Compaction is not about to write the archive of this run. */
  predicate NoArchive(m: Machine, run: Run) {
    !StartsArchive(Tree(m.disk, run)) && !(WorksOn(m, run) && (m.cleaner.work.Archiving? || m.cleaner.work.Archived?))
  }

  /** Compaction is not about to save a record of this run. */
  predicate NoSave(h: Host, m: Machine, run: Run) {
    var tree := Tree(m.disk, run);
    (StartsArchive(tree) ==> Directory(tree, PACKAGE)) && !SavesRecord(h, m.disk.content, tree) &&
    (WorksOn(m, run) ==>
      (m.cleaner.work.Archiving? && Directory(tree, PACKAGE)) ||
      (m.cleaner.work.Finishing? && (!m.cleaner.work.allowed || Directory(tree, PENDING))))
  }

  /** Compaction of run r does not write this inode in place. */
  predicate Spared(h: Host, m: Machine, r: Run, inode: Inode) {
    (NamesInode(Tree(m.disk, r), PARTIAL, inode) ==> NoArchive(m, r)) && (NamesInode(Tree(m.disk, r), PENDING, inode) ==> NoSave(h, m, r))
  }

  ghost predicate Safe(h: Host, m: Machine, run: Run, path: Path) {
    path in Tree(m.disk, run) &&
    (forall r, inode :: r in m.disk.runs && inode in Concern(m.disk, run, path) ==> Spared(h, m, r, inode)) &&
    (path == PACKAGE ==> NoArchive(m, run)) && (path == MARKER ==> NoSave(h, m, run)) &&
    !WillConsume(m.disk.content, Tree(m.disk, run), path) && Apart(m.disk, run, path)
  }

  /** The evidence is there, and not about to be lost. */
  ghost predicate Kept(h: Host, m: Machine, run: Run, path: Path, bytes: Bytes) {
    Has(m.disk, run, path, bytes) && Safe(h, m, run, path)
  }

  lemma UnendangeredIsSafe(h: Host, m: Machine, run: Run, path: Path, bytes: Bytes)
    requires m.cleaner.Away? && Has(m.disk, run, path, bytes) && !Endangered(h, m.disk, run, path) && !Entangled(h, m.disk, run, path)
    ensures Safe(h, m, run, path)
  {
    forall r, inode | r in m.disk.runs && inode in Concern(m.disk, run, path) ensures Spared(h, m, r, inode) {
      assert !Exposed(h, m.disk, inode);
      assert !OverwrittenIn(h, m.disk, r, inode);
    }
  }

  /** Where compaction is at work after a step. */
  lemma WorkAfter(h: Host, m: Machine, c: Clean, r: Run)
    requires CanClean(h, m, c) && WorksOn(AfterClean(h, m, c), r) && r !in Touched(m, c)
    ensures (WorksOn(m, r) && AfterClean(h, m, c).cleaner.work == m.cleaner.work) ||
      (c.ResumeCompaction? && c.run == r && AfterClean(h, m, c).cleaner.work.Finishing? &&
       CanResume(h, m.disk.content, Tree(m.disk, r), AfterClean(h, m, c).cleaner.work.allowed))
  {
  }

  lemma FilesBelowStay(tree: Names, next: Names, name: Path, written: set<Path>)
    requires (forall q :: q in written ==> |q| == 1) && |name| == 1 && forall q :: q !in written ==> SameName(tree, next, q)
    ensures Directory(next, name) <==> Directory(tree, name)
  {
    if Directory(tree, name) {
      var q :| q in tree && name < q;
      assert SameName(tree, next, q);
    }
    if Directory(next, name) {
      var q :| q in next && name < q;
      assert SameName(tree, next, q);
    }
  }

  predicate Writing(c: Clean) { c.StartPackage? || c.MovePackage? || c.WriteMarker? || c.MoveMarker? }

  /** Compaction creates, renames and writes only files of its four names. */
  lemma WritingLeaves(h: Host, m: Machine, c: Clean, run: Run)
    requires CanClean(h, m, c) && Writing(c) && run in Touched(m, c)
    ensures forall p: Path :: p !in FOUR ==> SameName(Tree(m.disk, run), Tree(AfterClean(h, m, c).disk, run), p)
    ensures SameAt(Tree(m.disk, run), Tree(AfterClean(h, m, c).disk, run), REPORTS)
  {
    if c.StartPackage? { WrittenInOne(m.disk, run, PARTIAL, c.inode, c.bytes); }
    if c.WriteMarker? { WrittenInOne(m.disk, run, PENDING, c.inode, c.bytes); }
    NamesAreNotReports();
  }

  lemma NamesAreNotReports()
    ensures PARTIAL[0] != "reports" && PACKAGE[0] != "reports" && PENDING[0] != "reports" && MARKER[0] != "reports" && SOURCE[0] != "reports"
  {
    assert "reports"[2] == 'p' && PARTIAL[0][2] == 'v' && PACKAGE[0][2] == 'v' && "reports"[0] == 'r';
    assert PENDING[0][0] == 'c' && MARKER[0][0] == 'c' && SOURCE[0][0] == 's';
  }

  /** A touched run after a step that is neither compaction's writing nor retirement: the compaction files are the same. */
  lemma OthersLeaveNames(h: Host, m: Machine, c: Clean, run: Run)
    requires CanClean(h, m, c) && run in Touched(m, c) && !Writing(c) && !c.Rename?
    ensures SameAt(Tree(m.disk, run), Tree(AfterClean(h, m, c).disk, run), WRITTEN)
    ensures (c.Scratch? || c.Remove?) ==> SameAt(Tree(m.disk, run), Tree(AfterClean(h, m, c).disk, run), REPORTS)
  {
    if c.Scratch? || c.Remove? {
      forall p | p in c.doomed ensures Cleanable(p) { RemovedIsCleanable(p); }
      RemovalLeaves(Tree(m.disk, run), c.doomed);
    } else {
      WalkLeaves(m.disk.content, Tree(m.disk, run), c.path);
    }
  }

  /** No archive means that only the record is written, and it stays a file once it is there. */
  lemma WritingKeepsArchive(h: Host, m: Machine, c: Clean, run: Run)
    requires CanClean(h, m, c) && Writing(c) && run in Touched(m, c) && NoArchive(m, run)
    ensures var t := AfterClean(h, m, c);
      NoArchive(t, run) && SameName(Tree(m.disk, run), Tree(t.disk, run), PARTIAL) && SameName(Tree(m.disk, run), Tree(t.disk, run), PACKAGE)
  {
    var tree, next := Tree(m.disk, run), Tree(AfterClean(h, m, c).disk, run);
    WritingLeaves(h, m, c, run);
    NamesDiffer();
    FilesBelowStay(tree, next, MARKER, FOUR);
    FilesBelowStay(tree, next, PARTIAL, FOUR);
    if c.WriteMarker? { WrittenInOne(m.disk, run, PENDING, c.inode, c.bytes); }
    assert SameName(tree, next, SOURCE);
  }

  lemma SaveExcludes(h: Host, m: Machine, c: Clean, run: Run)
    requires CanClean(h, m, c) && Writing(c) && run in Touched(m, c) && NoSave(h, m, run)
    ensures c.StartPackage? && MARKER !in Tree(m.disk, run) && Directory(Tree(m.disk, run), PACKAGE)
  {
  }

  /** No save means that at most an archive is written, which cannot be moved into place. */
  lemma WritingKeepsRecord(h: Host, m: Machine, c: Clean, run: Run)
    requires CanClean(h, m, c) && Writing(c) && run in Touched(m, c) && NoSave(h, m, run)
    ensures var t := AfterClean(h, m, c);
      NoSave(h, t, run) && forall n :: n in FOUR && n != PARTIAL ==> SameName(Tree(m.disk, run), Tree(t.disk, run), n)
  {
    SaveExcludes(h, m, c, run);
    ArchiveIsWritten(h, m, c, run);
    NamesDiffer();
    FilesBelowStay(Tree(m.disk, run), Tree(AfterClean(h, m, c).disk, run), PACKAGE, {PARTIAL});
  }

  lemma ArchiveIsWritten(h: Host, m: Machine, c: Clean, run: Run)
    requires CanClean(h, m, c) && c.StartPackage? && c.run == run
    ensures forall p: Path :: p != PARTIAL ==> SameName(Tree(m.disk, run), Tree(AfterClean(h, m, c).disk, run), p)
    ensures AfterClean(h, m, c).cleaner == m.cleaner.(work := AfterClean(h, m, c).cleaner.work)
    ensures AfterClean(h, m, c).cleaner.work.Archiving?
  {
    WrittenInOne(m.disk, run, PARTIAL, c.inode, c.bytes);
  }

  lemma NoArchiveStays(h: Host, m: Machine, c: Clean, r: Run)
    requires CanClean(h, m, c) && NoArchive(m, r)
    ensures NoArchive(AfterClean(h, m, c), r)
  {
    OnlyTouched(h, m, c);
    var t := AfterClean(h, m, c);
    if r !in Touched(m, c) {
      if WorksOn(t, r) { WorkAfter(h, m, c, r); }
    } else if Writing(c) {
      WritingKeepsArchive(h, m, c, r);
    } else if !c.Rename? {
      OthersLeaveNames(h, m, c, r);
      ArchivingDependsOnNames(Tree(m.disk, r), Tree(t.disk, r));
    }
  }

  /** What is written in place is neither the record nor the archive of a run they are apart from. */
  lemma RecordIsElsewhere(h: Host, m: Machine, c: Clean, r: Run)
    requires CanClean(h, m, c) && Sound(m.disk) && RecordApart(m.disk, r)
    ensures SameRecord(m.disk.content, Tree(m.disk, r), AfterClean(h, m, c).disk.content)
  {
    OnlyTouched(h, m, c);
    TreeIsSound(m.disk, r);
    forall n | n in {MARKER, PACKAGE} && n in Tree(m.disk, r)
      ensures SameFile(m.disk.content, AfterClean(h, m, c).disk.content, Tree(m.disk, r)[n])
    {
      if c.StartPackage? && PARTIAL in Tree(m.disk, c.run) { assert Parted(m.disk, r, n, c.run, PARTIAL); }
      if c.WriteMarker? && PENDING in Tree(m.disk, m.cleaner.work.run) { assert Parted(m.disk, r, n, m.cleaner.work.run, PENDING); }
    }
  }

  lemma NoSaveStays(h: Host, m: Machine, c: Clean, r: Run)
    requires CanClean(h, m, c) && Sound(m.disk) && NoSave(h, m, r) && RecordApart(m.disk, r)
    ensures NoSave(h, AfterClean(h, m, c), r)
    ensures r in AfterClean(h, m, c).disk.runs ==>
      forall n :: n in {MARKER, PACKAGE} ==> SameName(Tree(m.disk, r), Tree(AfterClean(h, m, c).disk, r), n)
  {
    OnlyTouched(h, m, c);
    RecordIsElsewhere(h, m, c, r);
    NamesDiffer();
    var t := AfterClean(h, m, c);
    if r !in Touched(m, c) {
      if WorksOn(t, r) { WorkAfter(h, m, c, r); }
      SavingDependsOnRecord(h, m.disk.content, Tree(m.disk, r), t.disk.content, Tree(t.disk, r));
    } else if Writing(c) {
      WritingKeepsRecord(h, m, c, r);
    } else if !c.Rename? {
      OthersLeaveNames(h, m, c, r);
      ArchivingDependsOnNames(Tree(m.disk, r), Tree(t.disk, r));
      SavingDependsOnRecord(h, m.disk.content, Tree(m.disk, r), t.disk.content, Tree(t.disk, r));
      assert SameName(Tree(m.disk, r), Tree(t.disk, r), MARKER) && SameName(Tree(m.disk, r), Tree(t.disk, r), PACKAGE);
    }
  }

  lemma SparedStays(h: Host, m: Machine, c: Clean, r: Run, inode: Inode)
    requires CanClean(h, m, c) && Sound(m.disk) && Spared(h, m, r, inode) && inode in m.disk.content
    requires NamesInode(Tree(m.disk, r), PENDING, inode) ==> RecordApart(m.disk, r)
    ensures Spared(h, AfterClean(h, m, c), r, inode)
  {
    var t := AfterClean(h, m, c);
    if NamesInode(Tree(t.disk, r), PARTIAL, inode) {
      OpenedWas(h, m, c, r, PARTIAL);
      NoArchiveStays(h, m, c, r);
    }
    if NamesInode(Tree(t.disk, r), PENDING, inode) {
      OpenedWas(h, m, c, r, PENDING);
      NoSaveStays(h, m, c, r);
    }
  }

  /** What a step writes in place is none of what a safe file depends on. */
  lemma ConcernIsElsewhere(h: Host, m: Machine, c: Clean, run: Run, path: Path, inode: Inode)
    requires CanClean(h, m, c) && Safe(h, m, run, path) && inode in Concern(m.disk, run, path)
    ensures inode !in Overwritten(m, c)
  {
    if c.StartPackage? { assert Spared(h, m, c.run, inode); }
    if c.WriteMarker? { assert Spared(h, m, m.cleaner.work.run, inode); }
  }

  lemma OwnInode(d: Disk, run: Run, path: Path)
    requires path in Tree(d, run)
    ensures Tree(d, run)[path] in Concern(d, run, path)
  {
  }

  /** A report that is linked stays so when new content comes to other inodes. */
  lemma LinkedStays(content: Content, tree: Names, more: Content, next: Names, p: Path, but: set<Inode>)
    requires SameAt(tree, next, REPORTS) && p in tree && Report(p) && Linked(content, tree, p) && tree[p] !in but
    requires forall q :: q in tree ==> tree[q] in content
    requires forall i :: i in content ==> i in more && (i in but || more[i] == content[i])
    requires forall i, q :: i in but && i in more && q in content ==> more[i] != content[q]
    ensures p in next && Linked(more, next, p)
  {
    assert SameName(tree, next, p) && SameName(tree, next, First(content, tree, p));
    var f := First(content, tree, p);
    forall q | q in Alike(more, next, p) ensures q in Alike(content, tree, p) { assert SameName(tree, next, q); }
    LeastIsUnique(f, First(more, next, p), Alike(more, next, p));
  }

  lemma SettledStays(h: Host, m: Machine, c: Clean, run: Run, path: Path)
    requires Sound(m.disk) && CanClean(h, m, c) && path in Tree(m.disk, run) && path in Tree(AfterClean(h, m, c).disk, run)
    requires !Unsettled(m.disk.content, Tree(m.disk, run), path) && Tree(m.disk, run)[path] !in Overwritten(m, c)
    ensures !Unsettled(AfterClean(h, m, c).disk.content, Tree(AfterClean(h, m, c).disk, run), path)
  {
    var t := AfterClean(h, m, c);
    if Report(path) {
      OnlyTouched(h, m, c);
      TreeIsSound(m.disk, run);
      if run in Touched(m, c) && c.LinkNew? { LinkLinks(m.disk.content, Tree(m.disk, run), c.path, path); }
      else if run in Touched(m, c) && c.Replace? {
        TemporaryIsNamed(c.path);
        RenameLinks(m.disk.content, Tree(m.disk, run), c.path, path);
      } else {
        if run in Touched(m, c) { if Writing(c) { WritingLeaves(h, m, c, run); } else { OthersLeaveNames(h, m, c, run); } }
        OverwrittenIsNovel(h, m, c);
        LinkedStays(m.disk.content, Tree(m.disk, run), t.disk.content, Tree(t.disk, run), path, Overwritten(m, c));
      }
    }
  }

  lemma OverwrittenIsNovel(h: Host, m: Machine, c: Clean)
    requires CanClean(h, m, c)
    ensures forall i, q :: i in Overwritten(m, c) && i in AfterClean(h, m, c).disk.content && q in m.disk.content ==>
      AfterClean(h, m, c).disk.content[i] != m.disk.content[q]
  {
  }

  // ---------------------------------------------------------------- one step of a pass

  /** The step leaves the name and its bytes. */
  lemma NameStays(h: Host, m: Machine, c: Clean, run: Run, path: Path, bytes: Bytes)
    requires Inv(h, m) && CanClean(h, m, c) && run in Runs(m.pins.pins) && Kept(h, m, run, path, bytes) && !Cleanable(path)
    ensures Has(AfterClean(h, m, c).disk, run, path, bytes)
  {
    OnlyTouched(h, m, c);
    OwnInode(m.disk, run, path);
    ConcernIsElsewhere(h, m, c, run, path, Tree(m.disk, run)[path]);
    if run in Touched(m, c) {
      if c.LinkNew? || c.Replace? { WalkLeavesName(h, m, c, run, path, bytes); } else { CompactionLeavesName(h, m, c, run, path); }
    }
  }

  lemma CompactionLeavesName(h: Host, m: Machine, c: Clean, run: Run, path: Path)
    requires CanClean(h, m, c) && run in Touched(m, c) && run in m.disk.runs && !c.LinkNew? && !c.Replace? && !c.Rename?
    requires Safe(h, m, run, path) && !Cleanable(path)
    ensures SameName(Tree(m.disk, run), Tree(AfterClean(h, m, c).disk, run), path)
  {
    if Writing(c) {
      WritingLeaves(h, m, c, run);
      if path in FOUR { FourStay(h, m, c, run, path); }
    } else {
      forall p | p in c.doomed ensures Cleanable(p) { RemovedIsCleanable(p); }
    }
  }

  lemma WalkLeavesName(h: Host, m: Machine, c: Clean, run: Run, path: Path, bytes: Bytes)
    requires Sound(m.disk) && CanClean(h, m, c) && (c.LinkNew? || c.Replace?) && c.run == run && Kept(h, m, run, path, bytes)
    ensures Has(AfterClean(h, m, c).disk, run, path, bytes)
  {
    TreeIsSound(m.disk, run);
    if c.Replace? {
      RenameConsumesOne(m.disk.content, Tree(m.disk, run), c.path, path);
      RenameKeepsContent(m.disk.content, Tree(m.disk, run), c.path, path);
    }
  }

  lemma FourStay(h: Host, m: Machine, c: Clean, run: Run, path: Path)
    requires CanClean(h, m, c) && Writing(c) && run in Touched(m, c) && run in m.disk.runs && path in FOUR && Safe(h, m, run, path)
    ensures SameName(Tree(m.disk, run), Tree(AfterClean(h, m, c).disk, run), path)
  {
    OwnInode(m.disk, run, path);
    assert Spared(h, m, run, Tree(m.disk, run)[path]);
    if path in {PARTIAL, PACKAGE} { WritingKeepsArchive(h, m, c, run); } else { WritingKeepsRecord(h, m, c, run); }
  }

  /** What the file depends on afterwards it depended on before. */
  lemma ConcernShrinks(h: Host, m: Machine, c: Clean, run: Run, path: Path, inode: Inode)
    requires Sound(m.disk) && CanClean(h, m, c) && Safe(h, m, run, path) && path in Tree(AfterClean(h, m, c).disk, run)
    requires path in FOUR ==> SameName(Tree(m.disk, run), Tree(AfterClean(h, m, c).disk, run), path)
    requires inode in Concern(AfterClean(h, m, c).disk, run, path)
    ensures inode in Concern(m.disk, run, path) && inode in m.disk.content
  {
    var t := AfterClean(h, m, c);
    TreeIsSound(m.disk, run);
    NamesAreNotReports();
    OwnInode(m.disk, run, path);
    ConcernIsElsewhere(h, m, c, run, path, Tree(m.disk, run)[path]);
    if Unsettled(m.disk.content, Tree(m.disk, run), path) {
      var p := path;
      if inode != Tree(t.disk, run)[path] { p :| p in Tree(t.disk, run) && Report(p) && Tree(t.disk, run)[p] == inode; }
      assert p[0] == "reports";
      var was := OrdinaryWas(h, m, c, run, p);
      assert Report(was);
    } else {
      SettledStays(h, m, c, run, path);
      if path !in FOUR { SettledIsNotMoved(h, m, c, run, path); }
    }
  }

  lemma SettledIsNotMoved(h: Host, m: Machine, c: Clean, run: Run, path: Path)
    requires CanClean(h, m, c) && path in Tree(m.disk, run) && path in Tree(AfterClean(h, m, c).disk, run) && path !in FOUR
    requires !Unsettled(m.disk.content, Tree(m.disk, run), path)
    ensures Tree(AfterClean(h, m, c).disk, run)[path] == Tree(m.disk, run)[path]
  {
    OnlyTouched(h, m, c);
    if run in Touched(m, c) {
      if Writing(c) {
        WritingLeaves(h, m, c, run);
        assert SameName(Tree(m.disk, run), Tree(AfterClean(h, m, c).disk, run), path);
      } else if c.LinkNew? || c.Replace? {
        SettledIsNotRelinked(m.disk.content, Tree(m.disk, run), c.path, path);
      }
    }
  }

  lemma SettledIsNotRelinked(content: Content, tree: Names, x: Path, path: Path)
    requires CanLink(content, tree, x) || CanRename(content, tree, x)
    requires path in tree && !Unsettled(content, tree, path)
    ensures path != Temporary(x) && path != x
  {
    TemporaryIsNamed(x);
  }

  lemma ApartStays(h: Host, m: Machine, c: Clean, run: Run, path: Path, r: Run)
    requires Sound(m.disk) && CanClean(h, m, c) && Safe(h, m, run, path) && path in Tree(AfterClean(h, m, c).disk, run)
    requires path in FOUR ==> SameName(Tree(m.disk, run), Tree(AfterClean(h, m, c).disk, run), path)
    requires r in AfterClean(h, m, c).disk.runs && r in m.disk.runs && Depends(AfterClean(h, m, c).disk, run, path, r)
    ensures RecordApart(AfterClean(h, m, c).disk, r)
  {
    var t := AfterClean(h, m, c);
    DependedBefore(h, m, c, run, path, r);
    assert RecordApart(m.disk, r);
    NoSaveStays(h, m, c, r);
    TreeIsSound(m.disk, r);
    forall q, name, n | q in t.disk.runs && name in IN_PLACE && n in {MARKER, PACKAGE} ensures Parted(t.disk, r, n, q, name) {
      assert SameName(Tree(m.disk, r), Tree(t.disk, r), n);
      if name in Tree(t.disk, q) {
        OpenedWas(h, m, c, q, name);
        if name in Tree(m.disk, q) { assert Parted(m.disk, r, n, q, name); }
      }
    }
  }

  lemma DependedBefore(h: Host, m: Machine, c: Clean, run: Run, path: Path, r: Run)
    requires Sound(m.disk) && CanClean(h, m, c) && Safe(h, m, run, path) && path in Tree(AfterClean(h, m, c).disk, run)
    requires path in FOUR ==> SameName(Tree(m.disk, run), Tree(AfterClean(h, m, c).disk, run), path)
    requires r in m.disk.runs && Depends(AfterClean(h, m, c).disk, run, path, r)
    ensures Depends(m.disk, run, path, r) && NoSave(h, m, r)
  {
    var t := AfterClean(h, m, c);
    if PENDING in Tree(t.disk, r) && Tree(t.disk, r)[PENDING] in Concern(t.disk, run, path) {
      ConcernShrinks(h, m, c, run, path, Tree(t.disk, r)[PENDING]);
      OpenedWas(h, m, c, r, PENDING);
      assert Spared(h, m, r, Tree(t.disk, r)[PENDING]);
    }
  }

  /** The walk consumes the file no more than before. */
  lemma WalkStays(h: Host, m: Machine, c: Clean, run: Run, path: Path)
    requires Inv(h, m) && CanClean(h, m, c) && run in Runs(m.pins.pins) && Safe(h, m, run, path) && path in Tree(AfterClean(h, m, c).disk, run)
    ensures !WillConsume(AfterClean(h, m, c).disk.content, Tree(AfterClean(h, m, c).disk, run), path)
  {
    var t := AfterClean(h, m, c);
    var content, tree := m.disk.content, Tree(m.disk, run);
    if TemporaryName(path) {
      OnlyTouched(h, m, c);
      TreeIsSound(m.disk, run);
      BaseIsReport(path);
      TemporaryIsNamed(Base(path));
      ReportsAreElsewhere(h, m, c, run, path);
      if run in Touched(m, c) && c.LinkNew? { LinkConsumesNothing(content, tree, c.path, path); }
      else if run in Touched(m, c) && c.Replace? { RenameConsumesOne(content, tree, c.path, path); }
      else {
        if run in Touched(m, c) { if Writing(c) { WritingLeaves(h, m, c, run); } else { OthersLeaveNames(h, m, c, run); } }
        WalkDependsOnReports(content, tree, t.disk.content, Tree(t.disk, run), path);
      }
    }
  }

  lemma ReportsAreElsewhere(h: Host, m: Machine, c: Clean, run: Run, path: Path)
    requires Sound(m.disk) && CanClean(h, m, c) && Safe(h, m, run, path) && Report(path) && TemporaryName(path)
    ensures SameReports(m.disk.content, Tree(m.disk, run), AfterClean(h, m, c).disk.content)
  {
    OnlyTouched(h, m, c);
    TreeIsSound(m.disk, run);
    forall p | p in Tree(m.disk, run) && Report(p)
      ensures SameFile(m.disk.content, AfterClean(h, m, c).disk.content, Tree(m.disk, run)[p])
    {
      ConcernIsElsewhere(h, m, c, run, path, Tree(m.disk, run)[p]);
    }
  }

  lemma CleanKeeps(h: Host, m: Machine, c: Clean, run: Run, path: Path, bytes: Bytes)
    requires Inv(h, m) && CanClean(h, m, c) && run in Runs(m.pins.pins) && Kept(h, m, run, path, bytes) && !Cleanable(path)
    ensures Kept(h, AfterClean(h, m, c), run, path, bytes)
  {
    var t := AfterClean(h, m, c);
    OnlyTouched(h, m, c);
    NameStays(h, m, c, run, path, bytes);
    WalkStays(h, m, c, run, path);
    assert run in m.disk.runs;
    if path in FOUR && run in Touched(m, c) { FourStayThrough(h, m, c, run, path); }
    forall r, inode | r in t.disk.runs && inode in Concern(t.disk, run, path) ensures Spared(h, t, r, inode) {
      ConcernShrinks(h, m, c, run, path, inode);
      assert Spared(h, m, r, inode);
      SparedStays(h, m, c, r, inode);
    }
    forall r | r in t.disk.runs && Depends(t.disk, run, path, r) ensures RecordApart(t.disk, r) { ApartStays(h, m, c, run, path, r); }
    if path == PACKAGE { NoArchiveStays(h, m, c, run); }
    if path == MARKER { NoSaveStays(h, m, c, run); }
  }

  lemma FourStayThrough(h: Host, m: Machine, c: Clean, run: Run, path: Path)
    requires CanClean(h, m, c) && run in Touched(m, c) && run in m.disk.runs && path in FOUR && Safe(h, m, run, path) && !c.Rename?
    ensures SameName(Tree(m.disk, run), Tree(AfterClean(h, m, c).disk, run), path)
  {
    if Writing(c) { FourStay(h, m, c, run, path); } else { OthersLeaveNames(h, m, c, run); }
  }

  lemma CaptureSpares(h: Host, m: Machine, t: Machine, op: RetentionProtocol.Op, r: Run, inode: Inode)
    requires Sound(m.disk) && op.Capture? && CanCapture(m, op.run, op.tree, op.files) && m.pins.pins != map[] && t == Step(h, m, op)
    requires inode in m.disk.content && (r != op.run ==> Spared(h, m, r, inode))
    ensures Spared(h, t, r, inode)
  {
    if r != op.run {
      TreeIsSound(m.disk, r);
      SavingDependsOnRecord(h, m.disk.content, Tree(m.disk, r), t.disk.content, Tree(t.disk, r));
    }
  }

  lemma CaptureApart(h: Host, m: Machine, t: Machine, op: RetentionProtocol.Op, r: Run)
    requires Sound(m.disk) && op.Capture? && CanCapture(m, op.run, op.tree, op.files) && m.pins.pins != map[] && t == Step(h, m, op)
    requires r in m.disk.runs && RecordApart(m.disk, r)
    ensures RecordApart(t.disk, r)
  {
    TreeIsSound(m.disk, r);
    forall q, name, n | q in t.disk.runs && name in IN_PLACE && n in {MARKER, PACKAGE} ensures Parted(t.disk, r, n, q, name) {
      if q != op.run { assert Parted(m.disk, r, n, q, name); }
    }
  }

  lemma CaptureConcerns(h: Host, m: Machine, t: Machine, op: RetentionProtocol.Op, run: Run, path: Path)
    requires Sound(m.disk) && op.Capture? && CanCapture(m, op.run, op.tree, op.files) && t == Step(h, m, op) && run in m.disk.runs
    requires path in Tree(m.disk, run)
    ensures Tree(t.disk, run) == Tree(m.disk, run) && Concern(t.disk, run, path) == Concern(m.disk, run, path)
    ensures forall inode :: inode in Concern(m.disk, run, path) ==> inode in m.disk.content
    ensures WillConsume(t.disk.content, Tree(m.disk, run), path) <==> WillConsume(m.disk.content, Tree(m.disk, run), path)
  {
    TreeIsSound(m.disk, run);
    if Report(path) { SameLinked(m.disk.content, Tree(m.disk, run), t.disk.content, Tree(t.disk, run), path); }
    WalkDependsOnReports(m.disk.content, Tree(m.disk, run), t.disk.content, Tree(t.disk, run), path);
  }

  lemma CaptureKeeps(h: Host, m: Machine, op: RetentionProtocol.Op, run: Run, path: Path, bytes: Bytes)
    requires Sound(m.disk) && m.pins.pins != map[] && op.Capture? && CanCapture(m, op.run, op.tree, op.files) && run in m.disk.runs
    requires Kept(h, m, run, path, bytes)
    ensures Kept(h, Step(h, m, op), run, path, bytes)
  {
    var t := Step(h, m, op);
    CaptureConcerns(h, m, t, op, run, path);
    forall r, inode | r in t.disk.runs && inode in Concern(t.disk, run, path) ensures Spared(h, t, r, inode) {
      if r != op.run { assert Spared(h, m, r, inode); }
      CaptureSpares(h, m, t, op, r, inode);
    }
    forall r | r in t.disk.runs && Depends(t.disk, run, path, r) ensures RecordApart(t.disk, r) {
      assert Depends(m.disk, run, path, r);
      CaptureApart(h, m, t, op, r);
    }
    TreeIsSound(m.disk, run);
    SavingDependsOnRecord(h, m.disk.content, Tree(m.disk, run), t.disk.content, Tree(t.disk, run));
  }

  /** Any step on the host. */
  lemma StepKeeps(h: Host, m: Machine, op: RetentionProtocol.Op, run: Run, path: Path, bytes: Bytes)
    requires Inv(h, m) && run in Runs(m.pins.pins) && Kept(h, m, run, path, bytes) && !Cleanable(path)
    ensures Kept(h, Step(h, m, op), run, path, bytes)
  {
    if op.Cleaning? && CanClean(h, m, op.c) { CleanKeeps(h, m, op.c, run, path, bytes); }
    else if op.Publishing? && CanPublish(h, m, op.p) { SameDiskKeeps(h, m, Step(h, m, op), run, path, bytes); }
    else if op.Capture? && CanCapture(m, op.run, op.tree, op.files) { CaptureKeeps(h, m, op, run, path, bytes); }
    else { SameDiskKeeps(h, m, Step(h, m, op), run, path, bytes); }
  }

  lemma SameDiskKeeps(h: Host, m: Machine, t: Machine, run: Run, path: Path, bytes: Bytes)
    requires t.disk == m.disk && t.cleaner == m.cleaner && Kept(h, m, run, path, bytes)
    ensures Kept(h, t, run, path, bytes)
  {
    forall r, inode | r in t.disk.runs && inode in Concern(t.disk, run, path) ensures Spared(h, t, r, inode) {
      assert Spared(h, m, r, inode);
    }
  }

  // ---------------------------------------------------------------- runs during which the pin stays

  predicate PinnedBy(m: Machine, k: string, proof: Proof) {
    k in m.pins.pins && m.pins.pins[k].run == proof.run && k in m.proofs && m.proofs[k] == proof
  }

  /** The pin is stored for this proof before, after and between all these steps. */
  ghost predicate Stays(h: Host, m: Machine, ops: seq<RetentionProtocol.Op>, k: string, proof: Proof)
    decreases |ops|
  {
    PinnedBy(m, k, proof) && (ops == [] || Stays(h, Step(h, m, ops[0]), ops[1..], k, proof))
  }

  /** However long the pin stays, evidence that is not endangered keeps its bytes. */
  lemma {:induction false} SafeIsKept(h: Host, m: Machine, ops: seq<RetentionProtocol.Op>, k: string, proof: Proof, path: Path, bytes: Bytes)
    requires Inv(h, m) && Stays(h, m, ops, k, proof) && Kept(h, m, proof.run, path, bytes) && !Cleanable(path)
    ensures Has(Execute(h, m, ops).disk, proof.run, path, bytes)
    decreases |ops|
  {
    if ops != [] {
      StepKeeps(h, m, ops[0], proof.run, path, bytes);
      StepKeepsInv(h, m, ops[0]);
      SafeIsKept(h, Step(h, m, ops[0]), ops[1..], k, proof, path, bytes);
    }
  }

  /** Steps one after another that lead on while the pin stays. */
  ghost predicate Leads(h: Host, m: Machine, ops: seq<RetentionProtocol.Op>, t: Machine, k: string, proof: Proof) {
    Stays(h, m, ops, k, proof) && Execute(h, m, ops) == t
  }

  ghost predicate Reaches(h: Host, m: Machine, t: Machine, k: string, proof: Proof) {
    exists ops: seq<RetentionProtocol.Op> :: Leads(h, m, ops, t, k, proof)
  }

  lemma {:induction false} LeadsOn(h: Host, m: Machine, ops: seq<RetentionProtocol.Op>, t: Machine, op: RetentionProtocol.Op, k: string, proof: Proof)
    requires Leads(h, m, ops, t, k, proof) && PinnedBy(Step(h, t, op), k, proof)
    ensures Leads(h, m, ops + [op], Step(h, t, op), k, proof)
    decreases |ops|
  {
    if ops == [] {
      assert ops + [op] == [op] && [op][1..] == [];
      assert Stays(h, Step(h, m, op), [], k, proof) && Execute(h, Step(h, m, op), []) == Step(h, m, op);
    } else {
      assert (ops + [op])[1..] == ops[1..] + [op];
      LeadsOn(h, Step(h, m, ops[0]), ops[1..], t, op, k, proof);
    }
  }

  lemma ReachesNext(h: Host, m: Machine, t: Machine, op: RetentionProtocol.Op, k: string, proof: Proof)
    requires Reaches(h, m, t, k, proof) && PinnedBy(Step(h, t, op), k, proof)
    ensures Reaches(h, m, Step(h, t, op), k, proof)
  {
    var ops: seq<RetentionProtocol.Op> :| Leads(h, m, ops, t, k, proof);
    LeadsOn(h, m, ops, t, op, k, proof);
  }

  lemma ReachesClean(h: Host, m: Machine, t: Machine, c: Clean, k: string, proof: Proof) returns (u: Machine)
    requires Reaches(h, m, t, k, proof) && CanClean(h, t, c) && PinnedBy(AfterClean(h, t, c), k, proof) && Inv(h, t)
    ensures u == AfterClean(h, t, c) && Reaches(h, m, u, k, proof) && Inv(h, u)
  {
    u := AfterClean(h, t, c);
    ReachesNext(h, m, t, Cleaning(c), k, proof);
    CleanKeepsInv(h, t, c);
  }

  // ---------------------------------------------------------------- what is endangered can be lost

  /** The evidence file of this proof at this path is there with its bytes. */
  predicate Intact(d: Disk, proof: Proof, path: Path) { path in proof.files && Has(d, proof.run, path, proof.files[path]) }

  /** Some run of the host during which the pin stays ends without these bytes. */
  ghost predicate CanBeLost(h: Host, m: Machine, k: string, path: Path)
    requires k in m.proofs
  {
    exists t: Machine :: Reaches(h, m, t, k, m.proofs[k]) && !Intact(t.disk, m.proofs[k], path)
  }

  /** The machine as a pass has just begun, with no publication in the way. */
  predicate Begun(m: Machine, t: Machine, k: string, proof: Proof) {
    t.cleaner.Compacting? && t.cleaner.work.Choosing? && t.disk == m.disk && t.retiring == m.retiring && t.index == m.index && PinnedBy(t, k, proof)
  }

  lemma PassBegins(h: Host, m: Machine, k: string, proof: Proof) returns (t: Machine)
    requires Inv(h, m) && m.cleaner.Away? && PinnedBy(m, k, proof) && m.pins.pins[k].expiresAt > m.now
    ensures Inv(h, t) && Reaches(h, m, t, k, proof) && Begun(m, t, k, proof)
  {
    assert Leads(h, m, [], m, k, proof);
    ReachesNext(h, m, m, Publishing(Leave), k, proof);
    StepKeepsInv(h, m, Publishing(Leave));
    var left := Step(h, m, Publishing(Leave));
    t := ReachesClean(h, m, left, Lock, k, proof);
  }

  /** Under this name there are other bytes. */
  predicate Differs(d: Disk, r: Run, name: Path, bytes: Bytes) {
    name in Tree(d, r) && Tree(d, r)[name] in d.content && d.content[Tree(d, r)[name]].bytes != bytes
  }

  /** Other bytes under one name of an inode are other bytes under all. */
  lemma OtherIsElsewhereToo(d: Disk, r: Run, name: Path, run: Run, path: Path, bytes: Bytes)
    requires Differs(d, r, name, bytes) && (path in Tree(d, run) ==> Tree(d, run)[path] == Tree(d, r)[name])
    ensures !Has(d, run, path, bytes)
  {
  }

  /** Bytes that are no file's, and not these. */
  lemma NovelBytes(d: Disk, bytes: Bytes) returns (other: Bytes)
    ensures Novel(d, other) && other != bytes
  {
    var lengths := set i | i in d.content :: |d.content[i].bytes|;
    var n := BoundOf(lengths + {|bytes|});
    other := seq(n, _ => 'x');
    forall i | i in d.content ensures d.content[i].bytes != other { assert |d.content[i].bytes| in lengths; }
  }

  lemma {:induction false} BoundOf(s: set<Inode>) returns (n: Inode)
    ensures forall i :: i in s ==> i < n
    decreases |s|
  {
    n := 0;
    if s != {} {
      var i :| i in s;
      var rest := BoundOf(s - {i});
      n := if i >= rest then i + 1 else rest;
      forall j | j in s ensures j < n { assert j != i ==> j in s - {i}; }
    }
  }

  /** The files of run r but these are the same, and so are all other runs. */
  ghost predicate Alters(d: Disk, e: Disk, r: Run, names: set<Path>) {
    OnlyIn(d, e, {r}) && forall p :: p !in names ==> SameName(Tree(d, r), Tree(e, r), p)
  }

  lemma WrittenAlters(d: Disk, r: Run, name: Path, inode: Inode, other: Bytes, bytes: Bytes)
    requires CanOpen(d, r, name, inode) && other != bytes
    ensures var e := Written(d, r, name, inode, other);
      Differs(e, r, name, bytes) && Alters(d, e, r, {name}) && r in e.runs && (name in Tree(d, r) ==> Tree(e, r) == Tree(d, r))
  {
    WrittenInOne(d, r, name, inode, other);
  }

  lemma MovedAlters(d: Disk, r: Run, source: Path, target: Path, bytes: Bytes)
    requires r in d.runs && Differs(d, r, source, bytes)
    ensures var e := WithTree(d, r, Moved(Tree(d, r), source, target));
      Differs(e, r, target, bytes) && Alters(d, e, r, {source, target}) && r in e.runs
  {
    TreeInOne(d, r, Moved(Tree(d, r), source, target));
  }

  /** A pass that archives the run leaves other bytes in the partial archive. */
  lemma ArchiveBegins(h: Host, m: Machine, t: Machine, k: string, proof: Proof, r: Run, bytes: Bytes) returns (u: Machine)
    requires Inv(h, t) && Reaches(h, m, t, k, proof) && Begun(m, t, k, proof) && r in t.disk.runs && StartsArchive(Tree(t.disk, r))
    ensures Inv(h, u) && Reaches(h, m, u, k, proof) && PinnedBy(u, k, proof) && WorksOn(u, r) && u.cleaner.work.Archiving?
    ensures Differs(u.disk, r, PARTIAL, bytes) && Alters(t.disk, u.disk, r, {PARTIAL}) && r in u.disk.runs
    ensures PARTIAL in Tree(t.disk, r) ==> Tree(u.disk, r) == Tree(t.disk, r)
  {
    var inode := BoundOf(t.disk.content.Keys);
    var other := NovelBytes(t.disk, bytes);
    WrittenAlters(t.disk, r, PARTIAL, inode, other, bytes);
    u := ReachesClean(h, m, t, StartPackage(r, inode, other), k, proof);
  }

  lemma ArchiveMoves(h: Host, m: Machine, t: Machine, k: string, proof: Proof, r: Run, bytes: Bytes) returns (u: Machine)
    requires Inv(h, t) && Reaches(h, m, t, k, proof) && PinnedBy(t, k, proof) && WorksOn(t, r) && t.cleaner.work.Archiving?
    requires Differs(t.disk, r, PARTIAL, bytes) && !Directory(Tree(t.disk, r), PACKAGE)
    ensures Inv(h, u) && Reaches(h, m, u, k, proof) && PinnedBy(u, k, proof) && WorksOn(u, r) && u.cleaner.work.Archived?
    ensures Differs(u.disk, r, PACKAGE, bytes) && Alters(t.disk, u.disk, r, {PARTIAL, PACKAGE}) && r in u.disk.runs
  {
    MovedAlters(t.disk, r, PARTIAL, PACKAGE, bytes);
    u := ReachesClean(h, m, t, MovePackage, k, proof);
  }

  lemma RecordIsWritten(h: Host, m: Machine, t: Machine, k: string, proof: Proof, r: Run, bytes: Bytes) returns (u: Machine)
    requires Inv(h, t) && Reaches(h, m, t, k, proof) && PinnedBy(t, k, proof) && WorksOn(t, r) && r in t.disk.runs
    requires t.cleaner.work.Archived? || (t.cleaner.work.Finishing? && t.cleaner.work.allowed)
    requires !Directory(Tree(t.disk, r), PENDING)
    ensures Inv(h, u) && Reaches(h, m, u, k, proof) && PinnedBy(u, k, proof) && WorksOn(u, r) && u.cleaner.work.Saving?
    ensures Differs(u.disk, r, PENDING, bytes) && Alters(t.disk, u.disk, r, {PENDING})
    ensures PENDING in Tree(t.disk, r) ==> Tree(u.disk, r) == Tree(t.disk, r)
  {
    var inode := BoundOf(t.disk.content.Keys);
    var other := NovelBytes(t.disk, bytes);
    WrittenAlters(t.disk, r, PENDING, inode, other, bytes);
    u := ReachesClean(h, m, t, WriteMarker(inode, other), k, proof);
  }

  lemma RecordMoves(h: Host, m: Machine, t: Machine, k: string, proof: Proof, r: Run, bytes: Bytes) returns (u: Machine)
    requires Inv(h, t) && Reaches(h, m, t, k, proof) && PinnedBy(t, k, proof) && WorksOn(t, r) && t.cleaner.work.Saving?
    requires Differs(t.disk, r, PENDING, bytes) && !Directory(Tree(t.disk, r), MARKER)
    ensures Inv(h, u) && Reaches(h, m, u, k, proof) && PinnedBy(u, k, proof) && Differs(u.disk, r, MARKER, bytes)
  {
    MovedAlters(t.disk, r, PENDING, MARKER, bytes);
    u := ReachesClean(h, m, t, MoveMarker, k, proof);
  }

  /** Taking up a record leads to where the last one is written. */
  lemma RecordIsTakenUp(h: Host, m: Machine, t: Machine, k: string, proof: Proof, r: Run) returns (u: Machine)
    requires Inv(h, t) && Reaches(h, m, t, k, proof) && Begun(m, t, k, proof) && SavesRecord(h, t.disk.content, Tree(t.disk, r))
    ensures Inv(h, u) && Reaches(h, m, u, k, proof) && PinnedBy(u, k, proof) && WorksOn(u, r) && u.cleaner.work == Finishing(r, true)
    ensures u.disk == t.disk
  {
    u := ReachesClean(h, m, t, ResumeCompaction(r), k, proof);
  }

  /** The archive is written over the evidence, under its own name or another. */
  lemma ArchiveIsLost(h: Host, m: Machine, t: Machine, k: string, path: Path, r: Run) returns (u: Machine)
    requires Inv(h, t) && k in m.proofs && Reaches(h, m, t, k, m.proofs[k]) && Begun(m, t, k, m.proofs[k])
    requires r in m.disk.runs && StartsArchive(Tree(m.disk, r)) && Intact(m.disk, m.proofs[k], path)
    requires NamesInode(Tree(m.disk, r), PARTIAL, Tree(m.disk, m.proofs[k].run)[path])
    ensures Reaches(h, m, u, k, m.proofs[k]) && !Intact(u.disk, m.proofs[k], path)
  {
    var proof := m.proofs[k];
    u := ArchiveBegins(h, m, t, k, proof, r, proof.files[path]);
    OtherIsElsewhereToo(u.disk, r, PARTIAL, proof.run, path, proof.files[path]);
  }

  /** The archive is moved onto the evidence. */
  lemma PackageIsLost(h: Host, m: Machine, t: Machine, k: string) returns (u: Machine)
    requires Inv(h, t) && k in m.proofs && Reaches(h, m, t, k, m.proofs[k]) && Begun(m, t, k, m.proofs[k])
    requires StartsArchive(Tree(m.disk, m.proofs[k].run)) && Intact(m.disk, m.proofs[k], PACKAGE)
    ensures Reaches(h, m, u, k, m.proofs[k]) && !Intact(u.disk, m.proofs[k], PACKAGE)
  {
    var proof := m.proofs[k];
    var bytes := proof.files[PACKAGE];
    var v := ArchiveBegins(h, m, t, k, proof, proof.run, bytes);
    NamesDiffer();
    assert SameName(Tree(t.disk, proof.run), Tree(v.disk, proof.run), PACKAGE);
    TreeIsSound(v.disk, proof.run);
    u := ArchiveMoves(h, m, v, k, proof, proof.run, bytes);
    OtherIsElsewhereToo(u.disk, proof.run, PACKAGE, proof.run, PACKAGE, bytes);
  }

  /** The record is moved onto the evidence. */
  lemma MarkerIsLost(h: Host, m: Machine, t: Machine, k: string) returns (u: Machine)
    requires Inv(h, t) && k in m.proofs && Reaches(h, m, t, k, m.proofs[k]) && Begun(m, t, k, m.proofs[k])
    requires SavesRecord(h, m.disk.content, Tree(m.disk, m.proofs[k].run)) && Intact(m.disk, m.proofs[k], MARKER)
    ensures Reaches(h, m, u, k, m.proofs[k]) && !Intact(u.disk, m.proofs[k], MARKER)
  {
    var proof := m.proofs[k];
    var bytes := proof.files[MARKER];
    var v := RecordIsTakenUp(h, m, t, k, proof, proof.run);
    var w := RecordIsWritten(h, m, v, k, proof, proof.run, bytes);
    NamesDiffer();
    assert SameName(Tree(v.disk, proof.run), Tree(w.disk, proof.run), MARKER);
    TreeIsSound(w.disk, proof.run);
    u := RecordMoves(h, m, w, k, proof, proof.run, bytes);
    OtherIsElsewhereToo(u.disk, proof.run, MARKER, proof.run, MARKER, bytes);
  }

  /** The last record is written over the evidence. */
  lemma LastRecordIsLost(h: Host, m: Machine, t: Machine, k: string, path: Path, r: Run) returns (u: Machine)
    requires Inv(h, t) && k in m.proofs && Reaches(h, m, t, k, m.proofs[k]) && Begun(m, t, k, m.proofs[k])
    requires r in m.disk.runs && SavesRecord(h, m.disk.content, Tree(m.disk, r)) && Intact(m.disk, m.proofs[k], path)
    requires NamesInode(Tree(m.disk, r), PENDING, Tree(m.disk, m.proofs[k].run)[path])
    ensures Reaches(h, m, u, k, m.proofs[k]) && !Intact(u.disk, m.proofs[k], path)
  {
    var proof := m.proofs[k];
    var v := RecordIsTakenUp(h, m, t, k, proof, r);
    u := RecordIsWritten(h, m, v, k, proof, r, proof.files[path]);
    OtherIsElsewhereToo(u.disk, r, PENDING, proof.run, path, proof.files[path]);
  }

  /** An archive put in place, its record about to be written. */
  lemma ArchiveIsPlaced(h: Host, m: Machine, t: Machine, k: string, proof: Proof, r: Run, bytes: Bytes) returns (w: Machine)
    requires Inv(h, t) && Reaches(h, m, t, k, proof) && Begun(m, t, k, proof) && r in t.disk.runs
    requires StartsArchive(Tree(t.disk, r)) && !Directory(Tree(t.disk, r), PACKAGE)
    ensures Inv(h, w) && Reaches(h, m, w, k, proof) && PinnedBy(w, k, proof) && WorksOn(w, r) && w.cleaner.work.Archived?
    ensures Alters(t.disk, w.disk, r, {PARTIAL, PACKAGE}) && r in w.disk.runs
  {
    var v := ArchiveBegins(h, m, t, k, proof, r, bytes);
    FilesBelowStay(Tree(t.disk, r), Tree(v.disk, r), PACKAGE, {PARTIAL});
    w := ArchiveMoves(h, m, v, k, proof, r, bytes);
    AltersBoth(t.disk, v.disk, w.disk, r);
  }

  lemma AltersBoth(a: Disk, b: Disk, c: Disk, r: Run)
    requires Alters(a, b, r, {PARTIAL}) && Alters(b, c, r, {PARTIAL, PACKAGE})
    ensures Alters(a, c, r, {PARTIAL, PACKAGE})
  {
    forall p | p !in {PARTIAL, PACKAGE} ensures SameName(Tree(a, r), Tree(c, r), p) {
      assert SameName(Tree(a, r), Tree(b, r), p) && SameName(Tree(b, r), Tree(c, r), p);
    }
  }

  /** The first record is written over the evidence, once the archive is in place. */
  lemma FirstRecordIsLost(h: Host, m: Machine, t: Machine, k: string, path: Path, r: Run) returns (u: Machine)
    requires Inv(h, t) && k in m.proofs && Reaches(h, m, t, k, m.proofs[k]) && Begun(m, t, k, m.proofs[k])
    requires r in m.disk.runs && StartsArchive(Tree(m.disk, r)) && !Directory(Tree(m.disk, r), PACKAGE) && Intact(m.disk, m.proofs[k], path)
    requires NamesInode(Tree(m.disk, r), PENDING, Tree(m.disk, m.proofs[k].run)[path]) && (r == m.proofs[k].run ==> path !in {PARTIAL, PACKAGE})
    ensures Reaches(h, m, u, k, m.proofs[k]) && !Intact(u.disk, m.proofs[k], path)
  {
    var proof := m.proofs[k];
    NamesDiffer();
    var w := ArchiveIsPlaced(h, m, t, k, proof, r, proof.files[path]);
    assert SameName(Tree(t.disk, r), Tree(w.disk, r), PENDING) && SameName(Tree(t.disk, proof.run), Tree(w.disk, proof.run), path);
    TreeIsSound(w.disk, r);
    u := RecordIsWritten(h, m, w, k, proof, r, proof.files[path]);
    OtherIsElsewhereToo(u.disk, r, PENDING, proof.run, path, proof.files[path]);
  }

  /** The deletions a crash left are resumed before anything is deduplicated. */
  lemma {:induction false} LeftoversGo(h: Host, m: Machine, t: Machine, k: string, proof: Proof) returns (u: Machine)
    requires Inv(h, t) && Reaches(h, m, t, k, proof) && PinnedBy(t, k, proof) && t.cleaner.Resuming?
    ensures Inv(h, u) && Reaches(h, m, u, k, proof) && PinnedBy(u, k, proof) && u.cleaner.Keeping? && u.disk == t.disk
    decreases |t.retiring|
  {
    if t.retiring == {} {
      u := ReachesClean(h, m, t, Keep, k, proof);
    } else {
      var run :| run in t.retiring;
      assert run !in t.cleaner.pinned by { RetiringIsUnpinned(h, t, run); }
      u := ReachesClean(h, m, t, Erase(run), k, proof);
      u := LeftoversGo(h, m, u, k, proof);
    }
  }

  lemma RetiringIsUnpinned(h: Host, t: Machine, run: Run)
    requires Inv(h, t) && run in t.retiring
    ensures run !in Runs(t.pins.pins)
  {
    forall k | k in t.pins.pins ensures t.pins.pins[k].run != run { assert Guarded(t.disk, t.proofs[k]); }
  }

  /** One stop of the walk: a link if there is none yet, then the rename. */
  lemma WalkStops(h: Host, m: Machine, t: Machine, k: string, proof: Proof, x: Path) returns (u: Machine)
    requires Inv(h, t) && Reaches(h, m, t, k, proof) && PinnedBy(t, k, proof) && t.cleaner.Keeping? && proof.run in t.disk.runs
    requires var tree := Tree(t.disk, proof.run); CanLink(t.disk.content, tree, x) || CanRename(t.disk.content, tree, x)
    ensures Inv(h, u) && Reaches(h, m, u, k, proof) && PinnedBy(u, k, proof) && u.cleaner.Keeping? && proof.run in u.disk.runs
    ensures u.disk.content == t.disk.content
    ensures var content, tree := t.disk.content, Tree(t.disk, proof.run);
      var linked := if CanLink(content, tree, x) then AfterLink(content, tree, x) else tree;
      CanRename(content, linked, x) && Tree(u.disk, proof.run) == AfterRename(content, linked, x)
  {
    u := t;
    if CanLink(t.disk.content, Tree(t.disk, proof.run), x) {
      LinkThenRename(t.disk.content, Tree(t.disk, proof.run), x);
      u := ReachesClean(h, m, t, LinkNew(proof.run, x), k, proof);
    }
    u := ReachesClean(h, m, u, Replace(proof.run, x), k, proof);
  }

  /** The walk goes from stop to stop until the evidence is renamed away. */
  lemma {:induction false} WalkConsumes(h: Host, m: Machine, t: Machine, k: string, proof: Proof, e: Path) returns (u: Machine)
    requires Inv(h, t) && Reaches(h, m, t, k, proof) && PinnedBy(t, k, proof) && t.cleaner.Keeping? && proof.run in t.disk.runs
    requires WillConsume(t.disk.content, Tree(t.disk, proof.run), e)
    ensures Reaches(h, m, u, k, proof) && e !in Tree(u.disk, proof.run)
    decreases |Unlinked(t.disk.content, Tree(t.disk, proof.run), Base(e))|
  {
    var content, tree, b := t.disk.content, Tree(t.disk, proof.run), Base(e);
    var x := NextStop(content, tree, e);
    var linked := if CanLink(content, tree, x) then AfterLink(content, tree, x) else tree;
    if CanLink(content, tree, x) {
      LinkThenRename(content, tree, x);
      LinkLeavesUnlinked(content, tree, x, b);
      LinkConsumesNothing(content, tree, x, e);
    }
    u := WalkStops(h, m, t, k, proof, x);
    RenameConsumesOne(content, linked, x, e);
    RenameLeavesFewer(content, linked, x, b);
    if e != Temporary(x) { u := WalkConsumes(h, m, u, k, proof, e); }
  }

  lemma LinkIsLost(h: Host, m: Machine, t: Machine, k: string, path: Path) returns (u: Machine)
    requires Inv(h, t) && k in m.proofs && Reaches(h, m, t, k, m.proofs[k]) && Begun(m, t, k, m.proofs[k])
    requires Intact(m.disk, m.proofs[k], path) && WillConsume(m.disk.content, Tree(m.disk, m.proofs[k].run), path)
    ensures Reaches(h, m, u, k, m.proofs[k]) && !Intact(u.disk, m.proofs[k], path)
  {
    u := ReachesClean(h, m, t, Clean.Resume, k, m.proofs[k]);
    u := LeftoversGo(h, m, u, k, m.proofs[k]);
    u := WalkConsumes(h, m, u, k, m.proofs[k], path);
  }

  lemma ExposedIsLost(h: Host, m: Machine, t: Machine, k: string, path: Path, r: Run) returns (u: Machine)
    requires Inv(h, t) && k in m.proofs && Reaches(h, m, t, k, m.proofs[k]) && Begun(m, t, k, m.proofs[k])
    requires Intact(m.disk, m.proofs[k], path) && r in m.disk.runs && OverwrittenIn(h, m.disk, r, Tree(m.disk, m.proofs[k].run)[path])
    ensures Reaches(h, m, u, k, m.proofs[k]) && !Intact(u.disk, m.proofs[k], path)
  {
    var run := m.proofs[k].run;
    var tree, inode := Tree(m.disk, r), Tree(m.disk, run)[path];
    if NamesInode(tree, PARTIAL, inode) && StartsArchive(tree) { u := ArchiveIsLost(h, m, t, k, path, r); }
    else if SavesRecord(h, m.disk.content, tree) { u := LastRecordIsLost(h, m, t, k, path, r); }
    else if r == run && path == PACKAGE { u := PackageIsLost(h, m, t, k); }
    else { u := FirstRecordIsLost(h, m, t, k, path, r); }
  }

  /** Whatever else is the case, evidence that is endangered can be lost. */
  lemma EndangeredIsLost(h: Host, m: Machine, k: string, path: Path)
    requires Inv(h, m) && m.cleaner.Away? && k in m.pins.pins && m.pins.pins[k].expiresAt > m.now
    requires k in m.proofs && Intact(m.disk, m.proofs[k], path) && Endangered(h, m.disk, m.proofs[k].run, path)
    ensures CanBeLost(h, m, k, path)
  {
    var t := PassBegins(h, m, k, m.proofs[k]);
    var tree, u := Tree(m.disk, m.proofs[k].run), t;
    if Exposed(h, m.disk, tree[path]) {
      var r :| r in m.disk.runs && OverwrittenIn(h, m.disk, r, tree[path]);
      u := ExposedIsLost(h, m, t, k, path, r);
    }
    else if path == PACKAGE && StartsArchive(tree) { u := PackageIsLost(h, m, t, k); }
    else if path == MARKER && SavesRecord(h, m.disk.content, tree) { u := MarkerIsLost(h, m, t, k); }
    else { u := LinkIsLost(h, m, t, k, path); }
  }

  /** Between two passes: while its pin stays the evidence of a live pin can be lost when it is endangered, and
      unless it is entangled only then. */
  lemma LostExactly(h: Host, m: Machine, k: string, path: Path)
    requires Reached(h, m) && m.cleaner.Away? && k in m.pins.pins && m.pins.pins[k].expiresAt > m.now
    requires k in m.proofs && Intact(m.disk, m.proofs[k], path)
    ensures Endangered(h, m.disk, m.proofs[k].run, path) ==> CanBeLost(h, m, k, path)
    ensures CanBeLost(h, m, k, path) ==>
      Endangered(h, m.disk, m.proofs[k].run, path) || Entangled(h, m.disk, m.proofs[k].run, path)
  {
    ReachedInv(h, m);
    var proof := m.proofs[k];
    if Endangered(h, m.disk, proof.run, path) {
      EndangeredIsLost(h, m, k, path);
    } else if !Entangled(h, m.disk, proof.run, path) && CanBeLost(h, m, k, path) {
      UnendangeredIsSafe(h, m, proof.run, path, proof.files[path]);
      assert Guarded(m.disk, proof);
      var t: Machine :| Reaches(h, m, t, k, proof) && !Intact(t.disk, proof, path);
      var ops: seq<RetentionProtocol.Op> :| Leads(h, m, ops, t, k, proof);
      SafeIsKept(h, m, ops, k, proof, path, proof.files[path]);
    }
  }

  /** No partial archive or pending record has a second name. */
  predicate LinkedNowhere(d: Disk) {
    forall r, name, run, path ::
      r in d.runs && run in d.runs && name in IN_PLACE && path in Tree(d, run) && (run != r || path != name) ==> Parted(d, run, path, r, name)
  }

  lemma UnsharedIsNotEntangled(h: Host, d: Disk, run: Run, path: Path)
    requires run in d.runs && path in Tree(d, run) && Unshared(d, run) && (path in FOUR ==> LinkedNowhere(d))
    ensures !Entangled(h, d, run, path)
  {
    NamesDiffer();
    NamesAreNotReports();
    if path in FOUR {
      forall r, s, name, n | r in d.runs && s in d.runs && name in IN_PLACE && n in {MARKER, PACKAGE} ensures Parted(d, r, n, s, name) {
        assert n != name;
      }
    } else {
      forall r | r in d.runs ensures !Depends(d, run, path, r) {
        assert forall p :: p in Tree(d, run) && p !in FOUR ==> Parted(d, run, p, r, PENDING);
      }
    }
    forall inode | inode in Concern(d, run, path) && inode != Tree(d, run)[path] ensures !Exposed(h, d, inode) {
      var p :| p in Tree(d, run) && Report(p) && Tree(d, run)[p] == inode;
      assert p !in FOUR;
      forall r | r in d.runs ensures !OverwrittenIn(h, d, r, inode) {
        assert Parted(d, run, p, r, PARTIAL) && Parted(d, run, p, r, PENDING);
      }
    }
  }

  /** In an unshared run it can be lost exactly then. */
  lemma UnsharedLostExactly(h: Host, m: Machine, k: string, path: Path)
    requires Reached(h, m) && m.cleaner.Away? && k in m.pins.pins && m.pins.pins[k].expiresAt > m.now
    requires k in m.proofs && Intact(m.disk, m.proofs[k], path)
    requires Unshared(m.disk, m.proofs[k].run) && (path in FOUR ==> LinkedNowhere(m.disk))
    ensures CanBeLost(h, m, k, path) <==> Endangered(h, m.disk, m.proofs[k].run, path)
  {
    UnsharedIsNotEntangled(h, m.disk, m.proofs[k].run, path);
    LostExactly(h, m, k, path);
  }

  ghost predicate Reached(h: Host, m: Machine) { exists ops: seq<RetentionProtocol.Op> :: Execute(h, INITIAL, ops) == m }

  lemma ReachedInv(h: Host, m: Machine)
    requires Reached(h, m)
    ensures Inv(h, m)
  {
    var ops: seq<RetentionProtocol.Op> :| Execute(h, INITIAL, ops) == m;
    ExecuteKeepsInv(h, INITIAL, ops);
  }
}
