/** What a cleanup pass does when nothing kills or refuses it: it removes the leftovers of a killed one, retires
    records, writes the archive and record of a compaction and gives the lock back
    (tools/quality-host/bounded_records.py:96-176, tools/compact_gate_evidence.py:50-86). */
module CleanupOutcomes {
  import opened Options
  import opened Json
  import opened EvidencePins
  import opened Reports
  import opened BoundedRecords
  import opened RetentionProtocol
  import opened PublicationOutcomes

  lemma TwoSteps(h: Host, m: Machine, a: RetentionProtocol.Op, b: RetentionProtocol.Op)
    ensures RetentionProtocol.Execute(h, m, [a, b]) == RetentionProtocol.Step(h, RetentionProtocol.Step(h, m, a), b)
  {
    assert [a, b][1..] == [b] && [b][1..] == [];
    OneStep(h, m, [a, b]);
    OneStep(h, RetentionProtocol.Step(h, m, a), [b]);
  }

  // ---------------------------------------------------------------- the lock

  /** Cleanup and publisher both give up: nobody holds the pin lock, and nothing else has changed. */
  lemma GivingUpFrees(h: Host, m: Machine)
    ensures var t := RetentionProtocol.Execute(h, m, [Cleaning(Stop), Publishing(Leave)]);
      LockFree(t) && t == m.(cleaner := Away, publisher := Idle)
  {
    TwoSteps(h, m, Cleaning(Stop), Publishing(Leave));
  }

  // ---------------------------------------------------------------- the leftovers of a killed pass

  function Erasing(runs: seq<Run>): seq<RetentionProtocol.Op> {
    if runs == [] then [] else [Cleaning(Erase(runs[0]))] + Erasing(runs[1..])
  }

  lemma {:induction false} ErasesThem(h: Host, m: Machine, runs: seq<Run>)
    requires m.cleaner.Resuming? && m.retiring <= m.index && m.retiring !! m.cleaner.pinned
    ensures RetentionProtocol.Execute(h, m, Erasing(runs)) == m.(retiring := set r | r in m.retiring && r !in runs)
    decreases |runs|
  {
    if runs == [] {
      assert m.retiring == set r | r in m.retiring && r !in runs;
    } else {
      var t := RetentionProtocol.Step(h, m, Cleaning(Erase(runs[0])));
      assert t == m.(retiring := m.retiring - {runs[0]});
      assert Erasing(runs)[1..] == Erasing(runs[1..]);
      OneStep(h, m, Erasing(runs));
      ErasesThem(h, t, runs[1..]);
      assert (set r | r in t.retiring && r !in runs[1..]) == set r | r in m.retiring && r !in runs;
    }
  }

  /** The pass takes the lock and has nothing to compact. */
  lemma TakesLock(h: Host, m: Machine)
    requires LockFree(m)
    ensures var t := RetentionProtocol.Execute(h, m, [Cleaning(Lock), Cleaning(Resume)]);
      t == m.(cleaner := Resuming(Runs(t.pins.pins)), pins := t.pins) && t.pins.pins == Live(m.pins.pins, m.now)
  {
    TwoSteps(h, m, Cleaning(Lock), Cleaning(Resume));
  }

  lemma GoesOn(h: Host, m: Machine)
    requires m.cleaner.Resuming? && m.retiring == {}
    ensures RetentionProtocol.Execute(h, m, [Cleaning(Clean.Keep)]) == m.(cleaner := Keeping(m.cleaner.pinned))
  {
    assert [Cleaning(Clean.Keep)][1..] == [];
    OneStep(h, m, [Cleaning(Clean.Keep)]);
  }

  /** Whatever was interrupted before, a pass that takes the free lock finds its way past every leftover directory:
      all are removed, no run, file or row of the index is, and the pins are the live ones. */
  lemma LeftoversAreRemoved(h: Host, ops: seq<RetentionProtocol.Op>, order: seq<Run>)
    requires var m := RetentionProtocol.Execute(h, RetentionProtocol.INITIAL, ops);
      LockFree(m) && forall r :: r in m.retiring ==> r in order
    ensures var m := RetentionProtocol.Execute(h, RetentionProtocol.INITIAL, ops);
      var t := RetentionProtocol.Execute(h, m, [Cleaning(Lock), Cleaning(Resume)] + (Erasing(order) + [Cleaning(Clean.Keep)]));
      t.cleaner == Keeping(Runs(t.pins.pins)) && t.retiring == {} && t.disk == m.disk && t.index == m.index &&
      forall k :: (k in t.pins.pins <==> IsLive(m.pins.pins, k, m.now)) && (k in t.pins.pins ==> t.pins.pins[k] == m.pins.pins[k])
  {
    var m := RetentionProtocol.Execute(h, RetentionProtocol.INITIAL, ops);
    ResumedDeletionsAreRegistered(h, ops);
    var first := [Cleaning(Lock), Cleaning(Resume)];
    TakesLock(h, m);
    var resumed := RetentionProtocol.Execute(h, m, first);
    LiveRunsArePinned(m.pins.pins, m.now);
    RunBoth(h, m, first, Erasing(order) + [Cleaning(Clean.Keep)]);
    RunBoth(h, resumed, Erasing(order), [Cleaning(Clean.Keep)]);
    ErasesThem(h, resumed, order);
    GoesOn(h, RetentionProtocol.Execute(h, resumed, Erasing(order)));
  }

  lemma LiveRunsArePinned(pins: map<string, Pin>, moment: int)
    ensures Runs(Live(pins, moment)) <= Runs(pins)
  {
  }

  // ---------------------------------------------------------------- one record

  function Retiring(run: Run): seq<RetentionProtocol.Op> {
    [Cleaning(Register(run)), Cleaning(Rename), Cleaning(Erase(run)), Cleaning(Clean.Keep)]
  }

  lemma Registers(h: Host, m: Machine, run: Run)
    requires m.cleaner.Keeping? && m.retiring == {} && run in m.disk.runs
    ensures RetentionProtocol.Step(h, m, Cleaning(Register(run))) ==
            if run in m.cleaner.pinned then m else m.(index := m.index + {run}, cleaner := Registered(m.cleaner.pinned, run))
  {
  }

  lemma Renames(h: Host, m: Machine, run: Run)
    requires m.cleaner.Registered? && m.cleaner.run == run && m.retiring == {}
    ensures RetentionProtocol.Step(h, m, Cleaning(Rename)) ==
            m.(disk := Without(m.disk, run), retiring := {run}, cleaner := Renamed(m.cleaner.pinned, run))
  {
  }

  lemma Erases(h: Host, m: Machine, run: Run)
    requires m.cleaner.Renamed? && m.cleaner.run == run && m.retiring == {run}
    ensures RetentionProtocol.Execute(h, m, [Cleaning(Erase(run)), Cleaning(Clean.Keep)]) ==
            m.(retiring := {}, cleaner := Keeping(m.cleaner.pinned))
  {
    TwoSteps(h, m, Cleaning(Erase(run)), Cleaning(Clean.Keep));
  }

  /** The three steps of retire() and the return to the next record. */
  lemma FourSteps(h: Host, m: Machine, run: Run)
    requires m.cleaner.Keeping? && m.retiring == {} && run in m.disk.runs && run !in m.cleaner.pinned
    ensures RetentionProtocol.Execute(h, m, Retiring(run)) == m.(index := m.index + {run}, disk := Without(m.disk, run))
  {
    var first, second := [Cleaning(Register(run)), Cleaning(Rename)], [Cleaning(Erase(run)), Cleaning(Clean.Keep)];
    assert Retiring(run) == first + second;
    RunBoth(h, m, first, second);
    TwoSteps(h, m, Cleaning(Register(run)), Cleaning(Rename));
    Registers(h, m, run);
    Renames(h, m.(index := m.index + {run}, cleaner := Registered(m.cleaner.pinned, run)), run);
    Erases(h, RetentionProtocol.Execute(h, m, first), run);
  }

  /** A record that is not pinned goes and is named in the index; every other run, row, file and pin stays. A pinned
      one cannot be registered. */
  lemma RecordIsRetired(h: Host, m: Machine, run: Run)
    requires m.cleaner.Keeping? && m.retiring == {} && run in m.disk.runs
    ensures run in m.cleaner.pinned ==> RetentionProtocol.Step(h, m, Cleaning(Register(run))) == m
    ensures run !in m.cleaner.pinned ==>
      var t := RetentionProtocol.Execute(h, m, Retiring(run));
      t.cleaner == m.cleaner && t.retiring == {} && run !in t.disk.runs && run in t.index &&
      (forall other :: other != run ==>
        (other in t.disk.runs <==> other in m.disk.runs) && Tree(t.disk, other) == Tree(m.disk, other) &&
        (other in t.index <==> other in m.index)) &&
      t.disk.content == m.disk.content && t.pins == m.pins && t.ledger == m.ledger
  {
    Registers(h, m, run);
    if run !in m.cleaner.pinned { FourSteps(h, m, run); }
  }

  /** The index is trimmed last, to rows it has, and the lock is free again. */
  lemma TrimmingEnds(h: Host, ops: seq<RetentionProtocol.Op>, rows: set<Run>)
    requires RetentionProtocol.Execute(h, RetentionProtocol.INITIAL, ops).cleaner.Keeping?
    ensures var m := RetentionProtocol.Execute(h, RetentionProtocol.INITIAL, ops);
      var t := RetentionProtocol.Step(h, m, Cleaning(Trim(rows)));
      if rows <= m.index then LockFree(t) && t == m.(index := rows, cleaner := Away) else t == m
  {
    ExecuteKeepsInv(h, RetentionProtocol.INITIAL, ops);
  }

  // ---------------------------------------------------------------- one compaction

  /** None of the names compaction writes is a directory. */
  predicate Writable(tree: Names) {
    !Directory(tree, PACKAGE) && !Directory(tree, PARTIAL) && !Directory(tree, MARKER) && !Directory(tree, PENDING)
  }

  /** One file written under a temporary name and moved to its own: that name holds the bytes, the temporary one is
      gone, and every other name leads to the file it led to. */
  ghost predicate Placed(d: Disk, e: Disk, run: Run, temporary: Path, name: Path, bytes: Bytes) {
    Has(e, run, name, bytes) && temporary !in Tree(e, run) &&
    (forall p :: p != name && p != temporary ==>
      (p in Tree(e, run) <==> p in Tree(d, run)) && (p in Tree(d, run) ==> Tree(e, run)[p] == Tree(d, run)[p])) &&
    (forall r :: r != run ==> (r in e.runs <==> r in d.runs) && Tree(e, r) == Tree(d, r)) &&
    forall i :: OtherThan(d, run, temporary, i) ==> i in e.content && e.content[i] == d.content[i]
  }

  /** No file but this one is new, and none has new bytes but these. */
  predicate Adds(d: Disk, e: Disk, inode: Inode, bytes: Bytes) {
    forall i :: i in e.content ==> (i in d.content || i == inode) && (e.content[i].bytes == bytes || (i in d.content && e.content[i] == d.content[i]))
  }

  lemma Starts(h: Host, m: Machine, run: Run, inode: Inode, bytes: Bytes)
    requires m.cleaner.Compacting? && m.cleaner.work.Choosing? && run in m.disk.runs && Writable(m.disk.runs[run])
    requires MARKER !in m.disk.runs[run] && SOURCE in m.disk.runs[run]
    requires (PARTIAL !in m.disk.runs[run] ==> inode !in m.disk.content) && Novel(m.disk, bytes)
    ensures RetentionProtocol.Step(h, m, Cleaning(StartPackage(run, inode, bytes))) ==
            m.(disk := Written(m.disk, run, PARTIAL, inode, bytes), cleaner := Compacting(m.cleaner.pinned, Archiving(run)))
  {
  }

  lemma MovesArchive(h: Host, m: Machine, run: Run)
    requires m.cleaner.Compacting? && m.cleaner.work == Archiving(run) && PARTIAL in Tree(m.disk, run) && !Directory(Tree(m.disk, run), PACKAGE)
    ensures RetentionProtocol.Step(h, m, Cleaning(MovePackage)) ==
            m.(disk := WithTree(m.disk, run, Moved(Tree(m.disk, run), PARTIAL, PACKAGE)), cleaner := Compacting(m.cleaner.pinned, Archived(run)))
  {
  }

  lemma WritesRecord(h: Host, m: Machine, run: Run, inode: Inode, bytes: Bytes)
    requires m.cleaner.Compacting? && (m.cleaner.work == Archived(run) || m.cleaner.work == Finishing(run, true))
    requires run in m.disk.runs && Writable(m.disk.runs[run])
    requires (PENDING !in m.disk.runs[run] ==> inode !in m.disk.content) && Novel(m.disk, bytes)
    ensures RetentionProtocol.Step(h, m, Cleaning(WriteMarker(inode, bytes))) ==
            m.(disk := Written(m.disk, run, PENDING, inode, bytes), cleaner := Compacting(m.cleaner.pinned, Saving(run, m.cleaner.work.Finishing?)))
  {
  }

  lemma MovesRecord(h: Host, m: Machine, run: Run, final: bool)
    requires m.cleaner.Compacting? && m.cleaner.work == Saving(run, final)
    requires PENDING in Tree(m.disk, run) && !Directory(Tree(m.disk, run), MARKER)
    ensures RetentionProtocol.Step(h, m, Cleaning(MoveMarker)) ==
            m.(disk := WithTree(m.disk, run, Moved(Tree(m.disk, run), PENDING, MARKER)),
               cleaner := Compacting(m.cleaner.pinned, if final then Choosing else Finishing(run, true)))
  {
  }

  /** An archive is begun where there is no record yet and the source is named, and then in place. */
  lemma ArchiveIsWritten(h: Host, m: Machine, run: Run, inode: Inode, bytes: Bytes) returns (t: Machine)
    requires m.cleaner.Compacting? && m.cleaner.work.Choosing? && run in m.disk.runs && Writable(m.disk.runs[run])
    requires MARKER !in m.disk.runs[run] && SOURCE in m.disk.runs[run]
    requires (PARTIAL !in m.disk.runs[run] ==> inode !in m.disk.content) && Novel(m.disk, bytes)
    ensures t == RetentionProtocol.Execute(h, m, [Cleaning(StartPackage(run, inode, bytes)), Cleaning(MovePackage)])
    ensures t == m.(disk := t.disk, cleaner := Compacting(m.cleaner.pinned, Archived(run)))
    ensures Placed(m.disk, t.disk, run, PARTIAL, PACKAGE, bytes) && Writable(Tree(t.disk, run))
    ensures PARTIAL !in m.disk.runs[run] ==> Adds(m.disk, t.disk, inode, bytes)
  {
    TwoSteps(h, m, Cleaning(StartPackage(run, inode, bytes)), Cleaning(MovePackage));
    NamesDiffer();
    t := RetentionProtocol.Execute(h, m, [Cleaning(StartPackage(run, inode, bytes)), Cleaning(MovePackage)]);
    Starts(h, m, run, inode, bytes);
    MoveKeepsWritable(m.disk, run, PARTIAL, PACKAGE, inode, bytes);
    MovesArchive(h, m.(disk := Written(m.disk, run, PARTIAL, inode, bytes), cleaner := Compacting(m.cleaner.pinned, Archiving(run))), run);
  }

  /** The record is written where the archive is, or again after everything it names is removed. */
  lemma RecordIsWritten(h: Host, m: Machine, run: Run, inode: Inode, bytes: Bytes) returns (t: Machine)
    requires m.cleaner.Compacting? && (m.cleaner.work == Archived(run) || m.cleaner.work == Finishing(run, true))
    requires run in m.disk.runs && Writable(m.disk.runs[run])
    requires (PENDING !in m.disk.runs[run] ==> inode !in m.disk.content) && Novel(m.disk, bytes)
    ensures t == RetentionProtocol.Execute(h, m, [Cleaning(WriteMarker(inode, bytes)), Cleaning(MoveMarker)])
    ensures t == m.(disk := t.disk,
                    cleaner := Compacting(m.cleaner.pinned, if m.cleaner.work.Archived? then Finishing(run, true) else Choosing))
    ensures Placed(m.disk, t.disk, run, PENDING, MARKER, bytes) && Writable(Tree(t.disk, run))
    ensures PENDING !in m.disk.runs[run] ==> Adds(m.disk, t.disk, inode, bytes)
  {
    TwoSteps(h, m, Cleaning(WriteMarker(inode, bytes)), Cleaning(MoveMarker));
    NamesDiffer();
    t := RetentionProtocol.Execute(h, m, [Cleaning(WriteMarker(inode, bytes)), Cleaning(MoveMarker)]);
    var final := m.cleaner.work.Finishing?;
    WritesRecord(h, m, run, inode, bytes);
    MoveKeepsWritable(m.disk, run, PENDING, MARKER, inode, bytes);
    MovesRecord(h, m.(disk := Written(m.disk, run, PENDING, inode, bytes), cleaner := Compacting(m.cleaner.pinned, Saving(run, final))), run, final);
  }

  lemma MoveKeepsWritable(d: Disk, run: Run, temporary: Path, name: Path, inode: Inode, bytes: Bytes)
    requires run in d.runs && Writable(d.runs[run]) && temporary != name && temporary in FOUR && name in FOUR
    requires temporary !in d.runs[run] ==> inode !in d.content
    ensures var written := Written(d, run, temporary, inode, bytes);
      var e := WithTree(written, run, Moved(Tree(written, run), temporary, name));
      !Directory(Tree(written, run), name) && Placed(d, e, run, temporary, name, bytes) && Writable(Tree(e, run)) &&
      (temporary !in d.runs[run] ==> Adds(d, e, inode, bytes))
  {
    var written := Written(d, run, temporary, inode, bytes);
    OpensTemporary(d, run, temporary, inode, bytes);
    MovedPlaces(written, run, temporary, name, bytes);
  }

  lemma OpensTemporary(d: Disk, run: Run, temporary: Path, inode: Inode, bytes: Bytes)
    requires run in d.runs && Writable(d.runs[run]) && temporary in FOUR && (temporary !in d.runs[run] ==> inode !in d.content)
    ensures var e := Written(d, run, temporary, inode, bytes);
      Has(e, run, temporary, bytes) && Writable(Tree(e, run)) && (forall i :: OtherThan(d, run, temporary, i) ==> i in e.content && e.content[i] == d.content[i]) &&
      (forall p :: p != temporary ==>
        (p in Tree(e, run) <==> p in Tree(d, run)) && (p in Tree(d, run) ==> Tree(e, run)[p] == Tree(d, run)[p])) &&
      forall r :: r != run ==> (r in e.runs <==> r in d.runs) && Tree(e, r) == Tree(d, r)
  {
    WrittenInOne(d, run, temporary, inode, bytes);
    TreeOfOneMore(d.runs[run], temporary, Tree(Written(d, run, temporary, inode, bytes), run)[temporary]);
  }

  lemma TreeOfOneMore(tree: Names, name: Path, inode: Inode)
    requires Writable(tree) && name in FOUR
    ensures Writable(tree[name := inode])
  {
  }

  lemma MovedPlaces(d: Disk, run: Run, temporary: Path, name: Path, bytes: Bytes)
    requires run in d.runs && Writable(d.runs[run]) && temporary != name && temporary in FOUR && name in FOUR && Has(d, run, temporary, bytes)
    ensures var e := WithTree(d, run, Moved(Tree(d, run), temporary, name));
      Writable(Tree(e, run)) && Has(e, run, name, bytes) && temporary !in Tree(e, run) && e.content == d.content &&
      (forall p :: p != name && p != temporary ==>
        (p in Tree(e, run) <==> p in Tree(d, run)) && (p in Tree(d, run) ==> Tree(e, run)[p] == Tree(d, run)[p])) &&
      forall r :: r != run ==> (r in e.runs <==> r in d.runs) && Tree(e, r) == Tree(d, r)
  {
    FewerIsWritable(d.runs[run], {temporary});
    TreeOfOneMore(d.runs[run] - {temporary}, name, d.runs[run][temporary]);
  }

  lemma FewerIsWritable(tree: Names, doomed: set<Path>)
    requires Writable(tree)
    ensures Writable(tree - doomed)
  {
    assert forall p :: p in tree - doomed ==> p in tree;
  }

  /** A file that is there and is not the one this name led to. */
  predicate OtherThan(d: Disk, run: Run, name: Path, i: Inode) {
    i in d.content && (name in Tree(d, run) ==> i != Tree(d, run)[name])
  }

  /** finish_compaction() removes what the record names; its own four files are not below any path it accepts. */
  lemma RemovesThem(h: Host, m: Machine, run: Run, doomed: set<Path>) returns (t: Machine)
    requires m.cleaner.Compacting? && m.cleaner.work == Finishing(run, true) && run in m.disk.runs && Writable(m.disk.runs[run])
    requires forall p :: p in doomed ==> Compactible(p)
    ensures t == RetentionProtocol.Step(h, m, Cleaning(Remove(doomed)))
    ensures t == m.(disk := t.disk) && t.disk == WithTree(m.disk, run, m.disk.runs[run] - doomed) && Writable(Tree(t.disk, run)) && doomed !! FOUR
  {
    t := RetentionProtocol.Step(h, m, Cleaning(Remove(doomed)));
    FewerIsWritable(m.disk.runs[run], doomed);
    forall p | p in doomed ensures p !in FOUR { FourAreKept(p); }
  }

  lemma FourAreKept(p: Path)
    requires Compactible(p)
    ensures p !in FOUR
  {
    var n :| 0 <= n <= |p| && C.Removable(p[..n]);
    assert |p| == 1 ==> p[..n] == [] || p[..n] == p;
  }

  function Compaction(run: Run, inodes: seq<Inode>, texts: seq<Bytes>, doomed: set<Path>): seq<RetentionProtocol.Op>
    requires |inodes| == 3 && |texts| == 3
  {
    [Cleaning(StartPackage(run, inodes[0], texts[0])), Cleaning(MovePackage)] +
    ([Cleaning(WriteMarker(inodes[1], texts[1])), Cleaning(MoveMarker)] +
     ([Cleaning(Remove(doomed))] + [Cleaning(WriteMarker(inodes[2], texts[2])), Cleaning(MoveMarker)]))
  }

  /** What a compaction leaves: the archive and the last record under their names and no temporary file, nothing of
      what was to be removed, every other name as it was, and every file its bytes. */
  ghost predicate Compacted(d: Disk, e: Disk, run: Run, package: Bytes, last: Bytes, doomed: set<Path>) {
    Has(e, run, PACKAGE, package) && Has(e, run, MARKER, last) && PARTIAL !in Tree(e, run) && PENDING !in Tree(e, run) &&
    (forall p :: p !in FOUR ==>
      (p in Tree(e, run) <==> p in Tree(d, run) && p !in doomed) && (p in Tree(e, run) ==> Tree(e, run)[p] == Tree(d, run)[p])) &&
    (forall r :: r != run ==> (r in e.runs <==> r in d.runs) && Tree(e, r) == Tree(d, r)) &&
    forall i :: i in d.content ==> i in e.content && e.content[i] == d.content[i]
  }

  /** These inodes are unused, and the texts unlike one another and every file there. */
  ghost predicate Unused(d: Disk, inodes: seq<Inode>, texts: seq<Bytes>) {
    |inodes| == |texts| && (forall k :: 0 <= k < |inodes| ==> inodes[k] !in d.content) && (forall k :: 0 <= k < |texts| ==> Novel(d, texts[k])) &&
    (forall j, k :: 0 <= j < k < |inodes| ==> inodes[j] != inodes[k]) && forall j, k :: 0 <= j < k < |texts| ==> texts[j] != texts[k]
  }

  lemma OthersUnused(d: Disk, e: Disk, inodes: seq<Inode>, texts: seq<Bytes>)
    requires inodes != [] && Unused(d, inodes, texts) && Adds(d, e, inodes[0], texts[0])
    ensures Unused(e, inodes[1..], texts[1..])
  {
    forall k | 0 <= k < |texts[1..]| ensures Novel(e, texts[1..][k]) && inodes[1..][k] !in e.content {
      assert Novel(d, texts[k + 1]) && inodes[k + 1] !in d.content && texts[0] != texts[k + 1] && inodes[0] != inodes[k + 1];
    }
    assert forall k :: 0 <= k < |texts[1..]| ==> Novel(e, texts[1..][k]);
  }

  lemma BothPlaced(d: Disk, archived: Disk, recorded: Disk, run: Run, package: Bytes, first: Bytes)
    requires PARTIAL !in Tree(d, run) && PENDING !in Tree(d, run)
    requires Placed(d, archived, run, PARTIAL, PACKAGE, package) && Placed(archived, recorded, run, PENDING, MARKER, first)
    ensures Compacted(d, recorded, run, package, first, {})
  {
    NamesDiffer();
    assert forall i :: i in d.content ==> OtherThan(d, run, PARTIAL, i);
    assert forall i :: i in archived.content ==> OtherThan(archived, run, PENDING, i);
  }

  lemma DoomedAreGone(d: Disk, recorded: Disk, removed: Disk, run: Run, package: Bytes, first: Bytes, doomed: set<Path>)
    requires run in recorded.runs && Compacted(d, recorded, run, package, first, {}) && doomed !! FOUR
    requires removed == WithTree(recorded, run, recorded.runs[run] - doomed)
    ensures Compacted(d, removed, run, package, first, doomed)
  {
  }

  lemma LastPlaced(d: Disk, removed: Disk, e: Disk, run: Run, package: Bytes, first: Bytes, last: Bytes, doomed: set<Path>)
    requires Compacted(d, removed, run, package, first, doomed) && Placed(removed, e, run, PENDING, MARKER, last)
    ensures Compacted(d, e, run, package, last, doomed)
  {
    NamesDiffer();
    assert forall i :: i in removed.content ==> OtherThan(removed, run, PENDING, i);
  }

  lemma StepsRecord(h: Host, m: Machine, run: Run, inodes: seq<Inode>, texts: seq<Bytes>) returns (archived: Machine, recorded: Machine)
    requires Compactable(m, run) && |inodes| == 3 && Unused(m.disk, inodes, texts)
    ensures archived == RetentionProtocol.Execute(h, m, [Cleaning(StartPackage(run, inodes[0], texts[0])), Cleaning(MovePackage)])
    ensures recorded == RetentionProtocol.Execute(h, archived, [Cleaning(WriteMarker(inodes[1], texts[1])), Cleaning(MoveMarker)])
    ensures recorded == m.(disk := recorded.disk, cleaner := Compacting(m.cleaner.pinned, Finishing(run, true)))
    ensures run in recorded.disk.runs && Writable(recorded.disk.runs[run]) && Compacted(m.disk, recorded.disk, run, texts[0], texts[1], {})
    ensures inodes[2] !in recorded.disk.content && Novel(recorded.disk, texts[2])
  {
    archived := ArchiveIsWritten(h, m, run, inodes[0], texts[0]);
    OthersUnused(m.disk, archived.disk, inodes, texts);
    PendingIsFree(m.disk, archived.disk, run, texts[0]);
    recorded := RecordIsWritten(h, archived, run, inodes[1], texts[1]);
    OthersUnused(archived.disk, recorded.disk, inodes[1..], texts[1..]);
    BothPlaced(m.disk, archived.disk, recorded.disk, run, texts[0], texts[1]);
  }

  /** Archive, record, removal and last record, one after the other. */
  lemma StepsCompact(h: Host, m: Machine, run: Run, inodes: seq<Inode>, texts: seq<Bytes>, doomed: set<Path>)
    returns (archived: Machine, recorded: Machine, removed: Machine, t: Machine)
    requires Compactable(m, run) && |inodes| == 3 && Unused(m.disk, inodes, texts) && forall p :: p in doomed ==> Compactible(p)
    ensures archived == RetentionProtocol.Execute(h, m, [Cleaning(StartPackage(run, inodes[0], texts[0])), Cleaning(MovePackage)])
    ensures recorded == RetentionProtocol.Execute(h, archived, [Cleaning(WriteMarker(inodes[1], texts[1])), Cleaning(MoveMarker)])
    ensures removed == RetentionProtocol.Step(h, recorded, Cleaning(Remove(doomed)))
    ensures t == RetentionProtocol.Execute(h, removed, [Cleaning(WriteMarker(inodes[2], texts[2])), Cleaning(MoveMarker)])
    ensures t == m.(disk := t.disk) && Compacted(m.disk, t.disk, run, texts[0], texts[2], doomed)
  {
    archived, recorded := StepsRecord(h, m, run, inodes, texts);
    removed := RemovesThem(h, recorded, run, doomed);
    DoomedAreGone(m.disk, recorded.disk, removed.disk, run, texts[0], texts[1], doomed);
    t := RecordIsWritten(h, removed, run, inodes[2], texts[2]);
    LastPlaced(m.disk, removed.disk, t.disk, run, texts[0], texts[1], texts[2], doomed);
  }

  lemma PendingIsFree(d: Disk, e: Disk, run: Run, bytes: Bytes)
    requires PENDING !in Tree(d, run) && Placed(d, e, run, PARTIAL, PACKAGE, bytes)
    ensures run in e.runs && PENDING !in e.runs[run]
  {
    NamesDiffer();
  }

  /** compact() has this run to do: it names its source, and has no record and no temporary file of a killed pass. */
  predicate Compactable(m: Machine, run: Run) {
    m.cleaner.Compacting? && m.cleaner.work.Choosing? && run in m.disk.runs && Writable(m.disk.runs[run]) && SOURCE in m.disk.runs[run] &&
    MARKER !in m.disk.runs[run] && PARTIAL !in m.disk.runs[run] && PENDING !in m.disk.runs[run]
  }

  /** Seven steps compact such a run: afterwards the archive and the last record are under their names, what was to be
      removed is gone, every other name and every file is as it was, and the pass goes on to the next run. */
  lemma CompactionIsCompleted(h: Host, m: Machine, run: Run, inodes: seq<Inode>, texts: seq<Bytes>, doomed: set<Path>)
    requires Compactable(m, run) && |inodes| == 3 && Unused(m.disk, inodes, texts) && forall p :: p in doomed ==> Compactible(p)
    ensures var t := RetentionProtocol.Execute(h, m, Compaction(run, inodes, texts, doomed));
      t == m.(disk := t.disk) && Compacted(m.disk, t.disk, run, texts[0], texts[2], doomed)
  {
    var archived, recorded, removed, t := StepsCompact(h, m, run, inodes, texts, doomed);
    var a := [Cleaning(StartPackage(run, inodes[0], texts[0])), Cleaning(MovePackage)];
    var b := [Cleaning(WriteMarker(inodes[1], texts[1])), Cleaning(MoveMarker)];
    var c, last := [Cleaning(Remove(doomed))], [Cleaning(WriteMarker(inodes[2], texts[2])), Cleaning(MoveMarker)];
    RunBoth(h, m, a, b + (c + last));
    RunBoth(h, archived, b, c + last);
    RunBoth(h, recorded, c, last);
    assert c[1..] == [];
    OneStep(h, recorded, c);
  }
}
