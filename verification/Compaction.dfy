/** Compacting one completed run (tools/compact_gate_evidence.py: compact, finish_compaction), killed
    and resumed at any point, and the choice of runs to compact (tools/quality-host/bounded_retention.py:
    expire). The archive is the files it holds; a digest of it is the archive itself. */
module Compaction {
  import opened Options
  import opened Totals
  import opened EvidencePins

  type Files = map<Path, Bytes>

  /** The durable record: what was archived, what is to be removed, and whether that is done. */
  datatype Marker = Marker(complete: bool, archive: Files, manifest: Files, removed: seq<Path>)

  /** What a running compaction holds in memory. */
  datatype Worker =
    | Idle
    | Packed(manifest: Files, removable: seq<Path>)
    | Packaged(manifest: Files, removable: seq<Path>)
    | Removing(record: Marker)

  /** `files` leaves out the four names compaction itself writes. `onPartial` and `onPending` are the files that are
      hard links of a leftover partial archive or pending record, which compaction opens in place. */
  datatype State = Snapshot(
    files: Files, partial: Option<Files>, package: Option<Files>, marker: Option<Marker>, worker: Worker,
    onPartial: set<Path>, onPending: set<Path>)

  datatype Op =
    | Pack(removable: seq<Path>, written: Bytes)
    | Package(busy: bool)
    | Mark(written: Bytes)
    | Resume
    | Remove(path: Path)
    | Complete
    | Kill

  const REPORTS: Path := ["workspace", ".harness-gate", "reports"]
  const RECORD := "compact-retention.json"
  const REVIEW_DIRECTORIES: set<Path> := {[], ["probes", "backend"], ["probes", "frontend"]}
  const REVIEW_TREES: set<Path> := {["signed"], REPORTS}

  /** os.path.splitext-like suffix test for the four kinds of review files. */
  predicate ReviewSuffix(name: string) { EndsWith(name, ".json") || EndsWith(name, ".md") || EndsWith(name, ".stdout") || EndsWith(name, ".stderr") }

  predicate EndsWith(name: string, suffix: string) { |name| > |suffix| && name[|name| - |suffix|..] == suffix }

  /** The files review_files() selects; of the name of the durable record it selects none, wherever they are. */
  predicate ReviewFile(path: Path) {
    path != [] && path[|path| - 1] != RECORD &&
    ((path[..|path| - 1] in REVIEW_DIRECTORIES && ReviewSuffix(path[|path| - 1])) || exists tree :: tree in REVIEW_TREES && tree < path)
  }

  function ReviewFiles(files: Files): Files { map p | p in files && ReviewFile(p) :: files[p] }

  /** The paths finish_compaction() accepts: the two payloads and what lies directly in the legacy reports. */
  predicate Removable(path: Path) {
    path in PAYLOADS || (|path| == |REPORTS| + 1 && REPORTS < path && path[|REPORTS|] !in {".", ".."})
  }

  predicate UnderAny(path: Path, directories: seq<Path>) { exists d :: d in directories && d <= path }

  predicate Enabled(s: State, op: Op) {
    match op
    case Pack(removable, written) => s.worker.Idle? && s.marker.None? && forall p :: p in removable ==> Removable(p)
    case Package(busy) => s.worker.Packed? && s.partial == Some(s.worker.manifest) && !busy && ReviewFiles(s.files) == s.worker.manifest
    case Mark(written) => s.worker.Packaged? && s.package.Some?
    case Resume =>
      s.worker.Idle? && s.marker.Some? && !s.marker.value.complete && s.package == Some(s.marker.value.archive) &&
      s.package.value == s.marker.value.manifest
    case Remove(path) => s.worker.Removing? && path in s.files && UnderAny(path, s.worker.record.removed)
    case Complete => s.worker.Removing? && forall p :: p in s.files ==> !UnderAny(p, s.worker.record.removed)
    case Kill => true
  }

  /** A file opened in place has the new bytes under every name it has. */
  function WrittenOver(files: Files, links: set<Path>, written: Bytes): Files {
    map p | p in files :: if p in links then written else files[p]
  }

  function Perform(s: State, op: Op): State
    requires Enabled(s, op)
  {
    match op
    case Pack(removable, written) =>
      var after := WrittenOver(s.files, s.onPartial, written);
      s.(files := after, partial := Some(ReviewFiles(after)), worker := Packed(ReviewFiles(s.files), removable))
    case Package(busy) =>
      s.(partial := None, package := s.partial, worker := Packaged(s.worker.manifest, s.worker.removable), onPartial := {})
    case Mark(written) =>
      var record := Marker(false, s.package.value, s.worker.manifest, s.worker.removable);
      s.(files := WrittenOver(s.files, s.onPending, written), marker := Some(record), worker := Removing(record), onPending := {})
    case Resume => s.(worker := Removing(s.marker.value))
    case Remove(path) => s.(files := s.files - {path})
    case Complete => s.(marker := Some(s.worker.record.(complete := true)), worker := Idle)
    case Kill => s.(worker := Idle)
  }

  function Step(s: State, op: Op): State { if Enabled(s, op) then Perform(s, op) else s }

  function Run(s: State, ops: seq<Op>): State
    decreases |ops|
  {
    if ops == [] then s else Run(Step(s, ops[0]), ops[1..])
  }

  // ---------------------------------------------------------------- what every step keeps

  /** The same files, with the same bytes but for these. */
  predicate SameBut(a: Files, b: Files, links: set<Path>) { a.Keys == b.Keys && forall p :: p in a && p !in links ==> a[p] == b[p] }

  /** Until the marker exists nothing is missing; afterwards only what it names is. Only linked files have other bytes. */
  predicate Inv(s: State, original: Files, links: set<Path>) {
    s.onPartial <= links && s.onPending <= links &&
    (forall p :: p in s.files ==> p in original && (p in links || s.files[p] == original[p])) &&
    (s.marker.None? ==> s.files.Keys == original.Keys && !s.worker.Removing?) &&
    (s.worker.Packed? || s.worker.Packaged? ==>
      s.marker.None? && SameBut(s.worker.manifest, ReviewFiles(original), links) && forall p :: p in s.worker.removable ==> Removable(p)) &&
    (s.worker.Packaged? ==> s.package == Some(s.worker.manifest)) &&
    (s.marker.Some? ==>
      s.package == Some(s.marker.value.archive) && s.marker.value.archive == s.marker.value.manifest &&
      SameBut(s.marker.value.manifest, ReviewFiles(original), links) && (forall p :: p in s.marker.value.removed ==> Removable(p)) &&
      (forall p :: p in original && !UnderAny(p, s.marker.value.removed) ==> p in s.files) &&
      (s.marker.value.complete ==> forall p :: p in s.files ==> !UnderAny(p, s.marker.value.removed))) &&
    (s.worker.Removing? ==> s.marker == Some(s.worker.record) && !s.worker.record.complete)
  }

  lemma StepKeepsInv(s: State, op: Op, original: Files, links: set<Path>)
    requires Inv(s, original, links)
    ensures Inv(Step(s, op), original, links)
  {
    if Enabled(s, op) {
      if op.Pack? { assert SameBut(ReviewFiles(s.files), ReviewFiles(original), links); }
      if op.Mark? { assert WrittenOver(s.files, s.onPending, op.written).Keys == s.files.Keys; }
    }
  }

  lemma {:induction false} RunKeepsInv(s: State, ops: seq<Op>, original: Files, links: set<Path>)
    requires Inv(s, original, links)
    ensures Inv(Run(s, ops), original, links)
    decreases |ops|
  {
    if ops != [] {
      StepKeepsInv(s, ops[0], original, links);
      RunKeepsInv(Step(s, ops[0]), ops[1..], original, links);
    }
  }

  /** A run no compaction has recorded yet; a killed one may have left files that others are linked to. */
  function Fresh(files: Files, onPartial: set<Path>, onPending: set<Path>): State {
    Snapshot(files, None, None, None, Idle, onPartial, onPending)
  }

  /** Wherever compaction is killed and however often it is resumed: each file that is no hard link of what
      compaction opens in place is still there, or was under a path the durable record names, and then every
      review file is in the archive with its bytes. */
  lemma NothingReviewedIsLost(files: Files, onPartial: set<Path>, onPending: set<Path>, ops: seq<Op>, path: Path)
    requires path in files && path !in onPartial + onPending
    ensures var s := Run(Fresh(files, onPartial, onPending), ops);
      (path in s.files && s.files[path] == files[path]) ||
      (s.marker.Some? && UnderAny(path, s.marker.value.removed) && s.package == Some(s.marker.value.archive) &&
       (ReviewFile(path) ==> path in s.package.value && s.package.value[path] == files[path]))
  {
    RunKeepsInv(Fresh(files, onPartial, onPending), ops, files, onPartial + onPending);
    assert ReviewFile(path) ==> path in ReviewFiles(files);
  }

  /** Such a link has other bytes as soon as an archive is begun. */
  lemma LinkIsWrittenOver(files: Files, onPartial: set<Path>, onPending: set<Path>, path: Path, written: Bytes)
    requires path in files && path in onPartial && written != files[path]
    ensures var s := Run(Fresh(files, onPartial, onPending), [Pack([], written), Kill]); path in s.files && s.files[path] != files[path]
  {
    var s := Fresh(files, onPartial, onPending);
    var packed := Step(s, Pack([], written));
    assert [Pack([], written), Kill][1..] == [Kill];
    assert Run(packed, [Kill]) == Run(Step(packed, Kill), []);
  }

  /** Neither in the run any more nor in its archive. */
  predicate Lost(s: State, path: Path) { path !in s.files && (s.package.None? || path !in s.package.value) }

  /** A completed compaction loses, of what it was given, the rebuildable payloads and of the removed
      legacy reports exactly the files that bear the name of its own record. */
  lemma LostExactly(files: Files, onPartial: set<Path>, onPending: set<Path>, ops: seq<Op>, path: Path)
    requires path in files && var s := Run(Fresh(files, onPartial, onPending), ops); s.marker.Some? && s.marker.value.complete
    ensures var s := Run(Fresh(files, onPartial, onPending), ops);
      Lost(s, path) <==>
      UnderAny(path, s.marker.value.removed) && (REPORTS < path ==> path[|path| - 1] == RECORD)
  {
    RunKeepsInv(Fresh(files, onPartial, onPending), ops, files, onPartial + onPending);
    var s := Run(Fresh(files, onPartial, onPending), ops);
    assert path in s.package.value <==> ReviewFile(path);
    if UnderAny(path, s.marker.value.removed) {
      var d :| d in s.marker.value.removed && d <= path;
      assert path !in s.files && Removable(d);
      if REPORTS < path { assert REPORTS in REVIEW_TREES; } else { PayloadIsNotReviewed(d, path); }
    }
  }

  lemma PayloadIsNotReviewed(d: Path, path: Path)
    requires d in PAYLOADS && d <= path
    ensures !ReviewFile(path)
  {
    var parent, name := path[..|path| - 1], path[|path| - 1];
    assert d[0] == path[0] && d[0] in {"probes", "http-server"};
    if d == path {
      NotReviewSuffix(name);
      if |d| == 1 { assert parent == []; } else { assert parent == ["probes", "backend"]; }
    } else {
      assert |parent| >= |d| && parent[0] == d[0];
      assert parent !in REVIEW_DIRECTORIES;
    }
    assert !(["signed"] < path) && !(REPORTS < path);
  }

  lemma NotReviewSuffix(name: string)
    requires '.' !in name
    ensures !ReviewSuffix(name)
  {
    NotSuffix(name, ".json");
    NotSuffix(name, ".md");
    NotSuffix(name, ".stdout");
    NotSuffix(name, ".stderr");
  }

  lemma NotSuffix(name: string, suffix: string)
    requires '.' !in name && suffix != "" && suffix[0] == '.'
    ensures !EndsWith(name, suffix)
  {
    if |name| > |suffix| { assert name[|name| - |suffix|..][0] != '.'; }
  }

  /** So a report of that name, below a directory of the legacy reports, is gone after five steps. */
  lemma RecordNamedReportIsLost(files: Files, directory: Path, path: Path)
    requires files.Keys == {path} && Removable(directory) && REPORTS < directory < path && path[|path| - 1] == RECORD
    ensures var ops := [Pack([directory], ""), Package(false), Mark(""), Remove(path), Complete];
      var s := Run(Fresh(files, {}, {}), ops);
      s.marker.Some? && s.marker.value.complete && Lost(s, path)
  {
    var removable := [directory];
    assert ReviewFiles(files) == map[] && WrittenOver(files, {}, "") == files;
    var record := Marker(false, map[], map[], removable);
    var removing := Snapshot(files, None, Some(map[]), Some(record), Removing(record), {}, {});
    assert directory in removable && UnderAny(path, removable);
    assert files - {path} == map[];
    var completed := Snapshot(map[], None, Some(map[]), Some(record.(complete := true)), Idle, {}, {});
    var packaged := Snapshot(files, None, Some(map[]), None, Packaged(map[], removable), {}, {});
    assert Step(Step(Fresh(files, {}, {}), Pack(removable, "")), Package(false)) == packaged;
    RunFive(Fresh(files, {}, {}), Pack(removable, ""), Package(false), Mark(""), Remove(path), Complete);
    assert Step(Step(removing, Remove(path)), Complete) == completed;
  }

  lemma RunFive(s: State, a: Op, b: Op, c: Op, d: Op, e: Op)
    ensures Run(s, [a, b, c, d, e]) == Step(Step(Step(Step(Step(s, a), b), c), d), e)
  {
    assert [] + [a] == [a] && [a] + [b] == [a, b] && [a, b] + [c] == [a, b, c] && [a, b, c] + [d] == [a, b, c, d];
    assert [a, b, c, d] + [e] == [a, b, c, d, e];
    assert Run(s, []) == s;
    RunOneMore(s, [], a);
    RunOneMore(s, [a], b);
    RunOneMore(s, [a, b], c);
    RunOneMore(s, [a, b, c], d);
    RunOneMore(s, [a, b, c, d], e);
  }

  /** Only rebuildable payloads and legacy reports are ever removed. */
  lemma OnlyRebuildableIsRemoved(files: Files, onPartial: set<Path>, onPending: set<Path>, ops: seq<Op>, path: Path)
    requires path in files && path !in Run(Fresh(files, onPartial, onPending), ops).files
    ensures Cleanable(path)
  {
    RunKeepsInv(Fresh(files, onPartial, onPending), ops, files, onPartial + onPending);
    var removed := Run(Fresh(files, onPartial, onPending), ops).marker.value.removed;
    var d :| d in removed && d <= path;
    BelowRemovable(d, path);
  }

  /** A killed compaction can always go on, and a completed one has removed everything it recorded. */
  lemma KilledCompactionResumes(files: Files, onPartial: set<Path>, onPending: set<Path>, ops: seq<Op>)
    ensures var s := Run(Fresh(files, onPartial, onPending), ops + [Kill]);
      s.worker.Idle? &&
      (s.marker.Some? && !s.marker.value.complete ==> Enabled(s, Resume)) &&
      (s.marker.Some? && s.marker.value.complete ==> forall p :: p in s.files ==> !UnderAny(p, s.marker.value.removed))
  {
    RunOneMore(Fresh(files, onPartial, onPending), ops, Kill);
    RunKeepsInv(Fresh(files, onPartial, onPending), ops + [Kill], files, onPartial + onPending);
  }

  lemma {:induction false} RunOneMore(s: State, ops: seq<Op>, op: Op)
    ensures Run(s, ops + [op]) == Step(Run(s, ops), op)
    decreases |ops|
  {
    if ops == [] {
      assert ops + [op] == [op] && [op][1..] == [];
      assert Run(Step(s, op), []) == Step(s, op);
    } else {
      assert (ops + [op])[1..] == ops[1..] + [op];
      RunOneMore(Step(s, ops[0]), ops[1..], op);
    }
  }

  lemma {:induction false} RunBoth(s: State, a: seq<Op>, b: seq<Op>)
    ensures Run(s, a + b) == Run(Run(s, a), b)
    decreases |a|
  {
    if a == [] {
      assert a + b == b;
    } else {
      assert (a + b)[1..] == a[1..] + b;
      RunBoth(Step(s, a[0]), a[1..], b);
    }
  }

  /** The steps that remove what is still there of the recorded paths, and then complete the record. */
  lemma {:induction false} RemovalEnds(s: State) returns (ops: seq<Op>)
    requires s.worker.Removing?
    ensures Run(s, ops) == s.(files := Left(s.files, s.worker.record.removed), marker := Some(s.worker.record.(complete := true)), worker := Idle)
    decreases |s.files|
  {
    var removed := s.worker.record.removed;
    if path :| path in s.files && UnderAny(path, removed) {
      var t := Step(s, Remove(path));
      assert t.files == s.files - {path};
      assert path !in t.files.Keys && t.files.Keys == s.files.Keys - {path};
      var rest := RemovalEnds(t);
      ops := [Remove(path)] + rest;
      assert ops[1..] == rest && Left(t.files, removed) == Left(s.files, removed);
    } else {
      ops := [Complete];
      assert Left(s.files, removed) == s.files;
      assert ops[1..] == [];
      assert Run(s, ops) == Run(Step(s, Complete), []);
    }
  }

  function Left(files: Files, removed: seq<Path>): Files { map p | p in files && !UnderAny(p, removed) :: files[p] }

  /** Nothing that interrupts it: every review file is archived with its bytes, then exactly what lies under the
      recorded paths is gone, and the record says that it is complete. */
  lemma CompactionCompletes(files: Files, removable: seq<Path>) returns (ops: seq<Op>)
    requires forall p :: p in removable ==> Removable(p)
    ensures Run(Fresh(files, {}, {}), ops) ==
      Snapshot(Left(files, removable), None, Some(ReviewFiles(files)),
               Some(Marker(true, ReviewFiles(files), ReviewFiles(files), removable)), Idle, {}, {})
  {
    var s, a, b, c := Fresh(files, {}, {}), Pack(removable, ""), Package(false), Mark("");
    assert WrittenOver(files, {}, "") == files;
    var reviewed := ReviewFiles(files);
    var packed := Snapshot(files, Some(reviewed), None, None, Packed(reviewed, removable), {}, {});
    assert Step(s, a) == packed;
    var packaged := Snapshot(files, None, Some(reviewed), None, Packaged(reviewed, removable), {}, {});
    assert Step(packed, b) == packaged;
    var record := Marker(false, reviewed, reviewed, removable);
    var removing := Snapshot(files, None, Some(reviewed), Some(record), Removing(record), {}, {});
    assert Step(packaged, c) == removing;
    RunOneMore(s, [], a);
    RunOneMore(s, [a], b);
    RunOneMore(s, [a, b], c);
    assert [] + [a] == [a] && [a] + [b] == [a, b] && [a, b] + [c] == [a, b, c];
    var rest := RemovalEnds(removing);
    ops := [a, b, c] + rest;
    RunBoth(s, [a, b, c], rest);
  }

  /** finish_compaction() over one record: each named path with everything below it goes; a name that
      compaction may not remove stops it, and what was removed before stays removed. */
  method FinishCompaction(files: Files, removed: seq<Path>) returns (left: Files, complete: bool)
    ensures complete <==> forall p :: p in removed ==>
      p == ["probes", "backend", "raw"] || p == ["http-server"] ||
      (|p| == 4 && p[..3] == ["workspace", ".harness-gate", "reports"] && p[3] != "." && p[3] != "..")
    ensures complete ==> left == map p | p in files && !UnderAny(p, removed) :: files[p]
    ensures forall p :: p in left ==> p in files && left[p] == files[p]
    ensures forall p :: p in files && p !in left ==> UnderAny(p, removed) && Cleanable(p)
  {
    left := files;
    for i := 0 to |removed|
      invariant forall p :: p in removed[..i] ==> Removable(p)
      invariant left == map p | p in files && !UnderAny(p, removed[..i]) :: files[p]
    {
      assert removed[..i + 1] == removed[..i] + [removed[i]];
      if !Removable(removed[i]) {
        RemovedIsCleanable(files, removed, i);
        assert removed[i] in removed;
        RemovableExactly(removed[i]);
        return left, false;
      }
      forall p ensures UnderAny(p, removed[..i + 1]) <==> UnderAny(p, removed[..i]) || removed[i] <= p { OneMoreDirectory(p, removed, i); }
      left := map p | p in left && !(removed[i] <= p) :: left[p];
    }
    assert removed[..|removed|] == removed;
    RemovedIsCleanable(files, removed, |removed|);
    forall p | p in removed ensures Removable(p) { }
    forall p ensures Removable(p) <==>
      p == ["probes", "backend", "raw"] || p == ["http-server"] ||
      (|p| == 4 && p[..3] == ["workspace", ".harness-gate", "reports"] && p[3] != "." && p[3] != "..")
    {
      RemovableExactly(p);
    }
    complete := true;
  }

  lemma RemovableExactly(p: Path)
    ensures Removable(p) <==>
      p == ["probes", "backend", "raw"] || p == ["http-server"] ||
      (|p| == 4 && p[..3] == ["workspace", ".harness-gate", "reports"] && p[3] != "." && p[3] != "..")
  {
    if |p| == 4 { assert REPORTS <= p <==> p[..3] == REPORTS; }
  }

  /** review_files() takes what lies in the run or one of two probe directories under one of four endings, and everything
      below the signed or report tree, but never a file of the record's name. */
  lemma ReviewedExactly(parent: Path, name: string)
    ensures ReviewFile(parent + [name]) <==>
      name != "compact-retention.json" &&
      (((parent == [] || parent == ["probes", "backend"] || parent == ["probes", "frontend"]) &&
        exists stem: string :: stem != "" && (name == stem + ".json" || name == stem + ".md" || name == stem + ".stdout" || name == stem + ".stderr")) ||
       (|parent| >= 1 && parent[0] == "signed") || (|parent| >= 3 && parent[..3] == ["workspace", ".harness-gate", "reports"]))
  {
    var path := parent + [name];
    assert path[..|path| - 1] == parent && path[|path| - 1] == name;
    EndingIsSuffix(name, ".json");
    EndingIsSuffix(name, ".md");
    EndingIsSuffix(name, ".stdout");
    EndingIsSuffix(name, ".stderr");
    assert ["signed"] < path <==> |parent| >= 1 && parent[0] == "signed";
    assert |parent| >= 3 ==> path[..3] == parent[..3];
    assert REPORTS < path <==> |parent| >= 3 && parent[..3] == REPORTS;
    assert (exists tree :: tree in REVIEW_TREES && tree < path) <==> (["signed"] < path || REPORTS < path) by {
      assert ["signed"] in REVIEW_TREES && REPORTS in REVIEW_TREES;
    }
  }

  lemma EndingIsSuffix(name: string, suffix: string)
    ensures EndsWith(name, suffix) <==> exists stem: string :: stem != "" && name == stem + suffix
  {
    if EndsWith(name, suffix) {
      var stem := name[..|name| - |suffix|];
      assert stem != "" && name == stem + suffix;
    }
  }

  lemma OneMoreDirectory(path: Path, directories: seq<Path>, i: nat)
    requires i < |directories|
    ensures UnderAny(path, directories[..i + 1]) <==> UnderAny(path, directories[..i]) || directories[i] <= path
  {
    assert directories[..i + 1] == directories[..i] + [directories[i]];
    if UnderAny(path, directories[..i]) {
      var d :| d in directories[..i] && d <= path;
      assert d in directories[..i + 1];
    }
    if directories[i] <= path { assert directories[i] in directories[..i + 1]; }
  }

  lemma RemovedIsCleanable(files: Files, removed: seq<Path>, n: nat)
    requires n <= |removed| && forall p :: p in removed[..n] ==> Removable(p)
    ensures forall p :: p in files && UnderAny(p, removed[..n]) ==> UnderAny(p, removed) && Cleanable(p)
  {
    forall p | p in files && UnderAny(p, removed[..n]) ensures UnderAny(p, removed) && Cleanable(p) {
      var d :| d in removed[..n] && d <= p;
      assert d in removed;
      BelowRemovable(d, p);
    }
  }

  lemma BelowRemovable(d: Path, path: Path)
    requires Removable(d) && d <= path
    ensures Cleanable(path)
  {
    if d in PAYLOADS { assert d in CLEANABLE && Under(path, d); }
    else { assert REPORTS <= path && REPORTS in CLEANABLE && Under(path, REPORTS); }
  }

  // ---------------------------------------------------------------- which runs are compacted

  function SumOf(sizes: seq<nat>, kept: seq<bool>, n: nat): nat
    requires n <= |sizes| && |kept| == |sizes|
  {
    if n == 0 then 0 else SumOf(sizes, kept, n - 1) + if kept[n - 1] then sizes[n - 1] else 0
  }

  /** expire() over the runs newest first: payloads stay only within count and age, and within the budget
      left by the newer ones; a payload that does not fit does not stop smaller, older ones. */
  method ChooseKept(sizes: seq<nat>, ages: seq<real>, keep: nat, hours: nat, budget: int) returns (kept: seq<bool>)
    requires |sizes| == |ages|
    ensures |kept| == |sizes| && (SumOf(sizes, kept, |sizes|) == 0 || SumOf(sizes, kept, |sizes|) <= budget)
    ensures forall i :: 0 <= i < |sizes| ==>
      (kept[i] <==> i < keep && ages[i] < hours as real * 3600.0 && SumOf(sizes, kept, i) + sizes[i] <= budget)
  {
    kept := seq(|sizes|, _ => false);
    var used := 0;
    for i := 0 to |sizes|
      invariant |kept| == |sizes| && used == SumOf(sizes, kept, i) && (used == 0 || used <= budget)
      invariant forall j :: 0 <= j < i ==>
        (kept[j] <==> j < keep && ages[j] < hours as real * 3600.0 && SumOf(sizes, kept, j) + sizes[j] <= budget)
    {
      ghost var before := kept;
      kept := kept[i := i < keep && ages[i] < hours as real * 3600.0 && used + sizes[i] <= budget];
      forall j | 0 <= j <= i ensures SumOf(sizes, kept, j) == SumOf(sizes, before, j) { SamePrefix(sizes, kept, before, j); }
      if kept[i] { used := used + sizes[i]; }
    }
  }

  lemma {:induction false} SamePrefix(sizes: seq<nat>, a: seq<bool>, b: seq<bool>, n: nat)
    requires n <= |sizes| && |a| == |b| == |sizes| && forall i :: 0 <= i < n ==> a[i] == b[i]
    ensures SumOf(sizes, a, n) == SumOf(sizes, b, n)
  {
    if n > 0 { SamePrefix(sizes, a, b, n - 1); }
  }
}
