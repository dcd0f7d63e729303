/** The report files of one run: their names, the order in which deduplication walks them, and the first
    one of equal content that the others become links to (tools/quality-host/bounded_records.py: deduplicate). */
module Reports {
  import opened Strings
  import opened EvidencePins

  /** A name a directory can hold. */
  predicate Name(part: string) { part != "" && part != "." && part != ".." && '/' !in part && '\0' !in part }

  predicate Report(path: Path) { |path| > 1 && path[0] == "reports" && forall part :: part in path ==> Name(part) }

  const SUFFIX := ".deduplicate-new"

  /** The report a temporary link stands beside. */
  function Base(path: Path): Path
    requires path != [] && |path[|path| - 1]| >= |SUFFIX|
  {
    var last := path[|path| - 1];
    path[..|path| - 1] + [last[..|last| - |SUFFIX|]]
  }

  predicate TemporaryName(path: Path) {
    path != [] && |path[|path| - 1]| >= |SUFFIX| && path[|path| - 1][|path[|path| - 1]| - |SUFFIX|..] == SUFFIX && Report(Base(path))
  }

  function Temporary(path: Path): Path
    requires Report(path)
  {
    path[..|path| - 1] + [path[|path| - 1] + SUFFIX]
  }

  lemma TemporaryIsNamed(path: Path)
    requires Report(path)
    ensures TemporaryName(Temporary(path)) && Base(Temporary(path)) == path && Report(Temporary(path))
  {
    var name, t := path[|path| - 1], Temporary(path);
    assert (name + SUFFIX)[|name|..] == SUFFIX && (name + SUFFIX)[..|name|] == name;
    assert t[..|t| - 1] == path[..|path| - 1];
    forall part | part in t ensures Name(part) {
      if part == name + SUFFIX {
        assert name in path && Name(name);
        assert part[|name|] == '.' && |part| > 2;
      } else {
        assert part in path[..|path| - 1];
      }
    }
  }

  lemma BaseIsReport(path: Path)
    requires TemporaryName(path)
    ensures Report(Base(path)) && Temporary(Base(path)) == path
  {
    var last := path[|path| - 1];
    assert last == last[..|last| - |SUFFIX|] + SUFFIX;
    assert Base(path)[..|path| - 1] == path[..|path| - 1];
  }

  // ---------------------------------------------------------------- the order of the walk

  /** Paths compare by their parts. */
  predicate PathBefore(a: Path, b: Path) {
    b != [] && (a == [] || StringBefore(a[0], b[0]) || (a[0] == b[0] && PathBefore(a[1..], b[1..])))
  }

  lemma {:induction false} PathsAreOrdered(a: Path, b: Path)
    ensures !(PathBefore(a, b) && PathBefore(b, a)) && (a == b || PathBefore(a, b) || PathBefore(b, a))
    ensures !PathBefore(a, a)
  {
    if a != [] {
      StringsAreOrdered(a[0], a[0]);
      if b != [] {
        StringsAreOrdered(a[0], b[0]);
        PathsAreOrdered(a[1..], b[1..]);
      } else {
        PathsAreOrdered(a[1..], []);
      }
      assert a == [a[0]] + a[1..] && (b != [] ==> b == [b[0]] + b[1..]);
    }
  }

  lemma {:induction false} PathsTransitive(a: Path, b: Path, c: Path)
    requires PathBefore(a, b) && PathBefore(b, c)
    ensures PathBefore(a, c)
  {
    if a != [] {
      StringsAreOrdered(a[0], b[0]);
      StringsAreOrdered(b[0], c[0]);
      if a[0] == b[0] == c[0] { PathsTransitive(a[1..], b[1..], c[1..]); }
      else if a[0] != b[0] && b[0] != c[0] { StringsTransitive(a[0], b[0], c[0]); }
    }
  }

  lemma {:induction false} LongerComesLater(name: string, more: string)
    requires more != ""
    ensures StringBefore(name, name + more)
  {
    if name != "" {
      LongerComesLater(name[1..], more);
      assert (name + more)[1..] == name[1..] + more;
    }
  }

  lemma {:induction false} SiblingsCompare(front: Path, a: string, b: string, rest: Path)
    requires StringBefore(a, b)
    ensures PathBefore(front + [a], front + [b] + rest)
  {
    if front == [] {
      assert front + [a] == [a] && front + [b] + rest == [b] + rest;
    } else {
      SiblingsCompare(front[1..], a, b, rest);
      assert (front + [a])[1..] == front[1..] + [a] && (front + [b] + rest)[1..] == front[1..] + [b] + rest;
    }
  }

  lemma TemporaryComesAfter(path: Path)
    requires Report(path)
    ensures PathBefore(path, Temporary(path)) && Temporary(path) != path
  {
    var front, name := path[..|path| - 1], path[|path| - 1];
    LongerComesLater(name, SUFFIX);
    SiblingsCompare(front, name, name + SUFFIX, []);
    assert path == front + [name] && front + [name + SUFFIX] + [] == Temporary(path);
  }

  /** sorted(reports.rglob('*')): every report of the tree once, in order. */
  predicate Listing(order: seq<Path>, tree: map<Path, Inode>) {
    (forall p :: p in order ==> Report(p) && p in tree) && (forall p :: p in tree && Report(p) ==> p in order) &&
    forall i, j :: 0 <= i < j < |order| ==> PathBefore(order[i], order[j])
  }

  /** A listing has no report twice, and a temporary link after the report it stands beside. */
  lemma ListingIsDistinct(order: seq<Path>, tree: map<Path, Inode>, i: nat)
    requires Listing(order, tree) && i < |order|
    ensures order[i] !in order[..i] && Temporary(order[i]) !in order[..i] && Temporary(order[i]) != order[i]
  {
    TemporaryComesAfter(order[i]);
    forall j | 0 <= j < i ensures order[j] != order[i] && order[j] != Temporary(order[i]) {
      PathsAreOrdered(order[j], order[i]);
      assert PathBefore(order[j], order[i]);
    }
  }

  // ---------------------------------------------------------------- the first report of each content

  type Content = map<Inode, File>
  type Names = map<Path, Inode>

  predicate EqualContent(content: Content, i: Inode, j: Inode) { i in content && j in content && content[i] == content[j] }

  /** The reports of the same bytes and mode as p, with p itself. */
  function Alike(content: Content, tree: Names, p: Path): set<Path>
    requires p in tree
  {
    set q | q in tree && Report(q) && (q == p || EqualContent(content, tree[q], tree[p]))
  }

  predicate IsLeast(q: Path, paths: set<Path>) { q in paths && forall p :: p in paths && p != q ==> PathBefore(q, p) }

  lemma {:induction false} LeastExists(paths: set<Path>) returns (q: Path)
    requires paths != {}
    ensures IsLeast(q, paths)
    decreases |paths|
  {
    q :| q in paths;
    if paths != {q} {
      var x := q;
      assert paths - {x} != {};
      q := LeastExists(paths - {x});
      PathsAreOrdered(x, q);
      if PathBefore(x, q) {
        forall p | p in paths && p != x && p != q ensures PathBefore(x, p) { PathsTransitive(x, q, p); }
        q := x;
      }
    }
  }

  lemma LeastIsUnique(p: Path, q: Path, paths: set<Path>)
    requires IsLeast(p, paths) && IsLeast(q, paths)
    ensures p == q
  {
    PathsAreOrdered(p, q);
  }

  /** The one the others become links to. */
  ghost function First(content: Content, tree: Names, p: Path): (q: Path)
    requires p in tree && Report(p)
    ensures IsLeast(q, Alike(content, tree, p)) && q in tree && Report(q)
  {
    assert p in Alike(content, tree, p);
    FirstExists(content, tree, p);
    var q :| IsLeast(q, Alike(content, tree, p));
    q
  }

  lemma FirstExists(content: Content, tree: Names, p: Path)
    requires p in tree && Report(p)
    ensures exists q :: IsLeast(q, Alike(content, tree, p))
  {
    assert p in Alike(content, tree, p);
    var q := LeastExists(Alike(content, tree, p));
  }

  ghost predicate Linked(content: Content, tree: Names, p: Path)
    requires p in tree && Report(p)
  {
    tree[p] == tree[First(content, tree, p)]
  }

  predicate Directory(tree: Names, p: Path) { exists q :: q in tree && p < q }

  /** What makes the walk fail at p: something else where its temporary link would be. */
  ghost predicate Blocked(content: Content, tree: Names, p: Path)
    requires p in tree && Report(p)
  {
    !Linked(content, tree, p) &&
    ((Temporary(p) in tree && tree[Temporary(p)] != tree[First(content, tree, p)]) || Directory(tree, Temporary(p)))
  }

  /** The walk comes as far as p. */
  ghost predicate Passable(content: Content, tree: Names, p: Path) {
    forall x :: x in tree && Report(x) && PathBefore(x, p) ==> !Blocked(content, tree, x)
  }

  /** The walk renames this report onto the one it stands beside: that one is not yet a link to the first
      report of its content, and this one is. */
  ghost predicate WillConsume(content: Content, tree: Names, e: Path) {
    TemporaryName(e) && e in tree && Base(e) in tree && Report(Base(e)) && !Linked(content, tree, Base(e)) &&
    tree[e] == tree[First(content, tree, Base(e))] && !Blocked(content, tree, Base(e)) && Passable(content, tree, Base(e))
  }
}
