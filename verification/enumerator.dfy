/** `get_all_template_filenames_from_directory`: a work-list traversal that
    lists every non-directory entry below a root, failing as a whole on the
    first unreadable directory or entry; and the `is_file` filter applied
    before templates are loaded. The filesystem is a finite in-memory tree. */
module Enumerator {
  import opened Common

  /** One entry of the tree. `entryError` marks an entry whose directory
      record cannot be read; `readError` marks a directory whose listing
      cannot be opened. */
  datatype Node =
    | FileNode(name: string, entryError: bool)
    | DirNode(name: string, entryError: bool, readError: bool, children: seq<Node>)

  /** The directories still to be read, with the paths they sit at. */
  type Worklist = seq<(Path, Node)>

  // The reference semantics. Each is defined over the first `i` children
  // of a directory; the whole directory is `i == |children|`.

  /** The paths of the files below directory `d` (at `p`) among its first
      `i` children, each subdirectory in full. */
  function FilesUpTo(p: Path, d: Node, i: nat): seq<Path>
    requires d.DirNode? && i <= |d.children|
    decreases d, i
  {
    if i == 0 then []
    else
      var ch := d.children[i - 1];
      if ch.DirNode? then FilesUpTo(p, d, i - 1) + FilesUpTo(p + [ch.name], ch, |ch.children|)
      else FilesUpTo(p, d, i - 1) + [p + [ch.name]]
  }

  /** Every file below `n`; a path that is not a directory holds none. */
  function Files(p: Path, n: Node): seq<Path> {
    if n.DirNode? then FilesUpTo(p, n, |n.children|) else []
  }

  /** The paths of the directories below `d` among its first `i` children,
      each listed before the directories inside it. */
  function DirsUpTo(p: Path, d: Node, i: nat): seq<Path>
    requires d.DirNode? && i <= |d.children|
    decreases d, i
  {
    if i == 0 then []
    else
      var ch := d.children[i - 1];
      if ch.DirNode? then DirsUpTo(p, d, i - 1) + ([p + [ch.name]] + DirsUpTo(p + [ch.name], ch, |ch.children|))
      else DirsUpTo(p, d, i - 1)
  }

  /** The directory `n` itself and every directory below it. */
  function Dirs(p: Path, n: Node): seq<Path> {
    if n.DirNode? then [p] + DirsUpTo(p, n, |n.children|) else [p]
  }

  /** One of the first `i` children of `d` is unreadable, or is a directory
      whose reading fails. */
  predicate FailsUpTo(d: Node, i: nat)
    requires d.DirNode? && i <= |d.children|
    decreases d, i
  {
    && i > 0
    && var ch := d.children[i - 1];
      || FailsUpTo(d, i - 1)
      || ch.entryError
      || (ch.DirNode? && (ch.readError || FailsUpTo(ch, |ch.children|)))
  }

  /** Reading the listing of `n` fails, or reading something below it does. */
  predicate ReadFails(n: Node) {
    !n.DirNode? || n.readError || FailsUpTo(n, |n.children|)
  }

  /** Number of entries below `d` among its first `i` children. */
  function SizeUpTo(d: Node, i: nat): nat
    requires d.DirNode? && i <= |d.children|
    decreases d, i
  {
    if i == 0 then 0
    else
      var ch := d.children[i - 1];
      if ch.DirNode? then SizeUpTo(d, i - 1) + 1 + SizeUpTo(ch, |ch.children|) else SizeUpTo(d, i - 1) + 1
  }

  function Size(n: Node): nat {
    if n.DirNode? then 1 + SizeUpTo(n, |n.children|) else 1
  }

  // What one read of a listing produces.

  /** The subdirectories among the first `i` children of `d`, in order, with
      their paths: what the listing pushes. */
  function ChildDirs(p: Path, d: Node, i: nat): Worklist
    requires d.DirNode? && i <= |d.children|
  {
    if i == 0 then []
    else
      var ch := d.children[i - 1];
      if ch.DirNode? then ChildDirs(p, d, i - 1) + [(p + [ch.name], ch)] else ChildDirs(p, d, i - 1)
  }

  /** The other entries among the first `i` children: what the listing
      collects. */
  function ChildFiles(p: Path, d: Node, i: nat): seq<Path>
    requires d.DirNode? && i <= |d.children|
  {
    if i == 0 then []
    else
      var ch := d.children[i - 1];
      if ch.DirNode? then ChildFiles(p, d, i - 1) else ChildFiles(p, d, i - 1) + [p + [ch.name]]
  }

  /** Some entry among the first `i` children is unreadable. */
  predicate EntryErrorUpTo(d: Node, i: nat)
    requires d.DirNode? && i <= |d.children|
  {
    exists j :: 0 <= j < i && d.children[j].entryError
  }

  // The same accounts, summed over a work list.

  function WorkFiles(work: Worklist): multiset<Path> {
    if |work| == 0 then multiset{}
    else multiset(Files(work[0].0, work[0].1)) + WorkFiles(work[1..])
  }

  function WorkDirs(work: Worklist): multiset<Path> {
    if |work| == 0 then multiset{}
    else multiset(Dirs(work[0].0, work[0].1)) + WorkDirs(work[1..])
  }

  function WorkSize(work: Worklist): nat {
    if |work| == 0 then 0
    else Size(work[0].1) + WorkSize(work[1..])
  }

  predicate WorkFails(work: Worklist) {
    |work| > 0 && (ReadFails(work[0].1) || WorkFails(work[1..]))
  }

  /** The files owed by a work list add up over its parts. */
  lemma {:induction false} FilesConcat(a: Worklist, b: Worklist)
    ensures WorkFiles(a + b) == WorkFiles(a) + WorkFiles(b)
  {
    if |a| == 0 {
      assert a + b == b;
    } else {
      assert (a + b)[1..] == a[1..] + b;
      FilesConcat(a[1..], b);
    }
  }

  /** So do the directories owed. */
  lemma {:induction false} DirsConcat(a: Worklist, b: Worklist)
    ensures WorkDirs(a + b) == WorkDirs(a) + WorkDirs(b)
  {
    if |a| == 0 {
      assert a + b == b;
    } else {
      assert (a + b)[1..] == a[1..] + b;
      DirsConcat(a[1..], b);
    }
  }

  /** So does the size. */
  lemma {:induction false} SizeConcat(a: Worklist, b: Worklist)
    ensures WorkSize(a + b) == WorkSize(a) + WorkSize(b)
  {
    if |a| == 0 {
      assert a + b == b;
    } else {
      assert (a + b)[1..] == a[1..] + b;
      SizeConcat(a[1..], b);
    }
  }

  /** A work list fails exactly when one of its parts does. */
  lemma {:induction false} FailsConcat(a: Worklist, b: Worklist)
    ensures WorkFails(a + b) <==> WorkFails(a) || WorkFails(b)
  {
    if |a| == 0 {
      assert a + b == b;
    } else {
      assert (a + b)[1..] == a[1..] + b;
      FailsConcat(a[1..], b);
    }
  }

  /** Adding the same part to both sides of a multiset equation. */
  lemma AddBoth<T>(a: multiset<T>, w: multiset<T>, f: multiset<T>, m: multiset<T>)
    requires a + w == f
    ensures a + (w + m) == f + m
    ensures (a + m) + w == f + m
  {
  }

  /** Child `j` is a subdirectory: it is pushed, and its files are owed. */
  lemma ListingFilesDirStep(p: Path, d: Node, j: nat)
    requires d.DirNode? && j < |d.children| && d.children[j].DirNode?
    requires multiset(ChildFiles(p, d, j)) + WorkFiles(ChildDirs(p, d, j)) == multiset(FilesUpTo(p, d, j))
    ensures multiset(ChildFiles(p, d, j + 1)) + WorkFiles(ChildDirs(p, d, j + 1)) == multiset(FilesUpTo(p, d, j + 1))
  {
    var ch := d.children[j];
    var one := [(p + [ch.name], ch)];
    var below := FilesUpTo(p + [ch.name], ch, |ch.children|);
    assert one[1..] == [];
    FilesConcat(ChildDirs(p, d, j), one);
    assert WorkFiles(one) == multiset(below);
    AddBoth(multiset(ChildFiles(p, d, j)), WorkFiles(ChildDirs(p, d, j)), multiset(FilesUpTo(p, d, j)), multiset(below));
  }

  /** Child `j` is not a directory: it is collected. */
  lemma ListingFilesFileStep(p: Path, d: Node, j: nat)
    requires d.DirNode? && j < |d.children| && !d.children[j].DirNode?
    requires multiset(ChildFiles(p, d, j)) + WorkFiles(ChildDirs(p, d, j)) == multiset(FilesUpTo(p, d, j))
    ensures multiset(ChildFiles(p, d, j + 1)) + WorkFiles(ChildDirs(p, d, j + 1)) == multiset(FilesUpTo(p, d, j + 1))
  {
    var ch := d.children[j];
    AddBoth(multiset(ChildFiles(p, d, j)), WorkFiles(ChildDirs(p, d, j)), multiset(FilesUpTo(p, d, j)), multiset([p + [ch.name]]));
  }

  /** Reading all of a listing pushes subdirectories that, together with the
      entries collected, account for exactly the files below it. */
  lemma {:induction false} ListingFiles(p: Path, d: Node, i: nat)
    requires d.DirNode? && i <= |d.children|
    ensures multiset(ChildFiles(p, d, i)) + WorkFiles(ChildDirs(p, d, i)) == multiset(FilesUpTo(p, d, i))
  {
    if i > 0 {
      var j := i - 1;
      ListingFiles(p, d, j);
      if d.children[j].DirNode? {
        ListingFilesDirStep(p, d, j);
      } else {
        ListingFilesFileStep(p, d, j);
      }
    }
  }

  /** The pushed subdirectories hold exactly the directories below. */
  lemma {:induction false} ListingDirs(p: Path, d: Node, i: nat)
    requires d.DirNode? && i <= |d.children|
    ensures WorkDirs(ChildDirs(p, d, i)) == multiset(DirsUpTo(p, d, i))
  {
    if i > 0 {
      var j := i - 1;
      ListingDirs(p, d, j);
      var ch := d.children[j];
      var prev := ChildDirs(p, d, j);
      if ch.DirNode? {
        var one := [(p + [ch.name], ch)];
        assert ChildDirs(p, d, i) == prev + one;
        DirsConcat(prev, one);
        assert one[1..] == [];
        assert WorkDirs(one) == multiset([p + [ch.name]] + DirsUpTo(p + [ch.name], ch, |ch.children|));
      } else {
      }
    }
  }

  /** Something below fails exactly when a listed entry is unreadable or a
      pushed subdirectory fails. */
  lemma {:induction false} ListingFails(p: Path, d: Node, i: nat)
    requires d.DirNode? && i <= |d.children|
    ensures FailsUpTo(d, i) <==> EntryErrorUpTo(d, i) || WorkFails(ChildDirs(p, d, i))
  {
    if i > 0 {
      var j := i - 1;
      ListingFails(p, d, j);
      var ch := d.children[j];
      var prev := ChildDirs(p, d, j);
      assert EntryErrorUpTo(d, i) <==> EntryErrorUpTo(d, j) || ch.entryError by {
        if EntryErrorUpTo(d, i) && !EntryErrorUpTo(d, j) {
          var w :| 0 <= w < i && d.children[w].entryError;
          assert w == j;
        }
        if ch.entryError {
          assert d.children[j].entryError;
        }
      }
      if ch.DirNode? {
        var one := [(p + [ch.name], ch)];
        assert ChildDirs(p, d, i) == prev + one;
        FailsConcat(prev, one);
        assert one[1..] == [];
        assert WorkFails(one) <==> ReadFails(ch);
      } else {
      }
    }
  }

  /** The pushed subdirectories are smaller than the directory read. */
  lemma {:induction false} ListingSize(p: Path, d: Node, i: nat)
    requires d.DirNode? && i <= |d.children|
    ensures WorkSize(ChildDirs(p, d, i)) <= SizeUpTo(d, i)
  {
    if i > 0 {
      var j := i - 1;
      ListingSize(p, d, j);
      var ch := d.children[j];
      var prev := ChildDirs(p, d, j);
      if ch.DirNode? {
        var one := [(p + [ch.name], ch)];
        assert ChildDirs(p, d, i) == prev + one;
        SizeConcat(prev, one);
        assert one[1..] == [];
        assert WorkSize(one) == Size(ch);
      } else {
      }
    }
  }

  /** One iteration of the outer loop: the entries of directory `d` (at
      `p`) are read in order; subdirectories are pushed onto the work list
      and other entries collected. The first unreadable entry aborts with
      its path. */
  method ReadListing(p: Path, d: Node, filenames: seq<Path>, work: Worklist)
    returns (r: Result<(seq<Path>, Worklist), IoError>)
    requires d.DirNode?
    ensures r.Err? <==> EntryErrorUpTo(d, |d.children|)
    ensures r.Ok? ==> r.value == (filenames + ChildFiles(p, d, |d.children|), work + ChildDirs(p, d, |d.children|))
    ensures r.Err? ==> exists j ::
      && 0 <= j < |d.children| && d.children[j].entryError
      && !EntryErrorUpTo(d, j) && r.error == IoError(p + [d.children[j].name])
  {
    var files := filenames;
    var pending := work;
    var i := 0;
    while i < |d.children|
      invariant 0 <= i <= |d.children|
      invariant !EntryErrorUpTo(d, i)
      invariant files == filenames + ChildFiles(p, d, i)
      invariant pending == work + ChildDirs(p, d, i)
    {
      var ch := d.children[i];
      if ch.entryError {
        return Err(IoError(p + [ch.name]));
      }
      if ch.DirNode? {
        pending := pending + [(p + [ch.name], ch)];
      } else {
        files := files + [p + [ch.name]];
      }
      i := i + 1;
    }
    return Ok((files, pending));
  }

  // Popping `(p, d)` off the work list and pushing what its listing yields
  // keeps every account.

  lemma PopFiles(rest: Worklist, p: Path, d: Node)
    requires d.DirNode?
    ensures WorkFiles(rest + [(p, d)])
      == WorkFiles(rest + ChildDirs(p, d, |d.children|)) + multiset(ChildFiles(p, d, |d.children|))
  {
    FilesConcat(rest, [(p, d)]);
    FilesConcat(rest, ChildDirs(p, d, |d.children|));
    ListingFiles(p, d, |d.children|);
  }

  lemma PopDirs(rest: Worklist, p: Path, d: Node)
    requires d.DirNode?
    ensures WorkDirs(rest + [(p, d)]) == WorkDirs(rest + ChildDirs(p, d, |d.children|)) + multiset{p}
  {
    DirsConcat(rest, [(p, d)]);
    DirsConcat(rest, ChildDirs(p, d, |d.children|));
    ListingDirs(p, d, |d.children|);
  }

  lemma PopSize(rest: Worklist, p: Path, d: Node)
    requires d.DirNode?
    ensures WorkSize(rest + ChildDirs(p, d, |d.children|)) < WorkSize(rest + [(p, d)])
  {
    SizeConcat(rest, [(p, d)]);
    SizeConcat(rest, ChildDirs(p, d, |d.children|));
    ListingSize(p, d, |d.children|);
  }

  lemma PopFails(rest: Worklist, p: Path, d: Node)
    requires d.DirNode? && !d.readError
    ensures WorkFails(rest + [(p, d)])
      <==> WorkFails(rest + ChildDirs(p, d, |d.children|)) || EntryErrorUpTo(d, |d.children|)
  {
    FailsConcat(rest, [(p, d)]);
    FailsConcat(rest, ChildDirs(p, d, |d.children|));
    ListingFails(p, d, |d.children|);
  }

  /** A non-empty sequence is its front followed by its last element. */
  lemma SplitLast<T, U>(s: seq<(T, U)>)
    requires |s| > 0
    ensures s == s[..|s| - 1] + [(s[|s| - 1].0, s[|s| - 1].1)]
  {
  }

  /** Moving a part from one side of a sum to the other. */
  lemma Regroup<T>(a: multiset<T>, w: multiset<T>, c: multiset<T>, t: multiset<T>)
    requires a + (w + c) == t
    ensures (a + c) + w == t
  {
  }

  // The loop invariants of the traversal, carried over one iteration.

  lemma FilesAccountStep(total: multiset<Path>, filenames: seq<Path>, rest: Worklist, p: Path, d: Node)
    requires d.DirNode?
    requires multiset(filenames) + WorkFiles(rest + [(p, d)]) == total
    ensures multiset(filenames + ChildFiles(p, d, |d.children|)) + WorkFiles(rest + ChildDirs(p, d, |d.children|)) == total
  {
    PopFiles(rest, p, d);
    Regroup(multiset(filenames), WorkFiles(rest + ChildDirs(p, d, |d.children|)), multiset(ChildFiles(p, d, |d.children|)), total);
  }

  lemma DirsAccountStep(total: multiset<Path>, visited: seq<Path>, rest: Worklist, p: Path, d: Node)
    requires d.DirNode?
    requires multiset(visited) + WorkDirs(rest + [(p, d)]) == total
    ensures multiset(visited + [p]) + WorkDirs(rest + ChildDirs(p, d, |d.children|)) == total
  {
    PopDirs(rest, p, d);
    Regroup(multiset(visited), WorkDirs(rest + ChildDirs(p, d, |d.children|)), multiset{p}, total);
  }

  lemma FailsAccountStep(tree: Node, rest: Worklist, p: Path, d: Node)
    requires d.DirNode? && !d.readError && !EntryErrorUpTo(d, |d.children|)
    requires ReadFails(tree) <==> WorkFails(rest + [(p, d)])
    ensures ReadFails(tree) <==> WorkFails(rest + ChildDirs(p, d, |d.children|))
  {
    PopFails(rest, p, d);
  }

  /** A directory that cannot be read, or holds an unreadable entry, makes
      the whole traversal fail. */
  lemma FailsOnPop(tree: Node, rest: Worklist, p: Path, d: Node)
    requires ReadFails(tree) <==> WorkFails(rest + [(p, d)])
    requires !d.DirNode? || d.readError || EntryErrorUpTo(d, |d.children|)
    ensures ReadFails(tree)
  {
    FailsConcat(rest, [(p, d)]);
    if d.DirNode? && !d.readError {
      PopFails(rest, p, d);
    }
  }

  /** The traversal: pop a directory, read its listing, push each
      subdirectory and collect each other entry. Any read error aborts the
      whole call and no partial list is returned. On success the list holds
      every file below the root exactly as often as the tree does, in an
      unspecified order, and `visited` lists the directories whose listing
      was read: each directory of the tree exactly once. */
  method AllTemplateFilenames(root: Path, tree: Node) returns (r: Result<seq<Path>, IoError>, ghost visited: seq<Path>)
    ensures r.Ok? <==> !ReadFails(tree)
    ensures r.Ok? ==> multiset(r.value) == multiset(Files(root, tree))
    ensures r.Ok? ==> multiset(visited) == multiset(Dirs(root, tree))
  {
    var filenames: seq<Path> := [];
    var work: Worklist := [(root, tree)];
    visited := [];
    while |work| > 0
      invariant multiset(filenames) + WorkFiles(work) == multiset(Files(root, tree))
      invariant multiset(visited) + WorkDirs(work) == multiset(Dirs(root, tree))
      invariant ReadFails(tree) <==> WorkFails(work)
      decreases WorkSize(work)
    {
      var rest, p, d := work[..|work| - 1], work[|work| - 1].0, work[|work| - 1].1;
      SplitLast(work);
      if !d.DirNode? || d.readError {
        FailsOnPop(tree, rest, p, d);
        return Err(IoError(p)), visited;
      }
      var listed := ReadListing(p, d, filenames, rest);
      if listed.Err? {
        FailsOnPop(tree, rest, p, d);
        return Err(listed.error), visited;
      }
      FilesAccountStep(multiset(Files(root, tree)), filenames, rest, p, d);
      DirsAccountStep(multiset(Dirs(root, tree)), visited, rest, p, d);
      FailsAccountStep(tree, rest, p, d);
      PopSize(rest, p, d);
      filenames, work := listed.value.0, listed.value.1;
      visited := visited + [p];
    }
    return Ok(filenames), visited;
  }

  /** Every listed file lies strictly below the path of the directory it
      was found in. */
  lemma {:induction false} FilesBelow(p: Path, d: Node, i: nat)
    requires d.DirNode? && i <= |d.children|
    ensures forall q :: q in FilesUpTo(p, d, i) ==> p < q
    decreases d, i
  {
    if i > 0 {
      FilesBelow(p, d, i - 1);
      var ch := d.children[i - 1];
      if ch.DirNode? {
        FilesBelow(p + [ch.name], ch, |ch.children|);
        forall q | q in FilesUpTo(p + [ch.name], ch, |ch.children|) ensures p < q {
          assert q[..|p|] == (p + [ch.name])[..|p|];
        }
      }
    }
  }

  /** Whether a path names a regular file (`Path::is_file`). */
  type IsRegularFile = Path -> bool

  /** The paths `load_template_files_from_filenames` hands to the engine:
      those given that are regular files, each as often as it is given. */
  function RegularFiles(paths: seq<Path>, isFile: IsRegularFile): (r: seq<Path>)
    ensures forall q :: q in r ==> isFile(q)
    ensures forall q :: isFile(q) ==> multiset(r)[q] == multiset(paths)[q]
    ensures |r| <= |paths|
  {
    if |paths| == 0 then []
    else
      var rest := RegularFiles(paths[1..], isFile);
      assert paths == [paths[0]] + paths[1..];
      if isFile(paths[0]) then [paths[0]] + rest else rest
  }

  /** The engine's `add_template_files`: whether loading succeeds. */
  type TemplateLoader = seq<Path> -> bool

  /** The filter keeps a list of regular files as it is, and empties a list
      with none. */
  lemma {:induction false} RegularFilesExtremes(paths: seq<Path>, isFile: IsRegularFile)
    ensures (forall k :: 0 <= k < |paths| ==> isFile(paths[k])) ==> RegularFiles(paths, isFile) == paths
    ensures (forall k :: 0 <= k < |paths| ==> !isFile(paths[k])) ==> RegularFiles(paths, isFile) == []
  {
    if |paths| > 0 {
      RegularFilesExtremes(paths[1..], isFile);
      assert forall k :: 1 <= k < |paths| ==> paths[1..][k - 1] == paths[k];
      assert paths == [paths[0]] + paths[1..];
    }
  }

  /** `load_template_files_from_filenames`: loads only the regular files. */
  function LoadTemplateFiles(paths: seq<Path>, isFile: IsRegularFile, load: TemplateLoader): bool {
    load(RegularFiles(paths, isFile))
  }

  /** When every path is a regular file the engine is handed exactly the
      paths given; when none is, it is handed nothing. */
  lemma LoadTemplateFilesExtremes(paths: seq<Path>, isFile: IsRegularFile, load: TemplateLoader)
    ensures (forall k :: 0 <= k < |paths| ==> isFile(paths[k])) ==> LoadTemplateFiles(paths, isFile, load) == load(paths)
    ensures (forall k :: 0 <= k < |paths| ==> !isFile(paths[k])) ==> LoadTemplateFiles(paths, isFile, load) == load([])
  {
    RegularFilesExtremes(paths, isFile);
  }
}
