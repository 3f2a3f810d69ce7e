/**
 * compare.py: the snapshot differencer. Two snapshots are compared by path
 * set algebra (added = new - old, removed = old - new, common = old & new);
 * a common path is modified when its bytes differ. The result holds one record
 * per differing path, all Added first, then all Removed, then all Modified.
 */
module Compare {
  import opened Wrappers
  import opened Strings
  import opened Env

  type Path = string

  /** The regular files under one root: path relative to the root, to its bytes. */
  type Snapshot = map<Path, Bytes>

  datatype ChangeKind = Added | Removed | Modified

  /**
   * A FileChange: FileAdded, FileRemoved or FileModified, with the two roots
   * the change was found between and the path relative to them.
   */
  datatype FileChange = FileChange(kind: ChangeKind, oldRoot: Snapshot, newRoot: Snapshot, path: Path)

  /**
   * Reading a file as text and diffing two texts, left abstract: `readLines`
   * is `open(..., "r").readlines()` (None when decoding raises
   * UnicodeDecodeError) and `unifiedDiffLength` is
   * `len(list(difflib.unified_diff(a, b)))`.
   */
  datatype TextDiff = TextDiff(
    readLines: Bytes -> Option<seq<string>>,
    unifiedDiffLength: (seq<string>, seq<string>) -> nat)

  const BinaryFilesDiffer: string := "Binary files differ"

  /** A modified record can only be described when both of its files exist. */
  predicate Readable(c: FileChange) {
    c.kind == Modified ==> c.path in c.oldRoot && c.path in c.newRoot
  }

  /** Both sides of a modified record decode as text. */
  predicate BothDecode(c: FileChange, text: TextDiff)
    requires Readable(c)
  {
    c.kind == Modified
    && text.readLines(c.oldRoot[c.path]).Some?
    && text.readLines(c.newRoot[c.path]).Some?
  }

  /** `FileChange.modifications()` for each of the three record kinds. */
  function Modifications(c: FileChange, text: TextDiff): string
    requires Readable(c)
  {
    match c.kind
    case Removed => "File Removed"
    case Added => "File Added"
    case Modified =>
      match (text.readLines(c.oldRoot[c.path]), text.readLines(c.newRoot[c.path]))
      case (Some(oldLines), Some(newLines)) => NatToString(text.unifiedDiffLength(oldLines, newLines))
      case _ => BinaryFilesDiffer
  }

  /**
   * What `modifications()` reports: the fixed texts for Added and Removed, and
   * for Modified the diff length in decimal exactly when both sides decode,
   * "Binary files differ" otherwise (a decode failure never escapes).
   */
  lemma ModificationsMeaning(c: FileChange, text: TextDiff)
    requires Readable(c)
    ensures c.kind == Removed ==> Modifications(c, text) == "File Removed"
    ensures c.kind == Added ==> Modifications(c, text) == "File Added"
    ensures ParseNat(Modifications(c, text)).Some? <==> BothDecode(c, text)
    ensures BothDecode(c, text) ==>
      ParseNat(Modifications(c, text)) == Some(text.unifiedDiffLength(
        text.readLines(c.oldRoot[c.path]).value, text.readLines(c.newRoot[c.path]).value))
    ensures c.kind == Modified && !BothDecode(c, text) ==> Modifications(c, text) == BinaryFilesDiffer
  {
    var m := Modifications(c, text);
    if BothDecode(c, text) {
      ParseNatToString(text.unifiedDiffLength(
        text.readLines(c.oldRoot[c.path]).value, text.readLines(c.newRoot[c.path]).value));
    } else {
      assert m[|m| - 1] in "drd";
    }
  }

  function Elems(s: seq<Path>): set<Path> {
    set p | p in s
  }

  predicate NoDuplicates(s: seq<Path>) {
    forall i, j :: 0 <= i < j < |s| ==> s[i] != s[j]
  }

  lemma ElemsConcat(a: seq<Path>, b: seq<Path>)
    ensures Elems(a + b) == Elems(a) + Elems(b)
  {
  }

  lemma NoDuplicatesAppend(s: seq<Path>, p: Path)
    requires NoDuplicates(s) && p !in Elems(s)
    ensures NoDuplicates(s + [p]) && Elems(s + [p]) == Elems(s) + {p}
  {
  }

  /** A list without repetitions has as many distinct elements as entries. */
  lemma {:induction false} DistinctCard(s: seq<Path>)
    requires NoDuplicates(s)
    ensures |Elems(s)| == |s|
  {
    if s != [] {
      var last := s[|s| - 1];
      var init := s[..|s| - 1];
      assert Elems(s) == Elems(init) + {last};
      assert last !in Elems(init);
      DistinctCard(init);
    }
  }

  /** The change a path calls for between two snapshots; None for an unchanged or absent path. */
  function ChangeAt(oldRoot: Snapshot, newRoot: Snapshot, p: Path): Option<ChangeKind>
  {
    if p in newRoot && p !in oldRoot then Some(Added)
    else if p in oldRoot && p !in newRoot then Some(Removed)
    else if p in oldRoot && p in newRoot && oldRoot[p] != newRoot[p] then Some(Modified)
    else None
  }

  /** Every path of either snapshot that calls for a record. */
  function ChangedPaths(oldRoot: Snapshot, newRoot: Snapshot): set<Path>
  {
    set p | p in oldRoot.Keys + newRoot.Keys && ChangeAt(oldRoot, newRoot, p).Some?
  }

  function Rank(k: ChangeKind): nat {
    match k
    case Added => 0
    case Removed => 1
    case Modified => 2
  }

  function PathList(changes: seq<FileChange>): seq<Path> {
    seq(|changes|, i requires 0 <= i < |changes| => changes[i].path)
  }

  /** All Added records first, then all Removed, then all Modified. */
  predicate Grouped(changes: seq<FileChange>) {
    forall i, j :: 0 <= i < j < |changes| ==> Rank(changes[i].kind) <= Rank(changes[j].kind)
  }

  /**
   * `changes` is what `compare` promises for the two snapshots: each record is
   * the change its path calls for, every changed path has exactly one record,
   * and the records come grouped by kind.
   */
  ghost predicate IsDiff(changes: seq<FileChange>, oldRoot: Snapshot, newRoot: Snapshot) {
    && RecordsMatch(changes, oldRoot, newRoot)
    && Elems(PathList(changes)) == ChangedPaths(oldRoot, newRoot)
    && NoDuplicates(PathList(changes))
    && Grouped(changes)
  }

  /** Every record is between the two roots and is the change its path calls for. */
  predicate RecordsMatch(changes: seq<FileChange>, oldRoot: Snapshot, newRoot: Snapshot) {
    forall c :: c in changes ==>
      c.oldRoot == oldRoot && c.newRoot == newRoot && ChangeAt(oldRoot, newRoot, c.path) == Some(c.kind)
  }

  /** Added, Removed, Modified and Unchanged split the paths of both snapshots. */
  lemma ChangeKindsPartition(oldRoot: Snapshot, newRoot: Snapshot, p: Path)
    requires p in oldRoot.Keys + newRoot.Keys
    ensures ChangeAt(oldRoot, newRoot, p) == Some(Added) <==> p in newRoot.Keys - oldRoot.Keys
    ensures ChangeAt(oldRoot, newRoot, p) == Some(Removed) <==> p in oldRoot.Keys - newRoot.Keys
    ensures ChangeAt(oldRoot, newRoot, p) == Some(Modified) <==> p in oldRoot.Keys * newRoot.Keys && oldRoot[p] != newRoot[p]
    ensures ChangeAt(oldRoot, newRoot, p) == None <==> p in oldRoot.Keys * newRoot.Keys && oldRoot[p] == newRoot[p]
  {
  }

  /** One record per changed path: the list is as long as the set of changed paths. */
  lemma DiffLength(changes: seq<FileChange>, oldRoot: Snapshot, newRoot: Snapshot)
    requires IsDiff(changes, oldRoot, newRoot)
    ensures |changes| == |ChangedPaths(oldRoot, newRoot)|
  {
    DistinctCard(PathList(changes));
  }

  /** Two identical snapshots produce no record at all. */
  lemma IdenticalSnapshotsNoChanges(changes: seq<FileChange>, s: Snapshot)
    requires IsDiff(changes, s, s)
    ensures changes == []
  {
    assert ChangedPaths(s, s) == {};
    DiffLength(changes, s, s);
  }

  /**
   * The records of one kind for a set of paths, in the set's iteration order
   * (the list comprehensions in `compare`).
   */
  method Records(kind: ChangeKind, oldRoot: Snapshot, newRoot: Snapshot, paths: set<Path>)
    returns (records: seq<FileChange>)
    ensures forall c :: c in records ==> c == FileChange(kind, oldRoot, newRoot, c.path)
    ensures Elems(PathList(records)) == paths
    ensures NoDuplicates(PathList(records))
  {
    records := [];
    var pending := paths;
    while pending != {}
      invariant pending <= paths
      invariant forall c :: c in records ==> c == FileChange(kind, oldRoot, newRoot, c.path)
      invariant Elems(PathList(records)) == paths - pending
      invariant NoDuplicates(PathList(records))
      decreases pending
    {
      var p :| p in pending;
      assert PathList(records + [FileChange(kind, oldRoot, newRoot, p)]) == PathList(records) + [p];
      NoDuplicatesAppend(PathList(records), p);
      records := records + [FileChange(kind, oldRoot, newRoot, p)];
      pending := pending - {p};
    }
  }

  class FileComparer {
    const oldPath: Snapshot
    const newPath: Snapshot
    var oldFiles: seq<Path>
    var newFiles: seq<Path>

    constructor(oldPath: Snapshot, newPath: Snapshot)
      ensures this.oldPath == oldPath && this.newPath == newPath
      ensures oldFiles == [] && newFiles == []
    {
      this.oldPath := oldPath;
      this.newPath := newPath;
      oldFiles := [];
      newFiles := [];
    }

    /** The two file lists hold every file of their snapshot, once each. */
    ghost predicate Walked()
      reads this
    {
      && Elems(oldFiles) == oldPath.Keys && NoDuplicates(oldFiles)
      && Elems(newFiles) == newPath.Keys && NoDuplicates(newFiles)
    }

    /** `walk_files`: list the files of both snapshots into `old_files` and `new_files`. */
    method WalkFiles()
      modifies this`oldFiles, this`newFiles
      ensures Walked()
    {
      oldFiles := [];
      newFiles := [];
      var pending := oldPath.Keys;
      while pending != {}
        invariant pending <= oldPath.Keys
        invariant Elems(oldFiles) == oldPath.Keys - pending && NoDuplicates(oldFiles)
        invariant newFiles == []
        decreases pending
      {
        var file :| file in pending;
        NoDuplicatesAppend(oldFiles, file);
        oldFiles := oldFiles + [file];
        pending := pending - {file};
      }
      pending := newPath.Keys;
      while pending != {}
        invariant pending <= newPath.Keys
        invariant Elems(newFiles) == newPath.Keys - pending && NoDuplicates(newFiles)
        invariant Elems(oldFiles) == oldPath.Keys && NoDuplicates(oldFiles)
        decreases pending
      {
        var file :| file in pending;
        NoDuplicatesAppend(newFiles, file);
        newFiles := newFiles + [file];
        pending := pending - {file};
      }
    }

    /** `added_files`: the paths only the new snapshot has. */
    function AddedFiles(): (added: set<Path>)
      reads this
      ensures Walked() ==> added == newPath.Keys - oldPath.Keys
    {
      Elems(newFiles) - Elems(oldFiles)
    }

    /** `removed_files`: the paths only the old snapshot has. */
    function RemovedFiles(): (removed: set<Path>)
      reads this
      ensures Walked() ==> removed == oldPath.Keys - newPath.Keys
    {
      Elems(oldFiles) - Elems(newFiles)
    }

    /** `common_files`: the paths both snapshots have. */
    function CommonFiles(): (common: set<Path>)
      reads this
      ensures Walked() ==> common == oldPath.Keys * newPath.Keys
    {
      Elems(oldFiles) * Elems(newFiles)
    }

    /** Added, removed and common are pairwise disjoint and together cover both snapshots. */
    lemma FileSetsPartition()
      requires Walked()
      ensures AddedFiles() !! RemovedFiles() && AddedFiles() !! CommonFiles() && RemovedFiles() !! CommonFiles()
      ensures AddedFiles() + RemovedFiles() + CommonFiles() == oldPath.Keys + newPath.Keys
    {
    }

    /**
     * `modified_files`: the common paths whose bytes differ, each once; a path
     * outside the common files is never yielded.
     */
    method ModifiedFiles() returns (modified: seq<Path>)
      requires Walked()
      ensures NoDuplicates(modified)
      ensures forall p :: p in modified <==> p in CommonFiles() && oldPath[p] != newPath[p]
    {
      modified := [];
      var pending := CommonFiles();
      while pending != {}
        invariant pending <= CommonFiles()
        invariant NoDuplicates(modified)
        invariant forall p :: p in modified <==> p in CommonFiles() - pending && oldPath[p] != newPath[p]
        decreases pending
      {
        var file :| file in pending;
        pending := pending - {file};
        if oldPath[file] == newPath[file] {
          continue;
        }
        NoDuplicatesAppend(modified, file);
        modified := modified + [file];
      }
    }

    /**
     * `compare`: walk both snapshots, then list the Added, the Removed and the
     * Modified records, in that order.
     */
    method Compare() returns (changes: seq<FileChange>)
      modifies this`oldFiles, this`newFiles
      ensures Walked()
      ensures IsDiff(changes, oldPath, newPath)
    {
      WalkFiles();
      changes := [];
      var added := Records(Added, oldPath, newPath, AddedFiles());
      changes := changes + added;
      var removed := Records(Removed, oldPath, newPath, RemovedFiles());
      changes := changes + removed;
      var modifiedPaths := ModifiedFiles();
      var modified := Records(Modified, oldPath, newPath, Elems(modifiedPaths));
      changes := changes + modified;
      assert changes == added + removed + modified;
      GroupsFormDiff(added, removed, modified, oldPath, newPath);
    }
  }

  /** Two lists without repetitions and with no element in common concatenate without repetitions. */
  lemma NoDuplicatesConcat(a: seq<Path>, b: seq<Path>)
    requires NoDuplicates(a) && NoDuplicates(b) && Elems(a) !! Elems(b)
    ensures NoDuplicates(a + b)
  {
    forall i, j | 0 <= i < j < |a + b| ensures (a + b)[i] != (a + b)[j] {
      if i < |a| && j >= |a| {
        assert (a + b)[i] in Elems(a) && (a + b)[j] in Elems(b);
      }
    }
  }

  lemma PathListConcat(a: seq<FileChange>, b: seq<FileChange>)
    ensures PathList(a + b) == PathList(a) + PathList(b)
  {
  }

  /** A record of a group has its path in the group's path list. */
  lemma PathOfRecord(group: seq<FileChange>, k: nat)
    requires k < |group|
    ensures group[k].path in Elems(PathList(group))
  {
    assert PathList(group)[k] == group[k].path;
  }

  /** Every record of a group whose paths all call for the group's kind is the change its path calls for. */
  lemma GroupRecordsMatch(group: seq<FileChange>, kind: ChangeKind, oldRoot: Snapshot, newRoot: Snapshot)
    requires forall c :: c in group ==> c == FileChange(kind, oldRoot, newRoot, c.path)
    requires forall p :: p in Elems(PathList(group)) ==> ChangeAt(oldRoot, newRoot, p) == Some(kind)
    ensures RecordsMatch(group, oldRoot, newRoot)
  {
    forall c | c in group
      ensures c.oldRoot == oldRoot && c.newRoot == newRoot && ChangeAt(oldRoot, newRoot, c.path) == Some(c.kind)
    {
      var k :| 0 <= k < |group| && group[k] == c;
      PathOfRecord(group, k);
    }
  }

  /** Records with the right kinds and paths, concatenated in group order, form the diff. */
  lemma GroupsFormDiff(added: seq<FileChange>, removed: seq<FileChange>, modified: seq<FileChange>,
                       oldRoot: Snapshot, newRoot: Snapshot)
    requires forall c :: c in added ==> c == FileChange(Added, oldRoot, newRoot, c.path)
    requires forall c :: c in removed ==> c == FileChange(Removed, oldRoot, newRoot, c.path)
    requires forall c :: c in modified ==> c == FileChange(Modified, oldRoot, newRoot, c.path)
    requires Elems(PathList(added)) == newRoot.Keys - oldRoot.Keys && NoDuplicates(PathList(added))
    requires Elems(PathList(removed)) == oldRoot.Keys - newRoot.Keys && NoDuplicates(PathList(removed))
    requires Elems(PathList(modified)) == set p | p in oldRoot.Keys * newRoot.Keys && oldRoot[p] != newRoot[p]
    requires NoDuplicates(PathList(modified))
    ensures IsDiff(added + removed + modified, oldRoot, newRoot)
  {
    var changes := added + removed + modified;
    var paths := PathList(changes);
    GroupRecordsMatch(added, Added, oldRoot, newRoot);
    GroupRecordsMatch(removed, Removed, oldRoot, newRoot);
    assert RecordsMatch(modified, oldRoot, newRoot) by {
      GroupRecordsMatch(modified, Modified, oldRoot, newRoot);
    }
    RecordsMatchConcat(added, removed, oldRoot, newRoot);
    RecordsMatchConcat(added + removed, modified, oldRoot, newRoot);
    GroupedConcat(added, removed, modified);
    assert paths == PathList(added) + PathList(removed) + PathList(modified) by {
      PathListConcat(added, removed);
      PathListConcat(added + removed, modified);
    }
    assert Elems(paths) == ChangedPaths(oldRoot, newRoot) by {
      ElemsConcat(PathList(added), PathList(removed));
      ElemsConcat(PathList(added) + PathList(removed), PathList(modified));
    }
    assert NoDuplicates(paths) by {
      NoDuplicatesConcat(PathList(added), PathList(removed));
      NoDuplicatesConcat(PathList(added) + PathList(removed), PathList(modified));
    }
  }

  lemma RecordsMatchConcat(a: seq<FileChange>, b: seq<FileChange>, oldRoot: Snapshot, newRoot: Snapshot)
    requires RecordsMatch(a, oldRoot, newRoot) && RecordsMatch(b, oldRoot, newRoot)
    ensures RecordsMatch(a + b, oldRoot, newRoot)
  {
  }

  /** Added records, then Removed, then Modified, are grouped. */
  lemma GroupedConcat(added: seq<FileChange>, removed: seq<FileChange>, modified: seq<FileChange>)
    requires forall c :: c in added ==> c.kind == Added
    requires forall c :: c in removed ==> c.kind == Removed
    requires forall c :: c in modified ==> c.kind == Modified
    ensures Grouped(added + removed + modified)
  {
    var changes := added + removed + modified;
    forall i, j | 0 <= i < j < |changes| ensures Rank(changes[i].kind) <= Rank(changes[j].kind) {
      assert changes[i] in added || changes[i] in removed || changes[i] in modified;
      assert changes[j] in added || changes[j] in removed || changes[j] in modified;
      if j < |added| {
        assert changes[i] == added[i] && changes[j] == added[j];
      } else if i >= |added| + |removed| {
        assert changes[i] == modified[i - |added| - |removed|] && changes[j] == modified[j - |added| - |removed|];
      } else if i >= |added| && j < |added| + |removed| {
        assert changes[i] == removed[i - |added|] && changes[j] == removed[j - |added|];
      }
    }
  }

}
