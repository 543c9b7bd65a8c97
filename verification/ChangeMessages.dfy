/** What a change message from the daemon does to the index and to the cached contents (applyChange in
    pkg/session/session.go), path by path, and when an edit's messages keep the index in step. */
module ChangeMessages {
  import opened Basics
  import opened Paths
  import opened FileTree
  import opened ContentCache
  import opened Daemon
  import opened CoherentReads
  import opened IndexSync

  // ---- one message ----

  /** A deletion takes everything at and below its path out of the index, except when it names the root. */
  lemma DeleteMeaning(max: int, m: Mirror, info: FileInfo, x: Path)
    requires Key(info.path) != []
    ensures var files := ChangeApplied(max, m, Delete(Some(info))).files;
      && (Key(info.path) <= x ==> x !in files)
      && (!(Key(info.path) <= x) ==> (x in files <==> x in m.files) && (x in files ==> files[x] == m.files[x]))
  {
  }

  /** It drops exactly the cached content at its path, and below it when the index knew a directory there. */
  lemma DeleteDrops(max: int, m: Mirror, info: FileInfo, e: Entry)
    requires Sane(max, m.lru)
    ensures e in ChangeApplied(max, m, Delete(Some(info))).lru <==>
      e in m.lru && e.path != Key(info.path) && !(KnownDirectory(m.files, info.path) && Key(info.path) <= e.path)
  {
    InvalidatedLeaves(max, m.lru, info.path, KnownDirectory(m.files, info.path));
  }

  /** After a deletion nothing at or below the path can be read, whatever was cached. */
  lemma DeletedIsUnreadable(l: Limits, w: World, info: FileInfo, rel: string, off: int, size: int)
    requires Key(info.path) != [] && Key(info.path) <= Key(rel)
    ensures ReadChunk(l, w.(mirror := ChangeApplied(l.cacheMax, w.mirror, Delete(Some(info)))), rel, off, size).data == None
  {
    DeleteMeaning(l.cacheMax, w.mirror, info, Key(rel));
  }

  /** A creation or modification puts the message's metadata at its path. Other paths keep theirs, but for ancestors
      that were missing or files, and for what lay below a directory that a file replaces. */
  lemma InsertMeaning(max: int, m: Mirror, change: Change, x: Path)
    requires (change.Create? || change.Modify?) && change.file.Some? && Key(change.file.value.path) != []
    ensures var files := ChangeApplied(max, m, change).files;
      var info := change.file.value;
      var k := Key(info.path);
      if x == k then x in files && files[x] == info.(path := Join(k))
      else if IsAncestor(x, k) then x in files && files[x].isDir && (x in m.files && m.files[x].isDir ==> files[x] == m.files[x])
      else if k < x && k in m.files && m.files[k].isDir && !info.isDir then x !in files
      else (x in files <==> x in m.files) && (x in files ==> files[x] == m.files[x])
  {
    InsertedMeaning(m.files, Key(change.file.value.path), change.file.value, x);
  }

  lemma InsertDrops(max: int, m: Mirror, change: Change, e: Entry)
    requires Sane(max, m.lru) && (change.Create? || change.Modify?) && change.file.Some?
    ensures var info := change.file.value;
      e in ChangeApplied(max, m, change).lru <==>
        e in m.lru && e.path != Key(info.path) && !(info.isDir && Key(info.path) <= e.path)
  {
    InvalidatedLeaves(max, m.lru, change.file.value.path, change.file.value.isDir);
  }

  /** A rename takes everything at and below the old path out and puts the message's metadata at the new one. */
  lemma RenameMeaning(max: int, m: Mirror, oldPath: string, info: FileInfo, x: Path)
    requires Key(oldPath) != [] && Key(info.path) != []
    ensures var files := ChangeApplied(max, m, Rename(oldPath, Some(info))).files;
      var k := Key(info.path);
      if x == k then x in files && files[x] == info.(path := Join(k))
      else if IsAncestor(x, k) then x in files && files[x].isDir
      else if Key(oldPath) <= x then x !in files
      else if k < x && k in m.files && !(Key(oldPath) <= k) && m.files[k].isDir && !info.isDir then x !in files
      else (x in files <==> x in m.files) && (x in files ==> files[x] == m.files[x])
  {
    InsertedMeaning(DeletedAt(m.files, oldPath), Key(info.path), info, x);
  }

  lemma RenameDrops(max: int, m: Mirror, oldPath: string, info: FileInfo, e: Entry)
    requires Sane(max, m.lru)
    ensures e in ChangeApplied(max, m, Rename(oldPath, Some(info))).lru <==>
      && e in m.lru
      && e.path != Key(oldPath) && !(KnownDirectory(m.files, oldPath) && Key(oldPath) <= e.path)
      && e.path != Key(info.path) && !(info.isDir && Key(info.path) <= e.path)
  {
    var recursive := KnownDirectory(m.files, oldPath);
    InvalidatedLeaves(max, m.lru, oldPath, recursive);
    InvalidatedLeaves(max, Invalidated(max, m.lru, oldPath, recursive), info.path, info.isDir);
  }

  /** A message the session refuses enters nothing and touches no cached content. */
  lemma RefusedMeaning(max: int, m: Mirror, change: Change)
    requires Refused(change)
    ensures var after := ChangeApplied(max, m, change);
      after.lru == m.lru && after.files == if change.Rename? then DeletedAt(m.files, change.oldPath) else m.files
  {
  }

  // ---- edits and their messages ----

  /** Path x holds the same in both workspaces, as far as an index can tell. */
  predicate SameListing(a: Disk, b: Disk, x: Path) {
    && (x in a <==> x in b)
    && (x in a && x in b ==> a[x].Dir? == b[x].Dir? && (a[x].File? ==> b[x].File? && |a[x].content| == |b[x].content| && a[x].modTime == b[x].modTime))
  }

  /** `info` describes what the workspace now holds at its path, and that is all that changed: the path itself, the
      directories it lies in, and what lay below a directory that became a file. */
  ghost predicate DescribesArrival(before: Disk, after: Disk, info: FileInfo) {
    var k := Key(info.path);
    && k != [] && k in after && info.isDir == after[k].Dir? && SizedAs(info, after[k])
    && forall x: Path :: x != [] && x != k ==> ArrivalAt(before, after, k, info.isDir, x)
  }

  predicate ArrivalAt(before: Disk, after: Disk, k: Path, isDir: bool, x: Path) {
    if IsAncestor(x, k) then x in after && after[x].Dir?
    else if k < x && k in before && before[k].Dir? && !isDir then x !in after
    else SameListing(before, after, x)
  }

  /** Everything at and below the path is gone, and nothing else changed. */
  ghost predicate DescribesRemoval(before: Disk, after: Disk, k: Path) {
    k != [] && forall x: Path :: x != [] ==> RemovalAt(before, after, k, x)
  }

  predicate RemovalAt(before: Disk, after: Disk, k: Path, x: Path) {
    if k <= x then x !in after else SameListing(before, after, x)
  }

  /** The message names the whole difference between the two workspaces. */
  ghost predicate Names(before: Disk, after: Disk, change: Change) {
    match change
    case Create(file) => file.Some? && DescribesArrival(before, after, file.value)
    case Modify(file) => file.Some? && DescribesArrival(before, after, file.value)
    case Delete(file) => file.Some? && DescribesRemoval(before, after, Key(file.value.path))
    case Rename(oldPath, file) =>
      file.Some? && exists between :: DescribesRemoval(before, between, Key(oldPath)) && DescribesArrival(between, after, file.value)
    case Unspecified => false
  }

  /** The messages, in order, name every difference the edit makes. */
  ghost predicate NameAll(before: Disk, after: Disk, changes: seq<Change>)
    decreases |changes|
  {
    if changes == [] then forall x: Path :: x != [] ==> SameListing(before, after, x)
    else exists next :: Names(before, next, changes[0]) && NameAll(next, after, changes[1..])
  }

  lemma ArrivalInSync(files: Files, before: Disk, after: Disk, info: FileInfo)
    requires Synced(files, before) && DescribesArrival(before, after, info)
    ensures Synced(InsertedAt(files, Some(info)), after)
  {
    var k := Key(info.path);
    var now := InsertedAt(files, Some(info));
    forall x: Path | x != [] ensures SyncedAt(now, after, x) {
      InsertedMeaning(files, k, info, x);
      assert SyncedAt(files, before, x) && SyncedAt(files, before, k);
      assert x != k ==> ArrivalAt(before, after, k, info.isDir, x);
    }
  }

  lemma RemovalInSync(files: Files, before: Disk, after: Disk, path: string)
    requires Synced(files, before) && DescribesRemoval(before, after, Key(path))
    ensures Synced(DeletedAt(files, path), after)
  {
    var now := DeletedAt(files, path);
    forall x: Path | x != [] ensures SyncedAt(now, after, x) {
      assert SyncedAt(files, before, x) && RemovalAt(before, after, Key(path), x);
    }
  }

  lemma NamedInSync(max: int, m: Mirror, before: Disk, after: Disk, change: Change)
    requires Synced(m.files, before) && Names(before, after, change)
    ensures Synced(ChangeApplied(max, m, change).files, after) && !Refused(change)
  {
    match change
    case Create(file) => ArrivalInSync(m.files, before, after, file.value);
    case Modify(file) => ArrivalInSync(m.files, before, after, file.value);
    case Delete(file) => RemovalInSync(m.files, before, after, file.value.path);
    case Rename(oldPath, file) =>
      var between :| DescribesRemoval(before, between, Key(oldPath)) && DescribesArrival(between, after, file.value);
      RemovalInSync(m.files, before, between, oldPath);
      ArrivalInSync(DeletedAt(m.files, oldPath), between, after, file.value);
  }

  /** An edit whose messages name every difference leaves the index in step with the workspace. */
  lemma {:induction false} EditInSync(max: int, m: Mirror, before: Disk, after: Disk, changes: seq<Change>)
    requires Synced(m.files, before) && NameAll(before, after, changes)
    ensures Synced(ChangesApplied(max, m, changes).files, after)
    decreases |changes|
  {
    if changes == [] {
      forall x: Path | x != [] ensures SyncedAt(m.files, after, x) {
        assert SyncedAt(m.files, before, x) && SameListing(before, after, x);
      }
    } else {
      var next :| Names(before, next, changes[0]) && NameAll(next, after, changes[1..]);
      NamedInSync(max, m, before, next, changes[0]);
      EditInSync(max, ChangeApplied(max, m, changes[0]), next, after, changes[1..]);
    }
  }

  /** An index in step lists a path exactly when the workspace has it, so a file readable through the view is there. */
  lemma EditedReadable(max: int, m: Mirror, before: Disk, after: Disk, changes: seq<Change>, rel: string)
    requires Synced(m.files, before) && NameAll(before, after, changes) && Key(rel) != []
    ensures Readable(ChangesApplied(max, m, changes).files, rel).Some? <==> Key(rel) in after && after[Key(rel)].File?
  {
    EditInSync(max, m, before, after, changes);
    assert SyncedAt(ChangesApplied(max, m, changes).files, after, Key(rel));
    NotRoot(rel);
  }
}
