/** How far the server's index keeps up with the daemon's workspace under the view's own calls
    (pkg/fusefs/view.go, pkg/session/session.go). It does for every call except the rename of a
    directory that has something below it: the index then has only the directory at its new path. */
module IndexSync {
  import opened Basics
  import opened Paths
  import opened FileTree
  import opened Daemon
  import opened CoherentReads

  /** The index lists exactly what the workspace holds, with the right kinds, and the right size and time of files. */
  ghost predicate Synced(files: Files, disk: Disk) {
    forall k: Path :: k != [] ==> SyncedAt(files, disk, k)
  }

  predicate SyncedAt(files: Files, disk: Disk, k: Path) {
    && (k in files <==> k in disk)
    && (k in files && k in disk ==> files[k].isDir == disk[k].Dir? && (disk[k].File? ==> SizedAs(files[k], disk[k])))
  }

  predicate SizedAs(info: FileInfo, item: Item) {
    item.File? ==> info.size == |item.content| && info.modTime == item.modTime
  }

  // ---- one call ----

  /** Storing an item of the kind that was there, or a new one, under a directory. */
  lemma StoredInSync(files: Files, disk: Disk, k: Path, item: Item, info: FileInfo)
    requires Synced(files, disk) && IsTree(disk) && ParentIsDir(disk, k) && Key(info.path) == k
    requires k in disk ==> disk[k].Dir? == item.Dir?
    requires info.isDir == item.Dir? && SizedAs(info, item)
    ensures Synced(InsertedAt(files, Some(info)), disk[k := item])
  {
    var after, stored := InsertedAt(files, Some(info)), disk[k := item];
    forall x: Path | x != [] ensures SyncedAt(after, stored, x) {
      assert SyncedAt(files, disk, x) && SyncedAt(files, disk, k);
      InsertedMeaning(files, k, info, x);
      if IsAncestor(x, k) {
        AncestorIsDir(disk, k, x);
      }
    }
  }

  lemma AncestorIsDir(disk: Disk, k: Path, x: Path)
    requires IsTree(disk) && ParentIsDir(disk, k) && IsAncestor(x, k)
    ensures x in disk && disk[x].Dir?
  {
    assert x <= Parent(k);
    assert x != Parent(k) ==> IsAncestor(x, Parent(k));
  }

  lemma MadeInSync(files: Files, disk: Disk, k: Path, now: int, info: FileInfo)
    requires Synced(files, disk) && Key(info.path) == k && info.isDir
    requires forall j :: j in Ancestors(k) + {k} && j in disk ==> disk[j].Dir?
    ensures Synced(InsertedAt(files, Some(info)), disk + (map j | j in Ancestors(k) + {k} && j !in disk :: Dir(now)))
  {
    var after := disk + (map j | j in Ancestors(k) + {k} && j !in disk :: Dir(now));
    forall x: Path | x != [] ensures SyncedAt(InsertedAt(files, Some(info)), after, x) {
      assert SyncedAt(files, disk, x);
      if k != [] {
        InsertedMeaning(files, k, info, x);
      }
    }
  }

  lemma RemovedInSync(files: Files, disk: Disk, path: string)
    requires Synced(files, disk) && Key(path) in disk && forall j :: j in disk ==> !(Key(path) < j)
    ensures Synced(DeletedAt(files, path), disk - {Key(path)})
  {
    var after, left := DeletedAt(files, path), disk - {Key(path)};
    forall x: Path | x != [] ensures SyncedAt(after, left, x) {
      assert SyncedAt(files, disk, x);
      assert x in disk ==> !(Key(path) < x);
      assert Key(path) <= x ==> x == Key(path) || Key(path) < x;
    }
  }

  /** What a rename the system allows starts from. */
  ghost predicate Movable(disk: Disk, from: Path, to: Path) {
    && IsTree(disk) && from in disk && from != [] && to != [] && !(from < to)
    && ParentIsDir(disk, to) && CanReplace(disk, from, to)
  }

  lemma MovedIndexAt(files: Files, disk: Disk, oldPath: string, to: Path, info: FileInfo, x: Path)
    requires Synced(files, disk) && Movable(disk, Key(oldPath), to) && Key(info.path) == to && x != []
    requires info.isDir == disk[Key(oldPath)].Dir?
    ensures var after := InsertedAt(DeletedAt(files, oldPath), Some(info));
      if x == to then x in after && after[x] == info.(path := Join(to))
      else if to < x then x !in after
      else (x in after <==> x in files && !(Key(oldPath) <= x)) && (x in after ==> after[x] == files[x])
  {
    var from := Key(oldPath);
    var left := DeletedAt(files, oldPath);
    InsertedMeaning(left, to, info, x);
    assert SyncedAt(files, disk, x) && SyncedAt(files, disk, to);
    if to < x {
      assert x in disk ==> IsAncestor(to, x);
    } else if IsAncestor(x, to) {
      AncestorIsDir(disk, to, x);
    }
  }

  lemma MoveInSyncIff(files: Files, disk: Disk, oldPath: string, to: Path, info: FileInfo)
    requires Synced(files, disk) && Movable(disk, Key(oldPath), to) && Key(info.path) == to
    requires info.isDir == disk[Key(oldPath)].Dir? && SizedAs(info, disk[Key(oldPath)])
    ensures Synced(InsertedAt(DeletedAt(files, oldPath), Some(info)), Moved(disk, Key(oldPath), to))
      <==> forall j :: j in disk ==> !(Key(oldPath) < j)
  {
    var from := Key(oldPath);
    var after, moved := InsertedAt(DeletedAt(files, oldPath), Some(info)), Moved(disk, from, to);
    if forall j :: j in disk ==> !(from < j) {
      forall x: Path | x != [] ensures SyncedAt(after, moved, x) {
        MovedIndexAt(files, disk, oldPath, to, info, x);
        MovedAt(disk, from, to, x);
        assert SyncedAt(files, disk, x);
        assert to <= x && x != to ==> from < from + x[|to|..];
        assert x == to ==> from + x[|to|..] == from;
      }
    } else {
      var j :| j in disk && from < j;
      var x := to + j[|from|..];
      assert x[|to|..] == j[|from|..] && from + x[|to|..] == j;
      MovedAt(disk, from, to, x);
      MovedIndexAt(files, disk, oldPath, to, info, x);
      assert !SyncedAt(after, moved, x);
    }
  }

  /** The call renames a directory with something below it. */
  ghost predicate MovesFullDirectory(disk: Disk, req: Request) {
    req.Move? && exists j :: j in disk && Key(req.oldPath) < j
  }

  lemma MoveIsMovable(disk: Disk, req: Request, now: int)
    requires IsTree(disk) && req.Move? && Perform(disk, req, now).Some?
    ensures Movable(disk, Key(req.oldPath), Key(req.newPath))
  {
    PlaceIsKey(req.oldPath);
    PlaceIsKey(req.newPath);
  }

  /** A successful call leaves the index in step with the workspace exactly when it is not the rename of a
      directory with something below it. */
  lemma CallInSyncIff(l: Limits, w: World, req: Request, now: int)
    requires IsTree(w.disk) && Synced(w.mirror.files, w.disk) && Perform(w.disk, req, now).Some?
    ensures var after := Called(l, w, req, now);
      Synced(after.mirror.files, after.disk) <==> !MovesFullDirectory(w.disk, req)
  {
    var files, disk := w.mirror.files, w.disk;
    var done := Perform(disk, req, now).value;
    match req
    case Move(oldPath, newPath) =>
      MoveIsMovable(disk, req, now);
      PlaceIsKey(oldPath);
      PlaceIsKey(newPath);
      KeyOfToSlash(newPath);
      MoveInSyncIff(files, disk, oldPath, Key(newPath), InfoOf(newPath, disk[Key(oldPath)]));
    case Remove(path) =>
      PlaceIsKey(path);
      RemovedInSync(files, disk, path);
    case Mkdir(path, recursive) => MkdirInSync(l, w, path, recursive, now);
    case Write(path, content, offset) =>
      PlaceIsKey(path);
      KeyOfToSlash(path);
      StoredInSync(files, disk, Key(path), done.disk[Key(path)], done.info.value);
    case Truncate(path, size) => TruncateInSync(l, w, path, size, now);
  }

  lemma MkdirInSync(l: Limits, w: World, path: string, recursive: bool, now: int)
    requires IsTree(w.disk) && Synced(w.mirror.files, w.disk) && Perform(w.disk, Mkdir(path, recursive), now).Some?
    ensures var after := Called(l, w, Mkdir(path, recursive), now); Synced(after.mirror.files, after.disk)
  {
    var done := Perform(w.disk, Mkdir(path, recursive), now).value;
    PlaceIsKey(path);
    KeyOfToSlash(path);
    if recursive {
      MadeInSync(w.mirror.files, w.disk, Key(path), now, done.info.value);
    } else {
      StoredInSync(w.mirror.files, w.disk, Key(path), Dir(now), done.info.value);
    }
  }

  /** A file's parent is a directory; a file at the root itself has no index entry to keep. */
  lemma TruncateInSync(l: Limits, w: World, path: string, size: int, now: int)
    requires IsTree(w.disk) && Synced(w.mirror.files, w.disk) && Perform(w.disk, Truncate(path, size), now).Some?
    ensures var after := Called(l, w, Truncate(path, size), now); Synced(after.mirror.files, after.disk)
  {
    var files, disk, k := w.mirror.files, w.disk, Key(path);
    var done := Perform(disk, Truncate(path, size), now).value;
    PlaceIsKey(path);
    KeyOfToSlash(path);
    if k == [] {
      forall x: Path | x != [] ensures SyncedAt(files, done.disk, x) {
        assert SyncedAt(files, disk, x);
      }
    } else {
      assert Parent(k) != [] ==> IsAncestor(Parent(k), k);
      StoredInSync(files, disk, k, done.disk[k], done.info.value);
    }
  }

  // ---- whole runs ----

  datatype Timed = Timed(req: Request, now: int)

  /** The worlds a sequence of calls leads through; calls that fail change nothing. */
  ghost predicate Calls(l: Limits, ws: seq<World>, cs: seq<Timed>) {
    && |ws| == |cs| + 1 && IsTree(ws[0].disk) && Synced(ws[0].mirror.files, ws[0].disk)
    && forall i :: 0 <= i < |cs| ==> ws[i + 1] == Called(l, ws[i], cs[i].req, cs[i].now)
  }

  /** The call succeeds, and takes files out of the index that the daemon still holds. */
  ghost predicate LosesFiles(w: World, c: Timed) {
    Perform(w.disk, c.req, c.now).Some? && MovesFullDirectory(w.disk, c.req)
  }

  lemma {:induction false} InSyncUntil(l: Limits, ws: seq<World>, cs: seq<Timed>, n: nat)
    requires Calls(l, ws, cs) && n < |ws| && forall i :: 0 <= i < n ==> !LosesFiles(ws[i], cs[i])
    ensures IsTree(ws[n].disk) && Synced(ws[n].mirror.files, ws[n].disk)
  {
    if n > 0 {
      InSyncUntil(l, ws, cs, n - 1);
      var w, c := ws[n - 1], cs[n - 1];
      assert !LosesFiles(w, c);
      if Perform(w.disk, c.req, c.now).Some? {
        CallInSyncIff(l, w, c.req, c.now);
        PerformKeepsTree(w.disk, c.req, c.now);
      }
    }
  }

  /** The first losing call, if any. */
  lemma {:induction false} FirstLoss(ws: seq<World>, cs: seq<Timed>, n: nat) returns (i: nat)
    requires |ws| == |cs| + 1 && n < |cs| && LosesFiles(ws[n], cs[n])
    ensures i <= n && LosesFiles(ws[i], cs[i]) && forall j :: 0 <= j < i ==> !LosesFiles(ws[j], cs[j])
  {
    if j :| 0 <= j < n && LosesFiles(ws[j], cs[j]) {
      i := FirstLoss(ws, cs, j);
    } else {
      i := n;
    }
  }

  /** Starting in step, the index stays in step through all of a run of calls exactly when no call renames a
      directory with something below it. */
  lemma RunInSyncIff(l: Limits, ws: seq<World>, cs: seq<Timed>)
    requires Calls(l, ws, cs)
    ensures (forall i :: 0 <= i < |ws| ==> Synced(ws[i].mirror.files, ws[i].disk))
      <==> (forall i :: 0 <= i < |cs| ==> !LosesFiles(ws[i], cs[i]))
  {
    if forall i :: 0 <= i < |cs| ==> !LosesFiles(ws[i], cs[i]) {
      forall i | 0 <= i < |ws| ensures Synced(ws[i].mirror.files, ws[i].disk) {
        InSyncUntil(l, ws, cs, i);
      }
    } else {
      var n :| 0 <= n < |cs| && LosesFiles(ws[n], cs[n]);
      var i := FirstLoss(ws, cs, n);
      InSyncUntil(l, ws, cs, i);
      CallInSyncIff(l, ws[i], cs[i].req, cs[i].now);
      assert !Synced(ws[i + 1].mirror.files, ws[i + 1].disk);
    }
  }

  // ---- reading after a rename ----

  /** After a rename of anything, from an index in step: a path at or below the new one whose file the daemon now
      holds there reads as it did at its old place exactly when it is the new path itself; below it nothing can be
      read until a message names it. */
  lemma RenamedReadsIff(l: Limits, w: World, oldPath: string, newPath: string, now: int, rel: string, off: int, size: nat)
    requires Inv(l, w) && Synced(w.mirror.files, w.disk) && Perform(w.disk, Move(oldPath, newPath), now).Some?
    requires Key(newPath) <= Key(rel) && Place(rel).Some?
    requires var source := Key(oldPath) + Key(rel)[|Key(newPath)|..];
      source in w.disk && w.disk[source].File? && (l.limit <= 0 || |w.disk[source].content| <= l.limit)
    ensures var source := Key(oldPath) + Key(rel)[|Key(newPath)|..];
      var after := Called(l, w, Move(oldPath, newPath), now);
      && Key(rel) in after.disk && after.disk[Key(rel)] == w.disk[source]
      && ReadChunk(l, after, rel, off, size).data ==
        if Key(rel) == Key(newPath) then Some(SliceContent(w.disk[source].content, off, size)) else None
  {
    var req := Move(oldPath, newPath);
    var after := Called(l, w, req, now);
    var k := Key(rel);
    RenamedAt(l, w, oldPath, newPath, now, k);
    if k == Key(newPath) {
      NotRoot(rel);
      CallKeeps(l, w, req, now);
      PlaceIsKey(rel);
      ReadsAgree(l, after, rel, off, size);
    }
  }

  /** After a rename nothing at or below the old path is left on either side, but for what is at the new one. */
  lemma OldPathsGone(l: Limits, w: World, oldPath: string, newPath: string, now: int, rel: string, off: int, size: int)
    requires IsTree(w.disk) && Perform(w.disk, Move(oldPath, newPath), now).Some?
    requires Key(oldPath) <= Key(rel) && !(Key(newPath) <= Key(rel))
    ensures var after := Called(l, w, Move(oldPath, newPath), now);
      Key(rel) !in after.disk && ReadChunk(l, after, rel, off, size).data == None
  {
    var from, to, k := Key(oldPath), Key(newPath), Key(rel);
    MoveIsMovable(w.disk, Move(oldPath, newPath), now);
    PlaceIsKey(oldPath);
    PlaceIsKey(newPath);
    KeyOfToSlash(newPath);
    MovedAt(w.disk, from, to, k);
    InsertedMeaning(DeletedAt(w.mirror.files, oldPath), to, InfoOf(newPath, w.disk[from]), k);
    assert IsAncestor(k, to) ==> from < to;
  }

  lemma RenamedAt(l: Limits, w: World, oldPath: string, newPath: string, now: int, k: Path)
    requires IsTree(w.disk) && Synced(w.mirror.files, w.disk) && Perform(w.disk, Move(oldPath, newPath), now).Some?
    requires Key(newPath) <= k && Key(oldPath) + k[|Key(newPath)|..] in w.disk
    ensures var source := Key(oldPath) + k[|Key(newPath)|..];
      var after := Called(l, w, Move(oldPath, newPath), now);
      && k != [] && k in after.disk && after.disk[k] == w.disk[source]
      && (k == Key(newPath) ==> k in after.mirror.files && after.mirror.files[k].isDir == w.disk[source].Dir?)
      && (k != Key(newPath) ==> k !in after.mirror.files)
  {
    var from, to := Key(oldPath), Key(newPath);
    MoveIsMovable(w.disk, Move(oldPath, newPath), now);
    PlaceIsKey(oldPath);
    PlaceIsKey(newPath);
    KeyOfToSlash(newPath);
    MovedAt(w.disk, from, to, k);
    MovedIndexAt(w.mirror.files, w.disk, oldPath, to, InfoOf(newPath, w.disk[from]), k);
    assert k == to ==> from + k[|to|..] == from;
  }
}
