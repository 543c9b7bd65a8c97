/** The daemon's side of the file protocol (pkg/syncer/handle.go, pkg/syncer/handle_write.go):
    range reads, and what each successful mutation does to the workspace. The workspace is a map
    from path to file or directory; there are no symbolic links. */
module Daemon {
  import opened Basics
  import opened Paths
  import opened FileTree

  datatype Item = File(content: Bytes, modTime: int) | Dir(modTime: int)

  type Disk = map<Path, Item>

  // ---- paths ----

  predicate IsDriveLetter(c: char) {
    'a' <= c <= 'z' || 'A' <= c <= 'Z'
  }

  predicate IsAbsLike(p: string) {
    p != "" && (p[0] == '/' || p[0] == '\\' || (|p| >= 3 && IsDriveLetter(p[0]) && p[1] == ':' && (p[2] == '/' || p[2] == '\\')))
  }

  /** resolveWorkspacePath over safepath.Join: the place in the workspace a request path denotes. */
  function Place(rel: string): Option<Path> {
    if rel == "" || rel == "." || rel == "/" then Some([])
    else if IsAbsLike(rel) then None
    else
      match SafeClean(rel)
      case Cleaned(c) => Some(Key(c))
      case _ => None
  }

  /** The daemon never resolves a path to another place than the key the server uses for it,
      and never outside the workspace. */
  lemma PlaceIsKey(rel: string)
    ensures Place(rel).Some? ==> Place(rel).value == Key(rel) && !EscapesRoot(Key(rel))
  {
    KeyOfSpecial();
    assert ToSlash("") == "" && ToSlash(".") == "." && ToSlash("/") == "/";
    SafeCleanAgrees(rel);
    NormalizeIdempotent(rel);
  }

  // ---- reading ----

  /** sliceContent. */
  function SliceContent(data: Bytes, offset: int, length: int): Bytes {
    var total := |data|;
    var from := if offset < 0 then 0 else offset;
    if from >= total then []
    else
      var end := if length > 0 && length < total - from then from + length else total;
      data[from..end]
  }

  /** r is what a range read must return: nothing at or past the end; otherwise the bytes from the offset on, as many
      as asked for or as there are, all of them when no positive length is asked for. */
  ghost predicate IsRange(data: Bytes, offset: int, length: int, r: Bytes) {
    var from := if offset < 0 then 0 else offset;
    var left := |data| - from;
    if left <= 0 then |r| == 0
    else
      && |r| == (if length <= 0 || length >= left then left else length)
      && forall i :: 0 <= i < |r| ==> r[i] == data[from + i]
  }

  lemma SliceMeaning(data: Bytes, offset: int, length: int)
    ensures IsRange(data, offset, length, SliceContent(data, offset, length))
  {
  }

  /** A range determines its bytes. */
  lemma RangeUnique(data: Bytes, offset: int, length: int, a: Bytes, b: Bytes)
    requires IsRange(data, offset, length, a) && IsRange(data, offset, length, b)
    ensures a == b
  {
  }

  /** The daemon answers a read exactly for a file it can resolve; without a limit that bites it is the range. */
  lemma ReadMeaning(disk: Disk, limit: int, rel: string, offset: int, length: int)
    ensures Read(disk, limit, rel, offset, length).Some? <==>
      Place(rel).Some? && Key(rel) in disk && disk[Key(rel)].File?
    ensures var r := Read(disk, limit, rel, offset, length);
      r.Some? ==>
        && (limit > 0 ==> |r.value| <= limit)
        && exists whole :: IsRange(disk[Key(rel)].content, offset, length, whole)
             && r.value <= whole && (limit <= 0 || |whole| <= limit ==> r.value == whole)
  {
    PlaceIsKey(rel);
    if Read(disk, limit, rel, offset, length).Some? {
      SliceMeaning(disk[Key(rel)].content, offset, length);
    }
  }

  /** MaxReadSize: zero or less means no limit. */
  function Cap(data: Bytes, limit: int): Bytes {
    if limit > 0 && |data| > limit then data[..limit] else data
  }

  /** handleRead. */
  function Read(disk: Disk, limit: int, rel: string, offset: int, length: int): Option<Bytes> {
    match Place(rel)
    case None => None
    case Some(k) =>
      if k in disk && disk[k].File? then Some(Cap(SliceContent(disk[k].content, offset, length), limit)) else None
  }

  // ---- changing ----

  datatype Request =
    | Write(path: string, content: Bytes, offset: int)
    | Mkdir(path: string, recursive: bool)
    | Remove(path: string)
    | Move(oldPath: string, newPath: string)
    | Truncate(path: string, size: int)

  /** The new workspace and the metadata the response carries. */
  datatype Done = Done(disk: Disk, info: Option<FileInfo>)

  function Zeros(n: nat): Bytes {
    seq(n, _ => 0)
  }

  /** file.WriteAt: overwrites, extends, and fills a gap with zeros; an empty buffer changes nothing. */
  function WriteAt(data: Bytes, content: Bytes, offset: nat): Bytes {
    if content == [] then data
    else
      var padded := if |data| < offset then data + Zeros(offset - |data|) else data;
      padded[..offset] + content + (if offset + |content| < |data| then data[offset + |content|..] else [])
  }

  function Resize(data: Bytes, size: nat): Bytes {
    if size <= |data| then data[..size] else data + Zeros(size - |data|)
  }

  function InfoOf(path: string, item: Item): FileInfo {
    match item
    case File(content, t) => FileInfo(ToSlash(path), |content|, t, false, 0)
    case Dir(t) => FileInfo(ToSlash(path), 0, t, true, 0)
  }

  /** The root exists even when the map does not mention it. */
  predicate IsDirAt(disk: Disk, k: Path) {
    k == [] || (k in disk && disk[k].Dir?)
  }

  predicate ParentIsDir(disk: Disk, k: Path) {
    k != [] && IsDirAt(disk, Parent(k))
  }

  /** A workspace is a tree: only directories have something below them. */
  ghost predicate IsTree(disk: Disk) {
    forall j, k :: k in disk && IsAncestor(j, k) ==> j in disk && disk[j].Dir?
  }

  /** The paths at and below `to` that hold something after a move. */
  function Arrived(disk: Disk, from: Path, to: Path): (r: set<Path>)
    ensures forall k :: k in r <==> to <= k && from + k[|to|..] in disk
  {
    var r := set j | j in disk && from <= j :: to + j[|from|..];
    assert forall j: Path :: from <= j ==> from + (to + j[|from|..])[|to|..] == j;
    assert forall k: Path :: to <= k ==> to + (from + k[|to|..])[|from|..] == k;
    r
  }

  /** What was at `from` and below it is now at `to` and below it; what `to` held is gone. */
  function Moved(disk: Disk, from: Path, to: Path): Disk {
    map k | k in disk.Keys + Arrived(disk, from, to) && (to <= k ==> k in Arrived(disk, from, to)) && (from <= k ==> to <= k) ::
      if to <= k then disk[from + k[|to|..]] else disk[k]
  }

  /** os.Rename refuses an existing directory as the target, and a directory over a file. */
  predicate CanReplace(disk: Disk, from: Path, to: Path)
    requires from in disk
  {
    to !in disk || (disk[from].File? && disk[to].File?)
  }

  /** The effect of a request that succeeds at time `now`; None when the daemon reports an error. */
  function Perform(disk: Disk, req: Request, now: int): Option<Done> {
    match req
    case Write(path, content, offset) =>
      if offset < 0 || Place(path).None? then None
      else
        var k := Place(path).value;
        if !ParentIsDir(disk, k) || (k in disk && disk[k].Dir?) then None
        else
          var item := File(WriteAt(if k in disk then disk[k].content else [], content, offset), now);
          Some(Done(disk[k := item], Some(InfoOf(path, item))))
    case Mkdir(path, recursive) =>
      if Place(path).None? then None
      else
        var k := Place(path).value;
        if recursive then
          if exists j :: j in Ancestors(k) + {k} && j in disk && disk[j].File? then None
          else
            var made := disk + (map j | j in Ancestors(k) + {k} && j !in disk :: Dir(now));
            Some(Done(made, Some(InfoOf(path, made[k]))))
        else if k in disk || !ParentIsDir(disk, k) then None
        else Some(Done(disk[k := Dir(now)], Some(InfoOf(path, Dir(now)))))
    case Remove(path) =>
      if Place(path).None? || Place(path).value !in disk then None
      else
        var k := Place(path).value;
        if exists j :: j in disk && k < j then None
        else Some(Done(disk - {k}, None))
    case Move(oldPath, newPath) =>
      if Place(oldPath).None? || Place(newPath).None? then None
      else
        var from, to := Place(oldPath).value, Place(newPath).value;
        if from !in disk || from < to || !ParentIsDir(disk, to) || !CanReplace(disk, from, to) then None
        else Some(Done(Moved(disk, from, to), Some(InfoOf(newPath, disk[from]))))
    case Truncate(path, size) =>
      if size < 0 || Place(path).None? then None
      else
        var k := Place(path).value;
        if k !in disk || disk[k].Dir? then None
        else
          var item := File(Resize(disk[k].content, size), now);
          Some(Done(disk[k := item], Some(InfoOf(path, item))))
  }

  // ---- what the requests keep ----

  /** Every successful request leaves a tree. */
  lemma PerformKeepsTree(disk: Disk, req: Request, now: int)
    requires IsTree(disk) && Perform(disk, req, now).Some?
    ensures IsTree(Perform(disk, req, now).value.disk)
  {
    match req
    case Write(path, content, offset) =>
      AddedKeepsTree(disk, Place(path).value, Perform(disk, req, now).value.disk[Place(path).value]);
    case Mkdir(path, recursive) =>
      if recursive {
        MadeKeepsTree(disk, Place(path).value, now);
      } else {
        AddedKeepsTree(disk, Place(path).value, Dir(now));
      }
    case Remove(path) =>
    case Move(oldPath, newPath) => MovedKeepsTree(disk, Place(oldPath).value, Place(newPath).value);
    case Truncate(path, size) =>
  }

  lemma AddedKeepsTree(disk: Disk, k: Path, item: Item)
    requires IsTree(disk) && ParentIsDir(disk, k)
    requires item.File? ==> k in disk ==> disk[k].File?
    requires item.Dir? ==> k !in disk
    ensures IsTree(disk[k := item])
  {
    var after := disk[k := item];
    forall i, j | j in after && IsAncestor(i, j) ensures i in after && after[i].Dir? {
      if j == k {
        assert i <= Parent(k);
        assert i != Parent(k) ==> IsAncestor(i, Parent(k));
      }
    }
  }

  lemma MadeKeepsTree(disk: Disk, k: Path, now: int)
    requires IsTree(disk) && forall j :: j in Ancestors(k) + {k} && j in disk ==> disk[j].Dir?
    ensures IsTree(disk + (map j | j in Ancestors(k) + {k} && j !in disk :: Dir(now)))
  {
    var after := disk + (map j | j in Ancestors(k) + {k} && j !in disk :: Dir(now));
    forall i, j | j in after && IsAncestor(i, j) ensures i in after && after[i].Dir? {
      if j !in disk {
        assert IsAncestor(i, k);
      }
    }
  }

  lemma MovedKeepsTree(disk: Disk, from: Path, to: Path)
    requires IsTree(disk) && from in disk && !(from < to) && ParentIsDir(disk, to) && CanReplace(disk, from, to)
    ensures IsTree(Moved(disk, from, to))
  {
    var after := Moved(disk, from, to);
    forall i, j | j in after && IsAncestor(i, j) ensures i in after && after[i].Dir? {
      MovedAt(disk, from, to, i);
      MovedAt(disk, from, to, j);
      if to <= j {
        var source := from + j[|to|..];
        if to <= i {
          assert to < j && IsAncestor(from + i[|to|..], source);
        } else {
          assert i <= Parent(to);
          assert i != Parent(to) ==> IsAncestor(i, Parent(to));
        }
      }
    }
  }

  /** Where each path of the new workspace comes from. */
  lemma MovedAt(disk: Disk, from: Path, to: Path, k: Path)
    ensures var after := Moved(disk, from, to);
      if to <= k then
        (k in after <==> from + k[|to|..] in disk) && (k in after ==> after[k] == disk[from + k[|to|..]])
      else
        (k in after <==> k in disk && !(from <= k)) && (k in after ==> after[k] == disk[k])
  {
  }

  // ---- when a request succeeds, and what it does ----

  ghost predicate Free(disk: Disk, k: Path) {
    k !in disk
  }

  ghost predicate HasFile(disk: Disk, k: Path) {
    k in disk && disk[k].File?
  }

  /** Something may be created at k: it is below a directory. */
  ghost predicate Homed(disk: Disk, k: Path) {
    exists home: Path, name: string :: k == home + [name] && IsDirAt(disk, home)
  }

  lemma HomedIff(disk: Disk, k: Path)
    ensures Homed(disk, k) <==> ParentIsDir(disk, k)
  {
    forall home: Path, name: string | k == home + [name] ensures k != [] && Parent(k) == home {
      assert k[..|k| - 1] == home;
    }
    if k != [] {
      assert k == Parent(k) + [Last(k)];
    }
  }

  ghost predicate Named(path: string) {
    Place(path).Some?
  }

  /** Exactly when the daemon carries a request out. A write needs a file, or room for one; a mkdir room for a
      directory, or, when recursive, that no file is in the way; a remove something with nothing below it; a rename
      room at the target or a file over a file, outside of what is moved; a truncate a file. */
  ghost predicate Allowed(disk: Disk, req: Request) {
    match req
    case Write(path, _, offset) =>
      offset >= 0 && Named(path) && Homed(disk, Key(path)) && (Free(disk, Key(path)) || HasFile(disk, Key(path)))
    case Mkdir(path, recursive) =>
      Named(path) && if recursive then forall j :: j <= Key(path) ==> !HasFile(disk, j)
                     else Free(disk, Key(path)) && Homed(disk, Key(path))
    case Remove(path) => Named(path) && Key(path) in disk && forall j :: Key(path) < j ==> Free(disk, j)
    case Move(oldPath, newPath) =>
      && Named(oldPath) && Named(newPath) && Key(oldPath) in disk && Homed(disk, Key(newPath)) && !(Key(oldPath) < Key(newPath))
      && (Free(disk, Key(newPath)) || (HasFile(disk, Key(oldPath)) && HasFile(disk, Key(newPath))))
    case Truncate(path, size) => size >= 0 && Named(path) && HasFile(disk, Key(path))
  }

  /** The root is not a file. */
  ghost predicate RootIsNoFile(disk: Disk) {
    [] in disk ==> disk[[]].Dir?
  }

  lemma PerformSucceedsIff(disk: Disk, req: Request, now: int)
    requires RootIsNoFile(disk)
    ensures Perform(disk, req, now).Some? <==> Allowed(disk, req)
  {
    match req
    case Write(path, content, offset) => PlaceIsKey(path); HomedIff(disk, Key(path));
    case Mkdir(path, recursive) => MkdirSucceedsIff(disk, path, recursive, now);
    case Remove(path) => RemoveSucceedsIff(disk, path, now);
    case Move(oldPath, newPath) => PlaceIsKey(oldPath); PlaceIsKey(newPath); HomedIff(disk, Key(newPath));
    case Truncate(path, size) => PlaceIsKey(path);
  }

  lemma MkdirSucceedsIff(disk: Disk, path: string, recursive: bool, now: int)
    requires RootIsNoFile(disk)
    ensures Perform(disk, Mkdir(path, recursive), now).Some? <==> Allowed(disk, Mkdir(path, recursive))
  {
    PlaceIsKey(path);
    HomedIff(disk, Key(path));
    if recursive && Named(path) {
      var k := Key(path);
      if forall j :: j <= k ==> !HasFile(disk, j) {
        forall j | j in Ancestors(k) + {k} ensures !(j in disk && disk[j].File?) {
          assert j <= k ==> !HasFile(disk, j);
        }
      } else {
        var j :| j <= k && HasFile(disk, j);
        assert j == k || IsAncestor(j, k);
        assert j in Ancestors(k) + {k} && j in disk && disk[j].File?;
      }
    }
  }

  lemma RemoveSucceedsIff(disk: Disk, path: string, now: int)
    ensures Perform(disk, Remove(path), now).Some? <==> Allowed(disk, Remove(path))
  {
    PlaceIsKey(path);
    var k := Key(path);
    if forall j :: k < j ==> Free(disk, j) {
      forall j | j in disk ensures !(k < j) {
        assert k < j ==> Free(disk, j);
      }
    } else {
      var j :| k < j && !Free(disk, j);
      assert j in disk && k < j;
    }
  }

  /** Nothing changes but at the given paths. */
  ghost predicate OnlyAt(disk: Disk, after: Disk, keys: set<Path>) {
    forall k :: k !in keys ==> (k in after <==> k in disk) && (k in after ==> after[k] == disk[k])
  }

  /** after holds the bytes put at offset into before, zeros in a gap, and otherwise the bytes of before. */
  ghost predicate IsWritten(before: Bytes, content: Bytes, offset: nat, after: Bytes) {
    if content == [] then after == before
    else
      && |after| == (if offset + |content| > |before| then offset + |content| else |before|)
      && (forall i :: 0 <= i < |content| ==> after[offset + i] == content[i])
      && (forall i :: 0 <= i < |after| && !(offset <= i < offset + |content|) ==>
            after[i] == if i < |before| then before[i] else 0)
  }

  ghost predicate IsResized(before: Bytes, size: nat, after: Bytes) {
    |after| == size && forall i :: 0 <= i < size ==> after[i] == if i < |before| then before[i] else 0
  }

  function ContentAt(disk: Disk, k: Path): Bytes {
    if k in disk && disk[k].File? then disk[k].content else []
  }

  /** A file stands at k with the time now, and nothing else changed. */
  ghost predicate FilePut(disk: Disk, after: Disk, k: Path, now: int) {
    HasFile(after, k) && after[k].modTime == now && OnlyAt(disk, after, {k})
  }

  /** Every path down to k is a directory, the new ones with the time now, and nothing else changed. */
  ghost predicate DirsMade(disk: Disk, after: Disk, k: Path, now: int) {
    && (forall j :: j in disk ==> j in after && after[j] == disk[j])
    && (forall j :: j in after && j !in disk ==> j <= k && after[j] == Dir(now))
    && forall j :: j <= k && j != [] ==> j in after && after[j].Dir?
  }

  /** The node from is at to with all that was below it, and nothing else changed. */
  ghost predicate Carried(disk: Disk, after: Disk, from: Path, to: Path) {
    && (forall tail: Path :: (to + tail in after <==> from + tail in disk) && (to + tail in after ==> after[to + tail] == disk[from + tail]))
    && (forall k :: from <= k && !(to <= k) ==> Free(after, k))
    && (forall k :: !(from <= k) && !(to <= k) ==> (k in after <==> k in disk) && (k in after ==> after[k] == disk[k]))
  }

  /** What a request that is carried out leaves behind. */
  ghost predicate Effect(disk: Disk, req: Request, now: int, after: Disk) {
    match req
    case Write(path, content, offset) =>
      offset >= 0 && FilePut(disk, after, Key(path), now)
      && IsWritten(ContentAt(disk, Key(path)), content, offset, ContentAt(after, Key(path)))
    case Mkdir(path, recursive) => DirsMade(disk, after, Key(path), now)
    case Remove(path) => Free(after, Key(path)) && OnlyAt(disk, after, {Key(path)})
    case Move(oldPath, newPath) => Carried(disk, after, Key(oldPath), Key(newPath))
    case Truncate(path, size) =>
      size >= 0 && FilePut(disk, after, Key(path), now)
      && IsResized(ContentAt(disk, Key(path)), size, ContentAt(after, Key(path)))
  }

  lemma PerformMeaning(disk: Disk, req: Request, now: int)
    requires IsTree(disk) && Perform(disk, req, now).Some?
    ensures Effect(disk, req, now, Perform(disk, req, now).value.disk)
  {
    match req
    case Write(path, content, offset) =>
      PlaceIsKey(path);
      WrittenMeaning(ContentAt(disk, Key(path)), content, offset);
    case Mkdir(path, recursive) => MkdirMeaning(disk, path, recursive, now);
    case Remove(path) => PlaceIsKey(path);
    case Move(oldPath, newPath) =>
      PlaceIsKey(oldPath);
      PlaceIsKey(newPath);
      MovedMeaning(disk, Key(oldPath), Key(newPath));
    case Truncate(path, size) => PlaceIsKey(path);
  }

  /** The path a request leaves something at. */
  function Target(req: Request): Option<string> {
    match req
    case Write(path, _, _) => Some(path)
    case Mkdir(path, _) => Some(path)
    case Remove(_) => None
    case Move(_, newPath) => Some(newPath)
    case Truncate(path, _) => Some(path)
  }

  /** The metadata of what stands at the path, under the path as the caller spelt it. */
  ghost predicate Reports(disk: Disk, path: string, info: FileInfo) {
    && Key(path) in disk && info.path == ToSlash(path) && info.isDir == disk[Key(path)].Dir?
    && info.modTime == disk[Key(path)].modTime && info.size == |ContentAt(disk, Key(path))|
  }

  /** The response to a request carried out tells what then stands at its target. */
  lemma PerformReports(disk: Disk, req: Request, now: int)
    requires Perform(disk, req, now).Some?
    ensures var done := Perform(disk, req, now).value;
      done.info.Some? == Target(req).Some? && (Target(req).Some? ==> Reports(done.disk, Target(req).value, done.info.value))
  {
    match req
    case Write(path, content, offset) => PlaceIsKey(path);
    case Mkdir(path, recursive) => MkdirReports(disk, path, recursive, now);
    case Remove(path) =>
    case Move(oldPath, newPath) => MoveReports(disk, oldPath, newPath, now);
    case Truncate(path, size) => PlaceIsKey(path);
  }

  lemma InfoReports(disk: Disk, path: string)
    requires Key(path) in disk
    ensures Reports(disk, path, InfoOf(path, disk[Key(path)]))
  {
  }

  lemma MkdirReports(disk: Disk, path: string, recursive: bool, now: int)
    requires Perform(disk, Mkdir(path, recursive), now).Some?
    ensures var done := Perform(disk, Mkdir(path, recursive), now).value;
      done.info.Some? && Reports(done.disk, path, done.info.value)
  {
    PlaceIsKey(path);
    InfoReports(Perform(disk, Mkdir(path, recursive), now).value.disk, path);
  }

  lemma MoveReports(disk: Disk, oldPath: string, newPath: string, now: int)
    requires Perform(disk, Move(oldPath, newPath), now).Some?
    ensures var done := Perform(disk, Move(oldPath, newPath), now).value;
      done.info.Some? && Reports(done.disk, newPath, done.info.value)
  {
    PlaceIsKey(oldPath);
    PlaceIsKey(newPath);
    MovedAt(disk, Key(oldPath), Key(newPath), Key(newPath));
    assert Key(oldPath) + Key(newPath)[|Key(newPath)|..] == Key(oldPath);
    InfoReports(Perform(disk, Move(oldPath, newPath), now).value.disk, newPath);
  }

  lemma WrittenMeaning(data: Bytes, content: Bytes, offset: nat)
    ensures IsWritten(data, content, offset, WriteAt(data, content, offset))
  {
    if content != [] {
      WriteAtMeaning(data, content, offset);
    }
  }

  lemma MkdirMeaning(disk: Disk, path: string, recursive: bool, now: int)
    requires IsTree(disk) && Perform(disk, Mkdir(path, recursive), now).Some?
    ensures DirsMade(disk, Perform(disk, Mkdir(path, recursive), now).value.disk, Key(path), now)
  {
    PlaceIsKey(path);
    if recursive {
      MadeMeaning(disk, Key(path), now);
    } else {
      AddedMeaning(disk, Key(path), now);
    }
  }

  lemma AddedMeaning(disk: Disk, k: Path, now: int)
    requires IsTree(disk) && k !in disk && ParentIsDir(disk, k)
    ensures DirsMade(disk, disk[k := Dir(now)], k, now)
  {
    forall j: Path | j <= k && j != [] && j != k ensures j in disk && disk[j].Dir? {
      assert j <= Parent(k);
      assert j != Parent(k) ==> IsAncestor(j, Parent(k));
    }
  }

  lemma MadeMeaning(disk: Disk, k: Path, now: int)
    requires forall j :: j in Ancestors(k) + {k} && j in disk ==> disk[j].Dir?
    ensures DirsMade(disk, disk + (map j | j in Ancestors(k) + {k} && j !in disk :: Dir(now)), k, now)
  {
    forall j: Path | j <= k && j != [] ensures j in Ancestors(k) + {k} {
      assert IsAncestor(j, k) || j == k;
    }
    assert forall j :: j in Ancestors(k) + {k} ==> j <= k;
  }

  lemma MovedMeaning(disk: Disk, from: Path, to: Path)
    ensures Carried(disk, Moved(disk, from, to), from, to)
  {
    forall tail: Path
      ensures var after := Moved(disk, from, to);
        (to + tail in after <==> from + tail in disk) && (to + tail in after ==> after[to + tail] == disk[from + tail])
    {
      MovedAt(disk, from, to, to + tail);
      assert (to + tail)[|to|..] == tail;
    }
    forall k ensures !(to <= k) ==> (k in Moved(disk, from, to) <==> k in disk && !(from <= k)) {
      MovedAt(disk, from, to, k);
    }
  }

  /** A write puts its bytes where it says, zeroes the gap up to it, and touches nothing else. */
  lemma WriteAtMeaning(data: Bytes, content: Bytes, offset: nat)
    requires content != []
    ensures var r := WriteAt(data, content, offset);
      && SliceContent(r, offset, |content|) == content
      && |r| == (if offset + |content| > |data| then offset + |content| else |data|)
      && forall i :: 0 <= i < |r| && !(offset <= i < offset + |content|) ==> r[i] == if i < |data| then data[i] else 0
  {
    var r := WriteAt(data, content, offset);
    assert r[offset..offset + |content|] == content;
  }
}
