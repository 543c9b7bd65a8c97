/** Reads through the server agree with reads at the daemon (pkg/fusefs/view.go and the file
    operations of pkg/session/session.go over the tree, the cache and the daemon). Every view call,
    and every edit on the daemon's side with its change messages, is one step. */
module CoherentReads {
  import opened Basics
  import opened Paths
  import opened FileTree
  import opened ContentCache
  import opened Daemon

  /** What the server knows of a user's workspace: the index and the cached contents. */
  datatype Mirror = Mirror(files: Files, lru: Recency)

  /** cacheMax is the cache budget, limit the daemon's MaxReadSize. */
  datatype Limits = Limits(cacheMax: int, limit: int)

  datatype World = World(disk: Disk, mirror: Mirror)

  // ---- the session's file operations ----

  function SignatureOf(info: FileInfo): Signature {
    Signature(info.size, info.modTime)
  }

  function InvalidateOp(path: string, recursive: bool): Op {
    if recursive then InvalidatePrefix(path) else Invalidate(path)
  }

  function Invalidated(max: int, lru: Recency, path: string, recursive: bool): Recency {
    Step(max, lru, InvalidateOp(path, recursive))
  }

  predicate KnownDirectory(files: Files, path: string) {
    Key(path) in files && files[Key(path)].isDir
  }

  function WriteApplied(max: int, m: Mirror, info: FileInfo): Mirror {
    Mirror(InsertedAt(m.files, Some(info)), Invalidated(max, m.lru, info.path, info.isDir))
  }

  function DeleteApplied(max: int, m: Mirror, path: string): Mirror {
    Mirror(DeletedAt(m.files, path), Invalidated(max, m.lru, path, KnownDirectory(m.files, path)))
  }

  function RenameApplied(max: int, m: Mirror, oldPath: string, info: FileInfo): Mirror {
    Mirror(InsertedAt(DeletedAt(m.files, oldPath), Some(info)),
           Invalidated(max, Invalidated(max, m.lru, oldPath, KnownDirectory(m.files, oldPath)), info.path, info.isDir))
  }

  /** A change message the session refuses, which ends its receive loop. */
  predicate Refused(change: Change) {
    change.Unspecified? || (!change.Delete? && change.file.None?)
  }

  function ChangeApplied(max: int, m: Mirror, change: Change): Mirror {
    match change
    case Create(file) => if file.None? then m else WriteApplied(max, m, file.value)
    case Modify(file) => if file.None? then m else WriteApplied(max, m, file.value)
    case Delete(file) => DeleteApplied(max, m, if file.Some? then file.value.path else "")
    case Rename(oldPath, file) =>
      if file.None? then m.(files := DeletedAt(m.files, oldPath)) else RenameApplied(max, m, oldPath, file.value)
    case Unspecified => m
  }

  /** Messages in order, up to and including the first one the session refuses. */
  function ChangesApplied(max: int, m: Mirror, changes: seq<Change>): Mirror
    decreases |changes|
  {
    if changes == [] then m
    else
      var next := ChangeApplied(max, m, changes[0]);
      if Refused(changes[0]) then next else ChangesApplied(max, next, changes[1..])
  }

  function TreeOf(files: seq<FileInfo>): Files {
    if files == [] then map[[] := Placeholder([])] else InsertedAt(TreeOf(files[..|files| - 1]), Some(files[|files| - 1]))
  }

  // ---- view calls ----

  /** sliceReadContent. */
  function SliceReadContent(data: Bytes, offset: int, size: int): Bytes {
    var total := |data|;
    var from := if offset < 0 then 0 else offset;
    if from >= total then []
    else if size > 0 && size < total - from then data[from..from + size]
    else data[from..]
  }

  predicate ShouldUseContentCache(max: int, info: FileInfo) {
    !info.isDir && max > 0 && 0 <= info.size <= max
  }

  predicate IsRootSpelling(rel: string) {
    rel == "" || rel == "." || rel == "/"
  }

  /** The metadata of a path the view may read: present in the index and not a directory. */
  function Readable(files: Files, rel: string): Option<FileInfo> {
    if IsRootSpelling(rel) || Key(rel) !in files || files[Key(rel)].isDir then None else Some(files[Key(rel)])
  }

  datatype Reply = Reply(lru: Recency, data: Option<Bytes>)

  /** readChunk on a connected session: served by the cache, by filling it, or by the daemon. */
  function ReadChunk(l: Limits, w: World, rel: string, off: int, size: int): Reply {
    match Readable(w.mirror.files, rel)
    case None => Reply(w.mirror.lru, None)
    case Some(info) =>
      var length := if size < 0 then 0 else size;
      var sig := SignatureOf(info);
      var hit := Hit(l.cacheMax, w.mirror.lru, Key(rel), sig);
      var touched := Step(l.cacheMax, w.mirror.lru, Get(rel, sig));
      if hit.Some? then Reply(touched, Some(SliceReadContent(hit.value, off, length)))
      else if ShouldUseContentCache(l.cacheMax, info) then
        match Read(w.disk, l.limit, rel, 0, 0)
        case None => Reply(touched, None)
        case Some(data) => Reply(Step(l.cacheMax, touched, Put(rel, sig, data)), Some(SliceReadContent(data, off, length)))
      else Reply(touched, Read(w.disk, l.limit, rel, off, length))
  }

  /** writeChunk, createFile, mkdirAt, removePath, renamePath and truncatePath. */
  function Called(l: Limits, w: World, req: Request, now: int): World {
    match Perform(w.disk, req, now)
    case None => w
    case Some(done) =>
      var m := match req {
        case Remove(path) => DeleteApplied(l.cacheMax, w.mirror, path)
        case Move(oldPath, _) => if done.info.None? then w.mirror else RenameApplied(l.cacheMax, w.mirror, oldPath, done.info.value)
        case _ => if done.info.None? then w.mirror else WriteApplied(l.cacheMax, w.mirror, done.info.value)
      };
      World(done.disk, m)
  }

  datatype Event =
    | ReadEvent(rel: string, off: int, size: int)
    | CallEvent(req: Request, now: int)
    | EditEvent(disk: Disk, changes: seq<Change>)
    | TreeEvent(files: seq<FileInfo>)

  /** A message that tells the session about path k: it names k, or a directory above it. */
  predicate Tells(change: Change, k: Path) {
    && (change.Create? || change.Modify? || change.Rename?) && change.file.Some?
    && var key := Key(change.file.value.path); key == k || (change.file.value.isDir && key <= k)
  }

  /** Some message the session gets to handle tells about k. */
  predicate Told(changes: seq<Change>, k: Path) {
    changes != [] && !Refused(changes[0]) && (Tells(changes[0], k) || Told(changes[1..], k))
  }

  predicate SameFile(a: Disk, b: Disk, k: Path) {
    k in a && k in b && a[k].File? && b[k].File? && a[k].content == b[k].content
  }

  /** An edit announces every file that appears or changes; nothing is asked about files that go. */
  ghost predicate Possible(w: World, e: Event) {
    e.EditEvent? ==>
      && IsTree(e.disk)
      && forall k :: k in e.disk && e.disk[k].File? ==> SameFile(w.disk, e.disk, k) || Told(e.changes, k)
  }

  function Next(l: Limits, w: World, e: Event): World {
    match e
    case ReadEvent(rel, off, size) => w.(mirror := w.mirror.(lru := ReadChunk(l, w, rel, off, size).lru))
    case CallEvent(req, now) => Called(l, w, req, now)
    case EditEvent(disk, changes) => World(disk, ChangesApplied(l.cacheMax, w.mirror, changes))
    case TreeEvent(files) => w.(mirror := w.mirror.(files := TreeOf(files)))
  }

  /** A session right after Bootstrap, on any workspace, with whatever index it was sent. */
  predicate Bootstrapped(w: World) {
    w.mirror.lru == []
  }

  /** The worlds a run visits. */
  ghost predicate Run(l: Limits, ws: seq<World>, es: seq<Event>) {
    && |ws| == |es| + 1 && Bootstrapped(ws[0]) && IsTree(ws[0].disk)
    && forall i :: 0 <= i < |es| ==> Possible(ws[i], es[i]) && ws[i + 1] == Next(l, ws[i], es[i])
  }

  // ---- the invariant ----

  ghost predicate FreshEntry(limit: int, disk: Disk, e: Entry) {
    e.path in disk && disk[e.path].File? ==> e.content == Cap(disk[e.path].content, limit)
  }

  ghost predicate Fresh(limit: int, disk: Disk, lru: Recency) {
    forall e :: e in lru ==> FreshEntry(limit, disk, e)
  }

  ghost predicate Sane(max: int, lru: Recency) {
    && DistinctPaths(lru) && (max > 0 ==> Total(lru) <= max) && (max <= 0 ==> lru == [])
    && forall e :: e in lru ==> 0 <= e.sig.size <= max
  }

  ghost predicate Inv(l: Limits, w: World) {
    IsTree(w.disk) && Sane(l.cacheMax, w.mirror.lru) && Fresh(l.limit, w.disk, w.mirror.lru)
  }

  // ---- what invalidations leave ----

  predicate Covers(path: string, recursive: bool, k: Path) {
    if recursive then Key(path) <= k else Key(path) == k
  }

  /** An invalidation removes exactly the entries it covers. */
  lemma InvalidatedLeaves(max: int, lru: Recency, path: string, recursive: bool)
    requires Sane(max, lru)
    ensures Sane(max, Invalidated(max, lru, path, recursive))
    ensures forall e :: e in Invalidated(max, lru, path, recursive) <==> e in lru && !Covers(path, recursive, e.path)
  {
    StepBounded(max, lru, InvalidateOp(path, recursive));
    if max > 0 {
      DropMembers(lru, {Key(path)});
      DropMembers(lru, Below(lru, Key(path)));
    }
  }

  /** A handled message only removes entries, among them every entry it tells about. */
  lemma ChangeLeaves(max: int, m: Mirror, change: Change)
    requires Sane(max, m.lru)
    ensures var after := ChangeApplied(max, m, change).lru;
      Sane(max, after) && forall e :: e in after ==> e in m.lru && !Tells(change, e.path)
  {
    match change
    case Create(file) => if file.Some? { InvalidatedLeaves(max, m.lru, file.value.path, file.value.isDir); }
    case Modify(file) => if file.Some? { InvalidatedLeaves(max, m.lru, file.value.path, file.value.isDir); }
    case Delete(file) =>
      var path := if file.Some? then file.value.path else "";
      InvalidatedLeaves(max, m.lru, path, KnownDirectory(m.files, path));
    case Rename(oldPath, file) => if file.Some? { RenameLeaves(max, m, oldPath, file.value); }
    case Unspecified =>
  }

  lemma RenameLeaves(max: int, m: Mirror, oldPath: string, info: FileInfo)
    requires Sane(max, m.lru)
    ensures var after := RenameApplied(max, m, oldPath, info).lru;
      Sane(max, after) && forall e :: e in after ==> e in m.lru && !Covers(info.path, info.isDir, e.path)
  {
    var recursive := KnownDirectory(m.files, oldPath);
    InvalidatedLeaves(max, m.lru, oldPath, recursive);
    InvalidatedLeaves(max, Invalidated(max, m.lru, oldPath, recursive), info.path, info.isDir);
  }

  lemma {:induction false} ChangesLeave(max: int, m: Mirror, changes: seq<Change>)
    requires Sane(max, m.lru)
    ensures var after := ChangesApplied(max, m, changes).lru;
      Sane(max, after) && forall e :: e in after ==> e in m.lru && !Told(changes, e.path)
    decreases |changes|
  {
    if changes != [] {
      ChangeLeaves(max, m, changes[0]);
      if !Refused(changes[0]) {
        ChangesLeave(max, ChangeApplied(max, m, changes[0]), changes[1..]);
      }
    }
  }

  // ---- what requests change ----

  /** Every file a successful request creates or alters is covered by the invalidation that follows it. */
  lemma RequestCovered(disk: Disk, req: Request, now: int, k: Path)
    requires IsTree(disk) && Perform(disk, req, now).Some?
    requires var after := Perform(disk, req, now).value.disk; k in after && after[k].File? && !SameFile(disk, after, k)
    ensures !req.Remove? && Perform(disk, req, now).value.info.Some?
    ensures var info := Perform(disk, req, now).value.info.value; Covers(info.path, info.isDir, k)
  {
    match req
    case Write(path, content, offset) => PlaceIsKey(path); KeyOfToSlash(path);
    case Mkdir(path, recursive) => PlaceIsKey(path); KeyOfToSlash(path);
    case Remove(path) =>
    case Move(oldPath, newPath) =>
      PlaceIsKey(newPath);
      KeyOfToSlash(newPath);
      MoveCovered(disk, Place(oldPath).value, Place(newPath).value, k);
    case Truncate(path, size) => PlaceIsKey(path); KeyOfToSlash(path);
  }

  lemma MoveCovered(disk: Disk, from: Path, to: Path, k: Path)
    requires IsTree(disk) && from in disk && from != []
    requires var after := Moved(disk, from, to); k in after && after[k].File? && !SameFile(disk, after, k)
    ensures to <= k && (disk[from].File? ==> k == to)
  {
    MovedAt(disk, from, to, k);
    if to < k {
      assert IsAncestor(from, from + k[|to|..]);
    }
  }

  // ---- every step keeps the invariant ----

  lemma ReadKeeps(l: Limits, w: World, rel: string, off: int, size: int)
    requires Inv(l, w)
    ensures Inv(l, Next(l, w, ReadEvent(rel, off, size)))
  {
    var files, lru := w.mirror.files, w.mirror.lru;
    if Readable(files, rel).Some? && l.cacheMax > 0 {
      var info := files[Key(rel)];
      var sig := SignatureOf(info);
      var touched := Step(l.cacheMax, lru, Get(rel, sig));
      TouchKeeps(l, w.disk, lru, rel, sig);
      if ShouldUseContentCache(l.cacheMax, info) && Read(w.disk, l.limit, rel, 0, 0).Some? {
        FillKeeps(l, w.disk, touched, rel, sig);
      }
    }
  }

  lemma TouchKeeps(l: Limits, disk: Disk, lru: Recency, rel: string, sig: Signature)
    requires l.cacheMax > 0 && Sane(l.cacheMax, lru) && Fresh(l.limit, disk, lru)
    ensures Sane(l.cacheMax, Step(l.cacheMax, lru, Get(rel, sig))) && Fresh(l.limit, disk, Step(l.cacheMax, lru, Get(rel, sig)))
  {
    StepBounded(l.cacheMax, lru, Get(rel, sig));
    forall e | e in Step(l.cacheMax, lru, Get(rel, sig)) ensures e in lru {
      StepKeepsOnly(l.cacheMax, lru, Get(rel, sig), e);
    }
  }

  lemma FillKeeps(l: Limits, disk: Disk, lru: Recency, rel: string, sig: Signature)
    requires l.cacheMax > 0 && Sane(l.cacheMax, lru) && Fresh(l.limit, disk, lru)
    requires Read(disk, l.limit, rel, 0, 0).Some? && 0 <= sig.size <= l.cacheMax
    ensures var after := Step(l.cacheMax, lru, Put(rel, sig, Read(disk, l.limit, rel, 0, 0).value));
      Sane(l.cacheMax, after) && Fresh(l.limit, disk, after)
  {
    var put := Put(rel, sig, Read(disk, l.limit, rel, 0, 0).value);
    PlaceIsKey(rel);
    assert SliceContent(disk[Key(rel)].content, 0, 0) == disk[Key(rel)].content;
    StepBounded(l.cacheMax, lru, put);
    forall e | e in Step(l.cacheMax, lru, put) ensures e in lru || PutsEntry(put, e) {
      StepKeepsOnly(l.cacheMax, lru, put, e);
    }
  }

  lemma CallKeeps(l: Limits, w: World, req: Request, now: int)
    requires Inv(l, w)
    ensures Inv(l, Next(l, w, CallEvent(req, now)))
  {
    var r := Perform(w.disk, req, now);
    if r.Some? {
      PerformKeepsTree(w.disk, req, now);
      var after := Called(l, w, req, now);
      CallLeaves(l, w, req, now);
      forall e | e in after.mirror.lru ensures FreshEntry(l.limit, r.value.disk, e) {
        assert FreshEntry(l.limit, w.disk, e);
        var k := e.path;
        if k in r.value.disk && r.value.disk[k].File? && !SameFile(w.disk, r.value.disk, k) {
          RequestCovered(w.disk, req, now, k);
        }
      }
    }
  }

  lemma CallLeaves(l: Limits, w: World, req: Request, now: int)
    requires Sane(l.cacheMax, w.mirror.lru) && Perform(w.disk, req, now).Some?
    ensures var after := Called(l, w, req, now).mirror.lru;
      var info := Perform(w.disk, req, now).value.info;
      && Sane(l.cacheMax, after) && (info.None? <==> req.Remove?)
      && forall e :: e in after ==> e in w.mirror.lru && (info.Some? ==> !Covers(info.value.path, info.value.isDir, e.path))
  {
    var info := Perform(w.disk, req, now).value.info;
    match req
    case Remove(path) => InvalidatedLeaves(l.cacheMax, w.mirror.lru, path, KnownDirectory(w.mirror.files, path));
    case Move(oldPath, newPath) => RenameLeaves(l.cacheMax, w.mirror, oldPath, info.value);
    case _ => InvalidatedLeaves(l.cacheMax, w.mirror.lru, info.value.path, info.value.isDir);
  }

  lemma EditKeeps(l: Limits, w: World, disk: Disk, changes: seq<Change>)
    requires Inv(l, w) && Possible(w, EditEvent(disk, changes))
    ensures Inv(l, Next(l, w, EditEvent(disk, changes)))
  {
    ChangesLeave(l.cacheMax, w.mirror, changes);
    forall e | e in ChangesApplied(l.cacheMax, w.mirror, changes).lru ensures FreshEntry(l.limit, disk, e) {
      assert FreshEntry(l.limit, w.disk, e);
    }
  }

  lemma StepKeeps(l: Limits, w: World, e: Event)
    requires Inv(l, w) && Possible(w, e)
    ensures Inv(l, Next(l, w, e))
  {
    match e
    case ReadEvent(rel, off, size) => ReadKeeps(l, w, rel, off, size);
    case CallEvent(req, now) => CallKeeps(l, w, req, now);
    case EditEvent(disk, changes) => EditKeeps(l, w, disk, changes);
    case TreeEvent(files) =>
  }

  lemma {:induction false} RunKeeps(l: Limits, ws: seq<World>, es: seq<Event>, i: nat)
    requires Run(l, ws, es) && i < |ws|
    ensures Inv(l, ws[i])
  {
    if i > 0 {
      RunKeeps(l, ws, es, i - 1);
      StepKeeps(l, ws[i - 1], es[i - 1]);
    }
  }

  // ---- the theorems ----

  /** The server slices as the daemon does: both return the range asked for. */
  lemma SlicesAgree(data: Bytes, offset: int, size: int)
    ensures IsRange(data, offset, size, SliceReadContent(data, offset, size))
    ensures IsRange(data, offset, size, SliceContent(data, offset, size))
    ensures SliceReadContent(data, offset, size) == SliceContent(data, offset, size)
  {
  }

  /** Whether served by a hit, a fill or the daemon, a read is the daemon's range read of the file it holds now. */
  lemma ReadsAgree(l: Limits, w: World, rel: string, off: int, size: int)
    requires Inv(l, w) && ReadChunk(l, w, rel, off, size).data.Some?
    requires Key(rel) in w.disk && w.disk[Key(rel)].File?
    requires l.limit <= 0 || |w.disk[Key(rel)].content| <= l.limit
    ensures var length := if size < 0 then 0 else size;
      && IsRange(w.disk[Key(rel)].content, off, length, ReadChunk(l, w, rel, off, size).data.value)
      && ReadChunk(l, w, rel, off, size).data.value == SliceContent(w.disk[Key(rel)].content, off, length)
      && (Place(rel).Some? ==> ReadChunk(l, w, rel, off, size).data == Read(w.disk, l.limit, rel, off, length))
  {
    var info := w.mirror.files[Key(rel)];
    var c := w.disk[Key(rel)].content;
    PlaceIsKey(rel);
    ServedBytes(l, w, rel, off, size);
    SlicesAgree(c, off, if size < 0 then 0 else size);
    SliceMeaning(c, off, if size < 0 then 0 else size);
  }

  /** The bytes a read returns, for every read limit: cut first and sliced then when the cache is used. */
  lemma ServedBytes(l: Limits, w: World, rel: string, off: int, size: int)
    requires Inv(l, w) && ReadChunk(l, w, rel, off, size).data.Some?
    requires Key(rel) in w.disk && w.disk[Key(rel)].File?
    ensures var length := if size < 0 then 0 else size;
      var c := w.disk[Key(rel)].content;
      ReadChunk(l, w, rel, off, size).data.value ==
        if ShouldUseContentCache(l.cacheMax, w.mirror.files[Key(rel)]) then SliceContent(Cap(c, l.limit), off, length)
        else Cap(SliceContent(c, off, length), l.limit)
  {
    var info := w.mirror.files[Key(rel)];
    var c := w.disk[Key(rel)].content;
    var length := if size < 0 then 0 else size;
    PlaceIsKey(rel);
    assert SliceContent(c, 0, 0) == c;
    SlicesAgree(Cap(c, l.limit), off, length);
    if l.cacheMax > 0 {
      HitFinds(l.cacheMax, w.mirror.lru, Key(rel), SignatureOf(info));
    }
  }

  /** Over every run of view calls, announced edits and tree replacements: a read that succeeds on a file
      the daemon still holds returns exactly the daemon's bytes. */
  lemma CachedReadsAgree(l: Limits, ws: seq<World>, es: seq<Event>, i: nat, rel: string, off: int, size: int)
    requires Run(l, ws, es) && i < |ws| && ReadChunk(l, ws[i], rel, off, size).data.Some?
    requires Key(rel) in ws[i].disk && ws[i].disk[Key(rel)].File?
    requires l.limit <= 0 || |ws[i].disk[Key(rel)].content| <= l.limit
    ensures var length := if size < 0 then 0 else size;
      && IsRange(ws[i].disk[Key(rel)].content, off, length, ReadChunk(l, ws[i], rel, off, size).data.value)
      && (Place(rel).Some? ==> ReadChunk(l, ws[i], rel, off, size).data == Read(ws[i].disk, l.limit, rel, off, length))
  {
    RunKeeps(l, ws, es, i);
    ReadsAgree(l, ws[i], rel, off, size);
  }

  // ---- reading a file piece by piece ----

  /** Reads of n bytes each, one after the other from the start of the file on. */
  ghost predicate Reading(l: Limits, ws: seq<World>, rel: string, n: nat, replies: seq<Option<Bytes>>) {
    && |ws| == |replies| + 1
    && forall j :: 0 <= j < |replies| ==> ReadsNext(l, ws[j], ws[j + 1], rel, j * n, n, replies[j])
  }

  ghost predicate ReadsNext(l: Limits, w: World, next: World, rel: string, off: int, n: nat, reply: Option<Bytes>) {
    reply == ReadChunk(l, w, rel, off, n).data && next == Next(l, w, ReadEvent(rel, off, n))
  }

  function Joined(replies: seq<Option<Bytes>>): Bytes {
    if replies == [] then []
    else
      var last := replies[|replies| - 1];
      Joined(replies[..|replies| - 1]) + (if last.Some? then last.value else [])
  }

  /** The bytes from off on, at most `many` of them. */
  function Stretch(c: Bytes, off: nat, many: nat): Bytes {
    if off >= |c| then [] else if many < |c| - off then c[off..off + many] else c[off..]
  }

  /** The file can be read whole: the view may read it, the daemon has it, and the read limit does not bite. */
  ghost predicate WholeHeld(l: Limits, w: World, rel: string, c: Bytes) {
    Inv(l, w) && Held(w, rel) && w.disk[Key(rel)].content == c && (l.limit <= 0 || |c| <= l.limit)
  }

  lemma {:induction false} StaysHeld(l: Limits, ws: seq<World>, rel: string, n: nat, replies: seq<Option<Bytes>>, c: Bytes, j: nat)
    requires Reading(l, ws, rel, n, replies) && WholeHeld(l, ws[0], rel, c) && j < |ws|
    ensures WholeHeld(l, ws[j], rel, c)
  {
    if j > 0 {
      var i := j - 1;
      StaysHeld(l, ws, rel, n, replies, c, i);
      assert ReadsNext(l, ws[i], ws[i + 1], rel, i * n, n, replies[i]);
      PieceIsRange(l, ws[i], ws[i + 1], rel, i * n, n, replies[i], c);
    }
  }

  lemma PieceIsRange(l: Limits, w: World, next: World, rel: string, off: nat, n: nat, reply: Option<Bytes>, c: Bytes)
    requires WholeHeld(l, w, rel, c) && ReadsNext(l, w, next, rel, off, n, reply)
    ensures reply.Some? && IsRange(c, off, n, reply.value) && WholeHeld(l, next, rel, c)
  {
    HeldReadSucceeds(l, w, rel, off, n);
    ReadsAgree(l, w, rel, off, n);
    ReadKeeps(l, w, rel, off, n);
  }

  lemma {:induction false} RangesJoin(c: Bytes, n: nat, replies: seq<Option<Bytes>>)
    requires n > 0 && forall j :: 0 <= j < |replies| ==> replies[j].Some? && IsRange(c, j * n, n, replies[j].value)
    ensures Joined(replies) == Stretch(c, 0, |replies| * n)
  {
    if replies != [] {
      var k := |replies| - 1;
      var most := replies[..k];
      assert forall j :: 0 <= j < k ==> most[j] == replies[j];
      RangesJoin(c, n, most);
      StretchGrows(c, k * n, n, replies[k].value);
      OneMore(n, |replies|);
    } else {
      assert Stretch(c, 0, 0) == [];
    }
  }

  lemma OneMore(n: nat, k: nat)
    requires k > 0
    ensures k * n == (k - 1) * n + n
  {
  }

  lemma StretchGrows(c: Bytes, to: nat, n: nat, piece: Bytes)
    requires n > 0 && IsRange(c, to, n, piece)
    ensures Stretch(c, 0, to) + piece == Stretch(c, 0, to + n)
  {
  }

  /** Consecutive reads of any positive size, begun in any state a run can reach, all succeed and put together are
      the daemon's file, up to where they reach: the whole of it once they reach its end. */
  lemma PiecesMakeTheFile(l: Limits, ws: seq<World>, es: seq<Event>, i: nat, rs: seq<World>, rel: string, n: nat, replies: seq<Option<Bytes>>)
    requires Run(l, ws, es) && i < |ws| && Held(ws[i], rel) && n > 0
    requires l.limit <= 0 || |ws[i].disk[Key(rel)].content| <= l.limit
    requires Reading(l, rs, rel, n, replies) && rs[0] == ws[i]
    ensures forall j :: 0 <= j < |replies| ==> replies[j].Some?
    ensures var c := ws[i].disk[Key(rel)].content;
      && Joined(replies) == Stretch(c, 0, |replies| * n)
      && (|c| <= |replies| * n ==> Joined(replies) == c)
  {
    var c := ws[i].disk[Key(rel)].content;
    RunKeeps(l, ws, es, i);
    PiecesFrom(l, rs, rel, n, replies, c);
  }

  lemma PiecesFrom(l: Limits, rs: seq<World>, rel: string, n: nat, replies: seq<Option<Bytes>>, c: Bytes)
    requires Reading(l, rs, rel, n, replies) && WholeHeld(l, rs[0], rel, c) && n > 0
    ensures forall j :: 0 <= j < |replies| ==> replies[j].Some?
    ensures Joined(replies) == Stretch(c, 0, |replies| * n)
  {
    forall j | 0 <= j < |replies| ensures replies[j].Some? && IsRange(c, j * n, n, replies[j].value) {
      PieceAt(l, rs, rel, n, replies, c, j);
    }
    RangesJoin(c, n, replies);
  }

  lemma PieceAt(l: Limits, rs: seq<World>, rel: string, n: nat, replies: seq<Option<Bytes>>, c: Bytes, j: nat)
    requires Reading(l, rs, rel, n, replies) && WholeHeld(l, rs[0], rel, c) && j < |replies|
    ensures replies[j].Some? && IsRange(c, j * n, n, replies[j].value)
  {
    StaysHeld(l, rs, rel, n, replies, c, j);
    assert ReadsNext(l, rs[j], rs[j + 1], rel, j * n, n, replies[j]);
    PieceIsRange(l, rs[j], rs[j + 1], rel, j * n, n, replies[j], c);
  }

  lemma HeldReadSucceeds(l: Limits, w: World, rel: string, off: int, size: int)
    requires Held(w, rel)
    ensures ReadChunk(l, w, rel, off, size).data.Some?
  {
    PlaceIsKey(rel);
  }

  // ---- what the cache is for ----

  /** The most recent entry is the path's, with the bytes the daemon would send of the file now. */
  ghost predicate JustRead(l: Limits, w: World, lru: Recency, rel: string) {
    && Key(rel) in w.mirror.files && Key(rel) in w.disk && w.disk[Key(rel)].File? && lru != []
    && lru[0] == Entry(Key(rel), SignatureOf(w.mirror.files[Key(rel)]), Cap(w.disk[Key(rel)].content, l.limit))
  }

  lemma ReadLeavesEntry(l: Limits, w: World, rel: string, off: int, size: int)
    requires Inv(l, w) && Held(w, rel) && ShouldUseContentCache(l.cacheMax, w.mirror.files[Key(rel)])
    requires |Cap(w.disk[Key(rel)].content, l.limit)| <= l.cacheMax
    ensures JustRead(l, w, ReadChunk(l, w, rel, off, size).lru, rel)
  {
    PlaceIsKey(rel);
    var sig := SignatureOf(w.mirror.files[Key(rel)]);
    var c := w.disk[Key(rel)].content;
    assert SliceContent(c, 0, 0) == c;
    HitFinds(l.cacheMax, w.mirror.lru, Key(rel), sig);
    var touched := Step(l.cacheMax, w.mirror.lru, Get(rel, sig));
    FitKeepsNewest(l.cacheMax, [Entry(Key(rel), sig, Cap(c, l.limit))] + Drop(touched, {Key(rel)}));
  }

  /** After a read of a file the cache takes, reads of any range of it need no daemon: they succeed with the bytes of
      the file as it was, whatever the workspace holds by then, as long as no call or message came in between. */
  lemma SecondReadNeedsNoDaemon(l: Limits, ws: seq<World>, es: seq<Event>, i: nat, rel: string, off: int, size: int,
      disk: Disk, again: int, more: int)
    requires Run(l, ws, es) && i < |ws| && Held(ws[i], rel)
    requires ShouldUseContentCache(l.cacheMax, ws[i].mirror.files[Key(rel)])
    requires |Cap(ws[i].disk[Key(rel)].content, l.limit)| <= l.cacheMax
    ensures var reply := ReadChunk(l, Next(l, ws[i], ReadEvent(rel, off, size)).(disk := disk), rel, again, more);
      reply.data.Some? && IsRange(Cap(ws[i].disk[Key(rel)].content, l.limit), again, if more < 0 then 0 else more, reply.data.value)
  {
    RunKeeps(l, ws, es, i);
    ReadLeavesEntry(l, ws[i], rel, off, size);
    SlicesAgree(Cap(ws[i].disk[Key(rel)].content, l.limit), again, if more < 0 then 0 else more);
  }

  /** Cutting to the read limit and slicing commute on a file exactly when the limit does not bite. */
  lemma LimitCommutes(c: Bytes, limit: int)
    ensures (forall off: int, length: nat :: SliceContent(Cap(c, limit), off, length) == Cap(SliceContent(c, off, length), limit))
      <==> limit <= 0 || |c| <= limit
  {
    if limit > 0 && |c| > limit {
      assert SliceContent(Cap(c, limit), limit, 0) == [];
      assert |Cap(SliceContent(c, limit, 0), limit)| > 0;
    }
  }

  /** With a read limit the agreement is exact: a file the view reads is served like the daemon at every
      offset and size if and only if it is not cached, or the limit does not bite. */
  lemma LimitedReadsAgreeIff(l: Limits, w: World, rel: string)
    requires Inv(l, w) && Readable(w.mirror.files, rel).Some? && Place(rel).Some?
    requires Key(rel) in w.disk && w.disk[Key(rel)].File?
    ensures (forall off: int, length: nat :: ReadChunk(l, w, rel, off, length).data == Read(w.disk, l.limit, rel, off, length))
      <==> !ShouldUseContentCache(l.cacheMax, w.mirror.files[Key(rel)]) || l.limit <= 0 || |w.disk[Key(rel)].content| <= l.limit
  {
    var c := w.disk[Key(rel)].content;
    PlaceIsKey(rel);
    LimitCommutes(c, l.limit);
    forall off: int, length: nat
      ensures ReadChunk(l, w, rel, off, length).data == Some(
        if ShouldUseContentCache(l.cacheMax, w.mirror.files[Key(rel)]) then SliceContent(Cap(c, l.limit), off, length)
        else Cap(SliceContent(c, off, length), l.limit))
    {
      ServedBytes(l, w, rel, off, length);
    }
    if forall off: int, length: nat :: ReadChunk(l, w, rel, off, length).data == Read(w.disk, l.limit, rel, off, length) {
      forall off: int, length: nat | ShouldUseContentCache(l.cacheMax, w.mirror.files[Key(rel)])
        ensures SliceContent(Cap(c, l.limit), off, length) == Cap(SliceContent(c, off, length), l.limit)
      {
        assert ReadChunk(l, w, rel, off, length).data == Read(w.disk, l.limit, rel, off, length);
      }
    }
  }

  /** A bootstrapped world with one file, longer than the limit by a byte, whose index entry lets it be cached. */
  function LimitedWorld(l: Limits): World {
    var name := ["a"];
    var content: Bytes := seq(if l.limit > 0 then l.limit + 1 else 1, _ => 7);
    var size := if |content| <= l.cacheMax then |content| else 0;
    World(map[name := File(content, 0)], Mirror(TreeOf([FileInfo("a", size, 0, false, 0)]), []))
  }

  lemma KeyOfName()
    ensures Key("a") == ["a"] && Place("a") == Some(["a"])
  {
    assert Canonical(["a"]) && Join(["a"]) == "a";
    NormalizeFixesKeys(["a"]);
    SafeCleanAgrees("a");
    NormalizeSpellsKey("a");
    assert !EscapesRoot(["a"]) by { assert "a" != ".."; }
  }

  lemma LimitedWorldFacts(l: Limits)
    requires l.limit > 0 && l.cacheMax > 0
    ensures var w := LimitedWorld(l);
      && IsTree(w.disk) && Bootstrapped(w) && Readable(w.mirror.files, "a").Some?
      && ShouldUseContentCache(l.cacheMax, w.mirror.files[Key("a")])
      && Key("a") in w.disk && w.disk[Key("a")].File? && |w.disk[Key("a")].content| == l.limit + 1
  {
    KeyOfName();
    var w := LimitedWorld(l);
    assert forall j: Path :: !IsAncestor(j, ["a"]);
    var size := if l.limit + 1 <= l.cacheMax then l.limit + 1 else 0;
    var file := FileInfo("a", size, 0, false, 0);
    assert [file][..0] == [];
    assert w.mirror.files == InsertedAt(TreeOf([]), Some(file));
    assert "a" != "." && "a" != "/" && "a" != "";
  }

  /** The failing read, for every positive limit and cache: bootstrap, read once, and read again from the
      limit on; the view returns nothing where the daemon returns a byte. */
  lemma LimitedReadDiverges(l: Limits)
    requires l.limit > 0 && l.cacheMax > 0
    ensures var w := LimitedWorld(l);
      var e := ReadEvent("a", 0, 1);
      && Run(l, [w, Next(l, w, e)], [e])
      && ReadChunk(l, Next(l, w, e), "a", l.limit, 1).data == Some([])
      && Read(w.disk, l.limit, "a", l.limit, 1) == Some([7])
  {
    var w, e := LimitedWorld(l), ReadEvent("a", 0, 1);
    var t := Next(l, w, e);
    LimitedWorldFacts(l);
    KeyOfName();
    assert Run(l, [w, t], [e]);
    RunKeeps(l, [w, t], [e], 1);
    LimitedReadServed(l, t);
    var c := w.disk[["a"]].content;
    assert SliceContent(c, l.limit, 1) == [7];
  }

  lemma LimitedReadServed(l: Limits, t: World)
    requires l.limit > 0 && Inv(l, t) && Readable(t.mirror.files, "a").Some?
    requires ShouldUseContentCache(l.cacheMax, t.mirror.files[Key("a")])
    requires Key("a") in t.disk && t.disk[Key("a")].File? && |t.disk[Key("a")].content| == l.limit + 1
    ensures ReadChunk(l, t, "a", l.limit, 1).data == Some([])
  {
    KeyOfName();
    ServedBytes(l, t, "a", l.limit, 1);
  }

  ghost predicate Visited(l: Limits, w: World) {
    exists ws, es, i: nat :: Run(l, ws, es) && i < |ws| && ws[i] == w
  }

  /** The view may read the path, and the daemon resolves it to a file it holds. */
  predicate Held(w: World, rel: string) {
    Readable(w.mirror.files, rel).Some? && Place(rel).Some? && Key(rel) in w.disk && w.disk[Key(rel)].File?
  }

  ghost predicate AgreesOn(l: Limits, w: World, rel: string) {
    forall off: int, length: nat :: ReadChunk(l, w, rel, off, length).data == Read(w.disk, l.limit, rel, off, length)
  }

  /** Over all runs, reads of files the daemon holds agree with its range reads exactly for the configurations
      without a read limit or without a cache. */
  lemma AlwaysAgreesIff(l: Limits)
    ensures (forall w, rel :: Visited(l, w) && Held(w, rel) ==> AgreesOn(l, w, rel)) <==> l.limit <= 0 || l.cacheMax <= 0
  {
    if l.limit <= 0 || l.cacheMax <= 0 {
      forall w, rel | Visited(l, w) && Held(w, rel) ensures AgreesOn(l, w, rel) {
        var ws, es, i: nat :| Run(l, ws, es) && i < |ws| && ws[i] == w;
        RunKeeps(l, ws, es, i);
        LimitedReadsAgreeIff(l, w, rel);
      }
    } else {
      var w, e := LimitedWorld(l), ReadEvent("a", 0, 1);
      LimitedReadDiverges(l);
      LimitedWorldFacts(l);
      KeyOfName();
      var t := Next(l, w, e);
      assert [w, t][1] == t;
      assert Visited(l, t) && Held(t, "a");
      assert ReadChunk(l, t, "a", l.limit, 1).data != Read(t.disk, l.limit, "a", l.limit, 1);
    }
  }

  /** The index has the right size for every file the daemon holds under its path. */
  ghost predicate Honest(w: World) {
    forall k :: k in w.mirror.files && !w.mirror.files[k].isDir && k in w.disk && w.disk[k].File? ==>
      w.mirror.files[k].size == |w.disk[k].content|
  }

  ghost predicate VisitedHonestly(l: Limits, w: World) {
    exists ws, es, i: nat :: Run(l, ws, es) && i < |ws| && ws[i] == w && forall j :: 0 <= j < |ws| ==> Honest(ws[j])
  }

  /** Over the runs in which the index always has the right sizes, reads agree with the daemon's exactly for the
      configurations without a read limit or whose cache takes no file the limit cuts. */
  lemma HonestlyAgreesIff(l: Limits)
    ensures (forall w, rel :: VisitedHonestly(l, w) && Held(w, rel) ==> AgreesOn(l, w, rel))
      <==> l.limit <= 0 || l.cacheMax <= l.limit
  {
    if l.limit <= 0 || l.cacheMax <= l.limit {
      forall w, rel | VisitedHonestly(l, w) && Held(w, rel) ensures AgreesOn(l, w, rel) {
        var ws, es, i: nat :| Run(l, ws, es) && i < |ws| && ws[i] == w && forall j :: 0 <= j < |ws| ==> Honest(ws[j]);
        RunKeeps(l, ws, es, i);
        assert Honest(w);
        LimitedReadsAgreeIff(l, w, rel);
      }
    } else {
      var w, e := LimitedWorld(l), ReadEvent("a", 0, 1);
      var t := Next(l, w, e);
      LimitedReadDiverges(l);
      LimitedWorldFacts(l);
      KeyOfName();
      LimitedWorldHonest(l);
      var ws := [w, t];
      assert ws[1] == t && Honest(ws[0]) && Honest(ws[1]);
      assert VisitedHonestly(l, t) && Held(t, "a");
      assert ReadChunk(l, t, "a", l.limit, 1).data != Read(t.disk, l.limit, "a", l.limit, 1);
    }
  }

  lemma LimitedWorldHonest(l: Limits)
    requires 0 < l.limit < l.cacheMax
    ensures Honest(LimitedWorld(l)) && Honest(Next(l, LimitedWorld(l), ReadEvent("a", 0, 1)))
  {
    KeyOfName();
    var file := FileInfo("a", l.limit + 1, 0, false, 0);
    assert [file][..0] == [];
    assert LimitedWorld(l).mirror.files == InsertedAt(TreeOf([]), Some(file));
  }

  /** How long the file at path is after a write. */
  function Written(disk: Disk, path: string, content: Bytes, offset: nat): nat {
    |WriteAt(ContentAt(disk, Key(path)), content, offset)|
  }

  lemma WrittenIsHeld(l: Limits, w: World, path: string, content: Bytes, offset: nat, now: int)
    requires Perform(w.disk, Write(path, content, offset), now).Some?
    ensures var after := Called(l, w, Write(path, content, offset), now);
      && Held(after, path)
      && after.disk[Key(path)].content == WriteAt(ContentAt(w.disk, Key(path)), content, offset)
  {
    var k := Key(path);
    PlaceIsKey(path);
    KeyOfToSlash(path);
    KeyOfSpecial();
    assert ToSlash("") == "" && ToSlash(".") == "." && ToSlash("/") == "/";
    assert k != [] && k in Called(l, w, Write(path, content, offset), now).mirror.files;
  }

  /** What a successful write sent is what the next read of that range returns. */
  lemma ReadYourWrites(l: Limits, w: World, path: string, content: Bytes, offset: nat, now: int)
    requires Inv(l, w) && Perform(w.disk, Write(path, content, offset), now).Some? && content != []
    requires l.limit <= 0 || Written(w.disk, path, content, offset) <= l.limit
    ensures ReadChunk(l, Called(l, w, Write(path, content, offset), now), path, offset, |content|).data == Some(content)
  {
    var after := Called(l, w, Write(path, content, offset), now);
    CallKeeps(l, w, Write(path, content, offset), now);
    WrittenIsHeld(l, w, path, content, offset, now);
    WriteAtMeaning(ContentAt(w.disk, Key(path)), content, offset);
    HeldReadSucceeds(l, after, path, offset, |content|);
    ReadsAgree(l, after, path, offset, |content|);
  }

  /** After a successful removal the path is gone on both sides and nothing else changed at the daemon. */
  lemma RemovedIsGone(l: Limits, w: World, path: string, now: int, off: int, size: int)
    requires Perform(w.disk, Remove(path), now).Some? && Key(path) != []
    ensures var after := Called(l, w, Remove(path), now);
      && after.disk == w.disk - {Key(path)} && Key(path) in w.disk
      && ReadChunk(l, after, path, off, size).data == None
  {
    PlaceIsKey(path);
  }

  /** After a successful rename of a file, the new path reads as the old one did, and the old path is gone. */
  lemma RenamedReadsSame(l: Limits, w: World, oldPath: string, newPath: string, now: int, off: int, size: nat)
    requires Inv(l, w) && Perform(w.disk, Move(oldPath, newPath), now).Some?
    requires Key(oldPath) in w.disk && w.disk[Key(oldPath)].File?
    requires l.limit <= 0 || |w.disk[Key(oldPath)].content| <= l.limit
    ensures var after := Called(l, w, Move(oldPath, newPath), now);
      && ReadChunk(l, after, newPath, off, size).data == Some(SliceContent(w.disk[Key(oldPath)].content, off, size))
      && (!(Key(oldPath) <= Key(newPath)) ==> ReadChunk(l, after, oldPath, off, size).data == None)
  {
    var req := Move(oldPath, newPath);
    var after := Called(l, w, req, now);
    CallKeeps(l, w, req, now);
    PlaceIsKey(oldPath);
    PlaceIsKey(newPath);
    KeyOfToSlash(newPath);
    NotRoot(newPath);
    var from, to := Key(oldPath), Key(newPath);
    MovedAt(w.disk, from, to, to);
    assert from + to[|to|..] == from;
    RenamedIndex(l, w, oldPath, newPath, now);
    ReadsAgree(l, after, newPath, off, size);
  }

  lemma NotRoot(path: string)
    ensures Key(path) != [] ==> !IsRootSpelling(path)
  {
    KeyOfSpecial();
    assert ToSlash("") == "" && ToSlash(".") == "." && ToSlash("/") == "/";
  }

  /** The index after a file was renamed. */
  lemma RenamedIndex(l: Limits, w: World, oldPath: string, newPath: string, now: int)
    requires Perform(w.disk, Move(oldPath, newPath), now).Some?
    requires Key(oldPath) in w.disk && w.disk[Key(oldPath)].File?
    ensures var files := Called(l, w, Move(oldPath, newPath), now).mirror.files;
      && Key(newPath) != [] && Key(newPath) in files && !files[Key(newPath)].isDir
      && (Key(oldPath) != [] && !(Key(oldPath) <= Key(newPath)) ==> Key(oldPath) !in files || files[Key(oldPath)].isDir)
  {
    PlaceIsKey(oldPath);
    PlaceIsKey(newPath);
    KeyOfToSlash(newPath);
    var info := InfoOf(newPath, w.disk[Key(oldPath)]);
    InsertedMeaning(DeletedAt(w.mirror.files, oldPath), Key(newPath), info, Key(oldPath));
  }

  /** After a successful truncate the file reads as its first bytes, filled up with zeros. */
  lemma TruncatedReads(l: Limits, w: World, path: string, size: nat, now: int)
    requires Inv(l, w) && Perform(w.disk, Truncate(path, size), now).Some? && (l.limit <= 0 || size <= l.limit) && Key(path) != []
    ensures var data := ReadChunk(l, Called(l, w, Truncate(path, size), now), path, 0, 0).data;
      && data.Some? && |data.value| == size && Key(path) in w.disk && w.disk[Key(path)].File?
      && forall i :: 0 <= i < size ==>
           data.value[i] == if i < |w.disk[Key(path)].content| then w.disk[Key(path)].content[i] else 0
  {
    var req := Truncate(path, size);
    var after := Called(l, w, req, now);
    CallKeeps(l, w, req, now);
    PlaceIsKey(path);
    KeyOfToSlash(path);
    NotRoot(path);
    var k := Key(path);
    assert k in after.mirror.files && !after.mirror.files[k].isDir;
    ReadsAgree(l, after, path, 0, 0);
    assert SliceContent(after.disk[k].content, 0, 0) == after.disk[k].content;
  }
}
