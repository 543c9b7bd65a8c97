/** The session object and the view calls that use it (pkg/session/session.go, pkg/fusefs/view.go),
    proved against the functions of CoherentReads. The daemon's workspace is passed in. */
module SessionFiles {
  import opened Basics
  import opened FileTree
  import opened ContentCache
  import opened Daemon
  import opened CoherentReads

  method BuildTree(files: seq<FileInfo>) returns (next: Tree)
    ensures fresh(next) && next.Valid() && next.Contents() == TreeOf(files)
  {
    next := new Tree();
    for i := 0 to |files|
      invariant next.Valid() && fresh(next) && next.Contents() == TreeOf(files[..i])
    {
      OneMoreFile(files, i);
      var _ := next.Insert(Some(files[i]));
    }
    assert files[..|files|] == files;
  }

  lemma OneMoreFile(files: seq<FileInfo>, i: nat)
    requires i < |files|
    ensures TreeOf(files[..i + 1]) == InsertedAt(TreeOf(files[..i]), Some(files[i]))
  {
    assert files[..i + 1][..i] == files[..i];
  }

  class Session {
    var tree: Tree
    const cache: Cache

    ghost predicate Valid()
      reads this, tree, cache
    {
      tree.Valid() && cache.Valid()
    }

    ghost function Snapshot(): Mirror
      reads this, tree, cache
    {
      Mirror(tree.Contents(), cache.lru)
    }

    constructor (maxBytes: int)
      ensures Valid() && fresh(tree) && fresh(cache) && cache.maxBytes == maxBytes
      ensures Snapshot() == Mirror(TreeOf([]), [])
    {
      tree := new Tree();
      cache := new Cache(maxBytes);
    }

    /** A fresh index and an empty cache. */
    method Bootstrap(files: seq<FileInfo>)
      requires Valid()
      modifies this, cache
      ensures Valid() && fresh(tree)
      ensures Snapshot() == Mirror(TreeOf(files), [])
    {
      ReplaceTree(files);
      cache.Clear();
    }

    /** The index is rebuilt from the list; cached contents stay. */
    method ReplaceTree(files: seq<FileInfo>)
      requires Valid()
      modifies this
      ensures Valid() && fresh(tree)
      ensures Snapshot() == old(Snapshot()).(files := TreeOf(files))
    {
      var next := BuildTree(files);
      tree := next;
    }

    method InvalidatePath(relPath: string, recursive: bool)
      requires Valid()
      modifies cache
      ensures Valid()
      ensures Snapshot() == old(Snapshot()).(lru := Invalidated(cache.maxBytes, old(cache.lru), relPath, recursive))
    {
      if recursive {
        cache.InvalidatePrefix(relPath);
      } else {
        cache.Invalidate(relPath);
      }
    }

    method ApplyWriteResult(info: FileInfo)
      requires Valid()
      modifies tree, cache
      ensures Valid() && Snapshot() == WriteApplied(cache.maxBytes, old(Snapshot()), info)
    {
      var err := tree.Insert(Some(info));
      if err != NoError {
        return;
      }
      InvalidatePath(info.path, info.isDir);
    }

    method ApplyDelete(relPath: string)
      requires Valid()
      modifies tree, cache
      ensures Valid() && Snapshot() == DeleteApplied(cache.maxBytes, old(Snapshot()), relPath)
    {
      var info := tree.Lookup(relPath);
      tree.Delete(relPath);
      InvalidatePath(relPath, info.Some? && info.value.isDir);
    }

    method ApplyRename(oldRel: string, newInfo: FileInfo)
      requires Valid()
      modifies tree, cache
      ensures Valid() && Snapshot() == RenameApplied(cache.maxBytes, old(Snapshot()), oldRel, newInfo)
    {
      var oldInfo := tree.Lookup(oldRel);
      tree.Delete(oldRel);
      var err := tree.Insert(Some(newInfo));
      if err != NoError {
        return;
      }
      InvalidatePath(oldRel, oldInfo.Some? && oldInfo.value.isDir);
      InvalidatePath(newInfo.path, newInfo.isDir);
    }

    method ApplyChange(change: Change) returns (err: FileTree.Error)
      requires Valid()
      modifies tree, cache
      ensures Valid() && Snapshot() == ChangeApplied(cache.maxBytes, old(Snapshot()), change)
      ensures err != NoError <==> Refused(change)
    {
      match change {
        case Create(file) => err := InsertAndInvalidate(file);
        case Modify(file) => err := InsertAndInvalidate(file);
        case Delete(file) =>
          ApplyDelete(if file.Some? then file.value.path else "");
          return NoError;
        case Rename(oldPath, file) =>
          var oldInfo := tree.Lookup(oldPath);
          tree.Delete(oldPath);
          err := tree.Insert(file);
          if err != NoError {
            return;
          }
          InvalidatePath(oldPath, oldInfo.Some? && oldInfo.value.isDir);
          InvalidatePath(file.value.path, file.value.isDir);
        case Unspecified => return ErrUnknownChangeType;
      }
    }

    method InsertAndInvalidate(file: Option<FileInfo>) returns (err: FileTree.Error)
      requires Valid()
      modifies tree, cache
      ensures Valid() && err == (if file.None? then ErrNilInfo else NoError)
      ensures Snapshot() == if file.None? then old(Snapshot()) else WriteApplied(cache.maxBytes, old(Snapshot()), file.value)
    {
      err := tree.Insert(file);
      if err != NoError {
        return;
      }
      InvalidatePath(file.value.path, file.value.isDir);
    }

    /** The receive loop over change messages: it ends at the first refused one. */
    method ReceiveChanges(changes: seq<Change>)
      requires Valid()
      modifies tree, cache
      ensures Valid() && Snapshot() == ChangesApplied(cache.maxBytes, old(Snapshot()), changes)
    {
      var i := 0;
      while i < |changes|
        invariant 0 <= i <= |changes| && Valid()
        invariant ChangesApplied(cache.maxBytes, Snapshot(), changes[i..]) == ChangesApplied(cache.maxBytes, old(Snapshot()), changes)
      {
        assert changes[i..][0] == changes[i] && changes[i..][1..] == changes[i + 1..];
        var err := ApplyChange(changes[i]);
        if err != NoError {
          return;
        }
        i := i + 1;
      }
    }

    /** readChunk. */
    method ReadFileChunk(disk: Disk, limit: int, rel: string, off: int, size: int) returns (r: Option<Bytes>)
      requires Valid()
      modifies cache
      ensures Valid()
      ensures var reply := ReadChunk(Limits(cache.maxBytes, limit), World(disk, old(Snapshot())), rel, off, size);
        r == reply.data && Snapshot() == old(Snapshot()).(lru := reply.lru)
    {
      if IsRootSpelling(rel) {
        return None;
      }
      var found := tree.Lookup(rel);
      if found.None? || found.value.isDir {
        return None;
      }
      var info := found.value;
      var length := if size < 0 then 0 else size;
      var cached := cache.Get(rel, SignatureOf(info));
      if cached.Some? {
        return Some(SliceReadContent(cached.value, off, length));
      }
      if ShouldUseContentCache(cache.maxBytes, info) {
        var whole := Read(disk, limit, rel, 0, 0);
        if whole.None? {
          return None;
        }
        var _ := cache.Put(rel, SignatureOf(info), whole.value);
        return Some(SliceReadContent(whole.value, off, length));
      }
      return Read(disk, limit, rel, off, length);
    }

    /** The mutating view calls: ask the daemon, then apply what it answered. */
    method Call(disk: Disk, limit: int, req: Request, now: int) returns (after: Disk, ok: bool)
      requires Valid()
      modifies tree, cache
      ensures Valid() && ok == Perform(disk, req, now).Some?
      ensures World(after, Snapshot()) == Called(Limits(cache.maxBytes, limit), World(disk, old(Snapshot())), req, now)
    {
      var resp := Perform(disk, req, now);
      if resp.None? {
        return disk, false;
      }
      match req {
        case Remove(path) => ApplyDelete(path);
        case Move(oldPath, _) =>
          if resp.value.info.Some? {
            ApplyRename(oldPath, resp.value.info.value);
          }
        case _ =>
          if resp.value.info.Some? {
            ApplyWriteResult(resp.value.info.value);
          }
      }
      return resp.value.disk, true;
    }
  }
}
