/** The server's index of a user's workspace (pkg/fstree/fstree.go): a flat map from path to
    node, where every directory node also lists its children. */
module FileTree {
  import opened Basics
  import opened Paths

  datatype FileInfo = FileInfo(path: string, size: int, modTime: int, isDir: bool, mode: int)

  /** children is the nil map for a file. */
  datatype Node = Node(info: FileInfo, children: Option<set<string>>)

  type Nodes = map<Path, Node>

  /** The index as a plain map from path to metadata. */
  type Files = map<Path, FileInfo>

  datatype Error = NoError | ErrNilInfo | ErrNilChange | ErrUnknownChangeType

  datatype Change =
    | Create(file: Option<FileInfo>)
    | Modify(file: Option<FileInfo>)
    | Delete(file: Option<FileInfo>)
    | Rename(oldPath: string, file: Option<FileInfo>)
    | Unspecified

  function Parent(k: Path): Path
    requires k != []
  {
    k[..|k| - 1]
  }

  function Last(k: Path): string
    requires k != []
  {
    k[|k| - 1]
  }

  function View(nodes: Nodes): Files {
    map k | k in nodes :: nodes[k].info
  }

  function Placeholder(k: Path): FileInfo {
    FileInfo(Join(k), 0, 0, true, 0)
  }

  // ---- the shape of the tree ----

  ghost predicate NodeOk(nodes: Nodes, k: Path)
    requires k in nodes
  {
    && Canonical(k) && nodes[k].info.path == Join(k)
    && (nodes[k].info.isDir <==> nodes[k].children.Some?)
  }

  ghost predicate ListedByParent(nodes: Nodes, k: Path)
    requires k != []
  {
    && Parent(k) in nodes && nodes[Parent(k)].children.Some? && Last(k) in nodes[Parent(k)].children.value
  }

  ghost predicate ChildPresent(nodes: Nodes, k: Path, name: string)
    requires k in nodes
  {
    nodes[k].children.Some? && name in nodes[k].children.value ==> k + [name] in nodes
  }

  /** Root present; every node's parent present, a directory, and listing it; every listed child
      present; files childless; the stored path equal to the key. */
  ghost predicate Shape(nodes: Nodes) {
    && [] in nodes && nodes[[]].info.isDir
    && (forall k {:trigger NodeOk(nodes, k)} :: k in nodes ==> NodeOk(nodes, k))
    && (forall k {:trigger ListedByParent(nodes, k)} :: k in nodes && k != [] ==> ListedByParent(nodes, k))
    && (forall k, name {:trigger ChildPresent(nodes, k, name)} :: k in nodes ==> ChildPresent(nodes, k, name))
  }

  lemma ChildParent(k: Path, name: string)
    ensures Parent(k + [name]) == k && Last(k + [name]) == name
  {
  }

  /** Ancestors of a node are nodes, and directories. */
  lemma {:induction false} AncestorsPresent(nodes: Nodes, k: Path, n: nat)
    requires Shape(nodes) && k in nodes && n < |k|
    ensures k[..n] in nodes && nodes[k[..n]].info.isDir
    ensures nodes[k[..n]].children.Some? && k[n] in nodes[k[..n]].children.value
    decreases |k|
  {
    assert ListedByParent(nodes, k);
    if n < |k| - 1 {
      AncestorsPresent(nodes, Parent(k), n);
      assert Parent(k)[..n] == k[..n];
    } else {
      assert k[..n] == Parent(k);
      assert NodeOk(nodes, Parent(k));
    }
  }

  /** A child set holds exactly the names of the nodes one level below. */
  lemma ChildrenExact(nodes: Nodes, k: Path, name: string)
    requires Shape(nodes) && k in nodes && nodes[k].children.Some?
    ensures name in nodes[k].children.value <==> k + [name] in nodes
  {
    assert ChildPresent(nodes, k, name);
    if k + [name] in nodes {
      ChildParent(k, name);
      assert ListedByParent(nodes, k + [name]);
    }
  }

  /** A well-shaped index is determined by the plain map it represents. */
  lemma ShapeDetermined(a: Nodes, b: Nodes)
    requires Shape(a) && Shape(b) && View(a) == View(b)
    ensures a == b
  {
    assert a.Keys == View(a).Keys && b.Keys == View(b).Keys;
    forall k | k in a ensures a[k] == b[k] {
      assert k in View(b) && View(a)[k] == View(b)[k];
      assert NodeOk(a, k) && NodeOk(b, k);
      if a[k].children.Some? {
        forall name ensures name in a[k].children.value <==> name in b[k].children.value {
          ChildrenExact(a, k, name);
          ChildrenExact(b, k, name);
          assert k + [name] in a <==> k + [name] in b;
        }
        assert a[k].children.value == b[k].children.value;
      }
    }
  }

  // ---- what the operations mean for the plain map ----

  /** Everything at or below p is gone, nothing else changed. */
  function Without(v: Files, p: Path): Files {
    map k | k in v && !(p <= k) :: v[k]
  }

  /** The children of p named in `names` are gone with everything below them. */
  function WithoutChildren(v: Files, p: Path, names: set<string>): Files {
    map k | k in v && !(p < k && k[|p|] in names) :: v[k]
  }

  /** All strict descendants of p are gone. */
  function WithoutBelow(v: Files, p: Path): Files {
    map k | k in v && !(p < k) :: v[k]
  }

  predicate IsAncestor(k: Path, p: Path) {
    k < p && k != []
  }

  /** Missing ancestors of p appear as placeholders, and ancestors stored as files become placeholders. */
  function WithAncestors(v: Files, p: Path): Files {
    map k | k in v.Keys + Ancestors(p) ::
      if k in Ancestors(p) && (k !in v || !v[k].isDir) then Placeholder(k) else v[k]
  }

  function Ancestors(p: Path): (r: set<Path>)
    ensures forall k :: k in r <==> IsAncestor(k, p)
  {
    var r := set n | 0 < n < |p| :: p[..n];
    assert forall k :: IsAncestor(k, p) ==> k == p[..|k|];
    r
  }

  /** What inserting info at p means: the node itself, its ancestors, and, when a file takes the
      place of a directory, the loss of that directory's content. */
  function Inserted(v: Files, p: Path, info: FileInfo): Files {
    var kept := if p in v && v[p].isDir && !info.isDir then WithoutBelow(v, p) else v;
    WithAncestors(kept, p)[p := info.(path := Join(p))]
  }

  /** An insert touches the node itself, ancestors that were missing or files, and (file over
      directory) what lay below; every other path keeps its entry or stays absent. */
  lemma InsertedMeaning(v: Files, p: Path, info: FileInfo, k: Path)
    requires p != []
    ensures var r := Inserted(v, p, info);
      if k == p then k in r && r[k] == info.(path := Join(p))
      else if IsAncestor(k, p) then k in r && r[k] == if k in v && v[k].isDir then v[k] else Placeholder(k)
      else if p < k && p in v && v[p].isDir && !info.isDir then k !in r
      else (k in r <==> k in v) && (k in v ==> r[k] == v[k])
  {
  }

  /** A plain map a tree can represent: below the root, every path's parent is a directory of the map. */
  ghost predicate PrefixClosed(v: Files) {
    forall k, n: nat :: k in v && n < |k| ==> k[..n] in v && v[k[..n]].isDir
  }

  lemma ShapeIsPrefixClosed(nodes: Nodes)
    requires Shape(nodes)
    ensures PrefixClosed(View(nodes))
  {
    forall k, n: nat | k in nodes && n < |k| ensures k[..n] in nodes && nodes[k[..n]].info.isDir {
      AncestorsPresent(nodes, k, n);
    }
  }

  // ---- single updates keep the shape ----

  /** Removing a childless node together with its entry in the parent's child set. */
  function Unlink(nodes: Nodes, p: Path): Nodes
    requires p != []
  {
    var parent := Parent(p);
    map k | k in nodes && k != p ::
      if k == parent && nodes[k].children.Some? then nodes[k].(children := Some(nodes[k].children.value - {Last(p)}))
      else nodes[k]
  }

  lemma UnlinkKeepsShape(nodes: Nodes, p: Path)
    requires Shape(nodes) && p in nodes && p != []
    requires forall k :: k in nodes ==> !(p < k)
    ensures Shape(Unlink(nodes, p)) && View(Unlink(nodes, p)) == Without(View(nodes), p)
  {
    var after := Unlink(nodes, p);
    assert NodeOk(nodes, []);
    forall k | k in after ensures NodeOk(after, k) {
      assert NodeOk(nodes, k);
    }
    forall k | k in after && k != [] ensures ListedByParent(after, k) {
      assert ListedByParent(nodes, k);
      UnlinkedStaysListed(nodes, p, k);
    }
    forall k, name | k in after ensures ChildPresent(after, k, name) {
      assert ChildPresent(nodes, k, name);
      UnlinkedChild(nodes, p, k, name);
    }
    UnlinkedView(nodes, p);
  }

  lemma UnlinkedStaysListed(nodes: Nodes, p: Path, k: Path)
    requires p != [] && k != [] && k != p && k in nodes && !(p < k) && ListedByParent(nodes, k)
    ensures ListedByParent(Unlink(nodes, p), k)
  {
    assert Parent(k) < k;
    assert k == Parent(k) + [Last(k)] && p == Parent(p) + [Last(p)];
  }

  lemma UnlinkedChild(nodes: Nodes, p: Path, k: Path, name: string)
    requires p != [] && k in Unlink(nodes, p) && ChildPresent(nodes, k, name)
    ensures ChildPresent(Unlink(nodes, p), k, name)
  {
    ChildParent(k, name);
  }

  lemma UnlinkedView(nodes: Nodes, p: Path)
    requires p != [] && forall k :: k in nodes ==> !(p < k)
    ensures View(Unlink(nodes, p)) == Without(View(nodes), p)
  {
    assert forall k :: k in nodes && p <= k ==> k == p;
  }

  /** Storing a node at p: the parent lists it, and a directory keeps the child set it had. */
  function Link(nodes: Nodes, p: Path, info: FileInfo): Nodes
    requires p != []
  {
    var children := if !info.isDir then None
                    else if p in nodes && nodes[p].children.Some? then nodes[p].children else Some({});
    Registered(nodes[p := Node(info, children)], p)
  }

  function Registered(nodes: Nodes, p: Path): Nodes
    requires p != []
  {
    if Parent(p) in nodes then
      var pn := nodes[Parent(p)];
      nodes[Parent(p) := pn.(children := Some((if pn.children.Some? then pn.children.value else {}) + {Last(p)}))]
    else nodes
  }

  lemma LinkKeepsShape(nodes: Nodes, p: Path, info: FileInfo)
    requires Linkable(nodes, p, info)
    ensures Shape(Link(nodes, p, info)) && View(Link(nodes, p, info)) == View(nodes)[p := info]
  {
    var after := Link(nodes, p, info);
    LinkView(nodes, p, info);
    forall k | k in after ensures NodeOk(after, k) {
      LinkNode(nodes, p, info, k);
    }
    forall k | k in after && k != [] ensures ListedByParent(after, k) {
      LinkListed(nodes, p, info, k);
    }
    forall k, name | k in after ensures ChildPresent(after, k, name) {
      LinkChild(nodes, p, info, k, name);
    }
  }

  /** A node may be stored at p: it is spelled right, its parent is a directory, and a file has nothing below. */
  ghost predicate Linkable(nodes: Nodes, p: Path, info: FileInfo) {
    && Shape(nodes) && p != [] && Canonical(p) && info.path == Join(p)
    && Parent(p) in nodes && nodes[Parent(p)].info.isDir
    && (!info.isDir ==> forall k :: k in nodes ==> !(p < k))
  }

  lemma LinkView(nodes: Nodes, p: Path, info: FileInfo)
    requires Linkable(nodes, p, info)
    ensures Link(nodes, p, info).Keys == nodes.Keys + {p}
    ensures View(Link(nodes, p, info)) == View(nodes)[p := info]
    ensures Link(nodes, p, info)[[]].info.isDir
  {
    assert Parent(p) != p;
  }

  lemma LinkNode(nodes: Nodes, p: Path, info: FileInfo, k: Path)
    requires Linkable(nodes, p, info) && k in Link(nodes, p, info)
    ensures NodeOk(Link(nodes, p, info), k)
  {
    assert NodeOk(nodes, Parent(p));
    assert k in nodes ==> NodeOk(nodes, k);
  }

  lemma LinkListed(nodes: Nodes, p: Path, info: FileInfo, k: Path)
    requires Linkable(nodes, p, info) && k in Link(nodes, p, info) && k != []
    ensures ListedByParent(Link(nodes, p, info), k)
  {
    if k != p {
      assert ListedByParent(nodes, k);
      assert Parent(k) == p ==> p < k;
    }
  }

  lemma LinkChild(nodes: Nodes, p: Path, info: FileInfo, k: Path, name: string)
    requires Linkable(nodes, p, info) && k in Link(nodes, p, info)
    ensures ChildPresent(Link(nodes, p, info), k, name)
  {
    if k == Parent(p) && name == Last(p) {
      assert k + [name] == p;
    } else {
      assert k in nodes ==> ChildPresent(nodes, k, name);
    }
  }

  lemma PromoteKeepsShape(nodes: Nodes, p: Path)
    requires Shape(nodes) && p in nodes && !nodes[p].info.isDir
    ensures var after := nodes[p := Node(Placeholder(p), Some({}))];
      Shape(after) && View(after) == View(nodes)[p := Placeholder(p)]
  {
    var after := nodes[p := Node(Placeholder(p), Some({}))];
    assert NodeOk(nodes, p);
    forall k | k in after ensures NodeOk(after, k) {
      assert NodeOk(nodes, k);
    }
    forall k | k in after && k != [] ensures ListedByParent(after, k) {
      assert ListedByParent(nodes, k);
    }
    forall k, name | k in after ensures ChildPresent(after, k, name) {
      assert ChildPresent(nodes, k, name);
    }
  }

  // ---- reading the plain map off the shape ----

  /** Nothing lies below a path that is missing, a file, or an empty directory. */
  lemma NothingBelow(nodes: Nodes, p: Path)
    requires Shape(nodes) && (p in nodes ==> nodes[p].children.None? || nodes[p].children.value == {})
    ensures forall k :: k in nodes ==> !(p < k)
  {
    forall k | k in nodes ensures !(p < k) {
      assert p < k ==> k[..|p|] == p;
      if p < k {
        AncestorsPresent(nodes, k, |p|);
      }
    }
  }

  /** Everything below a directory lies below one of its children. */
  lemma BelowIsBelowChild(nodes: Nodes, p: Path)
    requires Shape(nodes) && p in nodes && nodes[p].children.Some?
    ensures WithoutChildren(View(nodes), p, nodes[p].children.value) == WithoutBelow(View(nodes), p)
  {
    forall k | k in nodes && p < k ensures k[|p|] in nodes[p].children.value {
      AncestorsPresent(nodes, k, |p|);
      assert k[..|p|] == p;
    }
  }

  /** After some children were removed, the child set holds exactly the others. */
  lemma ChildrenLeft(before: Nodes, after: Nodes, p: Path, done: set<string>)
    requires Shape(before) && Shape(after) && p in before && before[p].children.Some?
    requires View(after) == WithoutChildren(View(before), p, done)
    ensures p in after && after[p].info == before[p].info && after.Keys <= before.Keys
    ensures after[p].children == Some(before[p].children.value - done)
  {
    assert after.Keys == View(after).Keys && before.Keys == View(before).Keys;
    assert p in View(after) && View(after)[p] == View(before)[p];
    assert NodeOk(after, p) && NodeOk(before, p);
    forall name: string ensures name in after[p].children.value <==> name in before[p].children.value - done {
      ChildrenExact(before, p, name);
      ChildrenExact(after, p, name);
      var c := p + [name];
      assert p < c && c[|p|] == name;
      assert c in View(after) <==> c in View(before) && name !in done;
    }
    assert after[p].children.value == before[p].children.value - done;
  }

  lemma OneMoreChildGone(v: Files, p: Path, done: set<string>, child: string)
    ensures Without(WithoutChildren(v, p, done), p + [child]) == WithoutChildren(v, p, done + {child})
  {
    assert forall k: Path :: p + [child] <= k <==> p < k && k[|p|] == child;
  }

  lemma BelowShrinks(before: Nodes, now: Nodes, p: Path, child: string)
    requires now.Keys <= before.Keys && p in before
    ensures (set k | k in now && p + [child] <= k) < (set k | k in before && p <= k)
  {
    var small, big := set k | k in now && p + [child] <= k, set k | k in before && p <= k;
    assert p in big && p !in small;
    forall k | k in small ensures k in big { assert p <= p + [child] <= k; }
  }

  lemma AncestorsOfTop(v: Files, p: Path)
    requires |p| == 1
    ensures WithAncestors(v, p) == v
  {
    assert Ancestors(p) == {};
  }

  /** An existing parent already has all its own ancestors. */
  lemma AncestorsAlreadyThere(nodes: Nodes, p: Path)
    requires Shape(nodes) && |p| > 1 && Parent(p) in nodes
    ensures var v := View(nodes);
      WithAncestors(v, p) == if v[Parent(p)].isDir then v else v[Parent(p) := Placeholder(Parent(p))]
  {
    var v := View(nodes);
    forall k | k in Ancestors(p) ensures k in v && (k != Parent(p) ==> v[k].isDir) {
      if k != Parent(p) {
        AncestorsPresent(nodes, Parent(p), |k|);
        assert Parent(p)[..|k|] == k;
      }
    }
  }

  lemma AncestorsOneUp(v: Files, p: Path)
    requires |p| > 1 && Parent(p) !in v
    ensures WithAncestors(v, p) == WithAncestors(v, Parent(p))[Parent(p) := Placeholder(Parent(p))]
  {
    forall k ensures k in Ancestors(p) <==> k in Ancestors(Parent(p)) || k == Parent(p) {
      if IsAncestor(k, p) && k != Parent(p) { assert k < Parent(p); }
      if k < Parent(p) { assert k < p; }
    }
  }

  lemma ParentIsDirectory(nodes: Nodes, v: Files, p: Path)
    requires Shape(nodes) && p != [] && View(nodes) == WithAncestors(v, p)
    ensures Parent(p) in nodes && nodes[Parent(p)].info.isDir
  {
    if Parent(p) != [] {
      assert IsAncestor(Parent(p), p) && Parent(p) in View(nodes);
    }
  }

  lemma ListedExactly(nodes: Nodes, p: Path, done: seq<string>, out: seq<FileInfo>)
    requires Shape(nodes) && p in nodes && nodes[p].children.Some?
    requires |out| == |done|
    requires forall i :: 0 <= i < |done| ==> p + [done[i]] in nodes && out[i] == nodes[p + [done[i]]].info
    requires forall i, j :: 0 <= i < j < |done| ==> done[i] != done[j]
    requires forall name :: name in nodes[p].children.value ==> name in done
    ensures forall k :: k in nodes && k != [] && Parent(k) == p ==> nodes[k].info in out
    ensures forall info :: info in out ==> exists k :: k in nodes && k != [] && Parent(k) == p && nodes[k].info == info
    ensures forall i, j :: 0 <= i < j < |out| ==> out[i].path != out[j].path
  {
    forall k | k in nodes && k != [] && Parent(k) == p ensures nodes[k].info in out {
      assert ListedByParent(nodes, k);
      var i :| 0 <= i < |done| && done[i] == Last(k);
      assert p + [done[i]] == k;
    }
    forall info | info in out ensures exists k :: k in nodes && k != [] && Parent(k) == p && nodes[k].info == info {
      var i :| 0 <= i < |out| && out[i] == info;
      ChildParent(p, done[i]);
    }
    forall i, j | 0 <= i < j < |out| ensures out[i].path != out[j].path {
      var a, b := p + [done[i]], p + [done[j]];
      assert NodeOk(nodes, a) && NodeOk(nodes, b);
      assert Last(a) == done[i] && Last(b) == done[j];
      if Join(a) == Join(b) { JoinInjective(a, b); }
    }
  }

  // ---- the tree object ----

  class Tree {
    var nodes: Nodes

    ghost predicate Valid()
      reads this
    {
      Shape(nodes)
    }

    ghost function Contents(): Files
      reads this
    {
      View(nodes)
    }

    constructor ()
      ensures Valid() && Contents() == map[[] := Placeholder([])]
    {
      nodes := map[[] := Node(Placeholder([]), Some({}))];
    }

    method Insert(info: Option<FileInfo>) returns (err: Error)
      requires Valid()
      modifies this
      ensures Valid()
      ensures err == (if info.None? then ErrNilInfo else NoError)
      ensures Contents() == if info.None? || Key(info.value.path) == [] then old(Contents())
                            else Inserted(old(Contents()), Key(info.value.path), info.value)
    {
      if info.None? {
        return ErrNilInfo;
      }
      var cleaned := Key(info.value.path);
      NormalizeSpellsKey(info.value.path);
      if cleaned != [] {
        InsertLocked(cleaned, info.value);
      }
      return NoError;
    }

    method Delete(p: string)
      requires Valid()
      modifies this
      ensures Valid()
      ensures Contents() == if Key(p) == [] then old(Contents()) else Without(old(Contents()), Key(p))
    {
      var cleaned := Key(p);
      if cleaned != [] {
        DeleteLocked(cleaned);
      }
    }

    method Lookup(p: string) returns (r: Option<FileInfo>)
      requires Valid()
      ensures r == if Key(p) in Contents() then Some(Contents()[Key(p)]) else None
    {
      var cleaned := Key(p);
      if cleaned !in nodes {
        return None;
      }
      return Some(nodes[cleaned].info);
    }

    /** The direct children of a directory, each once, in no particular order. */
    method List(p: string) returns (r: Option<seq<FileInfo>>)
      requires Valid()
      ensures r.Some? <==> Key(p) in Contents() && Contents()[Key(p)].isDir
      ensures r.Some? ==> forall k :: k in Contents() && k != [] && Parent(k) == Key(p) ==> Contents()[k] in r.value
      ensures r.Some? ==> forall info :: info in r.value ==>
        exists k :: k in Contents() && k != [] && Parent(k) == Key(p) && Contents()[k] == info
      ensures r.Some? ==> forall i, j :: 0 <= i < j < |r.value| ==> r.value[i].path != r.value[j].path
    {
      var cleaned := Key(p);
      if cleaned !in nodes || !nodes[cleaned].info.isDir {
        return None;
      }
      assert NodeOk(nodes, cleaned);
      var todo := nodes[cleaned].children.value;
      var out: seq<FileInfo> := [];
      ghost var done: seq<string> := [];
      while todo != {}
        invariant todo <= nodes[cleaned].children.value
        invariant |out| == |done|
        invariant forall i :: 0 <= i < |done| ==>
          cleaned + [done[i]] in nodes && done[i] !in todo && out[i] == nodes[cleaned + [done[i]]].info
        invariant forall i, j :: 0 <= i < j < |done| ==> done[i] != done[j]
        invariant forall name :: name in nodes[cleaned].children.value ==> name in todo || name in done
        decreases todo
      {
        var name :| name in todo;
        var childPath := cleaned + [name];
        ChildrenExact(nodes, cleaned, name);
        if childPath in nodes {
          out := out + [nodes[childPath].info];
          done := done + [name];
        }
        todo := todo - {name};
      }
      ListedExactly(nodes, cleaned, done, out);
      return Some(out);
    }

    method Apply(change: Option<Change>) returns (err: Error)
      requires Valid()
      modifies this
      ensures Valid()
      ensures change.None? ==> err == ErrNilChange && Contents() == old(Contents())
      ensures change.Some? && (change.value.Create? || change.value.Modify?) ==>
        Contents() == InsertedAt(old(Contents()), change.value.file)
      ensures change.Some? && change.value.Delete? ==>
        err == NoError && Contents() == if change.value.file.None? then old(Contents())
                                        else DeletedAt(old(Contents()), change.value.file.value.path)
      ensures change.Some? && change.value.Rename? ==>
        Contents() == InsertedAt(DeletedAt(old(Contents()), change.value.oldPath), change.value.file)
      ensures change.Some? && change.value.Unspecified? ==> err == ErrUnknownChangeType && Contents() == old(Contents())
      ensures change.Some? && (change.value.Create? || change.value.Modify? || change.value.Rename?) ==>
        err == if change.value.file.None? then ErrNilInfo else NoError
    {
      if change.None? {
        return ErrNilChange;
      }
      match change.value {
        case Create(file) => err := Insert(file);
        case Modify(file) => err := Insert(file);
        case Delete(file) =>
          if file.Some? {
            Delete(file.value.path);
          }
          return NoError;
        case Rename(oldPath, file) =>
          Delete(oldPath);
          err := Insert(file);
        case Unspecified => return ErrUnknownChangeType;
      }
    }

    method InsertLocked(p: Path, info: FileInfo)
      requires Valid() && p != [] && Canonical(p)
      modifies this
      ensures Valid() && Contents() == Inserted(old(Contents()), p, info)
    {
      if p in nodes && nodes[p].info.isDir && !info.isDir {
        PruneChildren(p);
      } else if !info.isDir {
        assert p in nodes ==> NodeOk(nodes, p);
        NothingBelow(nodes, p);
      }
      ghost var kept := Contents();
      EnsureAncestors(p);
      ParentIsDirectory(nodes, kept, p);
      var stored := info.(path := Join(p));
      assert !info.isDir ==> forall k :: k in Contents() ==> !(p < k);
      assert Contents().Keys == nodes.Keys;
      assert Linkable(nodes, p, stored);
      LinkKeepsShape(nodes, p, stored);
      var children := None;
      if stored.isDir {
        children := if p in nodes && nodes[p].children.Some? then nodes[p].children else Some({});
      }
      nodes := nodes[p := Node(stored, children)];
      nodes := Registered(nodes, p);
    }

    method PruneChildren(p: Path)
      requires Valid() && p in nodes && nodes[p].info.isDir
      modifies this
      ensures Valid() && Contents() == WithoutBelow(old(Contents()), p)
    {
      assert NodeOk(nodes, p);
      BelowIsBelowChild(nodes, p);
      DeleteChildren(p);
    }

    /** The loop both pruneChildren and deleteLocked run over a directory's child set. */
    method DeleteChildren(p: Path)
      requires Valid() && p in nodes && nodes[p].children.Some?
      modifies this
      ensures Valid() && Contents() == WithoutChildren(old(Contents()), p, old(nodes)[p].children.value)
      decreases set k | k in nodes && p <= k, 0
    {
      var todo := nodes[p].children.value;
      ghost var all, before := todo, nodes;
      assert Contents() == WithoutChildren(View(before), p, {});
      while todo != {}
        invariant todo <= all
        invariant Valid() && Contents() == WithoutChildren(View(before), p, all - todo)
        decreases todo
      {
        var child :| child in todo;
        ChildrenLeft(before, nodes, p, all - todo);
        BelowShrinks(before, nodes, p, child);
        OneMoreChildGone(View(before), p, all - todo, child);
        DeleteLocked(p + [child]);
        assert all - (todo - {child}) == (all - todo) + {child};
        todo := todo - {child};
      }
      assert all - todo == all;
    }

    method DeleteLocked(p: Path)
      requires Valid() && p != []
      modifies this
      ensures Valid() && Contents() == Without(old(Contents()), p)
      decreases set k | k in nodes && p <= k, 1
    {
      if p !in nodes {
        NothingBelow(nodes, p);
        assert forall k :: k in nodes && p <= k ==> k == p;
        return;
      }
      assert NodeOk(nodes, p);
      ghost var before := nodes;
      if nodes[p].info.isDir {
        DeleteChildren(p);
        ChildrenLeft(before, nodes, p, before[p].children.value);
      }
      NothingBelow(nodes, p);
      UnlinkKeepsShape(nodes, p);
      nodes := Unlink(nodes, p);
    }

    method EnsureAncestors(p: Path)
      requires Valid() && p != [] && Canonical(p)
      modifies this
      ensures Valid() && Contents() == WithAncestors(old(Contents()), p)
      decreases |p|
    {
      var parent := Parent(p);
      if parent == [] {
        AncestorsOfTop(Contents(), p);
        return;
      }
      if parent in nodes {
        AncestorsAlreadyThere(nodes, p);
        if !nodes[parent].info.isDir {
          PromoteKeepsShape(nodes, parent);
          nodes := nodes[parent := Node(Placeholder(parent), Some({}))];
        }
        return;
      }
      ghost var v := Contents();
      AncestorsOneUp(v, p);
      EnsureAncestors(parent);
      ParentIsDirectory(nodes, v, parent);
      assert Linkable(nodes, parent, Placeholder(parent));
      assert parent !in Contents();
      LinkKeepsShape(nodes, parent, Placeholder(parent));
      nodes := nodes[parent := Node(Placeholder(parent), Some({}))];
      nodes := Registered(nodes, parent);
    }
  }

  function InsertedAt(v: Files, file: Option<FileInfo>): Files {
    if file.None? || Key(file.value.path) == [] then v else Inserted(v, Key(file.value.path), file.value)
  }

  function DeletedAt(v: Files, path: string): Files {
    if Key(path) == [] then v else Without(v, Key(path))
  }
}
