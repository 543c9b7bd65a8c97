/** Path strings and the keys they denote (pkg/safepath/safepath.go and the two identical
    normalize functions of pkg/fstree/fstree.go and pkg/contentcache/cache.go).

    A key is the list of segments of a cleaned path; Go's path.Clean is modelled by its
    documented lexical rules, forward-slash paths only. */
module Paths {

  type Path = seq<string>

  predicate Segment(s: string) {
    s != "" && '/' !in s && s != "."
  }

  /** A cleaned relative path: proper segments, with ".." only in front. */
  ghost predicate Canonical(k: Path) {
    && (forall i :: 0 <= i < |k| ==> Segment(k[i]))
    && (forall i, j :: 0 <= i < j < |k| && k[j] == ".." ==> k[i] == "..")
  }

  // ---- strings and segments ----

  function SlashAt(p: string): (i: nat)
    ensures i <= |p| && '/' !in p[..i] && (i < |p| ==> p[i] == '/')
  {
    if p == "" || p[0] == '/' then 0
    else
      var i := SlashAt(p[1..]);
      assert p[..i + 1] == [p[0]] + p[1..][..i];
      i + 1
  }

  function Split(p: string): seq<string> {
    var i := SlashAt(p);
    if i == |p| then [p] else [p[..i]] + Split(p[i + 1..])
  }

  function Join(k: Path): string {
    if k == [] then "" else if |k| == 1 then k[0] else k[0] + "/" + Join(k[1..])
  }

  lemma SlashAfter(s: string, rest: string)
    requires '/' !in s
    ensures SlashAt(s + "/" + rest) == |s|
    ensures SlashAt(s) == |s|
  {
    var p := s + "/" + rest;
    var i := SlashAt(p);
    assert p[|s|] == '/';
    assert forall j :: 0 <= j < |s| ==> p[j] == s[j] && s[j] in s;
    assert forall j {:trigger p[..j]} :: |s| < j <= |p| ==> p[..j][|s|] == '/';
  }

  /** A nonempty list of segments can be read back from the path it spells. */
  lemma {:induction false} SplitJoin(k: Path)
    requires k != [] && forall i :: 0 <= i < |k| ==> '/' !in k[i]
    ensures Split(Join(k)) == k
  {
    if |k| == 1 {
      SlashAfter(k[0], "");
    } else {
      var rest := Join(k[1..]);
      var p := k[0] + "/" + rest;
      SlashAfter(k[0], rest);
      assert p[..|k[0]|] == k[0] && p[|k[0]| + 1..] == rest;
      SplitJoin(k[1..]);
    }
  }

  /** Different keys spell different paths, so a map keyed by segment lists is a map keyed by strings. */
  lemma JoinInjective(a: Path, b: Path)
    requires Canonical(a) && Canonical(b) && Join(a) == Join(b)
    ensures a == b
  {
    if a == [] {
      JoinNonEmpty(b);
    } else if b == [] {
      JoinNonEmpty(a);
    } else {
      SplitJoin(a);
      SplitJoin(b);
    }
  }

  lemma JoinNonEmpty(k: Path)
    requires Canonical(k)
    ensures k != [] ==> Join(k) != "" && Join(k)[0] != '/'
    ensures k == [] ==> Join(k) == ""
  {
    if k != [] {
      assert Segment(k[0]) && k[0][0] in k[0];
    }
  }

  // ---- path.Clean ----

  function ToSlash(p: string): string {
    seq(|p|, i requires 0 <= i < |p| => if p[i] == '\\' then '/' else p[i])
  }

  function Push(rooted: bool, stack: Path, seg: string): Path {
    if seg == "" || seg == "." then stack
    else if seg == ".." then
      if stack != [] && stack[|stack| - 1] != ".." then stack[..|stack| - 1]
      else if rooted then stack
      else stack + [".."]
    else stack + [seg]
  }

  function Resolve(rooted: bool, raw: seq<string>, stack: Path): Path {
    if raw == [] then stack else Resolve(rooted, raw[1..], Push(rooted, stack, raw[0]))
  }

  predicate Rooted(p: string) {
    p != "" && p[0] == '/'
  }

  /** The segments path.Clean keeps. */
  function CleanKey(p: string): Path {
    Resolve(Rooted(p), Split(p), [])
  }

  /** path.Clean. */
  function PathClean(p: string): string {
    var k := CleanKey(p);
    if Rooted(p) then "/" + Join(k) else if k == [] then "." else Join(k)
  }

  function TrimLeadingSlash(p: string): string {
    if p != "" && p[0] == '/' then p[1..] else p
  }

  lemma {:induction false} SplitSegments(p: string)
    ensures forall i :: 0 <= i < |Split(p)| ==> '/' !in Split(p)[i]
    decreases |p|
  {
    var i := SlashAt(p);
    if i < |p| {
      SplitSegments(p[i + 1..]);
    } else {
      assert p[..i] == p;
    }
  }

  lemma {:induction false} ResolveCanonical(rooted: bool, raw: seq<string>, stack: Path)
    requires Canonical(stack) && (rooted ==> ".." !in stack)
    requires forall i :: 0 <= i < |raw| ==> '/' !in raw[i]
    ensures Canonical(Resolve(rooted, raw, stack))
    ensures rooted ==> ".." !in Resolve(rooted, raw, stack)
    decreases |raw|
  {
    if raw != [] {
      var next := Push(rooted, stack, raw[0]);
      assert Canonical(next);
      ResolveCanonical(rooted, raw[1..], next);
    }
  }

  lemma CleanKeyCanonical(p: string)
    ensures Canonical(CleanKey(p)) && (Rooted(p) ==> ".." !in CleanKey(p))
  {
    SplitSegments(p);
    ResolveCanonical(Rooted(p), Split(p), []);
  }

  lemma {:induction false} ResolveIdentity(raw: Path, stack: Path)
    requires Canonical(stack + raw)
    ensures Resolve(false, raw, stack) == stack + raw
    decreases |raw|
  {
    if raw == [] {
      assert stack + raw == stack;
    } else {
      assert (stack + raw)[|stack|] == raw[0];
      if raw[0] == ".." && stack != [] {
        assert (stack + raw)[|stack| - 1] == "..";
      }
      assert (stack + [raw[0]]) + raw[1..] == stack + raw;
      ResolveIdentity(raw[1..], stack + [raw[0]]);
    }
  }

  // ---- the normalisers ----

  /** normalize, as the file tree and the content cache both define it. */
  function Normalize(path: string): string {
    var p := ToSlash(path);
    if p == "" || p == "/" || p == "." then ""
    else
      var cleaned := TrimLeadingSlash(PathClean(p));
      if cleaned == "." then "" else cleaned
  }

  /** The key a path string denotes. */
  function Key(path: string): Path {
    CleanKey(ToSlash(path))
  }

  lemma KeyOfSpecial()
    ensures CleanKey("") == [] && CleanKey("/") == [] && CleanKey(".") == []
  {
    assert Split("") == [""];
    assert Split(".") == ["."];
    assert "/"[1..] == "";
    assert Split("/") == ["", ""];
    assert Resolve(true, ["", ""], []) == Resolve(true, [""], []) == [];
  }

  /** The normalised string spells exactly the key. */
  lemma NormalizeSpellsKey(path: string)
    ensures Normalize(path) == Join(Key(path)) && Canonical(Key(path))
  {
    var p := ToSlash(path);
    var k := CleanKey(p);
    CleanKeyCanonical(p);
    JoinNonEmpty(k);
    KeyOfSpecial();
    if p != "" && p != "/" && p != "." {
      if Rooted(p) {
        assert ("/" + Join(k))[1..] == Join(k);
      }
      if Join(k) == "." {
        JoinIsNotDot(k);
      }
    }
  }

  lemma JoinIsNotDot(k: Path)
    requires Canonical(k)
    ensures Join(k) != "."
  {
    if |k| > 1 {
      assert Segment(k[0]) && Segment(k[1]);
      assert |Join(k)| >= 2;
    }
  }

  lemma ToSlashNoBackslash(p: string)
    requires '\\' !in p
    ensures ToSlash(p) == p
  {
  }

  lemma {:induction false} JoinNoBackslash(k: Path)
    requires forall i :: 0 <= i < |k| ==> '\\' !in k[i]
    ensures '\\' !in Join(k)
  {
    if |k| > 1 {
      JoinNoBackslash(k[1..]);
    }
  }

  lemma {:induction false} ResolveChars(rooted: bool, raw: seq<string>, stack: Path, c: char)
    requires c != '.' && (forall i :: 0 <= i < |raw| ==> c !in raw[i]) && (forall i :: 0 <= i < |stack| ==> c !in stack[i])
    ensures forall i :: 0 <= i < |Resolve(rooted, raw, stack)| ==> c !in Resolve(rooted, raw, stack)[i]
    decreases |raw|
  {
    if raw != [] {
      ResolveChars(rooted, raw[1..], Push(rooted, stack, raw[0]), c);
    }
  }

  lemma {:induction false} SplitChars(p: string, c: char)
    requires c !in p
    ensures forall i :: 0 <= i < |Split(p)| ==> c !in Split(p)[i]
    decreases |p|
  {
    var i := SlashAt(p);
    assert forall x :: x in p[..i] ==> x in p;
    if i < |p| {
      assert forall x :: x in p[i + 1..] ==> x in p;
      SplitChars(p[i + 1..], c);
    }
  }

  /** Normalising a path that is already a key's spelling changes nothing. */
  lemma NormalizeFixesKeys(k: Path)
    requires Canonical(k) && forall i :: 0 <= i < |k| ==> '\\' !in k[i]
    ensures Key(Join(k)) == k
  {
    JoinNoBackslash(k);
    ToSlashNoBackslash(Join(k));
    JoinNonEmpty(k);
    if k == [] {
      KeyOfSpecial();
    } else {
      SplitJoin(k);
      ResolveIdentity(k, []);
      assert [] + k == k;
    }
  }

  lemma KeyHasNoBackslash(path: string)
    ensures forall i :: 0 <= i < |Key(path)| ==> '\\' !in Key(path)[i]
  {
    var p := ToSlash(path);
    assert '\\' !in p;
    SplitChars(p, '\\');
    ResolveChars(Rooted(p), Split(p), [], '\\');
  }

  /** Normalisation is idempotent. */
  lemma NormalizeIdempotent(path: string)
    ensures Normalize(Normalize(path)) == Normalize(path)
    ensures Key(Normalize(path)) == Key(path)
  {
    NormalizeSpellsKey(path);
    KeyHasNoBackslash(path);
    NormalizeFixesKeys(Key(path));
    NormalizeSpellsKey(Normalize(path));
  }

  /** Converting separators first, as the daemon does when it reports a path, does not change the key. */
  lemma KeyOfToSlash(path: string)
    ensures Key(ToSlash(path)) == Key(path)
  {
    assert ToSlash(ToSlash(path)) == ToSlash(path);
  }

  // ---- what cleaning does, component by component ----

  lemma {:induction false} SplitAppend(p: string, seg: string)
    requires '/' !in seg
    ensures Split(p + "/" + seg) == Split(p) + [seg]
    decreases |p|
  {
    var i := SlashAt(p);
    if i == |p| {
      assert p[..i] == p;
      SplitFirst(p, seg);
      SlashAfter(seg, "");
      assert seg[..|seg|] == seg;
    } else {
      SplitAppend(p[i + 1..], seg);
      assert p == p[..i] + "/" + p[i + 1..];
      assert p + "/" + seg == p[..i] + "/" + (p[i + 1..] + "/" + seg);
      SplitFirst(p[..i], p[i + 1..] + "/" + seg);
    }
  }

  lemma SplitFirst(first: string, rest: string)
    requires '/' !in first
    ensures Split(first + "/" + rest) == [first] + Split(rest)
  {
    var p := first + "/" + rest;
    SlashAfter(first, rest);
    assert p[..|first|] == first && p[|first| + 1..] == rest;
  }

  lemma {:induction false} ResolveLast(rooted: bool, raw: seq<string>, seg: string, stack: Path)
    ensures Resolve(rooted, raw + [seg], stack) == Push(rooted, Resolve(rooted, raw, stack), seg)
    decreases |raw|
  {
    if raw == [] {
      assert raw + [seg] == [seg];
    } else {
      assert (raw + [seg])[1..] == raw[1..] + [seg];
      ResolveLast(rooted, raw[1..], seg, Push(rooted, stack, raw[0]));
    }
  }

  predicate Separator(c: char) {
    c == '/' || c == '\\'
  }

  /** A path is absolute when it begins with a separator. */
  predicate Absolute(path: string) {
    path != "" && Separator(path[0])
  }

  predicate Unseparated(seg: string) {
    forall i :: 0 <= i < |seg| ==> !Separator(seg[i])
  }

  predicate Plain(seg: string) {
    seg != "" && seg != "." && seg != ".." && Unseparated(seg)
  }

  lemma UnseparatedSlashes(path: string, sep: char, seg: string)
    requires Separator(sep) && Unseparated(seg)
    ensures '/' !in seg && ToSlash(seg) == seg && ToSlash(path + [sep] + seg) == ToSlash(path) + "/" + seg
  {
  }

  lemma KeyOfLast(path: string, sep: char, seg: string)
    requires path != "" && Separator(sep) && Unseparated(seg)
    ensures Key(path + [sep] + seg) == Push(Absolute(path), Key(path), seg)
  {
    var p := ToSlash(path);
    UnseparatedSlashes(path, sep, seg);
    assert Rooted(p + "/" + seg) == Rooted(p) == Absolute(path);
    SplitAppend(p, seg);
    ResolveLast(Rooted(p), Split(p), seg, []);
  }

  lemma KeyOfFirst(seg: string)
    requires Unseparated(seg)
    ensures Key(seg) == Push(false, [], seg)
  {
    UnseparatedSlashes("", '/', seg);
    SlashAfter(seg, "");
    assert Split(seg) == [seg];
    assert Resolve(false, [seg], []) == Push(false, [], seg);
  }

  /** What each component means, at the front and after any path, with either separator: a plain one names a child,
      "" and "." stay, ".." goes to the parent, at the top of an absolute path stays there, and otherwise is kept. With
      its first component and these laws for each further one, every path has exactly one key. */
  lemma CleaningLaws(path: string, sep: char, seg: string)
    requires path != "" && Separator(sep)
    ensures Plain(seg) ==> Key(seg) == [seg] && Key(path + [sep] + seg) == Key(path) + [seg]
    ensures Key("") == Key(".") == Key([sep]) == Key([sep] + "..") == [] && Key("..") == [".."]
    ensures Plain(seg) ==> Key([sep] + seg) == [seg]
    ensures Key(path + [sep]) == Key(path + [sep] + ".") == Key(path)
    ensures var k, up := Key(path), Key(path + [sep] + "..");
      if k != [] && k[|k| - 1] != ".." then k == up + [k[|k| - 1]]
      else if Absolute(path) then k == up == []
      else up == k + [".."]
  {
    CleaningFirst(sep, seg);
    KeyOfLast(path, sep, "");
    assert path + [sep] + "" == path + [sep];
    KeyOfLast(path, sep, ".");
    KeyOfLast(path, sep, "..");
    CleanKeyCanonical(ToSlash(path));
    if Plain(seg) {
      KeyOfLast(path, sep, seg);
    }
  }

  lemma CleaningFirst(sep: char, seg: string)
    requires Separator(sep)
    ensures Key("") == Key(".") == Key([sep]) == Key([sep] + "..") == [] && Key("..") == [".."]
    ensures Plain(seg) ==> Key(seg) == [seg] && Key([sep] + seg) == [seg]
  {
    KeyOfFirst("");
    KeyOfFirst(".");
    KeyOfFirst("..");
    KeyAfterRoot(sep, "");
    KeyAfterRoot(sep, "..");
    assert [sep] + "" == [sep];
    if Plain(seg) {
      KeyOfFirst(seg);
      KeyAfterRoot(sep, seg);
    }
  }

  lemma KeyAfterRoot(sep: char, seg: string)
    requires Separator(sep) && Unseparated(seg)
    ensures Key([sep] + seg) == Push(true, [], seg)
  {
    var p := "/" + seg;
    UnseparatedSlashes("", sep, seg);
    assert "" + [sep] + seg == [sep] + seg && ToSlash("") == "" && "" + "/" + seg == p;
    SplitAppend("", seg);
    SlashAfter("", "");
    assert Split("") == [""];
    ResolveLast(true, [""], seg, []);
    assert Resolve(true, [""], []) == [];
  }

  // ---- safepath.Clean: the daemon's view of the same path ----

  datatype CleanResult = Cleaned(path: string) | EmptyPath | Escapes

  function SafeClean(path: string): CleanResult {
    if path == "" then EmptyPath
    else
      var cleaned := PathClean(ToSlash(path));
      if cleaned == ".." || "../" <= cleaned then Escapes
      else
        var relative := TrimLeadingSlash(cleaned);
        Cleaned(if relative == "." then "" else relative)
  }

  predicate EscapesRoot(k: Path) {
    k != [] && k[0] == ".."
  }

  /** The daemon, the tree and the cache agree on every path: safepath.Clean refuses exactly the empty
      path and the paths whose key starts with "..", and otherwise yields the normalised path. */
  lemma SafeCleanAgrees(path: string)
    ensures SafeClean(path) ==
      if path == "" then EmptyPath
      else if EscapesRoot(Key(path)) then Escapes
      else Cleaned(Normalize(path))
  {
    var p := ToSlash(path);
    var k := CleanKey(p);
    CleanKeyCanonical(p);
    NormalizeSpellsKey(path);
    JoinNonEmpty(k);
    LeadingDots(k);
    KeyOfSpecial();
    if path != "" && Rooted(p) {
      assert PathClean(p)[0] == '/';
      assert !EscapesRoot(k);
      assert ("/" + Join(k))[1..] == Join(k);
    }
    if k != [] && Join(k) == "." {
      JoinIsNotDot(k);
    }
  }

  lemma LeadingDots(k: Path)
    requires Canonical(k)
    ensures EscapesRoot(k) <==> Join(k) == ".." || "../" <= Join(k)
  {
    if k != [] {
      SplitJoin(k);
      if "../" <= Join(k) {
        var rest := Join(k)[3..];
        assert Join(k) == ".." + "/" + rest;
        SlashAfter("..", rest);
        assert Join(k)[..2] == "..";
      }
      if Join(k) == ".." {
        SlashAfter("..", "");
      }
    }
  }

  // ---- prefixes and parents ----

  /** contentcache's matchesPrefix. */
  predicate MatchesPrefix(path: string, prefix: string) {
    prefix == "" || path == prefix || prefix + "/" <= path
  }

  lemma {:induction false} JoinAppend(a: Path, b: Path)
    requires a != [] && b != []
    ensures Join(a + b) == Join(a) + "/" + Join(b)
  {
    if |a| == 1 {
      assert (a + b)[1..] == b;
    } else {
      assert (a + b)[1..] == a[1..] + b;
      JoinAppend(a[1..], b);
    }
  }

  /** The textual prefix test is the ancestor test on keys: "a" covers "a/b" but not "ab". */
  lemma MatchesPrefixIsAncestor(k: Path, prefix: Path)
    requires Canonical(k) && Canonical(prefix)
    ensures MatchesPrefix(Join(k), Join(prefix)) <==> prefix <= k
  {
    JoinNonEmpty(prefix);
    JoinNonEmpty(k);
    if prefix == [] {
    } else if prefix <= k {
      assert k == prefix + k[|prefix|..];
      if |prefix| < |k| {
        JoinAppend(prefix, k[|prefix|..]);
      } else {
        assert prefix == k;
      }
    } else if Join(k) == Join(prefix) {
      JoinInjective(k, prefix);
    } else if Join(prefix) + "/" <= Join(k) {
      PrefixTextMeansAncestor(k, prefix);
    }
  }

  lemma {:induction false} PrefixTextMeansAncestor(k: Path, prefix: Path)
    requires Canonical(k) && Canonical(prefix) && prefix != [] && k != []
    requires Join(prefix) + "/" <= Join(k)
    ensures prefix <= k
    decreases |prefix|
  {
    var tail := if |prefix| == 1 then "" else Join(prefix[1..]) + "/";
    assert Join(prefix) + "/" == prefix[0] + "/" + tail;
    HeadOfText(Join(k), prefix[0], tail);
    FirstSegment(k);
    assert prefix == [prefix[0]] + prefix[1..] && k == [k[0]] + k[1..];
    if |prefix| > 1 {
      TailsCanonical(k);
      TailsCanonical(prefix);
      PrefixTextMeansAncestor(k[1..], prefix[1..]);
    }
  }

  lemma TailsCanonical(k: Path)
    requires Canonical(k) && k != []
    ensures Canonical(k[1..])
  {
  }

  lemma HeadOfText(text: string, head: string, tail: string)
    requires '/' !in head && head + "/" + tail <= text
    ensures SlashAt(text) == |head| < |text| && text[..|head|] == head && tail <= text[|head| + 1..]
  {
    var rest := text[|head| + 1..];
    assert text == head + "/" + rest;
    SlashAfter(head, rest);
  }

  lemma FirstSegment(k: Path)
    requires Canonical(k) && k != [] && SlashAt(Join(k)) < |Join(k)|
    ensures |k| > 1 && k[0] == Join(k)[..SlashAt(Join(k))] && Join(k[1..]) == Join(k)[SlashAt(Join(k)) + 1..]
  {
    assert Segment(k[0]);
    SlashAfter(k[0], if |k| == 1 then "" else Join(k[1..]));
  }

  /** strings.LastIndex(p, "/"). */
  function LastSlash(p: string): int {
    if p == "" then -1 else if p[|p| - 1] == '/' then |p| - 1 else LastSlash(p[..|p| - 1])
  }

  /** fstree's splitParent. */
  function SplitParent(p: string): (string, string) {
    var i := LastSlash(p);
    if i < 0 || i >= |p| then ("", p) else (p[..i], p[i + 1..])
  }

  lemma {:induction false} LastSlashBefore(head: string, s: string)
    requires '/' !in s
    ensures LastSlash(head + "/" + s) == |head|
    ensures LastSlash(s) == -1
    decreases |s|
  {
    var p := head + "/" + s;
    if s != "" {
      var shorter := s[..|s| - 1];
      assert forall c :: c in shorter ==> c in s;
      assert p[..|p| - 1] == head + "/" + shorter;
      assert s[|s| - 1] in s;
      LastSlashBefore(head, shorter);
    }
  }

  /** Splitting a key's spelling at the last slash drops the last segment. */
  lemma SplitParentIsParent(k: Path)
    requires Canonical(k) && k != []
    ensures SplitParent(Join(k)) == (Join(k[..|k| - 1]), k[|k| - 1])
  {
    var last := k[|k| - 1];
    assert Segment(last);
    if |k| == 1 {
      LastSlashBefore("", last);
    } else {
      var parent := k[..|k| - 1];
      assert k == parent + [last];
      JoinAppend(parent, [last]);
      SplitAtLast(Join(parent), last);
    }
  }

  lemma SplitAtLast(head: string, last: string)
    requires '/' !in last
    ensures SplitParent(head + "/" + last) == (head, last)
  {
    LastSlashBefore(head, last);
    var p := head + "/" + last;
    assert p[..|head|] == head && p[|head| + 1..] == last;
  }

  /** fstree's joinPath. */
  function JoinPath(parent: string, base: string): string {
    if parent == "" then base else parent + "/" + base
  }

  lemma JoinPathIsChild(parent: Path, base: string)
    requires Canonical(parent)
    ensures JoinPath(Join(parent), base) == Join(parent + [base])
  {
    JoinNonEmpty(parent);
    if parent != [] {
      JoinAppend(parent, [base]);
    }
  }
}
