/** The guard against mounting over system directories (agent/drive_handler.go). */
module Paths {
  import opened Outcomes
  import opened Text

  predicate IsAbs(path: string) {
    path != "" && path[0] == '/'
  }

  /** One element of a path after another: empty ones and "." are dropped, ".." takes back the element before it. At the
      root there is nothing to take back; in a relative path such a ".." is kept. */
  function Resolve(rooted: bool, parts: seq<string>, done: seq<string>): seq<string>
    decreases |parts|
  {
    if parts == [] then done
    else
      var part, rest := parts[0], parts[1..];
      if part == "" || part == "." then Resolve(rooted, rest, done)
      else if part == ".." then
        if done != [] && done[|done| - 1] != ".." then Resolve(rooted, rest, done[..|done| - 1])
        else if rooted then Resolve(rooted, rest, done)
        else Resolve(rooted, rest, done + [part])
      else Resolve(rooted, rest, done + [part])
  }

  /** The elements of a path. */
  function Components(path: string): seq<string> {
    Resolve(IsAbs(path), Split(path, '/'), [])
  }

  /** filepath.Clean. */
  function Clean(path: string): string {
    var components := Components(path);
    if IsAbs(path) then "/" + Join(components, '/')
    else if components == [] then "."
    else Join(components, '/')
  }

  predicate HasPrefix(s: string, prefix: string) {
    |prefix| <= |s| && s[..|prefix|] == prefix
  }

  function IsOrUnderDir(path: string, baseDir: string): bool {
    var p, b := Clean(path), Clean(baseDir);
    b == "/" || p == b || HasPrefix(p, b + "/")
  }

  // ----- what the string test decides -----

  ghost predicate Plain(components: seq<string>) {
    forall i :: 0 <= i < |components| ==> components[i] != "" && '/' !in components[i]
  }

  lemma {:induction false} ResolvePlain(rooted: bool, parts: seq<string>, done: seq<string>)
    requires SepFree(parts, '/') && Plain(done)
    ensures Plain(Resolve(rooted, parts, done))
    decreases |parts|
  {
    if parts != [] {
      var part, rest := parts[0], parts[1..];
      ResolvePlain(rooted, rest, done);
      if done != [] {
        ResolvePlain(rooted, rest, done[..|done| - 1]);
      }
      if part != "" {
        ResolvePlain(rooted, rest, done + [part]);
      }
    }
  }

  lemma SplitFirst(a: string, sep: char, w: string)
    requires sep !in a
    ensures Split(a + [sep] + w, sep) == [a] + Split(w, sep)
  {
    var s := a + [sep] + w;
    assert s == a + ([sep] + w);
    IndexOfPrefix(a, sep, [sep] + w);
    assert s[..|a|] == a && s[|a| + 1..] == w;
  }

  lemma SplitNone(a: string, sep: char)
    requires sep !in a
    ensures Split(a, sep) == [a]
  {
  }

  lemma {:induction false} SplitConcat(a: string, sep: char, w: string)
    ensures Split(a + [sep] + w, sep) == Split(a, sep) + Split(w, sep)
    decreases |a|
  {
    hide Split, IndexOf;
    var i := IndexOf(a, sep);
    if i == |a| {
      SplitNone(a, sep);
      SplitFirst(a, sep, w);
    } else {
      var head, tail := a[..i], a[i + 1..];
      assert a == head + [sep] + tail;
      assert a + [sep] + w == head + [sep] + (tail + [sep] + w);
      SplitFirst(head, sep, tail);
      SplitFirst(head, sep, tail + [sep] + w);
      SplitConcat(tail, sep, w);
      assert [head] + (Split(tail, sep) + Split(w, sep)) == [head] + Split(tail, sep) + Split(w, sep);
    }
  }

  /** No element of a cleaned path is ".". */
  lemma {:induction false} ResolveNoDot(rooted: bool, parts: seq<string>, done: seq<string>)
    requires "." !in done
    ensures "." !in Resolve(rooted, parts, done)
    decreases |parts|
  {
    if parts != [] {
      var part, rest := parts[0], parts[1..];
      ResolveNoDot(rooted, rest, done);
      if done != [] {
        ResolveNoDot(rooted, rest, done[..|done| - 1]);
      }
      if part != "." {
        ResolveNoDot(rooted, rest, done + [part]);
      }
    }
  }

  lemma ComponentsShape(path: string)
    ensures Plain(Components(path)) && SepFree(Components(path), '/') && "." !in Components(path)
  {
    ResolvePlain(IsAbs(path), Split(path, '/'), []);
    ResolveNoDot(IsAbs(path), Split(path, '/'), []);
  }

  /** Two paths are cleaned to one text exactly if they have the same elements and start at the same place. */
  lemma CleanInjective(p: string, q: string)
    ensures Clean(p) == Clean(q) <==> IsAbs(p) == IsAbs(q) && Components(p) == Components(q)
  {
    ComponentsShape(p);
    ComponentsShape(q);
    var a, b := Components(p), Components(q);
    hide Components;
    CleanAbs(p);
    CleanAbs(q);
    if Clean(p) == Clean(q) {
      JoinOfClean(p);
      JoinOfClean(q);
      if a != [] && b != [] {
        JoinInjective(a, b, '/');
      }
    }
  }

  lemma CleanNotEmpty(path: string)
    ensures Clean(path) != ""
  {
    ComponentsShape(path);
    if Components(path) != [] {
      PlainJoin(Components(path));
    }
  }

  lemma CleanAbs(path: string)
    ensures IsAbs(Clean(path)) == IsAbs(path)
  {
    ComponentsShape(path);
    if Components(path) != [] {
      PlainJoin(Components(path));
    }
  }

  /** What follows the root in a cleaned path; "." stands for no elements. */
  lemma JoinOfClean(path: string)
    ensures var text := if IsAbs(path) then Clean(path)[1..] else Clean(path);
            && (Components(path) == [] <==> text == if IsAbs(path) then "" else ".")
            && (Components(path) != [] ==> text == Join(Components(path), '/'))
  {
    ComponentsShape(path);
    var c := Components(path);
    hide Components;
    if c != [] {
      PlainJoin(c);
      if Join(c, '/') == "." {
        SplitJoin(c, '/');
        SplitNone(".", '/');
      }
    }
  }

  // ----- directories in a directory -----

  /** The name of something directly in a directory. */
  predicate IsComponent(name: string) {
    name != "" && name != "." && name != ".." && '/' !in name
  }

  lemma {:induction false} ResolveAppend(rooted: bool, parts: seq<string>, name: string, done: seq<string>)
    requires IsComponent(name)
    ensures Resolve(rooted, parts + [name], done) == Resolve(rooted, parts, done) + [name]
    decreases |parts|
  {
    var all := parts + [name];
    if parts == [] {
      assert all[1..] == [];
    } else {
      var part, rest := parts[0], parts[1..];
      assert all[1..] == rest + [name];
      ResolveAppend(rooted, rest, name, done);
      if done != [] {
        ResolveAppend(rooted, rest, name, done[..|done| - 1]);
      }
      ResolveAppend(rooted, rest, name, done + [part]);
    }
  }

  /** Different names in a directory are different paths, however the directory is written. */
  lemma ChildPathsDiffer(dir: string, a: string, b: string)
    requires dir != "" && IsComponent(a) && IsComponent(b)
    ensures Clean(dir + "/" + a) == Clean(dir + "/" + b) <==> a == b
  {
    ChildComponents(dir, a);
    ChildComponents(dir, b);
    CleanInjective(dir + "/" + a, dir + "/" + b);
    var prefix := Components(dir);
    hide Components, Clean;
    assert (prefix + [a])[|prefix|] == a && (prefix + [b])[|prefix|] == b;
  }

  lemma ChildComponents(dir: string, name: string)
    requires dir != "" && IsComponent(name)
    ensures IsAbs(dir + "/" + name) == IsAbs(dir) && Components(dir + "/" + name) == Components(dir) + [name]
    ensures SepFree(Components(dir) + [name], '/')
  {
    assert dir + "/" + name == dir + ['/'] + name;
    SplitConcat(dir, '/', name);
    SplitNone(name, '/');
    ResolveAppend(IsAbs(dir), Split(dir, '/'), name, []);
    ResolvePlain(IsAbs(dir), Split(dir, '/'), []);
  }

  lemma {:induction false} ResolveTwice(rooted: bool, a: seq<string>, b: seq<string>, done: seq<string>)
    ensures Resolve(rooted, a + b, done) == Resolve(rooted, b, Resolve(rooted, a, done))
    decreases |a|
  {
    if a == [] {
      assert a + b == b;
    } else {
      var part, rest := a[0], a[1..];
      assert (a + b)[0] == part && (a + b)[1..] == rest + b;
      ResolveTwice(rooted, rest, b, done);
      if done != [] {
        ResolveTwice(rooted, rest, b, done[..|done| - 1]);
      }
      ResolveTwice(rooted, rest, b, done + [part]);
    }
  }

  /** What the special elements mean, after any path: an empty one and "." lead nowhere, and ".." leads back to where
      the last element started; there is nothing above the root, and a relative path with nothing to take back keeps it.
      */
  lemma SpecialElements(dir: string)
    requires dir != ""
    ensures Components(dir + "/") == Components(dir) && Components(dir + "/" + ".") == Components(dir)
    ensures var c := Components(dir);
            Components(dir + "/" + "..") ==
              if c != [] && c[|c| - 1] != ".." then c[..|c| - 1]
              else if IsAbs(dir) then c
              else c + [".."]
  {
    var parts := Split(dir, '/');
    hide Split;
    ThenElement(dir, "");
    ThenElement(dir, ".");
    ThenElement(dir, "..");
    assert dir + "/" + "" == dir + "/";
  }

  lemma ThenElement(dir: string, part: string)
    requires dir != "" && '/' !in part
    ensures Components(dir + "/" + part) == Resolve(IsAbs(dir), [part], Components(dir))
  {
    assert dir + "/" + part == dir + ['/'] + part;
    SplitConcat(dir, '/', part);
    SplitNone(part, '/');
    ResolveTwice(IsAbs(dir), Split(dir, '/'), [part], []);
  }

  // ----- prefixes -----

  lemma PlainJoin(components: seq<string>)
    requires Plain(components) && components != []
    ensures Join(components, '/') != "" && Join(components, '/')[0] != '/'
  {
  }

  /** For joined plain components, "the same or beginning with the other and a slash" is "beginning with the same
      components". */
  lemma PrefixOfJoin(p: seq<string>, b: seq<string>)
    requires Plain(p) && Plain(b) && b != []
    ensures Join(p, '/') == Join(b, '/') || HasPrefix(Join(p, '/'), Join(b, '/') + "/") <==> b <= p
  {
    var jp, jb := Join(p, '/'), Join(b, '/');
    PlainJoin(b);
    if p == [] {
      assert jp == "";
    } else {
      assert SepFree(p, '/') && SepFree(b, '/');
      if jp == jb {
        JoinInjective(p, b, '/');
      }
      if HasPrefix(jp, jb + "/") {
        var w := jp[|jb| + 1..];
        assert jp == jp[..|jb| + 1] + w == jb + "/" + w;
        SplitConcat(jb, '/', w);
        SplitJoin(p, '/');
        SplitJoin(b, '/');
      }
      if b <= p && b != p {
        var rest := p[|b|..];
        assert p == b + rest;
        JoinAppend(b, rest, '/');
        assert jp[..|jb| + 1] == jb + "/";
      }
    }
  }

  /** For an absolute directory the string test holds exactly if the directory is the root, or the path is absolute and
      begins with the directory's components. A sibling whose name only begins alike never matches. */
  lemma UnderIffComponents(path: string, baseDir: string)
    requires IsAbs(baseDir)
    ensures IsOrUnderDir(path, baseDir) <==>
              Components(baseDir) == [] || (IsAbs(path) && Components(baseDir) <= Components(path))
  {
    var p, b := Components(path), Components(baseDir);
    ResolvePlain(IsAbs(path), Split(path, '/'), []);
    ResolvePlain(true, Split(baseDir, '/'), []);
    hide Components;
    if b != [] {
      PlainJoin(b);
      PrefixOfJoin(p, b);
      var jp, jb := Join(p, '/'), Join(b, '/');
      if IsAbs(path) {
        assert "/" + jp == "/" + jb <==> jp == jb by { assert ("/" + jp)[1..] == jp && ("/" + jb)[1..] == jb; }
        PrefixAfterSlash(jp, jb + "/");
        assert "/" + (jb + "/") == "/" + jb + "/";
        assert ("/" + jb)[1] == jb[0];
      } else {
        if p != [] {
          PlainJoin(p);
        }
        assert Clean(path)[0] != '/' && (Clean(baseDir) + "/")[0] == '/';
        assert Clean(baseDir)[1] == jb[0];
      }
    }
  }

  lemma PrefixAfterSlash(s: string, prefix: string)
    ensures HasPrefix("/" + s, "/" + prefix) <==> HasPrefix(s, prefix)
  {
    var s', prefix' := "/" + s, "/" + prefix;
    if |prefix| <= |s| {
      assert s'[..|prefix'|] == "/" + s[..|prefix|];
      assert s'[..|prefix'|] == prefix' <==> s[..|prefix|] == prefix by {
        assert ("/" + s[..|prefix|])[1..] == s[..|prefix|] && prefix'[1..] == prefix;
      }
    }
  }

  // ----- the system directories -----

  const BANNED_SYSTEM_DIRS := ["/proc", "/sys", "/dev"]

  /** isSystemDir on the destination, its symbolic links already resolved, or the failure to do so. */
  method IsSystemDir(resolvedDest: Result<string>) returns (err: bool)
    ensures err <==>
            || resolvedDest.Err?
            || exists i :: 0 <= i < |BANNED_SYSTEM_DIRS| && IsOrUnderDir(resolvedDest.value, BANNED_SYSTEM_DIRS[i])
  {
    if resolvedDest.Err? {
      return true;
    }
    for i := 0 to |BANNED_SYSTEM_DIRS|
      invariant forall j :: 0 <= j < i ==> !IsOrUnderDir(resolvedDest.value, BANNED_SYSTEM_DIRS[j])
    {
      if IsOrUnderDir(resolvedDest.value, BANNED_SYSTEM_DIRS[i]) {
        return true;
      }
    }
    return false;
  }

  lemma TopLevel(name: string)
    requires name != "" && name != "." && name != ".." && '/' !in name
    ensures Components("/" + name) == [name]
  {
    SplitConcat("", '/', name);
    assert "" + ['/'] + name == "/" + name;
    var parts := Split("/" + name, '/');
    assert parts == ["", name];
    assert parts[1..] == [name] && parts[1..][1..] == [];
    assert Resolve(true, parts, []) == Resolve(true, parts[1..], []);
    assert Resolve(true, [name], []) == Resolve(true, [], [name]);
  }

  const BANNED_NAMES := ["proc", "sys", "dev"]

  lemma BannedComponents(i: nat)
    requires i < |BANNED_SYSTEM_DIRS|
    ensures IsAbs(BANNED_SYSTEM_DIRS[i]) && Components(BANNED_SYSTEM_DIRS[i]) == [BANNED_NAMES[i]]
  {
    assert "/" + "proc" == "/proc" && "/" + "sys" == "/sys" && "/" + "dev" == "/dev";
    TopLevel(BANNED_NAMES[i]);
  }

  /** A mount is refused exactly when its destination is absolute and the first component is "proc", "sys" or "dev". */
  lemma BannedIffFirstComponent(path: string)
    ensures (exists i :: 0 <= i < |BANNED_SYSTEM_DIRS| && IsOrUnderDir(path, BANNED_SYSTEM_DIRS[i])) <==>
              IsAbs(path) && Components(path) != [] && Components(path)[0] in BANNED_NAMES
  {
    hide Components, IsOrUnderDir, IsAbs;
    var c := Components(path);
    forall i | 0 <= i < |BANNED_SYSTEM_DIRS|
      ensures IsOrUnderDir(path, BANNED_SYSTEM_DIRS[i]) <==> IsAbs(path) && c != [] && c[0] == BANNED_NAMES[i]
    {
      BannedComponents(i);
      UnderIffComponents(path, BANNED_SYSTEM_DIRS[i]);
      assert [BANNED_NAMES[i]] <= c <==> c != [] && c[0] == BANNED_NAMES[i];
    }
  }
}
