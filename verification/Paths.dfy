/** Slash-separated paths, as Go's `path` and `filepath` packages treat them on Unix. */
module Paths {

  predicate Lacks(s: string, ch: char) {
    ch !in s
  }

  /** The components between slashes; there is always at least one, possibly empty. */
  function Components(s: string): (r: seq<string>)
    ensures |r| > 0
  {
    if s == [] then [[]]
    else
      var rest := Components(s[1..]);
      if s[0] == '/' then [[]] + rest else [[s[0]] + rest[0]] + rest[1..]
  }

  /** What one more component does to a path that is already resolved. */
  function Enter(stack: seq<string>, part: string, rooted: bool): seq<string> {
    if part == "" || part == "." then stack
    else if part != ".." then stack + [part]
    else if stack != [] && stack[|stack| - 1] != ".." then stack[..|stack| - 1]
    else if rooted then stack
    else stack + [part]
  }

  function Resolve(stack: seq<string>, parts: seq<string>, rooted: bool): seq<string>
    decreases |parts|
  {
    if parts == [] then stack else Resolve(Enter(stack, parts[0], rooted), parts[1..], rooted)
  }

  predicate Rooted(s: string) {
    s != [] && s[0] == '/'
  }

  /** The components a path resolves to. */
  function Stack(s: string): seq<string> {
    Resolve([], Components(s), Rooted(s))
  }

  function Joined(parts: seq<string>): string {
    if parts == [] then [] else if |parts| == 1 then parts[0] else parts[0] + "/" + Joined(parts[1..])
  }

  function Root(rooted: bool): string {
    if rooted then "/" else ""
  }

  /** `path.Clean`. */
  function Clean(s: string): string {
    var clean := Root(Rooted(s)) + Joined(Stack(s));
    if clean == [] then "." else clean
  }

  /** What follows the last slash: the file part of `filepath.Split`. */
  function FilePart(s: string): (r: string)
    ensures |r| <= |s| && s[|s| - |r|..] == r && Lacks(r, '/')
  {
    if s == [] || s[|s| - 1] == '/' then [] else FilePart(s[..|s| - 1]) + [s[|s| - 1]]
  }

  /** The directory part of `filepath.Split`, with its slash. */
  function DirPart(s: string): string {
    s[..|s| - |FilePart(s)|]
  }

  function TrimSlashes(s: string): string {
    if s != [] && s[|s| - 1] == '/' then TrimSlashes(s[..|s| - 1]) else s
  }

  /** `path.Base`. */
  function Base(s: string): string {
    if s == [] then "."
    else
      var file := FilePart(TrimSlashes(s));
      if file == [] then "/" else file
  }

  /** `filepath.Join` of a directory and a non-empty name. */
  function Join(dir: string, name: string): string {
    if dir == [] then Clean(name) else Clean(dir + "/" + name)
  }

  // ---------------------------------------------------------------- splitting and joining

  lemma {:induction false} ComponentsAppend(a: string, b: string)
    ensures Components(a + "/" + b) == Components(a) + Components(b)
  {
    var s := a + "/" + b;
    if a == [] {
      assert s[1..] == b;
    } else {
      assert s[1..] == a[1..] + "/" + b && s[0] == a[0];
      ComponentsAppend(a[1..], b);
    }
  }

  lemma {:induction false} OneComponent(s: string)
    requires Lacks(s, '/')
    ensures Components(s) == [s]
  {
    if s != [] {
      OneComponent(s[1..]);
      assert s == [s[0]] + s[1..];
    }
  }

  lemma {:induction false} ComponentsOfJoined(parts: seq<string>)
    requires parts != [] && forall p :: p in parts ==> Lacks(p, '/')
    ensures Components(Joined(parts)) == parts
  {
    OneComponent(parts[0]);
    if |parts| == 1 {
      assert parts == [parts[0]];
    } else {
      ComponentsOfJoined(parts[1..]);
      ComponentsAppend(parts[0], Joined(parts[1..]));
      assert parts == [parts[0]] + parts[1..];
    }
  }

  lemma {:induction false} ComponentsLack(s: string, ch: char)
    requires Lacks(s, ch) || ch == '/'
    ensures forall p :: p in Components(s) ==> Lacks(p, ch)
  {
    if s != [] {
      assert s == [s[0]] + s[1..];
      ComponentsLack(s[1..], ch);
      var rest := Components(s[1..]);
      assert Lacks(rest[0], ch);
      forall p | p in Components(s) ensures Lacks(p, ch) {
        if s[0] != '/' {
          assert p == [s[0]] + rest[0] || p in rest[1..];
          assert s[0] in s && s[0] != ch;
        } else {
          assert p == [] || p in rest;
        }
      }
    }
  }

  lemma {:induction false} ResolveAppend(stack: seq<string>, a: seq<string>, b: seq<string>, rooted: bool)
    ensures Resolve(stack, a + b, rooted) == Resolve(Resolve(stack, a, rooted), b, rooted)
    decreases |a|
  {
    if a == [] {
      assert a + b == b;
    } else {
      assert (a + b)[1..] == a[1..] + b;
      ResolveAppend(Enter(stack, a[0], rooted), a[1..], b, rooted);
    }
  }

  // ---------------------------------------------------------------- resolved paths

  /** A resolved path: real names, and `..` only in front of a relative one. */
  predicate Resolved(stack: seq<string>, rooted: bool) {
    && (forall i :: 0 <= i < |stack| ==> stack[i] != "" && stack[i] != "." && Lacks(stack[i], '/'))
    && (forall i :: 0 <= i < |stack| && stack[i] == ".." ==> !rooted && (i > 0 ==> stack[i - 1] == ".."))
  }

  lemma {:induction false} ResolveIsResolved(stack: seq<string>, parts: seq<string>, rooted: bool)
    requires Resolved(stack, rooted) && forall p :: p in parts ==> Lacks(p, '/')
    ensures Resolved(Resolve(stack, parts, rooted), rooted)
    decreases |parts|
  {
    if parts != [] {
      assert Resolved(Enter(stack, parts[0], rooted), rooted);
      ResolveIsResolved(Enter(stack, parts[0], rooted), parts[1..], rooted);
    }
  }

  lemma StackIsResolved(s: string)
    ensures Resolved(Stack(s), Rooted(s))
  {
    ComponentsLack(s, '/');
    ResolveIsResolved([], Components(s), Rooted(s));
  }

  /** Resolving a resolved path changes nothing. */
  lemma {:induction false} ResolveFixes(done: seq<string>, more: seq<string>, rooted: bool)
    requires Resolved(done + more, rooted)
    ensures Resolve(done, more, rooted) == done + more
    decreases |more|
  {
    if more == [] {
      assert done + more == done;
    } else {
      var stack := done + more;
      assert stack[|done|] == more[0];
      if done != [] {
        assert stack[|done| - 1] == done[|done| - 1];
      }
      assert done + [more[0]] + more[1..] == stack;
      ResolveFixes(done + [more[0]], more[1..], rooted);
    }
  }

  /** The stack of a path printed from a resolved stack, with or without a trailing slash, is that stack. */
  lemma StackOfPrinted(stack: seq<string>, rooted: bool)
    requires Resolved(stack, rooted)
    ensures var p := Root(rooted) + Joined(stack);
            (p != [] ==> Rooted(p) == rooted) && Stack(p) == stack
  {
    NotRootedJoined(stack);
    ResolveFixes([], stack, rooted);
    assert [] + stack == stack;
    if stack != [] {
      ComponentsOfJoined(stack);
    }
    if rooted {
      StackOfRooted(Joined(stack));
    } else {
      assert Root(rooted) + Joined(stack) == Joined(stack);
    }
  }

  lemma StackOfRooted(s: string)
    ensures Stack("/" + s) == Resolve([], Components(s), true)
  {
    assert "/" + s == "" + "/" + s;
    ComponentsAppend("", s);
    assert Components("/" + s) == [""] + Components(s);
    ResolveAppend([], [""], Components(s), true);
    ResolveNothing([], "", true);
  }

  lemma NotRootedJoined(stack: seq<string>)
    requires forall i :: 0 <= i < |stack| ==> stack[i] != "" && Lacks(stack[i], '/')
    ensures !Rooted(Joined(stack))
    ensures Joined(stack) == [] <==> stack == []
  {
    if stack != [] {
      assert stack[0][0] in stack[0];
    }
  }

  /** `Clean` is idempotent. */
  lemma CleanTwice(s: string)
    ensures Clean(Clean(s)) == Clean(s)
  {
    StackIsResolved(s);
    StackOfPrinted(Stack(s), Rooted(s));
    NotRootedJoined(Stack(s));
    if Clean(s) == "." {
      NoStack(Clean(s));
    }
  }

  // ---------------------------------------------------------------- last components

  lemma {:induction false} FilePartOfAppend(a: string, b: string)
    requires Lacks(b, '/')
    ensures FilePart(a + "/" + b) == b
  {
    var s := a + "/" + b;
    if b != [] {
      var init := b[..|b| - 1];
      assert b == init + [b[|b| - 1]];
      assert s[..|s| - 1] == a + "/" + init;
      FilePartOfAppend(a, init);
    }
  }

  lemma {:induction false} FilePartOfPlain(b: string)
    requires Lacks(b, '/')
    ensures FilePart(b) == b
  {
    if b != [] {
      var init := b[..|b| - 1];
      assert b == init + [b[|b| - 1]];
      FilePartOfPlain(init);
    }
  }

  /** A printed path up to its last component. */
  function Parent(stack: seq<string>, rooted: bool): string {
    Root(rooted) + if stack == [] then "" else Joined(stack) + "/"
  }

  lemma {:induction false} JoinedLast(stack: seq<string>, name: string)
    ensures Joined(stack + [name]) == (if stack == [] then "" else Joined(stack) + "/") + name
  {
    if stack == [] {
      assert stack + [name] == [name];
    } else {
      assert (stack + [name])[1..] == stack[1..] + [name];
      JoinedLast(stack[1..], name);
      if |stack| > 1 {
        Regroup(stack[0], Joined(stack[1..]), name);
      }
    }
  }

  lemma Regroup(a: string, b: string, c: string)
    ensures a + "/" + (b + "/" + c) == (a + "/" + b) + "/" + c
    ensures a + "/" + ((b + "/") + c) == ((a + "/" + b) + "/") + c
  {
  }

  lemma PrintedEndsInName(stack: seq<string>, name: string, rooted: bool)
    requires Lacks(name, '/')
    ensures var p := Root(rooted) + Joined(stack + [name]);
            p == Parent(stack, rooted) + name && FilePart(p) == name && DirPart(p) == Parent(stack, rooted)
  {
    var p, parent := Root(rooted) + Joined(stack + [name]), Parent(stack, rooted);
    JoinedLast(stack, name);
    assert p == parent + name;
    if parent == [] {
      FilePartOfPlain(name);
      assert p == name;
    } else {
      var above := parent[..|parent| - 1];
      assert parent == above + "/";
      assert p == above + "/" + name;
      FilePartOfAppend(above, name);
    }
  }

  /** The base of a cleaned path is its last component, or what stands for the empty path. */
  lemma BaseOfClean(s: string)
    ensures var stack := Stack(s);
            Base(Clean(s)) == if stack != [] then stack[|stack| - 1] else if Rooted(s) then "/" else "."
  {
    var stack := Stack(s);
    StackIsResolved(s);
    if stack == [] {
      if Rooted(s) {
        BaseOfSlash(Clean(s));
      } else {
        BaseOfPlain(Clean(s));
      }
    } else {
      var above, name := stack[..|stack| - 1], stack[|stack| - 1];
      assert stack == above + [name];
      BaseOfPrinted(above, name, Rooted(s));
    }
  }

  lemma BaseOfSlash(s: string)
    requires |s| == 1 && s[0] == '/'
    ensures Base(s) == "/"
  {
    assert s[..0] == [];
    assert TrimSlashes(s) == [];
  }

  lemma BaseOfPlain(s: string)
    requires Lacks(s, '/') && s != []
    ensures Base(s) == s
  {
    FilePartOfPlain(s);
    BaseOfFile(s, s);
  }

  lemma BaseOfPrinted(above: seq<string>, name: string, rooted: bool)
    requires Lacks(name, '/') && name != ""
    ensures var p := Root(rooted) + Joined(above + [name]);
            p != "" && Base(p) == name
  {
    PrintedEndsInName(above, name, rooted);
    BaseOfFile(Root(rooted) + Joined(above + [name]), name);
  }

  lemma BaseOfFile(p: string, name: string)
    requires FilePart(p) == name && name != ""
    ensures p != "" && Base(p) == name
  {
    assert p[|p| - 1] == name[|name| - 1];
    assert name[|name| - 1] in name;
  }

  /** Where a path leads: whether from the root, and through which names. */
  function Place(dir: string): (bool, seq<string>) {
    (Rooted(dir), Stack(dir))
  }

  /** A joined name is the file part, and the directory is still the same place. */
  lemma JoinStays(dir: string, name: string)
    requires Lacks(name, '/') && name != "" && name != "." && name != ".."
    ensures FilePart(Join(dir, name)) == name && Place(DirPart(Join(dir, name))) == Place(dir)
  {
    var rooted, stack := Rooted(dir), Stack(dir);
    StackOfJoin(dir, name);
    StackIsResolved(dir);
    PrintedEndsInName(stack, name, rooted);
    assert Parent(stack, rooted) + name != "";
    ParentIsPlace(stack, rooted);
  }

  lemma ResolveName(stack: seq<string>, name: string, rooted: bool)
    requires name != "" && name != "." && name != ".."
    ensures Resolve(stack, [name], rooted) == stack + [name]
  {
    assert [name][1..] == [];
  }

  lemma ResolveNothing(stack: seq<string>, part: string, rooted: bool)
    requires part == "" || part == "."
    ensures Resolve(stack, [part], rooted) == stack
  {
    assert [part][1..] == [];
  }

  lemma NoStack(s: string)
    requires s == "" || s == "."
    ensures Stack(s) == []
  {
    OneComponent(s);
    ResolveNothing([], s, false);
  }

  lemma StackOfJoin(dir: string, name: string)
    requires Lacks(name, '/') && name != "" && name != "." && name != ".."
    ensures Join(dir, name) == Root(Rooted(dir)) + Joined(Stack(dir) + [name])
  {
    OneComponent(name);
    var rooted, whole := Rooted(dir), if dir == [] then name else dir + "/" + name;
    ResolveName(Stack(dir), name, rooted);
    assert Rooted(whole) == rooted by {
      if dir == [] {
        assert name[0] in name;
      }
    }
    if dir == [] {
      NoStack(dir);
    } else {
      ComponentsAppend(dir, name);
      ResolveAppend([], Components(dir), [name], rooted);
    }
    NonEmptyPath(Stack(dir), name, rooted);
  }

  lemma NonEmptyPath(stack: seq<string>, name: string, rooted: bool)
    requires name != ""
    ensures Root(rooted) + Joined(stack + [name]) != ""
  {
    JoinedLast(stack, name);
  }

  lemma ParentIsPlace(stack: seq<string>, rooted: bool)
    requires Resolved(stack, rooted)
    ensures Place(Parent(stack, rooted)) == (rooted, stack)
  {
    StackOfPrinted(stack, rooted);
    NotRootedJoined(stack);
    if stack != [] {
      var p := Root(rooted) + Joined(stack);
      assert Parent(stack, rooted) == p + "/" + "";
      ComponentsAppend(p, "");
      ResolveAppend([], Components(p), [""], rooted);
      ResolveNothing(stack, "", rooted);
    } else if !rooted {
      NoStack("");
    }
  }

  // ---------------------------------------------------------------- what the special components mean

  /** A dot, or nothing between two slashes, stays where it is; */
  lemma DotStays(dir: string, dot: string)
    requires dir != [] && (dot == "" || dot == ".")
    ensures Place(dir + "/" + dot) == Place(dir)
  {
    OneComponent(dot);
    ComponentsAppend(dir, dot);
    ResolveAppend([], Components(dir), [dot], Rooted(dir));
    ResolveNothing(Stack(dir), dot, Rooted(dir));
  }

  /** two dots undo the name before them; */
  lemma DotDotUndoes(dir: string, name: string)
    requires dir != [] && Lacks(name, '/') && name != "" && name != "." && name != ".."
    ensures Place(dir + "/" + name + "/" + "..") == Place(dir)
  {
    var down := dir + "/" + name;
    OneComponent(name);
    OneComponent("..");
    ComponentsAppend(dir, name);
    ComponentsAppend(down, "..");
    ResolveAppend([], Components(dir), [name], Rooted(dir));
    ResolveAppend([], Components(down), [".."], Rooted(dir));
    ResolveName(Stack(dir), name, Rooted(dir));
    ResolveParent(Stack(dir), name, Rooted(dir));
  }

  lemma ResolveParent(stack: seq<string>, name: string, rooted: bool)
    requires name != ".."
    ensures Resolve(stack + [name], [".."], rooted) == stack
  {
    assert [".."][1..] == [];
    assert (stack + [name])[..|stack|] == stack;
  }

  /** at the root they do nothing, and otherwise they lead out of a relative path. */
  lemma DotDotAtTheTop(s: string)
    requires s == "/.." || s == ".."
    ensures Stack(s) == if s == "/.." then [] else [".."]
  {
    OneComponent("..");
    assert [".."][1..] == [];
    if s == "/.." {
      assert s == "" + "/" + "..";
      OneComponent("");
      ComponentsAppend("", "..");
      ResolveAppend([], [""], [".."], true);
      ResolveNothing([], "", true);
    }
  }
}
