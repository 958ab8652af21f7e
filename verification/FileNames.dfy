/** Names a server supplies, and the destination they lead to. */
module FileNames {
  import opened Paths

  function Slashed(s: string): (r: string)
    ensures |r| == |s| && Lacks(r, '\\')
    ensures Lacks(s, '\\') ==> r == s
  {
    seq(|s|, i requires 0 <= i < |s| => if s[i] == '\\' then '/' else s[i])
  }

  function TrimDots(s: string): (r: string)
    ensures |r| <= |s| && s[|s| - |r|..] == r && (r != [] ==> r[0] != '.')
  {
    if s != [] && s[0] == '.' then TrimDots(s[1..]) else s
  }

  /** The end of `sanitizeFilename`, once directories are gone. */
  function Visible(base: string): string {
    var plain := TrimDots(base);
    if plain == "" || plain == "." || plain == "/" then "" else plain
  }

  /** `sanitizeFilename`. */
  function Sanitize(name: string): string {
    Visible(Base(Clean(Slashed(name))))
  }

  /** One path component that is not hidden and cannot be mistaken for a directory. */
  predicate Plain(name: string) {
    Lacks(name, '/') && Lacks(name, '\\') && (name != [] ==> name[0] != '.')
  }

  lemma VisibleIsPlain(base: string)
    requires base == "/" || (Lacks(base, '/') && Lacks(base, '\\'))
    ensures Plain(Visible(base))
  {
  }

  lemma VisibleKeeps(base: string)
    requires Plain(base)
    ensures Visible(base) == base
  {
  }

  lemma DotIsNotVisible(base: string)
    requires |base| == 1 && base[0] == '.'
    ensures Visible(base) == ""
  {
    assert TrimDots(base[1..]) == [];
  }

  /** Whatever the server sends, the result is empty or a plain name, */
  lemma SanitizedIsPlain(name: string)
    ensures Plain(Sanitize(name))
  {
    var s := Slashed(name);
    BaseOfClean(s);
    BaseIsPart(s, Stack(s), Base(Clean(s)));
    VisibleIsPlain(Base(Clean(s)));
  }

  lemma BaseIsPart(s: string, stack: seq<string>, base: string)
    requires Lacks(s, '\\') && stack == Stack(s)
    requires base == if stack != [] then stack[|stack| - 1] else if Rooted(s) then "/" else "."
    ensures base == "/" || (Lacks(base, '/') && Lacks(base, '\\'))
  {
    StackIsResolved(s);
    StackLacks(s, '\\');
    if stack != [] {
      assert stack[|stack| - 1] in stack;
    }
  }

  lemma StackLacks(s: string, ch: char)
    requires Lacks(s, ch) && ch != '.'
    ensures forall p :: p in Stack(s) ==> Lacks(p, ch)
  {
    ComponentsLack(s, ch);
    ResolveLacks([], Components(s), Rooted(s), ch);
  }

  lemma {:induction false} ResolveLacks(stack: seq<string>, parts: seq<string>, rooted: bool, ch: char)
    requires forall p :: p in stack || p in parts ==> Lacks(p, ch)
    ensures forall p :: p in Resolve(stack, parts, rooted) ==> Lacks(p, ch)
    decreases |parts|
  {
    if parts != [] {
      assert forall p :: p in Enter(stack, parts[0], rooted) ==> p in stack || p == parts[0];
      ResolveLacks(Enter(stack, parts[0], rooted), parts[1..], rooted, ch);
    }
  }

  /** and exactly the plain names are left as they are; so sanitizing twice is sanitizing once. */
  lemma SanitizeKeepsPlain(name: string)
    ensures Sanitize(name) == name <==> Plain(name)
    ensures Sanitize(Sanitize(name)) == Sanitize(name)
  {
    SanitizedIsPlain(name);
    PlainStays(Sanitize(name));
    if Plain(name) {
      PlainStays(name);
    }
  }

  lemma PlainStays(name: string)
    requires Plain(name)
    ensures Sanitize(name) == name
  {
    BaseOfClean(name);
    OneComponent(name);
    if name == [] {
      NoStack(name);
      DotIsNotVisible(Base(Clean(name)));
    } else {
      assert name[0] in name;
      ResolveName([], name, false);
      VisibleKeeps(name);
    }
  }

  // ---------------------------------------------------------------- which part of a name is kept

  predicate Dots(s: string) {
    forall i :: 0 <= i < |s| ==> s[i] == '.'
  }

  lemma {:induction false} TrimsAllDots(dots: string, name: string)
    requires Dots(dots) && (name != [] ==> name[0] != '.')
    ensures TrimDots(dots + name) == name
  {
    if dots == [] {
      assert dots + name == name;
    } else {
      assert (dots + name)[1..] == dots[1..] + name;
      TrimsAllDots(dots[1..], name);
    }
  }

  lemma SlashedParts(dirs: string, sep: char, last: string)
    requires (sep == '/' || sep == '\\') && Lacks(last, '\\')
    ensures Slashed(dirs + [sep] + last) == Slashed(dirs) + "/" + last
  {
  }

  /** Whatever directories come before it, after either kind of slash, and whatever dots lead it, a plain name is kept. */
  lemma LastNameIsKept(dirs: string, sep: char, dots: string, name: string)
    requires (sep == '/' || sep == '\\') && Dots(dots) && Plain(name) && name != []
    ensures Sanitize(dirs + [sep] + (dots + name)) == name
    ensures Sanitize(dots + name) == name
  {
    var last := dots + name;
    LastIsName(dots, name);
    SlashedParts(dirs, sep, last);
    LastComponent(Slashed(dirs), last);
    SanitizeEndsIn(dirs + [sep] + last, Slashed(dirs) + "/" + last, dots, name);
    LastAlone(last);
    SanitizeEndsIn(last, last, dots, name);
  }

  lemma LastIsName(dots: string, name: string)
    requires Dots(dots) && Plain(name) && name != []
    ensures var last := dots + name;
            Lacks(last, '/') && Lacks(last, '\\') && last != "" && last != "." && last != ".."
  {
    assert (dots + name)[|dots|] == name[0];
  }

  lemma SanitizeEndsIn(given: string, s: string, dots: string, name: string)
    requires Slashed(given) == s && Dots(dots) && Plain(name) && name != []
    requires Stack(s) != [] && Stack(s)[|Stack(s)| - 1] == dots + name
    ensures Sanitize(given) == name
  {
    BaseOfClean(s);
    TrimsAllDots(dots, name);
  }

  lemma LastComponent(dir: string, last: string)
    requires Lacks(last, '/') && last != "" && last != "." && last != ".."
    ensures Stack(dir + "/" + last) == Resolve([], Components(dir), Rooted(dir + "/" + last)) + [last]
  {
    var rooted := Rooted(dir + "/" + last);
    OneComponent(last);
    ComponentsAppend(dir, last);
    ResolveAppend([], Components(dir), [last], rooted);
    ResolveName(Resolve([], Components(dir), rooted), last, rooted);
  }

  lemma LastAlone(last: string)
    requires Lacks(last, '/') && last != "" && last != "." && last != ".."
    ensures Stack(last) == [last]
  {
    OneComponent(last);
    ResolveName([], last, false);
    assert last[0] in last;
  }

  /** A name that leads to no file is dropped: one that ends at the root, at the start, or above it. */
  lemma NoNameIsDropped(name: string)
    requires var stack := Stack(Slashed(name)); stack == [] || Dots(stack[|stack| - 1])
    ensures Sanitize(name) == ""
  {
    BaseOfClean(Slashed(name));
    var base := Base(Clean(Slashed(name)));
    if Dots(base) {
      TrimsAllDots(base, []);
      assert base + [] == base;
    }
  }

  // ---------------------------------------------------------------- the destination

  /** What comes before the first hyphen. */
  function Prefix(file: string): string {
    if file == [] || file[0] == '-' then [] else [file[0]] + Prefix(file[1..])
  }

  /** `renamedForFilenameHint`. */
  function Renamed(dest: string, filename: string): string {
    Join(DirPart(dest), Prefix(FilePart(dest)) + "-" + filename)
  }

  lemma {:induction false} PrefixOfTagged(id: string, rest: string)
    requires Lacks(id, '-')
    ensures Prefix(id + "-" + rest) == id
  {
    var s := id + "-" + rest;
    if id != [] {
      assert id == [id[0]] + id[1..];
      assert s[0] == id[0] && s[1..] == id[1..] + "-" + rest;
      PrefixOfTagged(id[1..], rest);
    }
  }

  lemma {:induction false} PrefixLacks(file: string)
    ensures Lacks(Prefix(file), '-') && (Lacks(file, '/') ==> Lacks(Prefix(file), '/'))
  {
    if file != [] && file[0] != '-' {
      assert file == [file[0]] + file[1..];
      PrefixLacks(file[1..]);
    }
  }

  /** Following the server's hint keeps the file in its directory, under its own prefix and the sanitized name. */
  lemma RenameStays(dest: string, hint: string)
    ensures var dest' := Renamed(dest, Sanitize(hint));
            && Place(DirPart(dest')) == Place(DirPart(dest))
            && FilePart(dest') == Prefix(FilePart(dest)) + "-" + Sanitize(hint)
            && Prefix(FilePart(dest')) == Prefix(FilePart(dest))
  {
    var prefix, filename := Prefix(FilePart(dest)), Sanitize(hint);
    var name := prefix + "-" + filename;
    PrefixLacks(FilePart(dest));
    SanitizedIsPlain(hint);
    assert name[|prefix|] == '-';
    assert Lacks(name, '/');
    JoinStays(DirPart(dest), name);
    PrefixOfTagged(prefix, filename);
  }

  function RenamedAll(dest: string, hints: seq<string>): string
    decreases |hints|
  {
    if hints == [] then dest else RenamedAll(Renamed(dest, Sanitize(hints[0])), hints[1..])
  }

  lemma {:induction false} RenamesStay(dest: string, hints: seq<string>)
    ensures Place(DirPart(RenamedAll(dest, hints))) == Place(DirPart(dest))
    ensures Prefix(FilePart(RenamedAll(dest, hints))) == Prefix(FilePart(dest))
    decreases |hints|
  {
    if hints != [] {
      RenameStays(dest, hints[0]);
      RenamesStay(Renamed(dest, Sanitize(hints[0])), hints[1..]);
    }
  }

  /** However often two tasks with different hyphen-free IDs are renamed, and wherever they were put, their files differ. */
  lemma IdsKeepFilesApart(a: string, b: string, dirA: string, dirB: string, x: string, y: string,
                          hintsA: seq<string>, hintsB: seq<string>)
    requires Lacks(a, '-') && Lacks(b, '-') && Lacks(a, '/') && Lacks(b, '/') && Lacks(x, '/') && Lacks(y, '/')
    requires a != b
    ensures RenamedAll(Join(dirA, a + "-" + x), hintsA) != RenamedAll(Join(dirB, b + "-" + y), hintsB)
  {
    FirstDest(a, dirA, x);
    FirstDest(b, dirB, y);
    RenamesStay(Join(dirA, a + "-" + x), hintsA);
    RenamesStay(Join(dirB, b + "-" + y), hintsB);
  }

  lemma FirstDest(id: string, dir: string, x: string)
    requires Lacks(id, '-') && Lacks(id, '/') && Lacks(x, '/')
    ensures Prefix(FilePart(Join(dir, id + "-" + x))) == id
  {
    var name := id + "-" + x;
    assert name[|id|] == '-';
    JoinStays(dir, name);
    PrefixOfTagged(id, x);
  }
}
