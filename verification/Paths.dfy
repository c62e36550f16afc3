/** Unix paths as `std::path` reads them. */
module Paths {
  datatype Component = RootDir | CurDir | ParentDir | Normal(name: string)

  /** The stretches between slashes. */
  function Split(s: string): (parts: seq<string>)
    ensures parts != [] && forall p | p in parts :: '/' !in p
  {
    if s == "" then [""]
    else
      var rest := Split(s[1..]);
      if s[0] == '/' then [""] + rest else [[s[0]] + rest[0]] + rest[1..]
  }

  function Join(parts: seq<string>): string
    requires parts != []
  {
    if |parts| == 1 then parts[0] else parts[0] + "/" + Join(parts[1..])
  }

  lemma {:induction false} SplitRoundTrip(s: string)
    ensures Join(Split(s)) == s
    decreases |s|
  {
    if s != "" {
      SplitRoundTrip(s[1..]);
      var rest := Split(s[1..]);
      if s[0] == '/' {
        assert Split(s)[1..] == rest;
      } else {
        assert Split(s)[1..] == rest[1..];
      }
    }
  }

  /** Parts past the first of a relative path, or all parts of an absolute one:
      empty and "." parts vanish. */
  function Body(parts: seq<string>): seq<Component>
  {
    if parts == [] then []
    else
      var rest := Body(parts[1..]);
      if parts[0] == "" || parts[0] == "." then rest
      else if parts[0] == ".." then [ParentDir] + rest
      else [Normal(parts[0])] + rest
  }

  predicate IsAbsolute(p: string) { p != "" && p[0] == '/' }

  /** `Path::components`. */
  function Components(p: string): seq<Component>
  {
    var parts := Split(p);
    if IsAbsolute(p) then [RootDir] + Body(parts)
    else if parts[0] == "." then [CurDir] + Body(parts[1..])
    else Body(parts)
  }

  predicate AllNormal(cs: seq<Component>) { forall c | c in cs :: c.Normal? }

  function Names(cs: seq<Component>): seq<string>
    requires AllNormal(cs)
  {
    seq(|cs|, i requires 0 <= i < |cs| => cs[i].name)
  }

  /** Only ".." survives as something else than a name. */
  lemma {:induction false} NamesButDots(parts: seq<string>)
    ensures AllNormal(Body(parts)) <==> ".." !in parts
    decreases |parts|
  {
    if parts != [] {
      NamesButDots(parts[1..]);
      var rest := Body(parts[1..]);
      assert parts == [parts[0]] + parts[1..];
      if parts[0] == ".." {
        assert ParentDir in Body(parts);
      } else if parts[0] != "" && parts[0] != "." {
        assert forall c | c in rest :: c in Body(parts);
      }
    }
  }

  /** The name of a directory entry: neither empty nor special, and no slash. */
  predicate IsName(n: string) { n != "" && n != "." && n != ".." && '/' !in n }

  lemma {:induction false} BodyNames(parts: seq<string>)
    requires forall p | p in parts :: '/' !in p
    ensures forall c | c in Body(parts) && c.Normal? :: IsName(c.name)
    decreases |parts|
  {
    if parts != [] {
      assert forall p | p in parts[1..] :: p in parts;
      BodyNames(parts[1..]);
      assert parts[0] in parts;
    }
  }

  /** Every normal component is a plain name: a path of normal components goes
      down one directory per component and never up. */
  lemma ComponentsAreNames(p: string)
    ensures forall c | c in Components(p) && c.Normal? :: IsName(c.name)
  {
    var parts := Split(p);
    assert forall q | q in parts[1..] :: q in parts;
    BodyNames(parts);
    BodyNames(parts[1..]);
  }

  /** A relative path with only normal components has at least one. */
  lemma RelativeHasAName(p: string)
    requires p != "" && !IsAbsolute(p) && AllNormal(Components(p))
    ensures Components(p) != []
  {
    var parts := Split(p);
    assert parts[0] != "";
    if parts[0] == "." {
      assert CurDir in Components(p);
    }
  }

  /** A trailing slash names the same place. */
  lemma TrailingSlash(p: string)
    requires p != ""
    ensures Components(p + "/") == Components(p)
  {
    SplitTrailing(p);
    BodyTrailing(Split(p));
    BodyTrailing(Split(p)[1..]);
    assert (Split(p) + [""])[1..] == Split(p)[1..] + [""];
  }

  lemma {:induction false} SplitTrailing(s: string)
    ensures Split(s + "/") == Split(s) + [""]
    decreases |s|
  {
    if s == "" {
      assert s + "/" == "/" && "/"[1..] == "";
    } else {
      SplitTrailing(s[1..]);
      assert (s + "/")[1..] == s[1..] + "/";
    }
  }

  lemma {:induction false} BodyTrailing(parts: seq<string>)
    ensures Body(parts + [""]) == Body(parts)
    decreases |parts|
  {
    if parts == [] {
      assert (parts + [""])[1..] == [];
    } else {
      assert (parts + [""])[1..] == parts[1..] + [""];
      BodyTrailing(parts[1..]);
    }
  }

  /** The absolute path of a list of names. */
  function Render(names: seq<string>): string
  {
    if names == [] then "" else "/" + names[0] + Render(names[1..])
  }

  /** Reading a rendered path gives the names back. */
  lemma {:induction false} RenderRoundTrip(names: seq<string>)
    requires names != [] && forall n | n in names :: IsName(n)
    ensures IsAbsolute(Render(names)) && Components(Render(names)) == [RootDir] + Normals(names)
  {
    SplitRender(names);
    BodyOfNames(names);
    assert ([""] + names)[1..] == names;
  }

  function Normals(names: seq<string>): seq<Component>
  {
    seq(|names|, i requires 0 <= i < |names| => Normal(names[i]))
  }

  lemma {:induction false} SplitRender(names: seq<string>)
    requires forall n | n in names :: IsName(n)
    ensures Split(Render(names)) == [""] + names
    decreases |names|
  {
    if names != [] {
      var first, rest := names[0], Render(names[1..]);
      assert first in names && forall n | n in names[1..] :: n in names;
      SplitRender(names[1..]);
      SplitOne(first, rest);
      assert Split(rest)[0] == "" && Split(rest)[1..] == names[1..];
      assert first + "" == first;
      assert Split(first + rest) == [first] + names[1..] == names;
      assert Render(names) == "/" + (first + rest);
    }
  }

  /** A slash-free prefix lengthens the first part. */
  lemma {:induction false} SplitOne(n: string, rest: string)
    requires '/' !in n
    ensures Split(n + rest) == [n + Split(rest)[0]] + Split(rest)[1..]
    decreases |n|
  {
    if n == "" {
      assert n + rest == rest;
      assert n + Split(rest)[0] == Split(rest)[0];
    } else {
      assert n[0] in n;
      SplitOne(n[1..], rest);
      assert (n + rest)[1..] == n[1..] + rest;
      assert [n[0]] + (n[1..] + Split(rest)[0]) == n + Split(rest)[0];
    }
  }

  lemma {:induction false} BodyOfNames(names: seq<string>)
    requires forall n | n in names :: IsName(n)
    ensures Body([""] + names) == Body(names) == Normals(names)
    decreases |names|
  {
    assert ([""] + names)[1..] == names;
    if names != [] {
      assert names[0] in names;
      assert forall n | n in names[1..] :: n in names;
      BodyOfNames(names[1..]);
    }
  }

  // ---- Places --------------------------------------------------------------

  /** Where one more component leads, without symbolic links: the parent of the
      root is the root. */
  function Walk(at: seq<string>, c: Component): seq<string>
  {
    match c
    case RootDir => []
    case CurDir => at
    case ParentDir => if at == [] then [] else at[..|at| - 1]
    case Normal(name) => at + [name]
  }

  function Follow(at: seq<string>, cs: seq<Component>): seq<string>
    decreases |cs|
  {
    if cs == [] then at else Follow(Walk(at, cs[0]), cs[1..])
  }

  /** The directory a path leads to from the root. */
  function Resolved(cs: seq<Component>): seq<string> { Follow([], cs) }

  /** The shortest path that leads there. */
  function Spelled(names: seq<string>): string { if names == [] then "/" else Render(names) }

  lemma {:induction false} FollowedAreNames(at: seq<string>, cs: seq<Component>)
    requires (forall n | n in at :: IsName(n)) && forall c | c in cs && c.Normal? :: IsName(c.name)
    ensures forall n | n in Follow(at, cs) :: IsName(n)
    decreases |cs|
  {
    if cs != [] {
      assert cs[0] in cs && forall c | c in cs[1..] :: c in cs;
      FollowedAreNames(Walk(at, cs[0]), cs[1..]);
    }
  }

  lemma {:induction false} FollowNormals(at: seq<string>, names: seq<string>)
    ensures Follow(at, Normals(names)) == at + names
    decreases |names|
  {
    if names != [] {
      assert Normals(names)[1..] == Normals(names[1..]);
      FollowNormals(at + [names[0]], names[1..]);
      assert at + [names[0]] + names[1..] == at + names;
    }
  }

  lemma ResolvedNormals(names: seq<string>)
    ensures Resolved([RootDir] + Normals(names)) == names
  {
    assert ([RootDir] + Normals(names))[1..] == Normals(names);
    FollowNormals([], names);
    assert [] + names == names;
  }

  lemma RootIsHome()
    ensures Resolved(Components("/")) == []
  {
    assert "/"[1..] == "" && Split("/") == ["", ""];
    assert ["", ""][1..] == [""] && [""][1..] == [];
    assert Body([""]) == Body([]) == [];
    assert Components("/") == [RootDir] && [RootDir][1..] == [];
  }

  /** The shortest path to a place leads to that place. */
  lemma SpellingLeadsThere(p: string)
    ensures Resolved(Components(Spelled(Resolved(Components(p))))) == Resolved(Components(p))
    ensures IsAbsolute(Spelled(Resolved(Components(p))))
  {
    var names := Resolved(Components(p));
    ComponentsAreNames(p);
    FollowedAreNames([], Components(p));
    if names == [] {
      RootIsHome();
    } else {
      RenderRoundTrip(names);
      ResolvedNormals(names);
    }
  }

  /** A slash in front adds an empty part. */
  lemma SplitSlash(s: string)
    ensures Split("/" + s) == [""] + Split(s)
  {
    assert ("/" + s)[1..] == s;
  }

  /** A doubled slash names the same place. */
  lemma LeadingSlash(p: string)
    requires IsAbsolute(p)
    ensures Components("/" + p) == Components(p)
  {
    SplitSlash(p);
    assert ([""] + Split(p))[1..] == Split(p);
  }

  /** So does a step down and up again. */
  lemma StepUp(n: string, p: string)
    requires IsName(n) && IsAbsolute(p)
    ensures IsAbsolute("/" + n + "/.." + p) && Resolved(Components("/" + n + "/.." + p)) == Resolved(Components(p))
  {
    var tail := Split(p)[1..];
    StepUpParts(n, p);
    BodySteps(n, tail);
    BodySkips(tail);
    DownAndUp(n, Body(tail));
  }

  lemma StepUpParts(n: string, p: string)
    requires '/' !in n && IsAbsolute(p)
    ensures Split(p) == [""] + Split(p)[1..] && Split("/" + n + "/.." + p) == ["", n, ".."] + Split(p)[1..]
  {
    UpParts(p);
    NameParts(n, ".." + p);
    assert "/" + n + "/.." + p == "/" + n + ("/" + (".." + p));
  }

  lemma UpParts(p: string)
    requires IsAbsolute(p)
    ensures Split(p) == [""] + Split(p)[1..] && Split(".." + p) == [".."] + Split(p)[1..]
  {
    assert p == "/" + p[1..];
    SplitSlash(p[1..]);
    SplitOne("..", p);
    assert ".." + "" == "..";
  }

  lemma NameParts(n: string, rest: string)
    requires '/' !in n
    ensures Split("/" + n + ("/" + rest)) == ["", n] + Split(rest)
  {
    SplitSlash(rest);
    SplitOne(n, "/" + rest);
    assert n + "" == n;
    SplitSlash(n + ("/" + rest));
    assert "/" + n + ("/" + rest) == "/" + (n + ("/" + rest));
  }

  lemma BodySkips(parts: seq<string>)
    ensures Body([""] + parts) == Body(parts)
  {
    assert ([""] + parts)[1..] == parts;
  }

  lemma BodySteps(n: string, parts: seq<string>)
    requires IsName(n)
    ensures Body(["", n, ".."] + parts) == [Normal(n), ParentDir] + Body(parts)
  {
    assert ["", n, ".."] + parts == [""] + ([n, ".."] + parts);
    BodySkips([n, ".."] + parts);
    assert ([n, ".."] + parts)[1..] == [".."] + parts;
    assert ([".."] + parts)[1..] == parts;
    assert Body([".."] + parts) == [ParentDir] + Body(parts);
    assert Body([n, ".."] + parts) == [Normal(n)] + Body([".."] + parts);
  }

  lemma DownAndUp(n: string, tail: seq<Component>)
    ensures Resolved([RootDir] + ([Normal(n), ParentDir] + tail)) == Resolved([RootDir] + tail)
  {
    FollowOne([], RootDir, [Normal(n), ParentDir] + tail);
    assert [Normal(n), ParentDir] + tail == [Normal(n)] + ([ParentDir] + tail);
    FollowOne([], Normal(n), [ParentDir] + tail);
    FollowOne([n], ParentDir, tail);
    FollowOne([], RootDir, tail);
  }

  lemma FollowOne(at: seq<string>, c: Component, tail: seq<Component>)
    ensures Follow(at, [c] + tail) == Follow(Walk(at, c), tail)
  {
    assert ([c] + tail)[1..] == tail;
  }

  // ---- Paths put together --------------------------------------------------

  /** The parts of two paths with a slash between them. */
  lemma {:induction false} SplitBetween(a: string, b: string)
    ensures Split(a + "/" + b) == Split(a) + Split(b)
    decreases |a|
  {
    if a == "" {
      assert a + "/" + b == "/" + b;
      SplitSlash(b);
    } else {
      assert (a + "/" + b)[1..] == a[1..] + "/" + b;
      SplitBetween(a[1..], b);
    }
  }

  lemma {:induction false} BodyBetween(a: seq<string>, b: seq<string>)
    ensures Body(a + b) == Body(a) + Body(b)
    decreases |a|
  {
    if a == [] {
      assert a + b == b;
    } else {
      assert (a + b)[1..] == a[1..] + b;
      BodyBetween(a[1..], b);
    }
  }

  /** A relative path of names below an absolute one. */
  lemma ComponentsBelow(dir: string, t: string)
    requires IsAbsolute(dir) && t != "" && !IsAbsolute(t) && AllNormal(Components(t))
    ensures Components(dir + "/" + t) == Components(dir) + Components(t)
  {
    SplitBetween(dir, t);
    BodyBetween(Split(dir), Split(t));
    RelativeIsBody(t);
    assert (dir + "/" + t)[0] == '/';
    assert [RootDir] + (Body(Split(dir)) + Body(Split(t))) == [RootDir] + Body(Split(dir)) + Body(Split(t));
  }

  lemma RelativeIsBody(t: string)
    requires !IsAbsolute(t) && AllNormal(Components(t))
    ensures Components(t) == Body(Split(t))
  {
    if Split(t)[0] == "." {
      DotShows(t);
    }
  }

  lemma DotShows(t: string)
    requires !IsAbsolute(t) && Split(t)[0] == "."
    ensures CurDir in Components(t)
  {
  }

  lemma {:induction false} FollowBetween(at: seq<string>, a: seq<Component>, b: seq<Component>)
    ensures Follow(at, a + b) == Follow(Follow(at, a), b)
    decreases |a|
  {
    if a == [] {
      assert a + b == b;
    } else {
      assert (a + b)[1..] == a[1..] + b;
      FollowBetween(Walk(at, a[0]), a[1..], b);
    }
  }

  lemma NormalsOfNames(cs: seq<Component>)
    requires AllNormal(cs)
    ensures Normals(Names(cs)) == cs
  {
    forall i | 0 <= i < |cs| ensures Normals(Names(cs))[i] == cs[i] {
      assert cs[i] in cs;
    }
  }

  /** It leads to its names below the place of the other. */
  lemma ResolvedBelow(dir: string, t: string)
    requires IsAbsolute(dir) && t != "" && !IsAbsolute(t) && AllNormal(Components(t))
    ensures Resolved(Components(dir + "/" + t)) == Resolved(Components(dir)) + Names(Components(t))
  {
    ComponentsBelow(dir, t);
    FollowBetween([], Components(dir), Components(t));
    NormalsOfNames(Components(t));
    FollowNormals(Resolved(Components(dir)), Names(Components(t)));
  }

  /** Names joined by slashes are read back. */
  lemma {:induction false} SplitJoin(names: seq<string>)
    requires names != [] && forall n | n in names :: '/' !in n
    ensures Split(Join(names)) == names
    decreases |names|
  {
    assert names[0] in names;
    if |names| == 1 {
      SplitWhole(names[0]);
    } else {
      assert forall n | n in names[1..] :: n in names;
      SplitJoin(names[1..]);
      SplitBetween(names[0], Join(names[1..]));
      SplitWhole(names[0]);
    }
  }

  lemma SplitWhole(n: string)
    requires '/' !in n
    ensures Split(n) == [n]
  {
    SplitOne(n, "");
    assert n + "" == n;
  }

  lemma JoinedNames(names: seq<string>)
    requires names != [] && forall n | n in names :: IsName(n)
    ensures Join(names) != "" && !IsAbsolute(Join(names)) && Components(Join(names)) == Normals(names)
  {
    assert names[0] in names;
    SplitJoin(names);
    BodyOfNames(names);
    JoinBegins(names);
  }

  lemma JoinBegins(names: seq<string>)
    requires names != [] && names[0] != ""
    ensures names[0] <= Join(names)
  {
  }
}
