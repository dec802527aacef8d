/** What cleaning does to the text of a path, component by component, and what that means for the
    bind sources of a project (cmd/supadupa-docker-proxy/main.go). Every path is empty, a
    separator, a component, or one of these with a separator and another component after it, so
    the laws below determine Clean. */
module PathLaws {
  import opened LexicalPath
  import opened ProjectScope
  import opened Text

  /** A component that is a name. */
  predicate Name(c: string) { c != "" && c != "." && c != ".." && '/' !in c }

  // One more component

  lemma StackOfMore(p: string, c: string)
    requires p != "" && '/' !in c
    ensures Rooted(p + "/" + c) == Rooted(p) && Stack(p + "/" + c) == Push(Rooted(p), Stack(p), c)
  {
    SplitConcat(p, '/', c);
    SplitWhole(c, '/');
    assert p + ['/'] + c == p + "/" + c;
    PushAllConcat(Rooted(p), [], Split(p, '/'), [c]);
    PushOne(Rooted(p), Stack(p), c);
  }

  lemma PushOne(rooted: bool, stack: seq<string>, c: string)
    ensures PushAll(rooted, stack, [c]) == Push(rooted, stack, c)
  {
    assert [c][..0] == [];
    assert PushAll(rooted, stack, []) == stack;
  }

  lemma SameClean(p: string, q: string)
    requires Rooted(p) == Rooted(q) && Stack(p) == Stack(q)
    ensures Clean(p) == Clean(q)
  {}

  /** A trailing separator, doubled separators and single dots make no difference. */
  lemma DotIgnored(p: string)
    requires p != ""
    ensures Clean(p + "/.") == Clean(p) && Clean(p + "/") == Clean(p)
  {
    StackOfMore(p, ".");
    StackOfMore(p, "");
    assert p + "/" + "." == p + "/." && p + "/" + "" == p + "/";
    SameClean(p + "/.", p);
    SameClean(p + "/", p);
  }

  /** Only what a path cleans to matters for what comes after it. */
  lemma CleanFirst(p: string, c: string)
    requires p != "" && '/' !in c
    ensures Clean(p + "/" + c) == Clean(Clean(p) + "/" + c)
  {
    CleanStack(p);
    StackOfMore(p, c);
    StackOfMore(Clean(p), c);
    hide Stack, Clean, Push;
    SameClean(p + "/" + c, Clean(p) + "/" + c);
  }

  /** A parent component takes the name before it away. */
  lemma ParentUndone(p: string, c: string)
    requires p != "" && Name(c)
    ensures Clean(p + "/" + c + "/..") == Clean(p)
  {
    StackOfMore(p, c);
    StackOfMore(p + "/" + c, "..");
    assert p + "/" + c + "/" + ".." == p + "/" + c + "/..";
    assert (Stack(p) + [c])[..|Stack(p)|] == Stack(p);
    hide Stack;
    SameClean(p + "/" + c + "/..", p);
  }

  lemma JoinMore(stack: seq<string>, c: string)
    requires stack != []
    ensures Join(stack + [c], "/") == Join(stack, "/") + "/" + c
  {
    JoinConcat(stack, [c], "/");
  }

  function Spelled(rooted: bool, stack: seq<string>): string {
    if stack == [] then if rooted then "/" else "."
    else if rooted then "/" + Join(stack, "/") else Join(stack, "/")
  }

  lemma CleanIs(p: string)
    ensures Clean(p) == Spelled(Rooted(p), Stack(p))
  {
    if Stack(p) == [] { CleanNothing(p); } else { CleanText(p); }
  }

  lemma SpelledOne(rooted: bool, c: string)
    ensures Spelled(rooted, [c]) == if rooted then "/" + c else c
  {}

  lemma SpelledMore(rooted: bool, stack: seq<string>, c: string)
    requires stack != []
    ensures Spelled(rooted, stack + [c]) == Spelled(rooted, stack) + "/" + c
  {
    JoinMore(stack, c);
    hide Join;
    assert "/" + (Join(stack, "/") + "/" + c) == "/" + Join(stack, "/") + "/" + c;
  }

  lemma CleanEdges(p: string)
    ensures Clean(p) == "/" <==> Rooted(p) && Stack(p) == []
    ensures Clean(p) == "." <==> !Rooted(p) && Stack(p) == []
  {
    CleanIs(p);
    CleanStack(p);
    StackNormal(p);
    hide Clean, Stack;
    if Stack(p) != [] {
      assert Stack(p)[0] in Stack(p);
      JoinStart(Stack(p));
      if Clean(p) == "." { OneDot(); }
    }
  }

  lemma OneDot()
    ensures Stack(".") == []
  {
    EmptyStacks();
    hide Split;
  }

  lemma PushName(rooted: bool, stack: seq<string>, c: string)
    requires Name(c)
    ensures Push(rooted, stack, c) == stack + [c]
  {}

  /** A name is appended as it is. */
  lemma NameAppended(p: string, c: string)
    requires p != "" && Name(c)
    ensures Clean(p + "/" + c) == if Clean(p) == "." then c else if Clean(p) == "/" then "/" + c else Clean(p) + "/" + c
  {
    PushName(Rooted(p), Stack(p), c);
    NameHasNoSlash(c);
    hide *;
    StackOfMore(p, c);
    CleanIs(p);
    CleanIs(p + "/" + c);
    CleanEdges(p);
    if Stack(p) == [] {
      assert [] + [c] == [c];
      SpelledOne(Rooted(p), c);
    } else {
      SpelledMore(Rooted(p), Stack(p), c);
    }
  }

  lemma NameHasNoSlash(c: string)
    requires Name(c)
    ensures '/' !in c
  {}

  lemma StackOfOne(c: string)
    requires '/' !in c
    ensures !Rooted(c) && Stack(c) == Push(false, [], c)
  {
    SplitWhole(c, '/');
    PushOne(false, [], c);
  }

  lemma StackOfRootOne(c: string)
    requires '/' !in c
    ensures Rooted("/" + c) && Stack("/" + c) == Push(true, [], c)
  {
    SplitConcat("", '/', c);
    SplitWhole("", '/');
    SplitWhole(c, '/');
    assert "" + ['/'] + c == "/" + c;
    PushAllConcat(true, [], [""], [c]);
    PushOne(true, [], "");
    PushOne(true, [], c);
  }

  /** Paths of one component, and none. */
  lemma ShortPaths(c: string)
    requires Name(c)
    ensures Clean("") == "." && Clean(".") == "." && Clean("..") == ".." && Clean("/") == "/"
    ensures Clean(c) == c && Clean("/" + c) == "/" + c
    ensures Clean("/.") == "/" && Clean("/..") == "/"
  {
    StackOfOne("");
    StackOfOne(".");
    StackOfOne("..");
    StackOfOne(c);
    StackOfRootOne("");
    StackOfRootOne(".");
    StackOfRootOne("..");
    StackOfRootOne(c);
    assert "/" + "" == "/" && "/" + "." == "/." && "/" + ".." == "/..";
    hide Stack;
    CleanIs("");
    CleanIs(".");
    CleanIs("..");
    CleanIs(c);
    CleanIs("/");
    CleanIs("/.");
    CleanIs("/..");
    CleanIs("/" + c);
  }

  /** The root has no parent. */
  lemma RootHasNoParent(p: string)
    requires p != "" && Clean(p) == "/"
    ensures Clean(p + "/..") == "/"
  {
    CleanEdges(p);
    StackOfMore(p, "..");
    assert p + "/" + ".." == p + "/..";
    CleanEdges(p + "/..");
  }

  function Parents(n: nat): seq<string> { seq(n, i => "..") }

  /** A relative path of parent components only keeps them. */
  lemma {:induction false} ParentsKept(n: nat)
    requires n > 0
    ensures Clean(Join(Parents(n), "/")) == Join(Parents(n), "/")
    ensures Stack(Join(Parents(n), "/")) == Parents(n) && !Rooted(Join(Parents(n), "/")) && Join(Parents(n), "/") != ""
  {
    if n == 1 {
      assert Parents(1) == [".."] && Join(Parents(1), "/") == "..";
      ParentPath();
      return;
    }
    var init := Join(Parents(n - 1), "/");
    assert Parents(n) == Parents(n - 1) + [".."];
    ParentsKept(n - 1);
    JoinMore(Parents(n - 1), "..");
    StackOfMore(init, "..");
    assert Parents(n - 1)[n - 2] == "..";
    CleanIs(Join(Parents(n), "/"));
  }

  lemma StackOfParents(p: string, n: nat)
    requires if n == 0 then Clean(p) == "." else Clean(p) == Join(Parents(n), "/")
    ensures Stack(p) == Parents(n) && !Rooted(p)
  {
    hide Stack, Clean;
    CleanEdges(p);
    CleanStack(p);
    if n > 0 { ParentsKept(n); }
  }

  lemma PushParent(n: nat)
    ensures Push(false, Parents(n), "..") == Parents(n + 1)
  {
    assert Parents(n + 1) == Parents(n) + [".."];
    if n > 0 { assert Parents(n)[n - 1] == ".."; }
  }

  /** A path that cleans to parent components, or to the current directory, takes one more. */
  lemma ParentOfParents(p: string, n: nat)
    requires p != "" && if n == 0 then Clean(p) == "." else Clean(p) == Join(Parents(n), "/")
    ensures Clean(p + "/..") == Join(Parents(n + 1), "/")
  {
    hide Stack, Clean, Push, Parents;
    StackOfParents(p, n);
    StackOfMore(p, "..");
    assert p + "/" + ".." == p + "/..";
    PushParent(n);
    SomeParents(n + 1);
    CleanIs(p + "/..");
  }

  lemma SomeParents(n: nat)
    requires n > 0
    ensures Parents(n) != []
  {}

  // Bind sources that leave a project's directory and enter one

  lemma PrefixOfOne<T>(root: seq<T>, a: T, b: T, more: seq<T>)
    ensures root + [a] <= root + [b] + more <==> a == b
  {
    var whole := root + [b] + more;
    assert whole[|root|] == b && (root + [a])[|root|] == a;
    if a == b { assert whole[..|root| + 1] == root + [a]; }
  }

  lemma StackBackIn(root: string, ref: string, x: string, c: string)
    requires root != "" && Name(ref) && Name(x) && Name(c)
    ensures var p := root + "/" + ref + "/.." + "/" + x + "/" + c;
            Rooted(p) == Rooted(root) && Stack(p) == Stack(root) + [x] + [c]
  {
    hide Stack, Rooted;
    StackOfMore(root, ref);
    StackOfMore(root + "/" + ref, "..");
    assert root + "/" + ref + "/" + ".." == root + "/" + ref + "/..";
    assert (Stack(root) + [ref])[..|Stack(root)|] == Stack(root);
    StackOfMore(root + "/" + ref + "/..", x);
    StackOfMore(root + "/" + ref + "/.." + "/" + x, c);
  }

  /** A source that steps out of the project's directory into x is allowed exactly if x is the
      project's directory again. */
  lemma BackInIff(hostRoot: string, ref: string, x: string, c: string)
    requires Trimmed(hostRoot) && hostRoot != "" && ValidRef(ref) && Name(x) && Name(c) && Trimmed(c)
    ensures AllowedProjectBindMountPath(hostRoot, ref, hostRoot + "/" + ref + "/../" + x + "/" + c) <==> x == ref
  {
    var p := hostRoot + "/" + ref + "/.." + "/" + x + "/" + c;
    assert hostRoot + "/" + ref + "/../" + x + "/" + c == p by { assert "/.." + "/" == "/../"; }
    assert p == hostRoot + "/" + (ref + "/.." + "/" + x + "/" + c);
    hide Stack, AllowedProjectBindMountPath;
    RefTrimmed(ref);
    TrimSpaceOfTrimmed(hostRoot);
    InnerTrimmed(hostRoot, ref + "/.." + "/" + x, c);
    StackBackIn(hostRoot, ref, x, c);
    BindPathIff(hostRoot, ref, p);
    PrefixOfOne(Stack(hostRoot), ref, x, [c]);
  }

  lemma InnerTrimmed(a: string, b: string, c: string)
    requires a != "" && c != "" && Trimmed(a) && Trimmed(c)
    ensures TrimSpace(a + "/" + (b + "/" + c)) == a + "/" + (b + "/" + c)
  {
    var s := a + "/" + (b + "/" + c);
    assert s[0] == a[0] && s[|s| - 1] == c[|c| - 1];
    TrimSpaceOfTrimmed(s);
  }

  lemma RefTrimmed(ref: string)
    requires ComposeProjectRef(ref)
    ensures TrimSpace(ref) == ref && Name(ref)
  {
    RefIsOneComponent(ref);
    TrimSpaceOfTrimmed(ref);
  }

  /** What lies below the project's directory by name is allowed, and nothing else below the root. */
  lemma BelowRootIff(hostRoot: string, ref: string, x: string, c: string)
    requires Trimmed(hostRoot) && hostRoot != "" && ValidRef(ref) && Name(x) && Name(c) && Trimmed(c)
    ensures AllowedProjectBindMountPath(hostRoot, ref, hostRoot + "/" + x + "/" + c) <==> x == ref
  {
    var p := hostRoot + "/" + x + "/" + c;
    assert p == hostRoot + "/" + (x + "/" + c);
    hide Stack, AllowedProjectBindMountPath;
    RefTrimmed(ref);
    TrimSpaceOfTrimmed(hostRoot);
    InnerTrimmed(hostRoot, x, c);
    StackOfMore(hostRoot, x);
    StackOfMore(hostRoot + "/" + x, c);
    BindPathIff(hostRoot, ref, p);
    PrefixOfOne(Stack(hostRoot), ref, x, [c]);
  }
}
