/** Go's lexical path cleaning (path.Clean, and filepath.Clean where "/" separates), as a
    stack of components. */
module LexicalPath {
  import opened Text

  predicate Rooted(p: string) { p != "" && p[0] == '/' }

  /** One component: empty and "." vanish, ".." removes the component before it, and at the
      front stays only in relative paths. */
  function Push(rooted: bool, stack: seq<string>, c: string): seq<string> {
    if c == "" || c == "." then stack
    else if c != ".." then stack + [c]
    else if stack != [] && stack[|stack| - 1] != ".." then stack[..|stack| - 1]
    else if rooted then stack
    else stack + [c]
  }

  function PushAll(rooted: bool, stack: seq<string>, cs: seq<string>): seq<string> {
    if cs == [] then stack else Push(rooted, PushAll(rooted, stack, cs[..|cs| - 1]), cs[|cs| - 1])
  }

  /** The components of a cleaned path. */
  function Stack(p: string): seq<string> {
    PushAll(Rooted(p), [], Split(p, '/'))
  }

  function Clean(p: string): string {
    if Rooted(p) then "/" + Join(Stack(p), "/")
    else if Stack(p) == [] then "."
    else Join(Stack(p), "/")
  }

  /** filepath.Join of two non-empty elements. */
  function JoinPath(a: string, b: string): string { Clean(a + "/" + b) }

  // Stacks

  /** No empty or dot components, no separators in them, and ".." only in front of a relative path. */
  ghost predicate Normal(rooted: bool, stack: seq<string>) {
    && (forall c :: c in stack ==> c != "" && c != "." && '/' !in c)
    && (forall i :: 0 <= i < |stack| && stack[i] == ".." ==> !rooted && forall j :: 0 <= j < i ==> stack[j] == "..")
  }

  lemma {:induction false} PushAllNormal(rooted: bool, stack: seq<string>, cs: seq<string>)
    requires Normal(rooted, stack) && forall c :: c in cs ==> '/' !in c
    ensures Normal(rooted, PushAll(rooted, stack, cs))
  {
    if cs != [] {
      assert cs[|cs| - 1] in cs;
      PushAllNormal(rooted, stack, cs[..|cs| - 1]);
    }
  }

  lemma StackNormal(p: string)
    ensures Normal(Rooted(p), Stack(p))
  {
    SplitNoSep(p, '/');
    PushAllNormal(Rooted(p), [], Split(p, '/'));
  }

  lemma {:induction false} PushAllConcat(rooted: bool, stack: seq<string>, a: seq<string>, b: seq<string>)
    ensures PushAll(rooted, stack, a + b) == PushAll(rooted, PushAll(rooted, stack, a), b)
  {
    if b == [] {
      assert a + b == a;
    } else {
      assert (a + b)[..|a + b| - 1] == a + b[..|b| - 1];
      PushAllConcat(rooted, stack, a, b[..|b| - 1]);
    }
  }

  /** Normal components without ".." push as they are, on any stack. */
  lemma {:induction false} PushAllPlain(rooted: bool, stack: seq<string>, cs: seq<string>)
    requires forall c :: c in cs ==> c != "" && c != "." && c != ".."
    ensures PushAll(rooted, stack, cs) == stack + cs
  {
    if cs == [] {
      assert stack + cs == stack;
    } else {
      var init, last := cs[..|cs| - 1], cs[|cs| - 1];
      assert cs == init + [last] && forall c :: c in init ==> c in cs;
      assert last in cs;
      PushAllPlain(rooted, stack, init);
      assert stack + cs == (stack + init) + [last];
    }
  }

  /** A normal stack, pushed on the empty stack, is itself. */
  lemma {:induction false} PushAllSelf(rooted: bool, cs: seq<string>)
    requires Normal(rooted, cs)
    ensures PushAll(rooted, [], cs) == cs
  {
    if cs != [] {
      var init, last := cs[..|cs| - 1], cs[|cs| - 1];
      assert cs == init + [last] && last in cs && forall c :: c in init ==> c in cs;
      assert Normal(rooted, init) by {
        forall i | 0 <= i < |init| && init[i] == ".." ensures !rooted && forall j :: 0 <= j < i ==> init[j] == ".." {
          assert cs[i] == "..";
        }
      }
      PushAllSelf(rooted, init);
      if last == ".." && init != [] { assert cs[|init|] == ".." && cs[|init| - 1] == ".."; }
    }
  }

  // Cleaning

  /** The root and the current directory have no components. */
  lemma EmptyStacks()
    ensures Split("/", '/') == ["", ""] && Split(".", '/') == ["."]
    ensures PushAll(true, [], [""]) == [] && PushAll(true, [], ["", ""]) == [] && PushAll(false, [], ["."]) == []
  {
    SplitWhole(".", '/');
    SplitWhole("", '/');
    SplitConcat("", '/', "");
    assert "" + ['/'] + "" == "/";
    hide Split;
    assert [""][..0] == [] && ["", ""][..1] == [""] && ["."][..0] == [];
  }

  lemma CleanNothing(p: string)
    requires Stack(p) == []
    ensures Clean(p) == (if Rooted(p) then "/" else ".") && Rooted(Clean(p)) == Rooted(p) && Stack(Clean(p)) == []
  {
    EmptyStacks();
    hide Split, PushAll;
  }

  lemma CleanText(p: string)
    requires Stack(p) != []
    ensures Clean(p) == if Rooted(p) then "/" + Join(Stack(p), "/") else Join(Stack(p), "/")
  {
    hide Stack, Join;
  }

  /** A stack of proper components, spelled out. */
  lemma StackOfJoin(rooted: bool, stack: seq<string>)
    requires stack != [] && stack[0] != "" && (forall c :: c in stack ==> '/' !in c) && PushAll(rooted, [], stack) == stack
    ensures var text := if rooted then "/" + Join(stack, "/") else Join(stack, "/");
            && text != "" && Rooted(text) == rooted && Stack(text) == stack
            && Split(text, '/') == (if rooted then [""] else []) + stack
  {
    SplitJoin(stack, '/');
    JoinStart(stack);
    hide Split, Join;
    if rooted {
      SplitConcat("", '/', Join(stack, "/"));
      assert "/" + Join(stack, "/") == "" + ['/'] + Join(stack, "/");
      SplitWhole("", '/');
      PushAllConcat(true, [], [""], stack);
      EmptyStacks();
    } else {
      assert [] + stack == stack;
    }
  }

  /** Cleaning keeps the components and whether the path is rooted. */
  lemma CleanStack(p: string)
    ensures Clean(p) != "" && Rooted(Clean(p)) == Rooted(p) && Stack(Clean(p)) == Stack(p)
    ensures Stack(p) != [] ==> Split(Clean(p), '/') == (if Rooted(p) then [""] else []) + Stack(p)
  {
    StackNormal(p);
    PushAllSelf(Rooted(p), Stack(p));
    hide Clean, Stack, Rooted, Split, PushAll;
    if Stack(p) == [] {
      CleanNothing(p);
    } else {
      assert Stack(p)[0] in Stack(p);
      CleanText(p);
      StackOfJoin(Rooted(p), Stack(p));
    }
  }

  lemma JoinStart(stack: seq<string>)
    requires stack != [] && stack[0] != "" && forall c :: c in stack ==> '/' !in c
    ensures Join(stack, "/") != "" && Join(stack, "/")[0] == stack[0][0] && stack[0][0] != '/'
  {
    assert stack[0] in stack && stack[0][0] in stack[0];
  }

  function Root(p: string): seq<string> { if Rooted(p) then [""] else [] }

  lemma CleanShape(p: string)
    ensures Stack(p) == [] ==> |Clean(p)| == 1
    ensures Clean(p) != "" && (Clean(p)[0] == '/' <==> Rooted(p))
    ensures Stack(p) != [] ==> Split(Clean(p), '/') == Root(p) + Stack(p)
  {
    CleanStack(p);
  }

  /** What follows a cleaned base in a cleaned path are further components. */
  lemma UnderMeansLonger(p: string, base: string)
    requires Stack(base) != [] && Clean(base) + "/" <= Clean(p)
    ensures Rooted(p) == Rooted(base) && Stack(base) <= Stack(p)
  {
    CleanShape(p);
    CleanShape(base);
    hide Clean, Stack, Rooted, Split;
    var rest := Clean(p)[|Clean(base)| + 1..];
    assert Clean(p) == Clean(base) + ['/'] + rest;
    assert Clean(p)[0] == Clean(base)[0];
    SplitConcat(Clean(base), '/', rest);
    DropRoot(Root(p), Stack(p), Stack(base), Split(rest, '/'));
  }

  lemma DropRoot(root: seq<string>, s: seq<string>, r: seq<string>, more: seq<string>)
    requires root + s == root + r + more
    ensures r <= s
  {
    assert s == (root + s)[|root|..] && r + more == (root + r + more)[|root|..];
  }

  lemma LongerMeansUnder(p: string, base: string)
    requires Stack(base) != [] && Rooted(p) == Rooted(base) && Stack(base) < Stack(p)
    ensures Clean(base) + "/" <= Clean(p)
  {
    var r, more := Stack(base), Stack(p)[|Stack(base)|..];
    assert Stack(p) == r + more;
    JoinConcat(r, more, "/");
  }

  /** A cleaned path equals another, or lies under it as a string, exactly if its components
      start with the other's (the other having at least one). */
  lemma UnderIff(p: string, base: string)
    requires Stack(base) != []
    ensures Clean(p) == Clean(base) || Clean(base) + "/" <= Clean(p) <==> Rooted(p) == Rooted(base) && Stack(base) <= Stack(p)
  {
    CleanStack(p);
    CleanStack(base);
    assert Stack(base) <= Stack(p) ==> Stack(base) == Stack(p) || Stack(base) < Stack(p);
    if Clean(base) + "/" <= Clean(p) { UnderMeansLonger(p, base); }
    if Rooted(p) == Rooted(base) && Stack(base) < Stack(p) { LongerMeansUnder(p, base); }
  }
}
