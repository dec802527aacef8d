/** What the scoping rules say of whole container configurations (cmd/supadupa-docker-proxy/main.go)
    and of function entrypoints (internal/control/functions.go), in terms of the texts in them. */
module ScopeLaws {
  import opened Text
  import opened TextLaws
  import opened LexicalPath
  import opened PathLaws
  import opened ProjectScope

  // Container configurations

  /** A named volume is the project's own if the ref and an underscore start its name. */
  lemma VolumeAllowedIff(projectRef: string, volume: string)
    ensures var ref, v := TrimSpace(projectRef), TrimSpace(volume);
            ProjectVolumeSourceAllowed(projectRef, volume) <==>
              v == "" || (ValidRef(ref) && VolumeName(v) && exists rest :: v == ref + "_" + rest)
  {
    var ref, v := TrimSpace(projectRef), TrimSpace(volume);
    if ref + "_" <= v { assert v == ref + "_" + v[|ref + "_"|..]; }
    hide TrimSpace, ComposeProjectRef, VolumeName;
  }

  lemma {:induction false} BeforeColonIs(source: string, rest: string)
    requires ':' !in source
    ensures BeforeColon(source + ":" + rest) == source && BeforeColon(source) == source
  {
    if source == "" {
      assert ("" + ":" + rest)[0] == ':';
    } else {
      assert source[0] in source && forall c :: c in source[1..] ==> c in source;
      BeforeColonIs(source[1..], rest);
      assert (source + ":" + rest)[1..] == source[1..] + ":" + rest && source == [source[0]] + source[1..];
    }
  }

  /** The source of a bind is what stands before its first colon, or all of it. */
  lemma BindSourceIs(source: string, rest: string)
    requires ':' !in source
    ensures BindSource(source + ":" + rest) == BindSource(source) == TrimSpace(source)
  {
    BeforeColonIs(source, rest);
  }

  /** The host's namespace is asked for by its name in any case, with white space around it or not. */
  lemma HostNamespaceIff(mode: string)
    ensures HostNamespace(mode) <==> exists name :: Around(mode, name) && |name| == 4 && ToLower(name) == "host"
  {
    var trimmed := TrimSpace(mode);
    TrimSpaceIff(mode, trimmed);
    LowerHost();
    hide TrimSpace, IsSpace, Around, Trimmed;
    if HostNamespace(mode) { assert |ToLower(trimmed)| == |trimmed| == 4; }
    if name :| Around(mode, name) && |name| == 4 && ToLower(name) == "host" {
      HostTrimmed(name);
      TrimSpaceIff(mode, name);
    }
  }

  lemma LowerHost()
    ensures ToLower("host") == "host"
  {}

  lemma HostTrimmed(name: string)
    requires |name| == 4 && ToLower(name) == "host"
    ensures Trimmed(name)
  {
    assert ToLower(name)[0] == 'h' && ToLower(name)[3] == 't';
  }

  predicate Kind(m: Mount, kind: string) { ToLower(TrimSpace(m.kind)) == kind }

  /** Of the kinds of mount, a temporary file system is always allowed, a bind if it is absolute and
      below the project's directory or relative and never leaves its base, a volume if it is the
      project's own or has no name, and nothing else. */
  lemma MountAllowedIff(hostRoot: string, projectRef: string, m: Mount)
    ensures var ref, root, p := TrimSpace(projectRef), TrimSpace(hostRoot), TrimSpace(m.source);
            MountAllowed(hostRoot, projectRef, m) <==>
              || Kind(m, "tmpfs")
              || (Kind(m, "bind") && "/" <= p && ValidRef(ref) && root != ""
                  && Rooted(p) == Rooted(root) && Stack(root) + [ref] <= Stack(p))
              || (Kind(m, "bind") && p != "" && !("/" <= p) && (p == "." || "./" <= p || ".\\" <= p) && ".." !in Stack(p))
              || (Kind(m, "volume") && (p == "" || (ValidRef(ref) && VolumeName(p) && exists rest :: p == ref + "_" + rest)))
  {
    var p := TrimSpace(m.source);
    TrimSpaceTrimmed(m.source);
    TrimSpaceOfTrimmed(p);
    BindPathIff(hostRoot, projectRef, p);
    RelativeBindIff(p);
    VolumeAllowedIff(projectRef, m.source);
    KindsDiffer();
    hide TrimSpace, ToLower, Stack, Rooted, AllowedProjectBindMountPath, ProjectRelativeBindSourceAllowed,
         ProjectVolumeSourceAllowed, ComposeProjectRef, VolumeName;
  }

  lemma KindsDiffer()
    ensures "bind" != "volume" && "bind" != "tmpfs" && "volume" != "tmpfs"
  {
    assert |"bind"| == 4 && |"volume"| == 6 && |"tmpfs"| == 5;
  }

  // Entrypoints

  predicate SlashOrSame(a: char, b: char) { a == b || (a in "/\\" && b in "/\\") }

  /** Either slash separates directories. */
  lemma EitherSlash(a: string, b: string)
    requires |a| == |b| && forall i :: 0 <= i < |a| ==> SlashOrSame(a[i], b[i])
    ensures NormalizeFunctionEntrypoint(a) == NormalizeFunctionEntrypoint(b)
  {
    assert forall i :: 0 <= i < |a| ==> Slashes(a)[i] == Slashes(b)[i];
    assert Slashes(a) == Slashes(b);
  }

  lemma SpaceSlashes(e: string)
    requires AllSpace(e)
    ensures Slashes(e) == e && TrimSpace(e) == ""
  {
    assert forall i :: 0 <= i < |e| ==> e[i] in e;
    assert Slashes(e) == e;
    assert Cut(e, 0, 0) && e[0..0] == "" && e[..0] == "" && e[0..] == e;
    TrimSpaceIff(e, "");
  }

  /** A blank entrypoint is index.ts. */
  lemma BlankEntrypoint(e: string)
    requires AllSpace(e)
    ensures NormalizeFunctionEntrypoint(e) == Ok("index.ts")
  {
    SpaceSlashes(e);
    IndexIsName();
    hide AllSpace, Clean, TrimSpace, HasText, Slashes;
    ShortPaths("index.ts");
    StackOfOne("index.ts");
    EntrypointIff(e);
    assert EntrypointOrDefault(e) == "index.ts";
    PlainStack("index.ts");
  }

  lemma IndexIsName()
    ensures Name("index.ts")
  {}

  lemma PlainStack(c: string)
    requires Name(c)
    ensures !Rooted(c) && Stack(c) == [c] && ".." !in Stack(c)
  {
    StackOfOne(c);
    PushName(false, [], c);
  }

  predicate Plain(s: string) { s != "" && Trimmed(s) && '\\' !in s }

  lemma PlainIsItself(e: string)
    requires Plain(e)
    ensures EntrypointOrDefault(e) == e
  {
    assert forall i :: 0 <= i < |e| ==> e[i] in e;
    assert Slashes(e) == e;
    TrimSpaceOfTrimmed(e);
  }

  /** An entrypoint is taken as cleaned, or refused. */
  lemma EntrypointOf(e: string)
    requires Plain(e)
    ensures NormalizeFunctionEntrypoint(e) == if !Rooted(e) && Stack(e) != [] && ".." !in Stack(e) then Ok(Clean(e)) else Refused
  {
    PlainIsItself(e);
    EntrypointIff(e);
  }

  lemma PlainMore(a: string, c: string)
    requires Plain(a) && Plain(c)
    ensures Plain(a + "/" + c) && Plain("/" + c) && Plain("./" + c) && Plain("../" + c) && Plain(a + "/..") && Plain(a + "/../" + c)
  {
    assert !IsSpace('/') && !IsSpace('.');
  }

  /** A file is taken as it is, in the function's directory or below it; leaving a directory again
      is undone, leaving the function's directory is refused, and so are the directory itself and
      paths from the root. */
  lemma SmallEntrypoints(a: string, c: string)
    requires Name(a) && Name(c) && Plain(a) && Plain(c)
    ensures NormalizeFunctionEntrypoint(c) == NormalizeFunctionEntrypoint("./" + c) == Ok(c)
    ensures NormalizeFunctionEntrypoint(a + "/" + c) == Ok(a + "/" + c)
    ensures NormalizeFunctionEntrypoint(a + "/../" + c) == Ok(c)
    ensures NormalizeFunctionEntrypoint("../" + c) == NormalizeFunctionEntrypoint("/" + c) == Refused
    ensures NormalizeFunctionEntrypoint(a + "/..") == Refused
  {
    NamesPlain(a, c);
    PlainMore(a, c);
    ShortPaths(a);
    ShortPaths(c);
    hide *;
    EntrypointOf(c);
    EntrypointOf("./" + c);
    EntrypointOf(a + "/" + c);
    EntrypointOf(a + "/../" + c);
    EntrypointOf("../" + c);
    EntrypointOf("/" + c);
    EntrypointOf(a + "/..");
    PlainStack(c);
    DotStack(c);
    BelowStack(a, c);
    BackStack(a, c);
    OutStack(c);
    RootStack(c);
    LeftStack(a);
  }

  lemma NamesPlain(a: string, c: string)
    requires Name(a) && Name(c)
    ensures a != "" && '/' !in a && c != "" && '/' !in c
  {}

  lemma DotStack(c: string)
    requires Name(c)
    ensures !Rooted("./" + c) && Stack("./" + c) == [c] && ".." !in Stack("./" + c) && Clean("./" + c) == c
  {
    assert "." + "/" + c == "./" + c;
    StackOfMore(".", c);
    StackOfOne(".");
    PushName(false, [], c);
    NameAppended(".", c);
    ShortPaths(c);
    assert Push(false, [], ".") == [];
  }

  lemma BelowStack(a: string, c: string)
    requires Name(a) && Name(c)
    ensures !Rooted(a + "/" + c) && Stack(a + "/" + c) == [a, c] && ".." !in Stack(a + "/" + c) && Clean(a + "/" + c) == a + "/" + c
  {
    PlainStack(a);
    StackOfMore(a, c);
    PushName(false, [a], c);
    NameAppended(a, c);
    ShortPaths(a);
    NotEdges(a);
  }

  lemma NotEdges(a: string)
    requires Name(a)
    ensures a != "." && a != "/"
  {
    assert '/' in "/";
  }

  lemma BackStack(a: string, c: string)
    requires Name(a) && Name(c)
    ensures var p := a + "/../" + c; !Rooted(p) && Stack(p) == [c] && ".." !in Stack(p) && Clean(p) == c
  {
    var out := a + "/..";
    assert out + "/" + c == a + "/../" + c;
    LeftStack(a);
    hide Push, Clean, Stack;
    StackOfMore(out, c);
    PushName(false, [], c);
    PlainStack(c);
    SameClean(a + "/../" + c, c);
    ShortPaths(c);
  }

  lemma LeftStack(a: string)
    requires Name(a)
    ensures !Rooted(a + "/..") && Stack(a + "/..") == []
  {
    PlainStack(a);
    StackOfMore(a, "..");
    assert a + "/" + ".." == a + "/..";
    assert [a][..0] == [];
  }

  lemma OutStack(c: string)
    requires Name(c)
    ensures !Rooted("../" + c) && ".." in Stack("../" + c)
  {
    assert ".." + "/" + c == "../" + c;
    StackOfMore("..", c);
    StackOfOne("..");
    PushName(false, [".."], c);
    assert ([".."] + [c])[0] == "..";
  }

  lemma RootStack(c: string)
    requires Name(c)
    ensures Rooted("/" + c)
  {
    StackOfRootOne(c);
  }
}
