/** Which paths and volumes a project may use: the Docker proxy's bind and volume rules
    (cmd/supadupa-docker-proxy/main.go) and function entrypoints
    (internal/control/functions.go). */
module ProjectScope {
  import opened Text
  import opened LexicalPath

  // Project references and volume names

  predicate LowerAlnum(c: char) { 'a' <= c <= 'z' || '0' <= c <= '9' }

  /** ^[a-z0-9](?:[a-z0-9-]{1,53}[a-z0-9])$ */
  predicate ComposeProjectRef(s: string) {
    && 3 <= |s| <= 55
    && LowerAlnum(s[0]) && LowerAlnum(s[|s| - 1])
    && forall i :: 0 <= i < |s| ==> LowerAlnum(s[i]) || s[i] == '-'
  }

  predicate Alnum(c: char) { LowerAlnum(c) || 'A' <= c <= 'Z' }

  /** ^[A-Za-z0-9][A-Za-z0-9_.-]{0,127}$ */
  predicate VolumeName(s: string) {
    && 1 <= |s| <= 128
    && Alnum(s[0])
    && forall i :: 0 <= i < |s| ==> Alnum(s[i]) || s[i] == '_' || s[i] == '.' || s[i] == '-'
  }

  // The proxy's rules; `hostRoot` is the value of SUPADUPA_PROJECT_HOST_ROOT

  predicate AllowedProjectBindMountPath(hostRoot: string, projectRef: string, path: string) {
    var ref, root := TrimSpace(projectRef), TrimSpace(hostRoot);
    if !ComposeProjectRef(ref) || ref == "supadupa" then false
    else if root == "" then false
    else
      var source := Clean(TrimSpace(path));
      var projectRoot := JoinPath(Clean(root), ref);
      source == projectRoot || projectRoot + "/" <= source
  }

  predicate ProjectVolumeSourceAllowed(projectRef: string, volume: string) {
    var ref, source := TrimSpace(projectRef), TrimSpace(volume);
    source == "" || (ComposeProjectRef(ref) && ref != "supadupa" && VolumeName(source) && ref + "_" <= source)
  }

  predicate ProjectRelativeBindSourceAllowed(path: string) {
    var source := TrimSpace(path);
    if source != "." && !("./" <= source) && !(".\\" <= source) then false
    else
      var cleaned := Clean(source);
      cleaned == "." || (cleaned != ".." && !("../" <= cleaned))
  }

  predicate ProjectBindSourceAllowed(hostRoot: string, projectRef: string, path: string) {
    var source := TrimSpace(path);
    if source == "" then false
    else if !("/" <= source) then ProjectRelativeBindSourceAllowed(source) || ProjectVolumeSourceAllowed(projectRef, source)
    else AllowedProjectBindMountPath(hostRoot, projectRef, source)
  }

  predicate ProjectRelativeOrAbsoluteBindSourceAllowed(hostRoot: string, projectRef: string, path: string) {
    var source := TrimSpace(path);
    if source == "" then false
    else if "/" <= source then AllowedProjectBindMountPath(hostRoot, projectRef, source)
    else ProjectRelativeBindSourceAllowed(source)
  }

  // Containment, on components

  predicate ValidRef(ref: string) { ComposeProjectRef(ref) && ref != "supadupa" }

  lemma RefIsOneComponent(ref: string)
    requires ComposeProjectRef(ref)
    ensures '/' !in ref && '_' !in ref && ref != "." && ref != ".." && ref != ""
    ensures Split(ref, '/') == [ref]
  {
    SplitWhole(ref, '/');
  }

  /** The components of a directory with one component more. */
  lemma ProjectRootStack(root: string, ref: string)
    requires ComposeProjectRef(ref)
    ensures Clean(root) != "" && ref != ""
    ensures var path := Clean(root) + "/" + ref;
            Rooted(path) == Rooted(root) && Stack(path) == Stack(root) + [ref]
  {
    RefIsOneComponent(ref);
    CleanStack(root);
    UnderPath(Clean(root), ref, [ref]);
  }

  /** Appending normal components to a path appends them to its stack. */
  lemma UnderPath(dir: string, more: string, cs: seq<string>)
    requires dir != "" && Split(more, '/') == cs
    requires forall c :: c in cs ==> c != "" && c != "." && c != ".."
    ensures Rooted(dir + "/" + more) == Rooted(dir) && Stack(dir + "/" + more) == Stack(dir) + cs
  {
    SplitConcat(dir, '/', more);
    assert dir + ['/'] + more == dir + "/" + more;
    PushAllConcat(Rooted(dir), [], Split(dir, '/'), cs);
    PushAllPlain(Rooted(dir), Stack(dir), cs);
  }

  /** A bind path is accepted exactly if its components are those of the host root, the
      project's ref, and anything below it. */
  lemma BindPathIff(hostRoot: string, projectRef: string, path: string)
    ensures var ref, root, p := TrimSpace(projectRef), TrimSpace(hostRoot), TrimSpace(path);
            AllowedProjectBindMountPath(hostRoot, projectRef, path)
            <==> ValidRef(ref) && root != "" && Rooted(p) == Rooted(root) && Stack(root) + [ref] <= Stack(p)
  {
    var ref, root, p := TrimSpace(projectRef), TrimSpace(hostRoot), TrimSpace(path);
    if ValidRef(ref) && root != "" {
      ProjectRootStack(root, ref);
      UnderIff(p, Clean(root) + "/" + ref);
    }
  }

  /** An accepted absolute source has no ".." component left. */
  lemma AbsoluteBindHasNoParent(hostRoot: string, projectRef: string, path: string)
    requires "/" <= TrimSpace(path) && AllowedProjectBindMountPath(hostRoot, projectRef, path)
    ensures ".." !in Stack(TrimSpace(path))
  {
    StackNormal(TrimSpace(path));
  }

  /** A ".." component in a relative path is its first. */
  lemma ParentFirst(p: string)
    requires !Rooted(p)
    ensures ".." in Stack(p) <==> Stack(p) != [] && Stack(p)[0] == ".."
  {
    StackNormal(p);
    if i :| 0 <= i < |Stack(p)| && Stack(p)[i] == ".." { if i > 0 { assert Stack(p)[0] == ".."; } }
  }

  lemma ParentPath()
    ensures !Rooted("..") && Stack("..") == [".."] && Clean("..") == ".." && ".." + "/" == "../"
  {
    SplitWhole("..", '/');
    assert PushAll(false, [], [".."]) == Push(false, PushAll(false, [], [".."][..0]), "..");
  }

  lemma DotOnlyWhenEmpty(p: string)
    requires !Rooted(p)
    ensures Clean(p) == "." <==> Stack(p) == []
    ensures !("/" <= Clean(p))
  {
    CleanShape(p);
    StackNormal(p);
    if Stack(p) != [] {
      assert Stack(p)[0] in Stack(p);
      assert Stack(p) != ["."];
      SplitWhole(".", '/');
    }
  }

  /** How a cleaned relative path starts, as a string. */
  lemma RelativePrefixes(p: string)
    requires !Rooted(p)
    ensures Clean(p) == "." <==> Stack(p) == []
    ensures Clean(p) == ".." || "../" <= Clean(p) <==> Stack(p) != [] && Stack(p)[0] == ".."
    ensures !("/" <= Clean(p))
  {
    DotOnlyWhenEmpty(p);
    ParentPath();
    UnderIff(p, "..");
    hide Clean, Stack, Rooted;
    assert [".."] <= Stack(p) <==> Stack(p) != [] && Stack(p)[0] == "..";
  }

  /** A relative source is accepted exactly if it starts at the declared base and never leaves it. */
  lemma RelativeBindIff(path: string)
    ensures var p := TrimSpace(path);
            ProjectRelativeBindSourceAllowed(path) <==> (p == "." || "./" <= p || ".\\" <= p) && ".." !in Stack(p)
  {
    var p := TrimSpace(path);
    if p == "." || "./" <= p || ".\\" <= p {
      RelativePrefixes(p);
      ParentFirst(p);
    }
  }

  // Disjointness

  /** No absolute path is accepted for two projects. */
  lemma BindPathsDisjoint(hostRoot: string, a: string, b: string, path: string)
    requires AllowedProjectBindMountPath(hostRoot, a, path) && AllowedProjectBindMountPath(hostRoot, b, path)
    ensures TrimSpace(a) == TrimSpace(b)
  {
    BindPathIff(hostRoot, a, path);
    BindPathIff(hostRoot, b, path);
    var n := |Stack(TrimSpace(hostRoot))|;
    assert Stack(TrimSpace(path))[n] == (Stack(TrimSpace(hostRoot)) + [TrimSpace(a)])[n];
    assert Stack(TrimSpace(path))[n] == (Stack(TrimSpace(hostRoot)) + [TrimSpace(b)])[n];
  }

  /** No named volume is accepted for two projects. */
  lemma VolumesDisjoint(a: string, b: string, volume: string)
    requires TrimSpace(volume) != "" && ProjectVolumeSourceAllowed(a, volume) && ProjectVolumeSourceAllowed(b, volume)
    ensures TrimSpace(a) == TrimSpace(b)
  {
    var r, s, v := TrimSpace(a), TrimSpace(b), TrimSpace(volume);
    assert v[|r|] == (r + "_")[|r|] == '_' && v[|s|] == (s + "_")[|s|] == '_';
    forall k | 0 <= k < |s| ensures v[k] != '_' { assert s[k] == (s + "_")[k] == v[k]; }
    forall k | 0 <= k < |r| ensures v[k] != '_' { assert r[k] == (r + "_")[k] == v[k]; }
    assert r == (r + "_")[..|r|] == v[..|r|] && s == (s + "_")[..|s|] == v[..|s|];
  }

  /** The only bind sources that two different projects may both use are the relative ones. */
  lemma SharedBindsAreRelative(hostRoot: string, a: string, b: string, path: string)
    requires TrimSpace(a) != TrimSpace(b)
    requires ProjectBindSourceAllowed(hostRoot, a, path)
    ensures ProjectBindSourceAllowed(hostRoot, b, path) <==> ProjectRelativeBindSourceAllowed(TrimSpace(path))
  {
    var source := TrimSpace(path);
    TrimSpaceTrimmed(path);
    TrimSpaceOfTrimmed(source);
    if "/" <= source {
      if ProjectBindSourceAllowed(hostRoot, b, path) { BindPathsDisjoint(hostRoot, a, b, source); }
    } else if !ProjectRelativeBindSourceAllowed(source) {
      if ProjectBindSourceAllowed(hostRoot, b, path) { VolumesDisjoint(a, b, source); }
    }
  }

  // Function entrypoints

  datatype Result = Ok(path: string) | Refused

  function Slashes(s: string): string {
    seq(|s|, i requires 0 <= i < |s| => if s[i] == '\\' then '/' else s[i])
  }

  predicate HasTextAt(s: string, t: string, i: nat) {
    i + |t| <= |s| && s[i..i + |t|] == t
  }

  /** strings.Contains. */
  predicate HasText(s: string, t: string) {
    exists i :: 0 <= i <= |s| && HasTextAt(s, t, i)
  }

  function EntrypointOrDefault(entrypoint: string): string {
    var e := TrimSpace(Slashes(entrypoint)); if e == "" then "index.ts" else e
  }

  function NormalizeFunctionEntrypoint(entrypoint: string): Result {
    var cleaned := Clean(EntrypointOrDefault(entrypoint));
    if cleaned == "." || cleaned == ".." || "../" <= cleaned || "/" <= cleaned || HasText(cleaned, "/../") then Refused
    else Ok(cleaned)
  }

  lemma InnerComponent(s: string, i: nat) returns (k: nat)
    requires i + 4 <= |s| && s[i..i + 4] == "/../"
    ensures 1 <= k < |Split(s, '/')| && Split(s, '/')[k] == ".."
  {
    var a, b := s[..i], s[i + 4..];
    assert s == a + s[i..i + 4] + b;
    Surrounded(a, b);
    SplitConcat(a, '/', ".." + ['/'] + b);
    SplitConcat("..", '/', b);
    SplitWhole("..", '/');
    k := |Split(a, '/')|;
  }

  lemma Surrounded(a: string, b: string)
    ensures a + "/../" + b == a + ['/'] + (".." + ['/'] + b)
  {
    assert "/../" == ['/'] + ".." + ['/'];
  }

  /** "/../" inside a cleaned path would be a ".." component that is not the first. */
  lemma InnerParentImpliesFirst(p: string)
    requires !Rooted(p) && HasText(Clean(p), "/../")
    ensures Stack(p) != [] && Stack(p)[0] == ".."
  {
    CleanShape(p);
    StackNormal(p);
    var s := Clean(p);
    var i :| 0 <= i <= |s| && HasTextAt(s, "/../", i);
    var k := InnerComponent(s, i);
    assert Stack(p) == Split(s, '/') by { assert [] + Stack(p) == Stack(p); }
    assert Stack(p)[k] == "..";
  }

  /** An entrypoint is accepted exactly if it is relative, names something, and has no ".."
      component; the condition on "/../" never decides. */
  lemma EntrypointIff(entrypoint: string)
    ensures var p := EntrypointOrDefault(entrypoint);
            && (NormalizeFunctionEntrypoint(entrypoint).Ok? <==> !Rooted(p) && Stack(p) != [] && ".." !in Stack(p))
            && (HasText(Clean(p), "/../") ==> Clean(p) == ".." || "../" <= Clean(p) || "/" <= Clean(p))
  {
    var p := EntrypointOrDefault(entrypoint);
    CleanStack(p);
    if !Rooted(p) {
      RelativePrefixes(p);
      ParentFirst(p);
      if HasText(Clean(p), "/../") { InnerParentImpliesFirst(p); }
    }
  }

  /** The source file lies inside the function's directory: its components are those of the
      directory followed by at least one more, none of them "..". */
  lemma EntrypointInside(dir: string, entrypoint: string)
    requires dir != "" && NormalizeFunctionEntrypoint(entrypoint).Ok?
    ensures var path := NormalizeFunctionEntrypoint(entrypoint).path;
            && path != ""
            && Rooted(dir + "/" + path) == Rooted(dir)
            && Stack(dir + "/" + path) == Stack(dir) + Stack(path)
            && Stack(path) != [] && ".." !in Stack(path)
  {
    EntrypointIff(entrypoint);
    var p := EntrypointOrDefault(entrypoint);
    CleanStack(p);
    StackNormal(p);
    UnderPath(dir, Clean(p), Stack(p));
  }

  // Container configurations

  datatype Mount = Mount(kind: string, source: string)
  datatype HostConfig = HostConfig(
    privileged: bool, capAdd: nat, devices: nat, volumesFrom: nat,
    networkMode: string, pidMode: string, ipcMode: string,
    binds: seq<string>, mounts: seq<Mount>)

  /** strings.Cut at the first colon, and what is left of it. */
  function BeforeColon(s: string): (r: string)
    ensures r <= s && ':' !in r && (r == s || s[|r|] == ':')
  {
    if s == "" || s[0] == ':' then "" else [s[0]] + BeforeColon(s[1..])
  }

  function BindSource(bind: string): string { TrimSpace(BeforeColon(bind)) }

  predicate HostNamespace(mode: string) { EqualFold(TrimSpace(mode), "host") }

  predicate MountAllowed(hostRoot: string, projectRef: string, m: Mount) {
    var kind := ToLower(TrimSpace(m.kind));
    if kind == "bind" then ProjectRelativeOrAbsoluteBindSourceAllowed(hostRoot, projectRef, m.source)
    else if kind == "volume" then ProjectVolumeSourceAllowed(projectRef, m.source)
    else kind == "tmpfs"
  }

  method ValidateDockerHostConfig(hostRoot: string, projectRef: string, config: HostConfig, extraMounts: seq<Mount>) returns (ok: bool)
    ensures ok <==>
      && !config.privileged && config.capAdd == 0 && config.devices == 0 && config.volumesFrom == 0
      && !HostNamespace(config.networkMode) && !HostNamespace(config.pidMode) && !HostNamespace(config.ipcMode)
      && (forall b :: b in config.binds ==> ProjectBindSourceAllowed(hostRoot, projectRef, BindSource(b)))
      && (forall m :: m in config.mounts + extraMounts ==> MountAllowed(hostRoot, projectRef, m))
  {
    hide *;
    if config.privileged || config.capAdd > 0 || config.devices > 0 || config.volumesFrom > 0 { return false; }
    if HostNamespace(config.networkMode) || HostNamespace(config.pidMode) || HostNamespace(config.ipcMode) { return false; }
    for i := 0 to |config.binds|
      invariant forall j :: 0 <= j < i ==> ProjectBindSourceAllowed(hostRoot, projectRef, BindSource(config.binds[j]))
    {
      if !ProjectBindSourceAllowed(hostRoot, projectRef, BindSource(config.binds[i])) { return false; }
    }
    var mounts := config.mounts + extraMounts;
    for i := 0 to |mounts|
      invariant forall j :: 0 <= j < i ==> MountAllowed(hostRoot, projectRef, mounts[j])
    {
      if !MountAllowed(hostRoot, projectRef, mounts[i]) { return false; }
    }
    return true;
  }
}
