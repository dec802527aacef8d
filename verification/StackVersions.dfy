/** Stack version ordering and upgrade targets (internal/api/project_lifecycle_handlers.go). */
module StackVersions {
  import opened Text

  const MAX_INT := 0x7FFF_FFFF_FFFF_FFFF

  predicate Separator(c: char) { c == '.' || c == '-' || c == '_' }

  predicate Digit(c: char) { '0' <= c <= '9' }

  function FieldLength(s: string): (n: nat)
    ensures n <= |s|
  {
    if s == "" || Separator(s[0]) then 0 else 1 + FieldLength(s[1..])
  }

  /** strings.FieldsFunc: the maximal runs of characters that are not separators. */
  function Fields(s: string): seq<string>
    decreases |s|
  {
    if s == "" then []
    else if Separator(s[0]) then Fields(s[1..])
    else [s[..FieldLength(s)]] + Fields(s[FieldLength(s)..])
  }

  /** The digits at the start of a field. */
  function LeadingDigits(s: string): (d: string)
    ensures d <= s && (forall c :: c in d ==> Digit(c)) && (|d| < |s| ==> !Digit(s[|d|]))
  {
    if s != "" && Digit(s[0]) then [s[0]] + LeadingDigits(s[1..]) else ""
  }

  function Decimal(digits: string): nat
    requires forall c :: c in digits ==> Digit(c)
  {
    if digits == "" then 0
    else
      assert digits[|digits| - 1] in digits && Digit(digits[|digits| - 1]);
      10 * Decimal(digits[..|digits| - 1]) + (digits[|digits| - 1] as int - '0' as int)
  }

  /** strconv.Atoi with its error ignored: too large a number becomes the largest int. */
  function Atoi(digits: string): nat
    requires forall c :: c in digits ==> Digit(c)
  {
    if Decimal(digits) > MAX_INT then MAX_INT else Decimal(digits)
  }

  function FieldValues(fields: seq<string>): (vs: seq<nat>)
    ensures |vs| == |fields|
  {
    seq(|fields|, i requires 0 <= i < |fields| => Atoi(LeadingDigits(fields[i])))
  }

  function Parts(version: string): seq<nat> { FieldValues(Fields(TrimSpace(version))) }

  method StackVersionParts(version: string) returns (parts: seq<nat>)
    ensures parts == Parts(version)
  {
    var fields := Fields(TrimSpace(version));
    parts := [];
    for i := 0 to |fields|
      invariant parts == FieldValues(fields[..i])
    {
      var digits := "";
      var k := 0;
      while k < |fields[i]|
        invariant 0 <= k <= |fields[i]|
        invariant digits == fields[i][..k] && forall c :: c in digits ==> Digit(c)
      {
        if !Digit(fields[i][k]) { break; }
        digits := digits + [fields[i][k]];
        k := k + 1;
      }
      LongestDigits(fields[i], digits);
      parts := parts + [Atoi(digits)];
      assert fields[..i + 1] == fields[..i] + [fields[i]];
    }
    assert fields[..|fields|] == fields;
  }

  lemma LongestDigits(s: string, d: string)
    requires d <= s && (forall c :: c in d ==> Digit(c)) && (|d| < |s| ==> !Digit(s[|d|]))
    ensures d == LeadingDigits(s)
  {
    var e := LeadingDigits(s);
    forall k | 0 <= k < |e| ensures Digit(s[k]) { assert s[k] == e[k] && e[k] in e; }
    forall k | 0 <= k < |d| ensures Digit(s[k]) { assert s[k] == d[k] && d[k] in d; }
  }

  // Comparing

  /** A missing part counts as zero. */
  function PartAt(parts: seq<nat>, i: nat): nat { if i < |parts| then parts[i] else 0 }

  function Sign(a: int, b: int): int { if a > b then 1 else if a < b then -1 else 0 }

  function ComparePartsFrom(l: seq<nat>, r: seq<nat>, i: nat): (c: int)
    ensures -1 <= c <= 1
    decreases |l| + |r| - i
  {
    if i >= |l| && i >= |r| then 0
    else if PartAt(l, i) != PartAt(r, i) then Sign(PartAt(l, i), PartAt(r, i))
    else ComparePartsFrom(l, r, i + 1)
  }

  /** strings.Compare. */
  function CompareText(a: string, b: string): (c: int)
    ensures -1 <= c <= 1
  {
    if a == "" && b == "" then 0
    else if a == "" then -1
    else if b == "" then 1
    else if a[0] != b[0] then Sign(a[0] as int, b[0] as int)
    else CompareText(a[1..], b[1..])
  }

  function Compare(left: string, right: string): (c: int)
    ensures -1 <= c <= 1
  {
    var c := ComparePartsFrom(Parts(left), Parts(right), 0);
    if c != 0 then c else CompareText(TrimSpace(left), TrimSpace(right))
  }

  method CompareStackVersions(left: string, right: string) returns (c: int)
    ensures c == Compare(left, right)
  {
    var leftParts := StackVersionParts(left);
    var rightParts := StackVersionParts(right);
    var count := |leftParts|;
    if |rightParts| > count { count := |rightParts|; }
    for index := 0 to count
      invariant ComparePartsFrom(leftParts, rightParts, 0) == ComparePartsFrom(leftParts, rightParts, index)
    {
      var leftPart, rightPart := 0, 0;
      if index < |leftParts| { leftPart := leftParts[index]; }
      if index < |rightParts| { rightPart := rightParts[index]; }
      if leftPart > rightPart { return 1; }
      if leftPart < rightPart { return -1; }
    }
    return CompareText(TrimSpace(left), TrimSpace(right));
  }

  lemma {:induction false} PartsAntisymmetric(l: seq<nat>, r: seq<nat>, i: nat)
    ensures ComparePartsFrom(l, r, i) == -ComparePartsFrom(r, l, i)
    decreases |l| + |r| - i
  {
    if i < |l| || i < |r| { PartsAntisymmetric(l, r, i + 1); }
  }

  lemma {:induction false} PartsTransitive(a: seq<nat>, b: seq<nat>, c: seq<nat>, i: nat)
    requires ComparePartsFrom(a, b, i) <= 0 && ComparePartsFrom(b, c, i) <= 0
    ensures ComparePartsFrom(a, c, i) <= 0
    ensures ComparePartsFrom(a, c, i) == 0 <==> ComparePartsFrom(a, b, i) == 0 && ComparePartsFrom(b, c, i) == 0
    decreases |a| + |b| + |c| - i
  {
    if i < |a| || i < |b| || i < |c| {
      StepFrom(a, b, i);
      StepFrom(b, c, i);
      StepFrom(a, c, i);
      if PartAt(a, i) == PartAt(b, i) == PartAt(c, i) { PartsTransitive(a, b, c, i + 1); }
    }
  }

  /** Beyond the end of both, comparing goes on finding zeros. */
  lemma StepFrom(l: seq<nat>, r: seq<nat>, i: nat)
    ensures ComparePartsFrom(l, r, i)
            == if PartAt(l, i) != PartAt(r, i) then Sign(PartAt(l, i), PartAt(r, i)) else ComparePartsFrom(l, r, i + 1)
  {}

  lemma {:induction false} PartsReflexive(a: seq<nat>, i: nat)
    ensures ComparePartsFrom(a, a, i) == 0
    decreases |a| - i
  {
    if i < |a| { PartsReflexive(a, i + 1); }
  }

  lemma {:induction false} TextAntisymmetric(a: string, b: string)
    ensures CompareText(a, b) == -CompareText(b, a)
  {
    if a != "" && b != "" && a[0] == b[0] { TextAntisymmetric(a[1..], b[1..]); }
  }

  lemma {:induction false} TextZero(a: string, b: string)
    ensures CompareText(a, b) == 0 <==> a == b
  {
    if a != "" && b != "" && a[0] == b[0] {
      TextZero(a[1..], b[1..]);
      assert a == [a[0]] + a[1..] && b == [b[0]] + b[1..];
    }
  }

  lemma {:induction false} TextTransitive(a: string, b: string, c: string)
    requires CompareText(a, b) < 0 && CompareText(b, c) < 0
    ensures CompareText(a, c) < 0
  {
    if a != "" && b != "" && c != "" && a[0] == b[0] == c[0] { TextTransitive(a[1..], b[1..], c[1..]); }
  }

  /** Swapping the arguments flips the result. */
  lemma CompareAntisymmetric(left: string, right: string)
    ensures Compare(left, right) == -Compare(right, left)
  {
    PartsAntisymmetric(Parts(left), Parts(right), 0);
    TextAntisymmetric(TrimSpace(left), TrimSpace(right));
  }

  /** Only equal texts compare equal, zero padding notwithstanding. */
  lemma CompareZero(left: string, right: string)
    ensures Compare(left, right) == 0 <==> TrimSpace(left) == TrimSpace(right)
  {
    TextZero(TrimSpace(left), TrimSpace(right));
    if TrimSpace(left) == TrimSpace(right) { PartsReflexive(Parts(left), 0); }
  }

  /** The order is transitive, across numeric decisions and text decisions alike. */
  lemma CompareTransitive(a: string, b: string, c: string)
    requires Compare(a, b) < 0 && Compare(b, c) < 0
    ensures Compare(a, c) < 0
  {
    PartsTransitive(Parts(a), Parts(b), Parts(c), 0);
    if ComparePartsFrom(Parts(a), Parts(c), 0) == 0 { TextTransitive(TrimSpace(a), TrimSpace(b), TrimSpace(c)); }
  }

  // Upgrade targets

  datatype Validation = Accepted | VersionRequired | AlreadyInstalled | NotNewer | Unsupported

  method ValidateUpgradeTarget(current: string, target: string, supported: seq<string>) returns (v: Validation)
    ensures v.Accepted? <==> Upgradable(current, target, supported)
    ensures v.VersionRequired? <==> target == ""
    ensures v.AlreadyInstalled? <==> target != "" && TrimSpace(current) == target
    ensures v.Unsupported? <==> target != "" && TrimSpace(current) != target && target !in supported
  {
    if target == "" { return VersionRequired; }
    if TrimSpace(current) == target { return AlreadyInstalled; }
    for i := 0 to |supported|
      invariant target !in supported[..i]
    {
      if target == supported[i] {
        var c := CompareStackVersions(target, current);
        if c <= 0 { return NotNewer; }
        return Accepted;
      }
      assert supported[..i + 1] == supported[..i] + [supported[i]];
    }
    assert supported[..|supported|] == supported;
    return Unsupported;
  }

  predicate Upgradable(current: string, target: string, supported: seq<string>) {
    target != "" && TrimSpace(current) != target && target in supported && Compare(target, current) > 0
  }

  /** Versions installed one after another by accepted upgrades. */
  ghost predicate UpgradeChain(chain: seq<string>, supported: seq<string>) {
    forall i :: 0 <= i < |chain| - 1 ==> Upgradable(chain[i], chain[i + 1], supported)
  }

  lemma {:induction false} ChainIncreases(chain: seq<string>, supported: seq<string>, i: nat, j: nat)
    requires UpgradeChain(chain, supported) && i < j < |chain|
    ensures Compare(chain[j], chain[i]) > 0
  {
    assert Upgradable(chain[j - 1], chain[j - 1 + 1], supported);
    if i < j - 1 {
      ChainIncreases(chain, supported, i, j - 1);
      CompareAntisymmetric(chain[j], chain[j - 1]);
      CompareAntisymmetric(chain[j - 1], chain[i]);
      CompareTransitive(chain[i], chain[j - 1], chain[j]);
      CompareAntisymmetric(chain[i], chain[j]);
    }
  }

  lemma {:induction false} DistinctFit(xs: seq<string>, s: set<string>)
    requires forall x :: x in xs ==> x in s
    requires forall i, j :: 0 <= i < j < |xs| ==> xs[i] != xs[j]
    ensures |xs| <= |s|
  {
    if xs != [] {
      var last := xs[|xs| - 1];
      assert last in xs;
      DistinctFit(xs[..|xs| - 1], s - {last});
    }
  }

  /** No project can be upgraded more often than there are supported versions. */
  lemma ChainBounded(chain: seq<string>, supported: seq<string>)
    requires UpgradeChain(chain, supported) && chain != []
    ensures |chain| - 1 <= |set v | v in supported|
  {
    var targets := chain[1..];
    forall i, j | 0 <= i < j < |targets| ensures targets[i] != targets[j] {
      ChainIncreases(chain, supported, i + 1, j + 1);
      CompareZero(targets[j], targets[i]);
    }
    forall v | v in targets ensures v in supported {
      var i :| 0 <= i < |targets| && targets[i] == v;
      assert Upgradable(chain[i], chain[i + 1], supported);
    }
    DistinctFit(targets, set v | v in supported);
  }
}
