/** Which of two stack versions is the newer one (internal/api/project_lifecycle_handlers.go), said
    of their numbers and texts. */
module VersionMeaning {
  import opened StackVersions
  import opened Text

  // The decision

  /** A missing part reads as zero. */
  function Number(parts: seq<nat>, i: nat): nat { if i < |parts| then parts[i] else 0 }

  ghost predicate SameUpTo(l: seq<nat>, r: seq<nat>, from: nat, i: nat) {
    forall j :: from <= j < i ==> Number(l, j) == Number(r, j)
  }

  /** The left has the larger part where the parts first differ. */
  ghost predicate LargerFrom(l: seq<nat>, r: seq<nat>, from: nat) {
    exists i :: from <= i && Number(l, i) > Number(r, i) && SameUpTo(l, r, from, i)
  }

  ghost predicate SameFrom(l: seq<nat>, r: seq<nat>, from: nat) {
    forall i :: from <= i ==> Number(l, i) == Number(r, i)
  }

  lemma {:induction false} PartsMeaning(l: seq<nat>, r: seq<nat>, i: nat)
    ensures ComparePartsFrom(l, r, i) > 0 <==> LargerFrom(l, r, i)
    ensures ComparePartsFrom(l, r, i) == 0 <==> SameFrom(l, r, i)
    decreases |l| + |r| - i
  {
    if i >= |l| && i >= |r| {
      return;
    }
    if Number(l, i) != Number(r, i) {
      DiffersHere(l, r, i);
    } else {
      PartsMeaning(l, r, i + 1);
      SameHere(l, r, i);
    }
  }

  lemma DiffersHere(l: seq<nat>, r: seq<nat>, i: nat)
    requires Number(l, i) != Number(r, i)
    ensures LargerFrom(l, r, i) <==> Number(l, i) > Number(r, i)
    ensures !SameFrom(l, r, i)
  {
    if Number(l, i) > Number(r, i) { assert SameUpTo(l, r, i, i); }
    hide Number;
    if LargerFrom(l, r, i) {
      var k :| i <= k && Number(l, k) > Number(r, k) && SameUpTo(l, r, i, k);
    }
  }

  lemma SameHere(l: seq<nat>, r: seq<nat>, i: nat)
    requires Number(l, i) == Number(r, i)
    ensures LargerFrom(l, r, i) <==> LargerFrom(l, r, i + 1)
    ensures SameFrom(l, r, i) <==> SameFrom(l, r, i + 1)
  {
    hide Number;
    if LargerFrom(l, r, i) {
      var k :| i <= k && Number(l, k) > Number(r, k) && SameUpTo(l, r, i, k);
      assert SameUpTo(l, r, i + 1, k);
    }
    if LargerFrom(l, r, i + 1) {
      var k :| i + 1 <= k && Number(l, k) > Number(r, k) && SameUpTo(l, r, i + 1, k);
      assert SameUpTo(l, r, i, k);
    }
  }

  /** The left has the larger character where the texts first differ, or extends the right. */
  ghost predicate TextAfter(a: string, b: string) {
    exists i :: 0 <= i <= |b| && i < |a| && a[..i] == b[..i] && (i < |b| ==> a[i] > b[i])
  }

  lemma {:induction false} TextMeaning(a: string, b: string)
    ensures CompareText(a, b) > 0 <==> TextAfter(a, b)
  {
    if a == "" { return; }
    if b == "" {
      assert a[..0] == b[..0];
      return;
    }
    if a[0] != b[0] {
      if a[0] > b[0] { assert a[..0] == b[..0]; }
      if i :| 0 < i <= |b| && i < |a| && a[..i] == b[..i] { assert a[..i][0] == b[..i][0]; }
    } else {
      TextMeaning(a[1..], b[1..]);
      SameHead(a, b);
    }
  }

  lemma SameHead(a: string, b: string)
    requires a != "" && b != "" && a[0] == b[0]
    ensures TextAfter(a, b) <==> TextAfter(a[1..], b[1..])
  {
    if TextAfter(a, b) {
      var i :| 0 <= i <= |b| && i < |a| && a[..i] == b[..i] && (i < |b| ==> a[i] > b[i]);
      assert i > 0;
      assert a[1..][..i - 1] == a[..i][1..] == b[..i][1..] == b[1..][..i - 1];
      assert i - 1 < |b[1..]| ==> a[1..][i - 1] > b[1..][i - 1];
    }
    if TextAfter(a[1..], b[1..]) {
      var i :| 0 <= i <= |b[1..]| && i < |a[1..]| && a[1..][..i] == b[1..][..i] && (i < |b[1..]| ==> a[1..][i] > b[1..][i]);
      assert a[..i + 1] == [a[0]] + a[1..][..i] && b[..i + 1] == [b[0]] + b[1..][..i];
      assert i + 1 < |b| ==> a[i + 1] > b[i + 1];
    }
  }

  /** The left version is the newer one exactly if it has the larger number where the numbers first
      differ or, when they never do, the later text. */
  lemma NewerIff(left: string, right: string)
    ensures Compare(left, right) > 0
            <==> LargerFrom(Parts(left), Parts(right), 0)
                 || (SameFrom(Parts(left), Parts(right), 0) && TextAfter(TrimSpace(left), TrimSpace(right)))
  {
    PartsMeaning(Parts(left), Parts(right), 0);
    TextMeaning(TrimSpace(left), TrimSpace(right));
    hide Parts, ComparePartsFrom, CompareText, LargerFrom, SameFrom, TextAfter;
  }

  // The numbers in a text

  function Spell(n: nat): string {
    (if n < 10 then "" else Spell(n / 10)) + ["0123456789"[n % 10]]
  }

  lemma {:induction false} SpellDigits(n: nat)
    ensures Spell(n) != "" && (forall c :: c in Spell(n) ==> Digit(c)) && Decimal(Spell(n)) == n
  {
    var digits := "0123456789";
    assert forall i :: 0 <= i < 10 ==> digits[i] as int == '0' as int + i;
    var init, last := if n < 10 then "" else Spell(n / 10), "0123456789"[n % 10];
    if n >= 10 { SpellDigits(n / 10); }
    assert Spell(n) == init + [last];
    assert (init + [last])[..|init|] == init;
  }

  /** A field that starts with the decimals of n, and goes on with anything but a digit. */
  predicate Spells(field: string, n: nat) {
    && Spell(n) <= field && (forall c :: c in field ==> !Separator(c))
    && (|field| > |Spell(n)| ==> !Digit(field[|Spell(n)|]))
  }

  function Capped(n: nat): nat { if n > MAX_INT then MAX_INT else n }

  lemma FieldValue(field: string, n: nat)
    requires Spells(field, n)
    ensures Atoi(LeadingDigits(field)) == Capped(n) && field != ""
  {
    SpellDigits(n);
    LongestDigits(field, Spell(n));
  }

  lemma {:induction false} FieldLengthOf(field: string, rest: string)
    requires (forall c :: c in field ==> !Separator(c)) && (rest != "" ==> Separator(rest[0]))
    ensures FieldLength(field + rest) == |field|
  {
    if field == "" {
      assert field + rest == rest;
    } else {
      assert field[0] in field && (field + rest)[1..] == field[1..] + rest;
      FieldLengthOf(field[1..], rest);
    }
  }

  lemma FieldsMore(field: string, rest: string)
    requires field != "" && (forall c :: c in field ==> !Separator(c)) && (rest != "" ==> Separator(rest[0]))
    ensures Fields(field + rest) == [field] + if rest == "" then [] else Fields(rest[1..])
  {
    FieldLengthOf(field, rest);
    var s := field + rest;
    assert s[0] == field[0] && field[0] in field && s[..|field|] == field && s[|field|..] == rest;
  }

  lemma {:induction false} FieldsOfJoin(fields: seq<string>, sep: char)
    requires Separator(sep) && fields != []
    requires forall f :: f in fields ==> f != "" && forall c :: c in f ==> !Separator(c)
    ensures Fields(Join(fields, [sep])) == fields
  {
    var first, rest := fields[0], fields[1..];
    assert first in fields && forall f :: f in rest ==> f in fields;
    if rest == [] {
      FieldsMore(first, "");
      assert first + "" == first;
    } else {
      FieldsOfJoin(rest, sep);
      var text := [sep] + Join(rest, [sep]);
      assert Join(fields, [sep]) == first + text && text[1..] == Join(rest, [sep]);
      FieldsMore(first, text);
    }
  }

  /** The parts of a version are the numbers that its fields spell. */
  lemma PartsOfSpelled(fields: seq<string>, numbers: seq<nat>, sep: char)
    requires Separator(sep) && fields != [] && |numbers| == |fields| && Trimmed(Join(fields, [sep]))
    requires forall i :: 0 <= i < |fields| ==> Spells(fields[i], numbers[i])
    ensures Parts(Join(fields, [sep])) == seq(|numbers|, i requires 0 <= i < |numbers| => Capped(numbers[i]))
  {
    TrimSpaceOfTrimmed(Join(fields, [sep]));
    forall i | 0 <= i < |fields| ensures Atoi(LeadingDigits(fields[i])) == Capped(numbers[i]) && fields[i] != "" {
      FieldValue(fields[i], numbers[i]);
    }
    FieldsOfJoin(fields, sep);
  }

  // Versions of two numbers

  function Version(major: nat, minor: nat): string { Spell(major) + "." + Spell(minor) }

  lemma DigitsAround(a: string, b: string)
    requires a != "" && b != "" && (forall c :: c in a ==> Digit(c)) && (forall c :: c in b ==> Digit(c))
    ensures Trimmed(a + "." + b) && Join([a, b], ".") == a + "." + b
  {
    var s := a + "." + b;
    assert s[0] == a[0] && a[0] in a && s[|s| - 1] == b[|b| - 1] && b[|b| - 1] in b;
    assert [a, b][1..] == [b];
  }

  lemma SpellsItself(n: nat)
    ensures Spells(Spell(n), n)
  {
    SpellDigits(n);
    hide Spell;
  }

  lemma VersionParts(major: nat, minor: nat)
    requires major <= MAX_INT && minor <= MAX_INT
    ensures Parts(Version(major, minor)) == [major, minor] && TrimSpace(Version(major, minor)) == Version(major, minor)
  {
    hide Parts, Spell, Spells, Join, TrimSpace, Trimmed;
    var fields, numbers := [Spell(major), Spell(minor)], [major, minor];
    SpellDigits(major);
    SpellDigits(minor);
    SpellsItself(major);
    SpellsItself(minor);
    DigitsAround(Spell(major), Spell(minor));
    TrimSpaceOfTrimmed(Version(major, minor));
    assert fields[0] == Spell(major) && fields[1] == Spell(minor) && numbers[0] == major && numbers[1] == minor;
    PartsOfSpelled(fields, numbers, '.');
    assert seq(|numbers|, i requires 0 <= i < |numbers| => Capped(numbers[i])) == [major, minor];
  }

  /** The larger major number is the newer version, and for the same one the larger minor. */
  lemma TwoNumbersIff(a: nat, b: nat, c: nat, d: nat)
    requires a <= MAX_INT && b <= MAX_INT && c <= MAX_INT && d <= MAX_INT
    ensures Compare(Version(a, b), Version(c, d)) > 0 <==> a > c || (a == c && b > d)
  {
    VersionParts(a, b);
    VersionParts(c, d);
    NewerIff(Version(a, b), Version(c, d));
    hide Parts, Compare, Version, TrimSpace;
    NumbersIff(a, b, c, d);
    if a == c && b == d { NotAfterItself(Version(a, b)); }
  }

  lemma NumbersIff(a: nat, b: nat, c: nat, d: nat)
    ensures LargerFrom([a, b], [c, d], 0) <==> a > c || (a == c && b > d)
    ensures SameFrom([a, b], [c, d], 0) <==> a == c && b == d
  {
    PartsMeaning([a, b], [c, d], 0);
    if a != c { DiffersHere([a, b], [c, d], 0); }
    else {
      SameHere([a, b], [c, d], 0);
      if b != d { DiffersHere([a, b], [c, d], 1); }
      else { assert forall i :: 0 <= i ==> Number([a, b], i) == Number([c, d], i); }
    }
  }

  lemma NotAfterItself(s: string)
    ensures !TextAfter(s, s)
  {}

  /** So an upgrade between such versions is accepted exactly if the target is supported and its
      numbers are the larger ones. */
  lemma UpgradableIff(a: nat, b: nat, c: nat, d: nat, supported: seq<string>)
    requires a <= MAX_INT && b <= MAX_INT && c <= MAX_INT && d <= MAX_INT
    ensures Upgradable(Version(a, b), Version(c, d), supported)
            <==> Version(c, d) in supported && (c > a || (c == a && d > b))
  {
    TwoNumbersIff(c, d, a, b);
    VersionParts(a, b);
    VersionParts(c, d);
    CompareZero(Version(c, d), Version(a, b));
    hide Compare, Parts, Spell, TrimSpace;
  }
}
