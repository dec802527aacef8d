/** The signatures of SSO assertions (internal/control/sso.go): how a text decodes to a
    signature, and what a signature says about the expiry. */
module AssertionSignature {
  import opened Text
  import opened Wrappers

  type Bytes = seq<int>

  // Go's base64 decoding, which skips line breaks and ignores left-over bits

  function Alphabet(c: char): (v: int)
    ensures -1 <= v < 64
  {
    if 'A' <= c <= 'Z' then c as int - 'A' as int
    else if 'a' <= c <= 'z' then c as int - 'a' as int + 26
    else if '0' <= c <= '9' then c as int - '0' as int + 52
    else if c == '+' then 62
    else if c == '/' then 63
    else -1
  }

  function WithoutBreaks(s: string): string {
    if s == "" then ""
    else if s[0] == '\r' || s[0] == '\n' then WithoutBreaks(s[1..])
    else [s[0]] + WithoutBreaks(s[1..])
  }

  predicate Digits(s: string) { forall c :: c in s ==> Alphabet(c) >= 0 }

  /** The bytes of two to four digits. */
  function Quantum(s: string): Bytes
    requires 2 <= |s| <= 4 && Digits(s)
  {
    var a, b := Alphabet(s[0]), Alphabet(s[1]);
    [a * 4 + b / 16]
    + (if |s| >= 3 then [b % 16 * 16 + Alphabet(s[2]) / 4] else [])
    + (if |s| == 4 then [Alphabet(s[2]) % 4 * 64 + Alphabet(s[3])] else [])
  }

  /** The digits of a last group that is not a full one. */
  function LastDigits(s: string, padded: bool): string {
    if !padded then s
    else if |s| == 4 && s[2] == '=' && s[3] == '=' then s[..2]
    else if |s| == 4 && s[3] == '=' then s[..3]
    else ""
  }

  /** base64.StdEncoding (`padded`) and base64.RawStdEncoding, on a text without line breaks. */
  function DecodeGroups(s: string, padded: bool): Option<Bytes> {
    if s == "" then Some([])
    else if |s| >= 4 && Digits(s[..4]) then
      var rest := DecodeGroups(s[4..], padded);
      if rest.None? then None else Some(Quantum(s[..4]) + rest.value)
    else
      var end := LastDigits(s, padded);
      if 2 <= |end| <= 3 && Digits(end) then Some(Quantum(end)) else None
  }

  /** decodeAssertionSignature. */
  function DecodeSignature(text: string): Option<Bytes> {
    var signature := TrimSpace(text);
    if signature == "" then None
    else
      var s := WithoutBreaks(signature);
      if DecodeGroups(s, true).Some? then DecodeGroups(s, true) else DecodeGroups(s, false)
  }

  // One signature, many texts

  lemma {:induction false} BreaksConcat(a: string, b: string)
    ensures WithoutBreaks(a + b) == WithoutBreaks(a) + WithoutBreaks(b)
  {
    if a == "" {
      assert a + b == b;
    } else {
      BreaksConcat(a[1..], b);
      assert (a + b)[1..] == a[1..] + b;
    }
  }

  lemma {:induction false} NoBreaks(s: string)
    requires '\r' !in s && '\n' !in s
    ensures WithoutBreaks(s) == s
  {
    if s != "" {
      assert s[0] in s && forall c :: c in s[1..] ==> c in s;
      NoBreaks(s[1..]);
    }
  }

  /** A line break anywhere inside a text gives another text of the same signature. */
  lemma LineBreakIgnored(a: string, b: string)
    requires a != "" && b != "" && !IsSpace(a[0]) && !IsSpace(b[|b| - 1])
    ensures DecodeSignature(a + "\n" + b) == DecodeSignature(a + b)
    ensures TrimSpace(a + "\n" + b) != TrimSpace(a + b)
  {
    TrimSpaceOfTrimmed(a + "\n" + b);
    TrimSpaceOfTrimmed(a + b);
    hide DecodeGroups;
    BreaksConcat(a, b);
    BreaksConcat(a + "\n", b);
    BreaksConcat(a, "\n");
    assert WithoutBreaks("\n") == "" && WithoutBreaks(a) + "" == WithoutBreaks(a);
    assert |a + "\n" + b| != |a + b|;
  }

  function Padding(t: string): string { if |t| % 4 == 2 then "==" else "=" }

  lemma LastGroup(t: string)
    requires Digits(t) && 2 <= |t| <= 3
    ensures DecodeGroups(t, true).None? && DecodeGroups(t, false).Some?
    ensures DecodeGroups(t + Padding(t), true) == DecodeGroups(t, false)
  {
    var s := t + Padding(t);
    hide DecodeGroups, Quantum, Alphabet;
    LastDigitsOf(t);
    NotFull(t, true);
    NotFull(t, false);
    NotFull(s, true);
  }

  lemma LastDigitsOf(t: string)
    requires Digits(t) && 2 <= |t| <= 3
    ensures var s := t + Padding(t);
            |s| == 4 && !Digits(s) && LastDigits(s, true) == t && LastDigits(t, true) == "" && LastDigits(t, false) == t
  {
    var s := t + Padding(t);
    assert s[3] == '=' && s[3] in s && Alphabet('=') == -1;
    assert s[..|t|] == t;
    if |t| == 3 { assert s[2] == t[2] && t[2] in t; }
  }

  lemma NotFull(s: string, padded: bool)
    requires s != "" && (|s| < 4 || (|s| == 4 && !Digits(s)))
    ensures DecodeGroups(s, padded)
            == var end := LastDigits(s, padded); if 2 <= |end| <= 3 && Digits(end) then Some(Quantum(end)) else None
  {
    if |s| == 4 { assert s[..4] == s; }
  }

  lemma FullGroup(s: string, padded: bool)
    requires |s| > 4 && Digits(s[..4])
    ensures DecodeGroups(s, padded)
            == var rest := DecodeGroups(s[4..], padded); if rest.None? then None else Some(Quantum(s[..4]) + rest.value)
  {}

  lemma {:induction false} GroupsOfUnpadded(t: string)
    requires Digits(t) && |t| % 4 >= 2
    ensures DecodeGroups(t, true).None? && DecodeGroups(t, false).Some?
    ensures DecodeGroups(t + Padding(t), true) == DecodeGroups(t, false)
  {
    hide DecodeGroups, Quantum, Padding;
    if |t| < 4 {
      LastGroup(t);
    } else {
      var s := t + Padding(t);
      assert s[..4] == t[..4] && s[4..] == t[4..] + Padding(t);
      SamePadding(t);
      FullGroup(t, true);
      FullGroup(t, false);
      FullGroup(s, true);
      GroupsOfUnpadded(t[4..]);
    }
  }

  lemma SamePadding(t: string)
    requires |t| >= 4
    ensures Padding(t[4..]) == Padding(t)
  {}

  lemma DigitsUnchanged(t: string)
    requires Digits(t) && t != ""
    ensures Trimmed(t) && Trimmed(t + Padding(t)) && '\r' !in t + Padding(t) && '\n' !in t + Padding(t)
    ensures '\r' !in t && '\n' !in t
  {
    assert t[0] in t && t[|t| - 1] in t;
    assert forall c :: c in t ==> c != '\r' && c != '\n';
  }

  /** A text that lacks its padding is a text of the same signature. */
  lemma PaddingIgnored(t: string)
    requires Digits(t) && |t| % 4 >= 2
    ensures var padded := t + Padding(t);
            DecodeSignature(padded) == DecodeSignature(t) && DecodeSignature(t).Some? && TrimSpace(padded) != TrimSpace(t)
  {
    var padded := t + Padding(t);
    hide DecodeGroups, Alphabet, Digits, WithoutBreaks, TrimSpace;
    GroupsOfUnpadded(t);
    DigitsUnchanged(t);
    TrimSpaceOfTrimmed(t);
    TrimSpaceOfTrimmed(padded);
    NoBreaks(t);
    NoBreaks(padded);
    assert |padded| != |t|;
  }

  // What is signed of the expiry

  const SECOND := 1_000_000_000

  /** Formatting with time.RFC3339 keeps the second in which the instant lies. */
  function Second(instant: int): int { instant / SECOND }

  /** The second that a signature was made for. */
  type Signed = Bytes -> int

  /** The signature covers the expiry presented with it, and the expiry is not the zero time. */
  predicate Covers(signed: Signed, text: string, expiresAt: int) {
    DecodeSignature(text).Some? && expiresAt != 0 && Second(expiresAt) == signed(DecodeSignature(text).value)
  }

  /** The expiries that one signature covers fill its second. */
  lemma CoveredWithinSecond(signed: Signed, text: string, other: string, a: int, b: int)
    requires Covers(signed, text, a) && DecodeSignature(other) == DecodeSignature(text) && b != 0
    ensures Covers(signed, other, b) <==> Second(a) == Second(b)
    ensures Covers(signed, other, b) ==> -SECOND < a - b < SECOND
  {}
}
