/** Signatures written in base64 (section 4 of RFC 4648) and decoded as the SSO callback decodes
    them (internal/control/sso.go): every signature comes back, with its padding or without. */
module SignatureText {
  import opened Text
  import opened Wrappers
  import opened AssertionSignature

  // The encoding

  const CAPITALS := "ABCDEFGHIJKLMNOPQRSTUVWXYZ"
  const SMALL := "abcdefghijklmnopqrstuvwxyz"
  const OTHERS := "0123456789+/"

  function Digit(v: int): char
    requires 0 <= v < 64
  {
    if v < 26 then CAPITALS[v] else if v < 52 then SMALL[v - 26] else OTHERS[v - 52]
  }

  predicate IsByte(b: int) { 0 <= b < 256 }

  predicate AllBytes(bytes: Bytes) { forall b :: b in bytes ==> IsByte(b) }

  /** Twenty-four bits make four digits; eight make two and sixteen make three, filled up with zeros. */
  function Group(bytes: Bytes): string
    requires 1 <= |bytes| <= 3 && AllBytes(bytes)
  {
    var a := bytes[0];
    var b := if |bytes| >= 2 then bytes[1] else 0;
    var c := if |bytes| == 3 then bytes[2] else 0;
    assert IsByte(a) && IsByte(b) && IsByte(c);
    [Digit(a / 4), Digit(a % 4 * 16 + b / 16)]
    + (if |bytes| >= 2 then [Digit(b % 16 * 4 + c / 64)] else [])
    + (if |bytes| == 3 then [Digit(c % 64)] else [])
  }

  /** Without padding. */
  function Encode(bytes: Bytes): string
    requires AllBytes(bytes)
  {
    if bytes == [] then ""
    else if |bytes| <= 3 then Group(bytes)
    else Group(bytes[..3]) + Encode(bytes[3..])
  }

  function Padded(t: string): string { if |t| % 4 >= 2 then t + Padding(t) else t }

  // Decoding it

  lemma DigitBack(v: int)
    requires 0 <= v < 64
    ensures Alphabet(Digit(v)) == v
  {
    assert forall k :: 0 <= k < 26 ==> CAPITALS[k] as int == 'A' as int + k && SMALL[k] as int == 'a' as int + k;
    assert forall k :: 0 <= k < 10 ==> OTHERS[k] as int == '0' as int + k;
    assert OTHERS[10] == '+' && OTHERS[11] == '/';
  }

  lemma FourBack(a: int, b: int, c: int)
    requires IsByte(a) && IsByte(b) && IsByte(c)
    ensures a / 4 * 4 + (a % 4 * 16 + b / 16) / 16 == a
    ensures (a % 4 * 16 + b / 16) % 16 * 16 + (b % 16 * 4 + c / 64) / 4 == b
    ensures (b % 16 * 4 + c / 64) % 4 * 64 + c % 64 == c
  {}

  lemma OneBack(a: int)
    requires IsByte(a)
    ensures Digits(Group([a])) && Quantum(Group([a])) == [a]
  {
    hide Alphabet, Digit;
    DigitBack(a / 4);
    DigitBack(a % 4 * 16 + 0 / 16);
    FourBack(a, 0, 0);
  }

  lemma TwoBack(a: int, b: int)
    requires IsByte(a) && IsByte(b)
    ensures AllBytes([a, b]) && Digits(Group([a, b])) && Quantum(Group([a, b])) == [a, b]
  {
    hide Alphabet, Digit;
    DigitBack(a / 4);
    DigitBack(a % 4 * 16 + b / 16);
    DigitBack(b % 16 * 4 + 0 / 64);
    FourBack(a, b, 0);
  }

  lemma ThreeBack(a: int, b: int, c: int)
    requires IsByte(a) && IsByte(b) && IsByte(c)
    ensures AllBytes([a, b, c]) && Digits(Group([a, b, c])) && Quantum(Group([a, b, c])) == [a, b, c]
  {
    hide Alphabet, Digit;
    DigitBack(a / 4);
    DigitBack(a % 4 * 16 + b / 16);
    DigitBack(b % 16 * 4 + c / 64);
    DigitBack(c % 64);
    FourBack(a, b, c);
  }

  lemma GroupDigits(bytes: Bytes)
    requires 1 <= |bytes| <= 3 && AllBytes(bytes)
    ensures |Group(bytes)| == |bytes| + 1 && Digits(Group(bytes))
    ensures Quantum(Group(bytes)) == bytes
  {
    hide Digits, Quantum, Alphabet, Digit;
    if |bytes| == 1 {
      assert bytes == [bytes[0]];
      OneBack(bytes[0]);
    } else if |bytes| == 2 {
      assert bytes == [bytes[0], bytes[1]];
      TwoBack(bytes[0], bytes[1]);
    } else {
      assert bytes == [bytes[0], bytes[1], bytes[2]];
      ThreeBack(bytes[0], bytes[1], bytes[2]);
    }
  }

  lemma EncodeStep(bytes: Bytes)
    requires AllBytes(bytes) && |bytes| > 3
    ensures AllBytes(bytes[..3]) && AllBytes(bytes[3..])
    ensures Encode(bytes) == Group(bytes[..3]) + Encode(bytes[3..])
  {}

  lemma EncodeLast(bytes: Bytes)
    requires AllBytes(bytes) && |bytes| <= 3
    ensures Encode(bytes) == if bytes == [] then "" else Group(bytes)
  {}

  lemma NothingDecoded(padded: bool)
    ensures DecodeGroups("", padded) == Some([]) && Digits("")
  {}

  lemma DigitsConcat(a: string, b: string)
    requires Digits(a) && Digits(b)
    ensures Digits(a + b)
  {
    assert forall c :: c in a + b ==> c in a || c in b;
  }

  lemma WholeGroup(group: string)
    requires |group| == 4 && Digits(group)
    ensures DecodeGroups(group, true) == Some(Quantum(group)) && DecodeGroups(group, false) == Some(Quantum(group))
  {
    assert group[..4] == group && group[4..] == "";
    assert Quantum(group) + [] == Quantum(group);
  }

  lemma GroupFirst(group: string, rest: string, padded: bool)
    requires |group| == 4 && Digits(group) && rest != ""
    ensures DecodeGroups(group + rest, padded)
            == var more := DecodeGroups(rest, padded); if more.None? then None else Some(Quantum(group) + more.value)
  {
    assert (group + rest)[..4] == group && (group + rest)[4..] == rest;
    FullGroup(group + rest, padded);
  }

  lemma LengthStep(group: string, rest: string)
    requires |group| == 4
    ensures |group + rest| % 4 == |rest| % 4 && (rest != "" ==> group + rest != "")
  {}

  lemma ShortUnpadded(t: string)
    requires Digits(t) && 2 <= |t| <= 3
    ensures DecodeGroups(t, false) == Some(Quantum(t))
  {
    LastDigitsOf(t);
    hide Quantum, Alphabet;
    NotFull(t, false);
  }

  lemma {:induction false} EncodedDecodes(bytes: Bytes)
    requires AllBytes(bytes)
    ensures var t := Encode(bytes);
            && Digits(t) && |t| % 4 != 1 && (t == "" <==> bytes == [])
            && DecodeGroups(t, false) == Some(bytes)
            && (|t| % 4 == 0 ==> DecodeGroups(t, true) == Some(bytes))
  {
    hide *;
    if |bytes| <= 3 {
      EncodeLast(bytes);
      if bytes == [] {
        NothingDecoded(false);
        NothingDecoded(true);
      } else {
        GroupDigits(bytes);
        if |bytes| == 3 { WholeGroup(Group(bytes)); } else { ShortUnpadded(Group(bytes)); }
      }
      return;
    }
    EncodeStep(bytes);
    var group, rest := Group(bytes[..3]), Encode(bytes[3..]);
    GroupDigits(bytes[..3]);
    EncodedDecodes(bytes[3..]);
    GroupFirst(group, rest, false);
    GroupFirst(group, rest, true);
    LengthStep(group, rest);
    DigitsConcat(group, rest);
    assert bytes == bytes[..3] + bytes[3..];
  }

  lemma PlainText(t: string)
    requires Digits(t) && t != ""
    ensures TrimSpace(t) == t && WithoutBreaks(t) == t
  {
    hide WithoutBreaks, TrimSpace, Alphabet;
    DigitsUnchanged(t);
    TrimSpaceOfTrimmed(t);
    NoBreaks(t);
  }

  lemma DecodePlain(t: string)
    requires Digits(t) && t != ""
    ensures DecodeSignature(t) == if DecodeGroups(t, true).Some? then DecodeGroups(t, true) else DecodeGroups(t, false)
  {
    PlainText(t);
  }

  /** A signature that is not empty comes back from its base64 text, padded as the standard asks or
      not padded at all. */
  lemma SignatureRoundTrip(bytes: Bytes)
    requires AllBytes(bytes) && bytes != []
    ensures DecodeSignature(Encode(bytes)) == Some(bytes)
    ensures DecodeSignature(Padded(Encode(bytes))) == Some(bytes)
  {
    hide Encode, DecodeGroups, DecodeSignature, Digits, AllBytes;
    var t := Encode(bytes);
    EncodedDecodes(bytes);
    DecodePlain(t);
    if |t| % 4 >= 2 {
      GroupsOfUnpadded(t);
      PaddingIgnored(t);
    }
  }

  /** No two signatures have one text. */
  lemma TextsDiffer(a: Bytes, b: Bytes)
    requires AllBytes(a) && AllBytes(b) && a != b
    ensures Encode(a) != Encode(b)
  {
    EncodedDecodes(a);
    EncodedDecodes(b);
  }
}
