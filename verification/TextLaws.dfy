/** What the string operations mean: trimming, lower case, splitting and joining, each against an
    independent description. */
module TextLaws {
  import opened Text

  predicate AllSpace(s: string) { forall c :: c in s ==> IsSpace(c) }

  /** The text is t with white space before and after it. */
  ghost predicate Around(s: string, t: string) {
    exists i, j {:trigger Cut(s, i, j)} :: Cut(s, i, j) && s[i..j] == t && AllSpace(s[..i]) && AllSpace(s[j..])
  }

  predicate Cut(s: string, i: int, j: int) { 0 <= i <= j <= |s| }

  lemma {:induction false} TrimLeftIs(s: string) returns (i: nat)
    ensures i <= |s| && AllSpace(s[..i]) && TrimLeft(s) == s[i..]
  {
    i := 0;
    if s != "" && IsSpace(s[0]) {
      var k := TrimLeftIs(s[1..]);
      i := k + 1;
      assert s[..i] == [s[0]] + s[1..][..k];
      assert s[i..] == s[1..][k..];
    }
  }

  lemma {:induction false} TrimRightIs(s: string) returns (j: nat)
    ensures j <= |s| && AllSpace(s[j..]) && TrimRight(s) == s[..j]
  {
    j := |s|;
    if s != "" && IsSpace(s[|s| - 1]) {
      j := TrimRightIs(s[..|s| - 1]);
      assert s[j..] == s[..|s| - 1][j..] + [s[|s| - 1]];
      assert s[..j] == s[..|s| - 1][..j];
    }
  }

  lemma {:induction false} TrimLeftOf(a: string, t: string)
    requires AllSpace(a) && (t == "" || !IsSpace(t[0]))
    ensures TrimLeft(a + t) == t
  {
    if a == "" {
      assert a + t == t;
    } else {
      assert a[0] in a && (a + t)[1..] == a[1..] + t && forall c :: c in a[1..] ==> c in a;
      TrimLeftOf(a[1..], t);
    }
  }

  lemma {:induction false} TrimRightOf(t: string, b: string)
    requires AllSpace(b) && (t == "" || !IsSpace(t[|t| - 1]))
    ensures TrimRight(t + b) == t
  {
    if b == "" {
      assert t + b == t;
    } else {
      var n := |b| - 1;
      assert b[n] in b && (t + b)[..|t + b| - 1] == t + b[..n] && forall c :: c in b[..n] ==> c in b;
      TrimRightOf(t, b[..n]);
    }
  }

  lemma {:induction false} TrimLeftNothing(s: string)
    requires AllSpace(s)
    ensures TrimLeft(s) == ""
  {
    TrimLeftOf(s, "");
    assert s + "" == s;
  }

  /** Trimming takes the white space off both ends and nothing else: the result is the one text
      that neither starts nor ends in white space and has only white space around it. */
  lemma TrimSpaceIff(s: string, t: string)
    ensures TrimSpace(s) == t <==> Trimmed(t) && Around(s, t)
  {
    hide TrimLeft, TrimRight, IsSpace;
    if TrimSpace(s) == t {
      TrimSpaceTrimmed(s);
      var i := TrimLeftIs(s);
      var j := TrimRightIs(s[i..]);
      assert s[i..][..j] == s[i..i + j] && s[i..][j..] == s[i + j..];
      assert Cut(s, i, i + j);
    }
    if Trimmed(t) && Around(s, t) {
      var i, j :| Cut(s, i, j) && s[i..j] == t && AllSpace(s[..i]) && AllSpace(s[j..]);
      assert s == s[..i] + (t + s[j..]);
      if t == "" {
        assert s == s[..i] + s[j..] && AllSpace(s);
        TrimLeftNothing(s);
        TrimRightOf("", "");
      } else {
        TrimLeftOf(s[..i], t + s[j..]);
        TrimRightOf(t, s[j..]);
      }
    }
  }

  const CAPITALS := "ABCDEFGHIJKLMNOPQRSTUVWXYZ"
  const SMALL := "abcdefghijklmnopqrstuvwxyz"

  /** Lower case puts each capital's small letter in its place and keeps every other character. */
  lemma ToLowerIs(s: string, i: nat)
    requires i < |s|
    ensures |ToLower(s)| == |s|
    ensures forall k :: 0 <= k < 26 && s[i] == CAPITALS[k] ==> ToLower(s)[i] == SMALL[k]
    ensures s[i] !in CAPITALS ==> ToLower(s)[i] == s[i]
  {
    assert forall k :: 0 <= k < 26 ==> CAPITALS[k] as int == 'A' as int + k && SMALL[k] as int == 'a' as int + k;
    if 'A' <= s[i] <= 'Z' { assert CAPITALS[s[i] as int - 'A' as int] == s[i]; }
  }

  lemma JoinFirst(c: char, parts: seq<string>, sep: string)
    requires parts != []
    ensures Join([[c] + parts[0]] + parts[1..], sep) == [c] + Join(parts, sep)
  {
    var all := [[c] + parts[0]] + parts[1..];
    assert all[1..] == parts[1..];
    if |parts| > 1 { assert ([c] + parts[0]) + sep + Join(parts[1..], sep) == [c] + (parts[0] + sep + Join(parts[1..], sep)); }
  }

  lemma JoinEmptyFirst(parts: seq<string>, sep: string)
    requires parts != []
    ensures Join([""] + parts, sep) == sep + Join(parts, sep)
  {
    assert ([""] + parts)[1..] == parts && "" + sep == sep;
  }

  /** What splitting cuts up, joining puts together; the parts hold no separator, so no other
      list of such parts joins to the text. */
  lemma {:induction false} JoinSplit(s: string, sep: char)
    ensures Join(Split(s, sep), [sep]) == s
    ensures forall part :: part in Split(s, sep) ==> sep !in part
  {
    SplitNoSep(s, sep);
    hide Join;
    if s == "" {
      JoinOne("", [sep]);
    } else {
      JoinSplit(s[1..], sep);
      if s[0] == sep {
        JoinEmptyFirst(Split(s[1..], sep), [sep]);
      } else {
        JoinFirst(s[0], Split(s[1..], sep), [sep]);
      }
      assert s == [s[0]] + s[1..];
    }
  }

  lemma JoinOne(s: string, sep: string)
    ensures Join([s], sep) == s
  {}

  lemma SplitIff(s: string, sep: char, parts: seq<string>)
    ensures Split(s, sep) == parts <==> parts != [] && Join(parts, [sep]) == s && forall part :: part in parts ==> sep !in part
  {
    JoinSplit(s, sep);
    if parts != [] && Join(parts, [sep]) == s && forall part :: part in parts ==> sep !in part { SplitJoin(parts, sep); }
  }
}
