/** Which requests the fixed-window limiters count together: the keys of reading secrets
    (internal/api/rate_limiters.go) and of failed SSO callbacks
    (internal/api/auth_handlers.go), in terms of whom they name. */
module FixedWindowShared {
  import opened Text
  import opened FixedWindow
  import opened FixedWindowKeys

  // What the limiter makes of a list

  ghost predicate Listed(keys: seq<string>, key: string) {
    exists i :: 0 <= i < |keys| && TrimSpace(keys[i]) == key
  }

  lemma ListedStep(keys: seq<string>, last: string, key: string)
    ensures Listed(keys + [last], key) <==> Listed(keys, key) || TrimSpace(last) == key
  {
    var all := keys + [last];
    hide TrimSpace;
    assert all[|keys|] == last && forall i :: 0 <= i < |keys| ==> all[i] == keys[i];
  }

  /** The limiter acts on the keys as they are once trimmed, and on no blank one. */
  lemma {:induction false} NormalizedIff(keys: seq<string>, key: string)
    ensures key in Normalized(keys) <==> key != "" && Listed(keys, key)
  {
    if keys == [] { return; }
    var init, last := keys[..|keys| - 1], keys[|keys| - 1];
    assert keys == init + [last];
    hide TrimSpace, Listed;
    NormalizedIff(init, key);
    ListedStep(init, last, key);
  }

  /** Keys that are trimmed already are taken as they are. */
  lemma {:induction false} NormalizedSame(keys: seq<string>)
    requires forall key :: key in keys ==> Trimmed(key) && key != ""
    ensures Normalized(keys) == keys
  {
    if keys == [] { return; }
    var init, last := keys[..|keys| - 1], keys[|keys| - 1];
    assert keys == init + [last] && last in keys && forall key :: key in init ==> key in keys;
    TrimSpaceOfTrimmed(last);
    hide TrimSpace, Trimmed;
    NormalizedSame(init);
  }

  predicate Shares(a: seq<string>, b: seq<string>) { exists key :: key in a && key in b }

  // Reading secrets

  predicate Whole(s: string) { '|' !in s }

  function Fold(s: string): string { ToLower(TrimSpace(s)) }

  function Who(subject: string): string { if subject == "" then "anonymous" else subject }

  lemma FieldsBack(fields: seq<string>)
    requires fields != [] && forall f :: f in fields ==> Whole(f)
    ensures Split(Join(fields, "|"), '|') == fields
  {
    SplitJoin(fields, '|');
  }

  lemma FoldWhole(s: string)
    requires Whole(s)
    ensures Whole(Fold(s))
  {
    TrimKeepsWhole(s);
    var t := TrimSpace(s);
    assert forall i :: 0 <= i < |t| ==> t[i] in t;
    hide TrimSpace;
    assert forall i :: 0 <= i < |t| ==> Lower(t[i]) != '|';
  }

  lemma TrimKeepsWhole(s: string)
    requires Whole(s)
    ensures Whole(TrimSpace(s))
  {
    TrimLeftWhole(s);
    TrimRightWhole(TrimLeft(s));
  }

  lemma {:induction false} TrimLeftWhole(s: string)
    requires Whole(s)
    ensures Whole(TrimLeft(s))
  {
    if s != "" && IsSpace(s[0]) {
      assert forall c :: c in s[1..] ==> c in s;
      TrimLeftWhole(s[1..]);
    }
  }

  lemma TrimRightWhole(s: string)
    requires Whole(s)
    ensures Whole(TrimRight(s))
  {
    assert TrimRight(s) <= s;
    assert forall i :: 0 <= i < |TrimRight(s)| ==> TrimRight(s)[i] == s[i];
  }

  function Fields(tag: string, who: string, action: string, ref: string, kind: string): seq<string> {
    [tag, who, Fold(action), Fold(ref), Fold(kind)]
  }

  lemma KeysFrom(subject: string, ip: string, action: string, ref: string, kind: string)
    ensures SecretAccessKeys(subject, ip, action, ref, kind)
            == [Join(Fields("secret-access-account", Who(subject), action, ref, kind), "|"),
                Join(Fields("secret-access-ip", ip, action, ref, kind), "|")]
  {
    hide Join, ToLower, TrimSpace;
    var what := [ToLower(TrimSpace(action)), ToLower(TrimSpace(ref)), ToLower(TrimSpace(kind))];
    assert ["secret-access-account", Who(subject)] + what == Fields("secret-access-account", Who(subject), action, ref, kind);
    assert ["secret-access-ip", ip] + what == Fields("secret-access-ip", ip, action, ref, kind);
  }

  datatype Access = Access(subject: string, ip: string, action: string, ref: string, kind: string)

  function KeysOf(a: Access): seq<string> { SecretAccessKeys(a.subject, a.ip, a.action, a.ref, a.kind) }

  predicate AllWhole(a: Access) { Whole(a.subject) && Whole(a.ip) && Whole(a.action) && Whole(a.ref) && Whole(a.kind) }

  predicate SameTarget(a: Access, b: Access) {
    Fold(a.action) == Fold(b.action) && Fold(a.ref) == Fold(b.ref) && Fold(a.kind) == Fold(b.kind)
  }

  lemma TagsWhole()
    ensures Whole("secret-access-account") && Whole("secret-access-ip") && Whole("anonymous")
    ensures "secret-access-account" != "secret-access-ip"
  {
    assert |"secret-access-account"| != |"secret-access-ip"|;
  }

  lemma FieldsWhole(tag: string, who: string, a: Access)
    requires AllWhole(a) && Whole(tag) && Whole(who)
    ensures Split(Join(Fields(tag, who, a.action, a.ref, a.kind), "|"), '|') == Fields(tag, who, a.action, a.ref, a.kind)
  {
    hide Fold, Whole;
    FoldWhole(a.action);
    FoldWhole(a.ref);
    FoldWhole(a.kind);
    FieldsBack(Fields(tag, who, a.action, a.ref, a.kind));
  }

  lemma FieldsEqual(tag: string, who: string, a: Access, other: string, whom: string, b: Access)
    ensures Fields(tag, who, a.action, a.ref, a.kind) == Fields(other, whom, b.action, b.ref, b.kind)
            <==> tag == other && who == whom && SameTarget(a, b)
  {
    hide Fold;
    var x, y := Fields(tag, who, a.action, a.ref, a.kind), Fields(other, whom, b.action, b.ref, b.kind);
    if x == y { assert x[0] == y[0] && x[1] == y[1] && x[2] == y[2] && x[3] == y[3] && x[4] == y[4]; }
  }

  /** Two readings of secrets are counted together exactly if they ask for the same, up to case and
      white space around it, and come from one account or from one address; callers without an
      account count as one. (Fields with a bar in them can run into each other.) */
  lemma SecretAccessSharedIff(a: Access, b: Access)
    requires AllWhole(a) && AllWhole(b)
    ensures Shares(KeysOf(a), KeysOf(b)) <==> SameTarget(a, b) && (Who(a.subject) == Who(b.subject) || a.ip == b.ip)
  {
    TagsWhole();
    var account, address := "secret-access-account", "secret-access-ip";
    KeysFrom(a.subject, a.ip, a.action, a.ref, a.kind);
    KeysFrom(b.subject, b.ip, b.action, b.ref, b.kind);
    FieldsWhole(account, Who(a.subject), a);
    FieldsWhole(account, Who(b.subject), b);
    FieldsWhole(address, a.ip, a);
    FieldsWhole(address, b.ip, b);
    FieldsEqual(account, Who(a.subject), a, account, Who(b.subject), b);
    FieldsEqual(account, Who(a.subject), a, address, b.ip, b);
    FieldsEqual(address, a.ip, a, account, Who(b.subject), b);
    FieldsEqual(address, a.ip, a, address, b.ip, b);
    hide SecretAccessKeys, Fields, Join, Split, SameTarget, Who, Whole;
    assert |KeysOf(a)| == 2 && |KeysOf(b)| == 2;
    assert KeysOf(a)[0] in KeysOf(a) && KeysOf(a)[1] in KeysOf(a);
  }

  // Failed SSO callbacks

  datatype Callback = Callback(ip: string, email: string, nameID: string, issuer: string)

  function FailureKeys(c: Callback): seq<string> { SSOCallbackFailureKeys(c.ip, c.email, c.nameID, c.issuer) }

  lemma FoldBlank(s: string)
    ensures Fold(s) == "" <==> TrimSpace(s) == ""
  {}

  predicate SameName(a: string, b: string) { Fold(a) == Fold(b) && Fold(a) != "" }

  lemma TaggedApart(tag: string, a: string, other: string, b: string)
    requires Apart(tag, other)
    ensures tag + a != other + b
  {
    assert tag <= tag + a && other <= other + b;
    NotBothPrefixes(tag, other, tag + a);
  }

  lemma TaggedSame(tag: string, a: string, b: string)
    ensures tag + a == tag + b <==> a == b
  {
    assert (tag + a)[|tag|..] == a && (tag + b)[|tag|..] == b;
  }

  lemma FailureKeyIff(c: Callback, key: string)
    ensures key in FailureKeys(c) <==>
              || key == "sso-ip:" + c.ip
              || (Fold(c.email) != "" && key == "sso-email:" + Fold(c.email))
              || (Fold(c.nameID) != "" && key == "sso-nameid:" + Fold(c.nameID))
              || (Fold(c.issuer) != "" && key == "sso-issuer:" + Fold(c.issuer))
  {
    FoldBlank(c.email);
    FoldBlank(c.nameID);
    FoldBlank(c.issuer);
    hide TrimSpace, ToLower;
  }

  /** Two failed callbacks are counted together exactly if they come from one address, or name one
      email, one name id or one issuer that is not blank, up to case and white space around it. */
  lemma CallbackSharedIff(a: Callback, b: Callback)
    ensures Shares(FailureKeys(a), FailureKeys(b)) <==>
              a.ip == b.ip || SameName(a.email, b.email) || SameName(a.nameID, b.nameID) || SameName(a.issuer, b.issuer)
  {
    hide Fold, FailureKeys;
    forall key ensures key in FailureKeys(a) && key in FailureKeys(b) ==>
        a.ip == b.ip || SameName(a.email, b.email) || SameName(a.nameID, b.nameID) || SameName(a.issuer, b.issuer)
    {
      if key in FailureKeys(a) && key in FailureKeys(b) { OneKeyOneName(a, b, key); }
    }
    if a.ip == b.ip || SameName(a.email, b.email) || SameName(a.nameID, b.nameID) || SameName(a.issuer, b.issuer) {
      SharedFrom(a, b);
    }
  }

  lemma OneKeyOneName(a: Callback, b: Callback, key: string)
    requires key in FailureKeys(a) && key in FailureKeys(b)
    ensures a.ip == b.ip || SameName(a.email, b.email) || SameName(a.nameID, b.nameID) || SameName(a.issuer, b.issuer)
  {
    hide FailureKeys, Fold;
    FailureKeyIff(a, key);
    FailureKeyIff(b, key);
    AllTagsApart();
    TaggedSame("sso-ip:", a.ip, b.ip);
    TaggedSame("sso-email:", Fold(a.email), Fold(b.email));
    TaggedSame("sso-nameid:", Fold(a.nameID), Fold(b.nameID));
    TaggedSame("sso-issuer:", Fold(a.issuer), Fold(b.issuer));
    OtherTags(a, b, key);
    OtherTags(b, a, key);
  }

  /** A key with one tag is none of the others. */
  lemma OtherTags(a: Callback, b: Callback, key: string)
    ensures key == "sso-ip:" + a.ip ==> key != "sso-email:" + Fold(b.email) && key != "sso-nameid:" + Fold(b.nameID) && key != "sso-issuer:" + Fold(b.issuer)
    ensures key == "sso-email:" + Fold(a.email) ==> key != "sso-nameid:" + Fold(b.nameID) && key != "sso-issuer:" + Fold(b.issuer)
    ensures key == "sso-nameid:" + Fold(a.nameID) ==> key != "sso-issuer:" + Fold(b.issuer)
  {
    AllTagsApart();
    hide Apart, Fold;
    TaggedApart("sso-ip:", a.ip, "sso-email:", Fold(b.email));
    TaggedApart("sso-ip:", a.ip, "sso-nameid:", Fold(b.nameID));
    TaggedApart("sso-ip:", a.ip, "sso-issuer:", Fold(b.issuer));
    TaggedApart("sso-email:", Fold(a.email), "sso-nameid:", Fold(b.nameID));
    TaggedApart("sso-email:", Fold(a.email), "sso-issuer:", Fold(b.issuer));
    TaggedApart("sso-nameid:", Fold(a.nameID), "sso-issuer:", Fold(b.issuer));
  }

  lemma SharedFrom(a: Callback, b: Callback)
    requires a.ip == b.ip || SameName(a.email, b.email) || SameName(a.nameID, b.nameID) || SameName(a.issuer, b.issuer)
    ensures Shares(FailureKeys(a), FailureKeys(b))
  {
    hide FailureKeys, Fold;
    var key := if a.ip == b.ip then "sso-ip:" + a.ip
               else if SameName(a.email, b.email) then "sso-email:" + Fold(a.email)
               else if SameName(a.nameID, b.nameID) then "sso-nameid:" + Fold(a.nameID)
               else "sso-issuer:" + Fold(a.issuer);
    FailureKeyIff(a, key);
    FailureKeyIff(b, key);
    assert key in FailureKeys(a) && key in FailureKeys(b);
  }
}
