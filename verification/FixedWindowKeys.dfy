/** The key lists that the handlers pass to the fixed-window limiters never name a key
    twice, and what happens to a list that does. */
module FixedWindowKeys {
  import opened Text
  import opened FixedWindow
  import opened FixedWindowRuns

  function SecretAccessKeys(subject: string, ip: string, action: string, ref: string, kind: string): seq<string> {
    var who := if subject == "" then "anonymous" else subject;
    var what := [ToLower(TrimSpace(action)), ToLower(TrimSpace(ref)), ToLower(TrimSpace(kind))];
    [Join(["secret-access-account", who] + what, "|"), Join(["secret-access-ip", ip] + what, "|")]
  }

  function SSOCallbackFailureKeys(ip: string, email: string, nameID: string, issuer: string): seq<string> {
    var address := ToLower(TrimSpace(email));
    ["sso-ip:" + ip]
    + (if address != "" then ["sso-email:" + address] else [])
    + (if TrimSpace(nameID) != "" then ["sso-nameid:" + ToLower(TrimSpace(nameID))] else [])
    + (if TrimSpace(issuer) != "" then ["sso-issuer:" + ToLower(TrimSpace(issuer))] else [])
  }

  /** Each key starts with the tag at its place. */
  ghost predicate Tagged(keys: seq<string>, tags: seq<string>) {
    |keys| == |tags| && forall i :: 0 <= i < |tags| ==> tags[i] != "" && Trimmed(tags[i]) && tags[i] <= keys[i]
  }

  predicate Apart(a: string, b: string) { !(a <= b) && !(b <= a) }

  /** Trimming keeps each tag in front. */
  ghost predicate TagsKept(trimmed: seq<string>, tags: seq<string>) {
    |trimmed| == |tags| && forall i :: 0 <= i < |tags| ==> tags[i] <= trimmed[i]
  }

  lemma TaggedStep(keys: seq<string>, tags: seq<string>, key: string, tag: string)
    requires Tagged(keys + [key], tags + [tag])
    ensures Tagged(keys, tags) && tag != "" && Trimmed(tag) && tag <= key
  {
    var all, allTags := keys + [key], tags + [tag];
    forall i | 0 <= i < |tags| ensures tags[i] != "" && Trimmed(tags[i]) && tags[i] <= keys[i] {
      assert allTags[i] == tags[i] && all[i] == keys[i];
    }
    assert allTags[|tags|] == tag && all[|tags|] == key;
  }

  lemma NormalizedNext(keys: seq<string>, key: string)
    requires TrimSpace(key) != ""
    ensures Normalized(keys + [key]) == Normalized(keys) + [TrimSpace(key)]
  {
    assert (keys + [key])[..|keys|] == keys;
  }

  lemma TagKept(tag: string, key: string)
    requires tag != "" && Trimmed(tag) && tag <= key
    ensures tag <= TrimSpace(key) && TrimSpace(key) != ""
  {
    assert key == tag + key[|tag|..];
    TrimKeepsPrefix(tag, key[|tag|..]);
  }

  lemma KeptStep(trimmed: seq<string>, tags: seq<string>, key: string, tag: string)
    requires TagsKept(trimmed, tags) && tag <= key
    ensures TagsKept(trimmed + [key], tags + [tag])
  {}

  lemma {:induction false} TaggedNormalized(keys: seq<string>, tags: seq<string>)
    requires Tagged(keys, tags)
    ensures TagsKept(Normalized(keys), tags)
  {
    if keys == [] { return; }
    var init, initTags, key, tag := keys[..|keys| - 1], tags[..|keys| - 1], keys[|keys| - 1], tags[|keys| - 1];
    assert keys == init + [key] && tags == initTags + [tag];
    hide *;
    TaggedStep(init, initTags, key, tag);
    TaggedNormalized(init, initTags);
    TagKept(tag, key);
    NormalizedNext(init, key);
    KeptStep(Normalized(init), initTags, TrimSpace(key), tag);
  }

  /** Keys whose tags are pairwise apart stay different when trimmed. */
  lemma TaggedNoRepeats(keys: seq<string>, tags: seq<string>)
    requires Tagged(keys, tags)
    requires forall i, j :: 0 <= i < j < |tags| ==> Apart(tags[i], tags[j])
    ensures NoRepeats(Normalized(keys)) && |Normalized(keys)| == |keys|
  {
    hide Normalized, Apart, Trimmed;
    TaggedNormalized(keys, tags);
    var normalized := Normalized(keys);
    forall i, j | 0 <= i < j < |normalized| ensures normalized[i] != normalized[j] {
      if normalized[i] == normalized[j] { NotBothPrefixes(tags[i], tags[j], normalized[i]); }
    }
  }

  lemma NotBothPrefixes(a: string, b: string, s: string)
    requires Apart(a, b)
    ensures !(a <= s && b <= s)
  {}

  lemma SecretAccessKeysDistinct(subject: string, ip: string, action: string, ref: string, kind: string)
    ensures var keys := SecretAccessKeys(subject, ip, action, ref, kind);
            NoRepeats(Normalized(keys)) && |Normalized(keys)| == 2
  {
    var tags := ["secret-access-account", "secret-access-ip"];
    assert tags[0][14] == 'a' && tags[1][14] == 'i';
    TaggedNoRepeats(SecretAccessKeys(subject, ip, action, ref, kind), tags);
  }

  lemma SSOCallbackFailureKeysDistinct(ip: string, email: string, nameID: string, issuer: string)
    ensures var keys := SSOCallbackFailureKeys(ip, email, nameID, issuer);
            NoRepeats(Normalized(keys)) && |Normalized(keys)| == |keys|
  {
    hide *;
    var tags := FailureTags(email, nameID, issuer);
    FailureKeysTagged(ip, email, nameID, issuer);
    FailureTagsApart(email, nameID, issuer);
    TaggedNoRepeats(SSOCallbackFailureKeys(ip, email, nameID, issuer), tags);
  }

  function FailureTags(email: string, nameID: string, issuer: string): seq<string> {
    ["sso-ip:"]
    + (if ToLower(TrimSpace(email)) != "" then ["sso-email:"] else [])
    + (if TrimSpace(nameID) != "" then ["sso-nameid:"] else [])
    + (if TrimSpace(issuer) != "" then ["sso-issuer:"] else [])
  }

  lemma FailureKeysTagged(ip: string, email: string, nameID: string, issuer: string)
    ensures Tagged(SSOCallbackFailureKeys(ip, email, nameID, issuer), FailureTags(email, nameID, issuer))
  {
    hide TrimSpace, ToLower;
  }

  lemma FailureTagsApart(email: string, nameID: string, issuer: string)
    ensures var tags := FailureTags(email, nameID, issuer);
            forall i, j :: 0 <= i < j < |tags| ==> Apart(tags[i], tags[j])
  {
    AllTagsApart();
    hide Apart, TrimSpace, ToLower;
  }

  lemma AllTagsApart()
    ensures Apart("sso-ip:", "sso-email:") && Apart("sso-ip:", "sso-nameid:") && Apart("sso-ip:", "sso-issuer:")
    ensures Apart("sso-email:", "sso-nameid:") && Apart("sso-email:", "sso-issuer:") && Apart("sso-nameid:", "sso-issuer:")
  {
    var ipTag, emailTag, nameTag, issuerTag := "sso-ip:", "sso-email:", "sso-nameid:", "sso-issuer:";
    assert ipTag[4] == 'i' && emailTag[4] == 'e' && nameTag[4] == 'n' && issuerTag[4] == 'i';
    assert ipTag[5] == 'p' && issuerTag[5] == 's';
  }

  // Keys that are named more than once

  function Room(q: Quota, a: FixedWindowLimit, now: int): int {
    if Live(q, a, now) then q.limit - a.count else q.limit
  }

  lemma MultisetStep(keys: seq<string>, last: string, key: string)
    ensures multiset(keys + [last])[key] == multiset(keys)[key] + if last == key then 1 else 0
  {}

  /** Each time a key is named charges it once more, in one window. */
  lemma {:induction false} ChargeEachTime(q: Quota, m: Limits, keys: seq<string>, now: int, key: string)
    requires Enabled(q) && now > 0
    ensures var n, a, b := multiset(keys)[key], View(m, key), View(ChargeAll(q, m, keys, now), key);
            if n == 0 then b == a
            else b == if Live(q, a, now) then FixedWindowLimit(a.count + n, a.windowStart) else FixedWindowLimit(n, now)
  {
    if keys == [] { return; }
    var init, last := keys[..|keys| - 1], keys[|keys| - 1];
    assert keys == init + [last];
    ChargeEachTime(q, m, init, now, key);
    MultisetStep(init, last, key);
    assert ChargeAll(q, m, keys, now) == ChargeAll(q, m, init, now)[last := Charged(q, View(ChargeAll(q, m, init, now), last), now)];
  }

  /** An admitted take keeps a key it names within its limit exactly if it names the key no more
      often than there is room. */
  lemma WithinLimitIff(q: Quota, m: Limits, keys: seq<string>, now: int, key: string)
    requires Enabled(q) && now > 0 && Admits(q, m, Take(keys, now)) && key in Normalized(keys)
    ensures View(Next(q, m, Take(keys, now)), key).count <= q.limit
            <==> multiset(Normalized(keys))[key] <= Room(q, View(m, key), now)
  {
    var asked := Normalized(keys);
    assert multiset(asked)[key] > 0;
    hide Normalized, ChargeAll;
    ChargeEachTime(q, Pruned(q, m, now), asked, now, key);
  }

  /** For instance, a key that is named twice at a limit of one. */
  lemma RepeatedKeyOverdraws(window: int, now: int)
    requires window > 0 && now > 0
    ensures var q, c := Quota(1, window), Take(["a", " a"], now);
            Admits(q, map[], c) && View(Next(q, map[], c), "a").count > q.limit
  {
    var q, keys := Quota(1, window), ["a", " a"];
    assert TrimSpace("a") == "a" && TrimSpace(" a") == "a";
    assert keys[..1] == ["a"] && ["a"][..0] == [];
    assert Normalized(["a"]) == ["a"];
    assert Normalized(keys) == ["a", "a"];
    NoWaits(q, ["a", "a"], now);
    WithinLimitIff(q, map[], keys, now, "a");
  }

  lemma {:induction false} NoWaits(q: Quota, keys: seq<string>, now: int)
    ensures LongestWait(q, map[], keys, now) == 0
  {
    if keys != [] { NoWaits(q, keys[..|keys| - 1], now); }
  }
}
