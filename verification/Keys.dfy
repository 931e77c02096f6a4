// The keys of the service tree and their parsing
// (common/store/etcdstore/etcdstore.go).
module Keys {

  const ROOT := "/weave-flux/"
  const SERVICE_ROOT := ROOT + "service/"
  const INSTANCE_PATH := "instances"
  const DETAIL_PATH := "spec"
  const RULE_PATH := "rules"
  const INGRESS_INSTANCE_PATH := "ingress-instances"

  function ServiceRootKey(s: string): string {
    SERVICE_ROOT + s
  }

  function ServiceKey(s: string): string {
    SERVICE_ROOT + s + "/" + DETAIL_PATH
  }

  function RuleKey(s: string, r: string): string {
    SERVICE_ROOT + s + "/" + RULE_PATH + "/" + r
  }

  function InstanceKey(s: string, i: string): string {
    SERVICE_ROOT + s + "/" + INSTANCE_PATH + "/" + i
  }

  // The address is already formatted.
  function IngressInstanceKey(s: string, a: string): string {
    SERVICE_ROOT + s + "/" + INGRESS_INSTANCE_PATH + "/" + a
  }

  lemma KeysAreSpelled(s: string, n: string)
    ensures ServiceRootKey(s) == "/weave-flux/service/" + s
    ensures ServiceKey(s) == "/weave-flux/service/" + s + "/spec"
    ensures RuleKey(s, n) == "/weave-flux/service/" + s + "/rules/" + n
    ensures InstanceKey(s, n) == "/weave-flux/service/" + s + "/instances/" + n
    ensures IngressInstanceKey(s, n) == "/weave-flux/service/" + s + "/ingress-instances/" + n
  {
    assert SERVICE_ROOT == "/weave-flux/service/";
    assert "/" + DETAIL_PATH == "/spec" && "/" + RULE_PATH + "/" == "/rules/";
    assert "/" + INSTANCE_PATH + "/" == "/instances/" && "/" + INGRESS_INSTANCE_PATH + "/" == "/ingress-instances/";
    JoinedAs(SERVICE_ROOT + s, RULE_PATH, n);
    JoinedAs(SERVICE_ROOT + s, INSTANCE_PATH, n);
    JoinedAs(SERVICE_ROOT + s, INGRESS_INSTANCE_PATH, n);
    assert SERVICE_ROOT + s + "/" + DETAIL_PATH == SERVICE_ROOT + s + ("/" + DETAIL_PATH);
  }

  lemma JoinedAs(a: string, path: string, n: string)
    ensures a + "/" + path + "/" + n == a + ("/" + path + "/") + n
  {
  }

  datatype Parsed =
    | ParsedRoot
    | ParsedServiceRoot(service: string)
    | ParsedService(service: string)
    | ParsedRule(service: string, rule: string)
    | ParsedInstance(service: string, inst: string)
    | ParsedIngress(service: string, ingress: string)
    | Unrecognised

  // strings.Split by "/".
  function Split(s: string): (p: seq<string>)
    ensures |p| >= 1
  {
    if s == "" then [""]
    else if s[0] == '/' then [""] + Split(s[1..])
    else var p := Split(s[1..]); [[s[0]] + p[0]] + p[1..]
  }

  function ParseParts(p: seq<string>): Parsed
    requires |p| >= 1
  {
    if |p| == 1 then ParsedServiceRoot(p[0])
    else if p[1] == DETAIL_PATH then ParsedService(p[0])
    else if p[1] == RULE_PATH && |p| == 3 then ParsedRule(p[0], p[2])
    else if p[1] == INSTANCE_PATH && |p| == 3 then ParsedInstance(p[0], p[2])
    else if p[1] == INGRESS_INSTANCE_PATH && |p| == 3 then ParsedIngress(p[0], p[2])
    else Unrecognised
  }

  function ParseKey(key: string): Parsed {
    if |key| <= |SERVICE_ROOT| then ParsedRoot else ParseParts(Split(key[|SERVICE_ROOT|..]))
  }

  predicate SlashFree(s: string) {
    '/' !in s
  }

  lemma {:induction false} SplitFirst(a: string, b: string)
    requires SlashFree(a)
    ensures Split(a + "/" + b) == [a] + Split(b)
  {
    var s := a + "/" + b;
    if a == "" {
      assert s[1..] == b;
    } else {
      SplitFirst(a[1..], b);
      assert s[1..] == a[1..] + "/" + b;
      assert [s[0]] + a[1..] == a;
    }
  }

  lemma {:induction false} SplitPlain(a: string)
    requires SlashFree(a)
    ensures Split(a) == [a]
  {
    if a != "" {
      SplitPlain(a[1..]);
      assert [a[0]] + a[1..] == a;
    }
  }

  // No part has a slash, and a string with a slash has several parts.
  lemma {:induction false} SplitParts(a: string)
    ensures SlashFree(Split(a)[0])
    ensures |Split(a)| == 1 <==> SlashFree(a)
  {
    if a != "" {
      SplitParts(a[1..]);
      assert a == [a[0]] + a[1..];
    }
  }

  lemma {:induction false} SplitLength(a: string, b: string)
    ensures |Split(a + "/" + b)| == |Split(a)| + |Split(b)|
    ensures Split(a + "/" + b)[0] == Split(a)[0]
  {
    var s := a + "/" + b;
    if a == "" {
      assert s[1..] == b;
    } else {
      SplitLength(a[1..], b);
      assert s[1..] == a[1..] + "/" + b;
    }
  }

  lemma BelowRoot(rest: string)
    ensures ParseKey(SERVICE_ROOT + rest) == if rest == "" then ParsedRoot else ParseParts(Split(rest))
  {
    assert (SERVICE_ROOT + rest)[|SERVICE_ROOT|..] == rest;
  }

  // Each key builder is inverted by ParseKey exactly for slash-free names; a
  // service's root key also needs a name.

  lemma ServiceRootKeyRoundTrip(s: string)
    ensures ParseKey(ServiceRootKey(s)) == ParsedServiceRoot(s) <==> s != "" && SlashFree(s)
  {
    BelowRoot(s);
    SplitParts(s);
    if SlashFree(s) {
      SplitPlain(s);
    }
  }

  lemma ServiceKeyRoundTrip(s: string)
    ensures ParseKey(ServiceKey(s)) == ParsedService(s) <==> SlashFree(s)
  {
    var rest := s + "/" + DETAIL_PATH;
    assert ServiceKey(s) == SERVICE_ROOT + rest;
    BelowRoot(rest);
    SplitParts(s);
    SplitLength(s, DETAIL_PATH);
    if SlashFree(s) {
      SplitFirst(s, DETAIL_PATH);
      SplitPlain(DETAIL_PATH);
    }
  }

  // What the three kinds of value keys have in common.
  lemma ValueKeyParts(s: string, kind: string, name: string)
    requires SlashFree(kind)
    ensures var p := Split(s + "/" + kind + "/" + name);
            && (p == [s, kind, name] <==> SlashFree(s) && SlashFree(name))
            && (|p| == 3 && p[0] == s && p[2] == name ==> p == [s, kind, name])
  {
    var rest := kind + "/" + name;
    assert s + "/" + kind + "/" + name == s + "/" + rest;
    SplitParts(s);
    SplitParts(name);
    SplitLength(s, rest);
    SplitFirst(kind, name);
    if SlashFree(s) {
      SplitFirst(s, rest);
      if SlashFree(name) {
        SplitPlain(name);
      }
    }
  }

  lemma RuleKeyRoundTrip(s: string, r: string)
    ensures ParseKey(RuleKey(s, r)) == ParsedRule(s, r) <==> SlashFree(s) && SlashFree(r)
  {
    var rest := s + "/" + RULE_PATH + "/" + r;
    assert RuleKey(s, r) == SERVICE_ROOT + rest;
    BelowRoot(rest);
    ValueKeyParts(s, RULE_PATH, r);
  }

  lemma InstanceKeyRoundTrip(s: string, i: string)
    ensures ParseKey(InstanceKey(s, i)) == ParsedInstance(s, i) <==> SlashFree(s) && SlashFree(i)
  {
    var rest := s + "/" + INSTANCE_PATH + "/" + i;
    assert InstanceKey(s, i) == SERVICE_ROOT + rest;
    BelowRoot(rest);
    ValueKeyParts(s, INSTANCE_PATH, i);
  }

  lemma IngressInstanceKeyRoundTrip(s: string, a: string)
    ensures ParseKey(IngressInstanceKey(s, a)) == ParsedIngress(s, a) <==> SlashFree(s) && SlashFree(a)
  {
    var rest := s + "/" + INGRESS_INSTANCE_PATH + "/" + a;
    assert IngressInstanceKey(s, a) == SERVICE_ROOT + rest;
    BelowRoot(rest);
    ValueKeyParts(s, INGRESS_INSTANCE_PATH, a);
  }
}
