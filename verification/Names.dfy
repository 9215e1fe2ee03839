/** Names of rendered objects: joining, sanitising, trimming and truncating with a hash.
    SHA-256 and Unicode lower-casing are parameters, so every result holds whatever
    digest bytes and case table they return. */
module Names {

  type Byte = b: int | 0 <= b < 256

  type Digest = f: string -> seq<Byte> | forall s :: |f(s)| == 32 witness (s: string) => seq(32, i => 0)

  function HexDigit(n: int): char
    requires 0 <= n < 16
  {
    if n < 10 then '0' + n as char else 'a' + (n - 10) as char
  }

  /** Digits as lower-case hexadecimal writes them. */
  lemma HexDigitMeans(n: int)
    requires 0 <= n < 16
    ensures HexDigit(n) == "0123456789abcdef"[n]
  {
    if n < 10 {
      assert "0123456789abcdef"[..10] == "0123456789";
      assert n == 0 || n == 1 || n == 2 || n == 3 || n == 4 || n == 5 || n == 6 || n == 7 || n == 8 || n == 9;
    } else {
      assert n == 10 || n == 11 || n == 12 || n == 13 || n == 14 || n == 15;
    }
  }

  function HexEncode(bs: seq<Byte>): string {
    if bs == [] then "" else [HexDigit(bs[0] / 16), HexDigit(bs[0] % 16)] + HexEncode(bs[1..])
  }

  predicate Alnum(c: char) {
    'a' <= c <= 'z' || '0' <= c <= '9'
  }

  predicate LabelChar(c: char) {
    Alnum(c) || c == '-'
  }

  predicate AllLabelChars(s: string) {
    forall i :: 0 <= i < |s| ==> LabelChar(s[i])
  }

  lemma {:induction false} HexIsAlnum(bs: seq<Byte>)
    ensures |HexEncode(bs)| == 2 * |bs|
    ensures forall i :: 0 <= i < |HexEncode(bs)| ==> Alnum(HexEncode(bs)[i])
  {
    if bs != [] {
      HexIsAlnum(bs[1..]);
    }
  }

  lemma {:induction false} HexInjective(x: seq<Byte>, y: seq<Byte>)
    requires HexEncode(x) == HexEncode(y)
    ensures x == y
  {
    HexIsAlnum(x);
    HexIsAlnum(y);
    if x != [] {
      assert HexEncode(x)[2..] == HexEncode(x[1..]) && HexEncode(y)[2..] == HexEncode(y[1..]);
      HexInjective(x[1..], y[1..]);
      assert HexEncode(x)[0] == HexDigit(x[0] / 16) && HexEncode(y)[0] == HexDigit(y[0] / 16);
      assert HexEncode(x)[1] == HexDigit(x[0] % 16) && HexEncode(y)[1] == HexDigit(y[0] % 16);
      assert x[0] == 16 * (x[0] / 16) + x[0] % 16;
      assert y[0] == 16 * (y[0] / 16) + y[0] % 16;
      assert x == [x[0]] + x[1..] && y == [y[0]] + y[1..];
    }
  }

  function Join(parts: seq<string>, sep: string): string {
    if parts == [] then "" else if |parts| == 1 then parts[0] else parts[0] + sep + Join(parts[1..], sep)
  }

  function TrimLeft(s: string, cut: set<char>): string {
    if s != "" && s[0] in cut then TrimLeft(s[1..], cut) else s
  }

  function TrimRight(s: string, cut: set<char>): string {
    if s != "" && s[|s| - 1] in cut then TrimRight(s[..|s| - 1], cut) else s
  }

  const MAX_LABEL := 63

  function TruncateWithHash(sha: Digest, raw: string, maxLen: nat): string
    requires maxLen > 11
  {
    if |raw| <= maxLen then raw
    else
      var suffix := HexEncode(sha(raw)[..5]);
      HexIsAlnum(sha(raw)[..5]);
      TrimRight(raw[..maxLen - |suffix| - 1], {'-', '_', '.'}) + "-" + suffix
  }

  function Sanitize(lower: char -> char, raw: string): string {
    seq(|raw|, i requires 0 <= i < |raw| => if LabelChar(lower(raw[i])) then lower(raw[i]) else '-')
  }

  function Trimmed(lower: char -> char, parts: seq<string>): string {
    var name := TrimRight(TrimLeft(Sanitize(lower, Join(parts, "-")), {'-'}), {'-'});
    if name == "" then "x" else name
  }

  function Label(sha: Digest, lower: char -> char, parts: seq<string>): string {
    TruncateWithHash(sha, Trimmed(lower, parts), MAX_LABEL)
  }

  /** `safeDNSLabel`, with its builder loop. */
  method SafeDNSLabel(sha: Digest, lower: char -> char, parts: seq<string>) returns (r: string)
    ensures r == Label(sha, lower, parts)
  {
    var raw := Join(parts, "-");
    var b := "";
    for i := 0 to |raw|
      invariant b == Sanitize(lower, raw)[..i]
    {
      var c := lower(raw[i]);
      if ('a' <= c <= 'z') || ('0' <= c <= '9') || c == '-' {
        b := b + [c];
      } else {
        b := b + ['-'];
      }
    }
    assert b == Sanitize(lower, raw);
    var name := TrimRight(TrimLeft(b, {'-'}), {'-'});
    if name == "" {
      name := "x";
    }
    r := TruncateWithHash(sha, name, MAX_LABEL);
  }

  // ----- validity -----

  /** A label of section 2.1 of RFC 1123: 1 to 63 characters, alphanumeric at both ends. */
  predicate DnsLabel(s: string) {
    1 <= |s| <= MAX_LABEL && AllLabelChars(s) && Alnum(s[0]) && Alnum(s[|s| - 1])
  }

  lemma {:induction false} TrimLeftFacts(s: string, cut: set<char>)
    ensures var t := TrimLeft(s, cut);
      && |t| <= |s| && t == s[|s| - |t|..] && (t != "" ==> t[0] !in cut)
      && forall i :: 0 <= i < |s| - |t| ==> s[i] in cut
  {
    if s != "" && s[0] in cut {
      TrimLeftFacts(s[1..], cut);
      var t := TrimLeft(s, cut);
      assert forall i :: 0 < i < |s| ==> s[i] == s[1..][i - 1];
    }
  }

  lemma {:induction false} TrimRightFacts(s: string, cut: set<char>)
    ensures var t := TrimRight(s, cut);
      && |t| <= |s| && t == s[..|t|] && (t != "" ==> t[|t| - 1] !in cut)
      && forall i :: |t| <= i < |s| ==> s[i] in cut
  {
    if s != "" && s[|s| - 1] in cut {
      TrimRightFacts(s[..|s| - 1], cut);
    }
  }

  lemma TrimmedFacts(lower: char -> char, parts: seq<string>)
    ensures var n := Trimmed(lower, parts);
      n != "" && AllLabelChars(n) && Alnum(n[0]) && Alnum(n[|n| - 1])
  {
    var s := Sanitize(lower, Join(parts, "-"));
    TrimLeftFacts(s, {'-'});
    TrimRightFacts(TrimLeft(s, {'-'}), {'-'});
  }

  /** What truncation keeps: a non-empty prefix when the first character is not trimmed. */
  lemma TruncationFacts(sha: Digest, raw: string)
    requires raw != "" && Alnum(raw[0])
    ensures var r := TruncateWithHash(sha, raw, MAX_LABEL);
      && 1 <= |r| <= MAX_LABEL && r[0] == raw[0]
      && (AllLabelChars(raw) ==> AllLabelChars(r))
      && (Alnum(raw[|raw| - 1]) ==> Alnum(r[|r| - 1]))
  {
    if |raw| > MAX_LABEL {
      var suffix := HexEncode(sha(raw)[..5]);
      HexIsAlnum(sha(raw)[..5]);
      TrimRightFacts(raw[..52], {'-', '_', '.'});
    }
  }

  /** Truncation does not merge long names silently: two that end up equal have digests that
      agree in their first five bytes, and share what was kept of their beginning. */
  lemma LongNamesFollowDigest(sha: Digest, a: string, b: string)
    requires |a| > MAX_LABEL && |b| > MAX_LABEL
    requires TruncateWithHash(sha, a, MAX_LABEL) == TruncateWithHash(sha, b, MAX_LABEL)
    ensures sha(a)[..5] == sha(b)[..5]
    ensures TrimRight(a[..52], {'-', '_', '.'}) == TrimRight(b[..52], {'-', '_', '.'})
  {
    var x, y := HexEncode(sha(a)[..5]), HexEncode(sha(b)[..5]);
    var u, v := TrimRight(a[..52], {'-', '_', '.'}), TrimRight(b[..52], {'-', '_', '.'});
    HexIsAlnum(sha(a)[..5]);
    HexIsAlnum(sha(b)[..5]);
    assert u + "-" + x == v + "-" + y;
    assert (u + "-" + x)[|u| + 1..] == x && (v + "-" + y)[|v| + 1..] == y;
    assert (u + "-" + x)[..|u|] == u && (v + "-" + y)[..|v|] == v;
    HexInjective(sha(a)[..5], sha(b)[..5]);
  }

  /** A text without a single alphanumeric character becomes `x`. */
  lemma EmptyLabel(sha: Digest, lower: char -> char, parts: seq<string>)
    requires forall i :: 0 <= i < |Join(parts, "-")| ==> !Alnum(lower(Join(parts, "-")[i]))
    ensures Label(sha, lower, parts) == "x"
  {
    var s := Sanitize(lower, Join(parts, "-"));
    TrimLeftFacts(s, {'-'});
    TrimRightFacts(TrimLeft(s, {'-'}), {'-'});
    assert forall i :: 0 <= i < |s| ==> s[i] == '-';
  }

  /** Names are valid labels for every input, digest and case table. */
  lemma LabelIsValid(sha: Digest, lower: char -> char, parts: seq<string>)
    ensures DnsLabel(Label(sha, lower, parts))
  {
    TrimmedFacts(lower, parts);
    TruncationFacts(sha, Trimmed(lower, parts));
  }

  // ----- shape -----

  /** The case table leaves label characters alone, as every Unicode table does. */
  ghost predicate KeepsLabelChars(lower: char -> char) {
    forall c :: LabelChar(c) ==> lower(c) == c
  }

  lemma {:induction false} TrimLeftAbsent(s: string, cut: set<char>)
    requires s != "" ==> s[0] !in cut
    ensures TrimLeft(s, cut) == s
  {
  }

  lemma {:induction false} TrimRightAbsent(s: string, cut: set<char>)
    requires s != "" ==> s[|s| - 1] !in cut
    ensures TrimRight(s, cut) == s
  {
  }

  lemma SanitizeIdentity(lower: char -> char, s: string)
    requires KeepsLabelChars(lower) && AllLabelChars(s)
    ensures Sanitize(lower, s) == s
  {
  }

  /** A name that is already a label is used as it is. */
  lemma LabelOfLabel(sha: Digest, lower: char -> char, parts: seq<string>)
    requires KeepsLabelChars(lower) && DnsLabel(Join(parts, "-"))
    ensures Label(sha, lower, parts) == Join(parts, "-")
  {
    var s := Join(parts, "-");
    SanitizeIdentity(lower, s);
    TrimLeftAbsent(s, {'-'});
    TrimRightAbsent(s, {'-'});
  }

  function GatewayObjectName(sha: Digest, lower: char -> char, namespace: string, name: string): string {
    Label(sha, lower, ["gw", namespace, name])
  }

  function TokenSecretName(sha: Digest, lower: char -> char, namespace: string, name: string): string {
    Label(sha, lower, ["gw", namespace, name, "token"])
  }

  predicate HasAlnum(lower: char -> char, s: string) {
    exists i :: 0 <= i < |s| && Alnum(lower(s[i]))
  }

  lemma GatewayRaw(namespace: string, name: string)
    ensures Join(["gw", namespace, name], "-") == "gw-" + (namespace + "-" + name)
  {
    assert ["gw", namespace, name][1..] == [namespace, name];
    assert [namespace, name][1..] == [name];
    assert Join([namespace, name], "-") == namespace + "-" + Join([name], "-");
    assert Join(["gw", namespace, name], "-") == "gw" + "-" + Join([namespace, name], "-");
  }

  lemma GwTrimmed(lower: char -> char, rest: string)
    requires KeepsLabelChars(lower)
    ensures var t := TrimRight(TrimLeft(Sanitize(lower, "gw-" + rest), {'-'}), {'-'});
      && "gw" <= t && (HasAlnum(lower, rest) ==> "gw-" <= t && |t| > 3) && (!HasAlnum(lower, rest) ==> t == "gw")
  {
    var s := Sanitize(lower, "gw-" + rest);
    assert s[0] == 'g' && s[1] == 'w' && s[2] == '-';
    TrimLeftAbsent(s, {'-'});
    TrimRightFacts(s, {'-'});
    var t := TrimRight(s, {'-'});
    if HasAlnum(lower, rest) {
      var i :| 0 <= i < |rest| && Alnum(lower(rest[i]));
      assert s[i + 3] == lower(("gw-" + rest)[i + 3]) == lower(rest[i]);
      assert |t| > i + 3;
    } else {
      forall i | 2 <= i < |s| ensures s[i] == '-' {
        if i > 2 { assert ("gw-" + rest)[i] == rest[i - 3]; }
      }
      assert |t| >= 2;
      assert |t| <= 2;
    }
  }

  /** The infra name of a Gateway always begins with `gw`, hence with a letter as section
      2.3.1 of RFC 1035 wants, and with `gw-` exactly when its namespace or name has an
      alphanumeric character, as every real one does. */
  lemma GatewayNamePrefix(sha: Digest, lower: char -> char, namespace: string, name: string)
    requires KeepsLabelChars(lower)
    ensures var n := GatewayObjectName(sha, lower, namespace, name);
      && DnsLabel(n) && "gw" <= n
      && ("gw-" <= n <==> HasAlnum(lower, namespace + "-" + name))
  {
    var parts := ["gw", namespace, name];
    LabelIsValid(sha, lower, parts);
    GatewayRaw(namespace, name);
    GwTrimmed(lower, namespace + "-" + name);
    var t := Trimmed(lower, parts);
    if |t| > MAX_LABEL {
      TrimRightFacts(t[..52], {'-', '_', '.'});
      HexIsAlnum(sha(t)[..5]);
      var kept := TrimRight(t[..52], {'-', '_', '.'});
      assert |kept| >= 2 by {
        assert t[..52][1] == 'w';
      }
      assert kept[0] == 'g' && kept[1] == 'w';
      var n := Label(sha, lower, parts);
      assert n == kept + "-" + HexEncode(sha(t)[..5]);
      assert |kept| > 2 ==> kept[2] == '-';
    }
  }

  lemma TokenRaw(namespace: string, name: string)
    ensures Join(["gw", namespace, name, "token"], "-") == "gw-" + (namespace + "-" + name) + "-token"
  {
    assert ["gw", namespace, name, "token"][1..] == [namespace, name, "token"];
    assert [namespace, name, "token"][1..] == [name, "token"];
    assert [name, "token"][1..] == ["token"];
    assert Join([name, "token"], "-") == name + "-" + Join(["token"], "-");
    assert Join([namespace, name, "token"], "-") == namespace + "-" + Join([name, "token"], "-");
    assert Join(["gw", namespace, name, "token"], "-") == "gw" + "-" + Join([namespace, name, "token"], "-");
  }

  // ----- when infra names are equal -----

  /** The key as it enters an infra name. */
  function JoinedKey(namespace: string, name: string): string {
    namespace + "-" + name
  }

  /** The second key moves a part of the first one's name into its namespace. */
  predicate Shifts(ns: string, n: string, ns': string, n': string) {
    && |ns| < |ns'| && ns' == ns + "-" + ns'[|ns| + 1..]
    && n == ns'[|ns| + 1..] + "-" + n'
  }

  lemma ShiftFromJoined(ns: string, n: string, ns': string, n': string)
    requires JoinedKey(ns, n) == JoinedKey(ns', n') && |ns| < |ns'|
    ensures Shifts(ns, n, ns', n')
  {
    var s := JoinedKey(ns, n);
    assert s[..|ns'|] == ns' && s[..|ns|] == ns && s[|ns|] == '-';
    assert ns'[..|ns|] == ns && ns'[|ns|] == '-';
    var x := ns'[|ns| + 1..];
    assert ns' == ns + "-" + x;
    assert n == s[|ns| + 1..] && n' == s[|ns'| + 1..];
    assert s == ns + "-" + x + "-" + n';
  }

  lemma JoinedFromShift(ns: string, n: string, ns': string, n': string)
    requires Shifts(ns, n, ns', n')
    ensures JoinedKey(ns, n) == JoinedKey(ns', n')
  {
    var x := ns'[|ns| + 1..];
    assert ns + "-" + (x + "-" + n') == ns + "-" + x + "-" + n';
  }

  /** Exactly which keys join to one text: equal ones, and those of which one is the other
      with leading dash-separated parts of its name moved into the namespace. */
  lemma JoinedKeysEqualIff(ns: string, n: string, ns': string, n': string)
    ensures JoinedKey(ns, n) == JoinedKey(ns', n') <==>
      (ns == ns' && n == n') || Shifts(ns, n, ns', n') || Shifts(ns', n', ns, n)
  {
    var s, s' := JoinedKey(ns, n), JoinedKey(ns', n');
    if s == s' {
      if |ns| < |ns'| {
        ShiftFromJoined(ns, n, ns', n');
      } else if |ns'| < |ns| {
        ShiftFromJoined(ns', n', ns, n);
      } else {
        assert s[..|ns|] == ns && s'[..|ns'|] == ns';
        assert s[|ns| + 1..] == n && s'[|ns'| + 1..] == n';
      }
    }
    if Shifts(ns, n, ns', n') {
      JoinedFromShift(ns, n, ns', n');
    }
    if Shifts(ns', n', ns, n) {
      JoinedFromShift(ns', n', ns, n);
    }
  }

  /** Namespace and name as the API server admits them for a Gateway in a label-named
      namespace. */
  predicate LabelKey(namespace: string, name: string) {
    DnsLabel(namespace) && DnsLabel(name)
  }

  lemma UntrimmedLabel(sha: Digest, lower: char -> char, parts: seq<string>)
    requires KeepsLabelChars(lower) && AllLabelChars(Join(parts, "-")) && Join(parts, "-") != ""
    requires var s := Join(parts, "-"); Alnum(s[0]) && Alnum(s[|s| - 1])
    ensures Label(sha, lower, parts) == TruncateWithHash(sha, Join(parts, "-"), MAX_LABEL)
  {
    var s := Join(parts, "-");
    SanitizeIdentity(lower, s);
    TrimLeftAbsent(s, {'-'});
    TrimRightAbsent(s, {'-'});
  }

  lemma GatewayNameOf(sha: Digest, lower: char -> char, namespace: string, name: string)
    requires KeepsLabelChars(lower) && LabelKey(namespace, name)
    ensures GatewayObjectName(sha, lower, namespace, name) ==
            TruncateWithHash(sha, "gw-" + JoinedKey(namespace, name), MAX_LABEL)
  {
    GatewayRaw(namespace, name);
    UntrimmedLabel(sha, lower, ["gw", namespace, name]);
  }

  lemma TokenNameOf(sha: Digest, lower: char -> char, namespace: string, name: string)
    requires KeepsLabelChars(lower) && LabelKey(namespace, name)
    ensures TokenSecretName(sha, lower, namespace, name) ==
            TruncateWithHash(sha, "gw-" + JoinedKey(namespace, name) + "-token", MAX_LABEL)
  {
    TokenRaw(namespace, name);
    var s := Join(["gw", namespace, name, "token"], "-");
    assert s == "gw-" + JoinedKey(namespace, name) + "-token";
    assert forall i :: 0 <= i < |s| ==> LabelChar(s[i]);
    UntrimmedLabel(sha, lower, ["gw", namespace, name, "token"]);
  }

  /** Dots and other characters included: for any keys that fit and whose names end in an
      alphanumeric character, infra names are equal exactly when the sanitised joined keys
      are. */
  lemma GatewayNamesFollowSanitized(sha: Digest, lower: char -> char, ns: string, n: string, ns': string, n': string)
    requires KeepsLabelChars(lower) && n != "" && Alnum(n[|n| - 1]) && n' != "" && Alnum(n'[|n'| - 1])
    requires |ns| + |n| <= 59 && |ns'| + |n'| <= 59
    ensures GatewayObjectName(sha, lower, ns, n) == GatewayObjectName(sha, lower, ns', n') <==>
      Sanitize(lower, JoinedKey(ns, n)) == Sanitize(lower, JoinedKey(ns', n'))
  {
    SanitizedGatewayName(sha, lower, ns, n);
    SanitizedGatewayName(sha, lower, ns', n');
    var s, s' := Sanitize(lower, JoinedKey(ns, n)), Sanitize(lower, JoinedKey(ns', n'));
    assert ("gw-" + s)[3..] == s && ("gw-" + s')[3..] == s';
  }

  lemma SanitizedGatewayName(sha: Digest, lower: char -> char, ns: string, n: string)
    requires KeepsLabelChars(lower) && n != "" && Alnum(n[|n| - 1]) && |ns| + |n| <= 59
    ensures GatewayObjectName(sha, lower, ns, n) == "gw-" + Sanitize(lower, JoinedKey(ns, n))
  {
    GatewayRaw(ns, n);
    var s := Sanitize(lower, "gw-" + JoinedKey(ns, n));
    assert s == "gw-" + Sanitize(lower, JoinedKey(ns, n));
    TrimLeftAbsent(s, {'-'});
    TrimRightAbsent(s, {'-'});
  }

  /** Exactly when two Gateways get one infra name, for label keys that fit: when their
      keys join to one text. */
  lemma GatewayNamesEqualIff(sha: Digest, lower: char -> char, ns: string, n: string, ns': string, n': string)
    requires KeepsLabelChars(lower) && LabelKey(ns, n) && LabelKey(ns', n')
    requires |ns| + |n| <= 59 && |ns'| + |n'| <= 59
    ensures GatewayObjectName(sha, lower, ns, n) == GatewayObjectName(sha, lower, ns', n') <==>
      (ns == ns' && n == n') || Shifts(ns, n, ns', n') || Shifts(ns', n', ns, n)
  {
    GatewayNameOf(sha, lower, ns, n);
    GatewayNameOf(sha, lower, ns', n');
    JoinedKeysEqualIff(ns, n, ns', n');
    var s, s' := JoinedKey(ns, n), JoinedKey(ns', n');
    assert ("gw-" + s)[3..] == s && ("gw-" + s')[3..] == s';
  }

  /** The same for token Secrets, whose names are six characters longer. */
  lemma TokenNamesEqualIff(sha: Digest, lower: char -> char, ns: string, n: string, ns': string, n': string)
    requires KeepsLabelChars(lower) && LabelKey(ns, n) && LabelKey(ns', n')
    requires |ns| + |n| <= 53 && |ns'| + |n'| <= 53
    ensures TokenSecretName(sha, lower, ns, n) == TokenSecretName(sha, lower, ns', n') <==>
      (ns == ns' && n == n') || Shifts(ns, n, ns', n') || Shifts(ns', n', ns, n)
  {
    TokenNameOf(sha, lower, ns, n);
    TokenNameOf(sha, lower, ns', n');
    JoinedKeysEqualIff(ns, n, ns', n');
    var s, s' := JoinedKey(ns, n), JoinedKey(ns', n');
    var t, t' := "gw-" + s + "-token", "gw-" + s' + "-token";
    assert t[3..|t| - 6] == s && t'[3..|t'| - 6] == s';
  }

  /** Beyond that length a shared name means keys that join to one text, a digest collision,
      or a short key that spells out another's truncated name. */
  lemma LongGatewayNames(sha: Digest, lower: char -> char, ns: string, n: string, ns': string, n': string)
    requires KeepsLabelChars(lower) && LabelKey(ns, n) && LabelKey(ns', n')
    requires GatewayObjectName(sha, lower, ns, n) == GatewayObjectName(sha, lower, ns', n')
    ensures var t, t' := "gw-" + JoinedKey(ns, n), "gw-" + JoinedKey(ns', n');
      || t == t'
      || (|t| > MAX_LABEL && |t'| > MAX_LABEL && sha(t)[..5] == sha(t')[..5])
      || (|t| <= MAX_LABEL < |t'| && t == TruncateWithHash(sha, t', MAX_LABEL))
      || (|t'| <= MAX_LABEL < |t| && t' == TruncateWithHash(sha, t, MAX_LABEL))
  {
    GatewayNameOf(sha, lower, ns, n);
    GatewayNameOf(sha, lower, ns', n');
    var t, t' := "gw-" + JoinedKey(ns, n), "gw-" + JoinedKey(ns', n');
    if |t| > MAX_LABEL && |t'| > MAX_LABEL {
      LongNamesFollowDigest(sha, t, t');
    }
  }

  /** Joining merges keys: two Gateways can share every infra name. */
  lemma GatewayNamesCollide(sha: Digest, lower: char -> char)
    ensures GatewayObjectName(sha, lower, "a-b", "c") == GatewayObjectName(sha, lower, "a", "b-c")
    ensures TokenSecretName(sha, lower, "a-b", "c") == TokenSecretName(sha, lower, "a", "b-c")
  {
    assert "a-b" + "-" + "c" == "a" + "-" + "b-c";
    GatewayRaw("a-b", "c");
    GatewayRaw("a", "b-c");
    TokenRaw("a-b", "c");
    TokenRaw("a", "b-c");
  }
}
