/** The Istiod rendering as far as it depends on the certificate names: sort and
    deduplicate, one volume and mount per name, and the hash that rolls the pods. */
module CertSet {
  import opened Names

  // ----- the order of sort.Strings -----

  predicate Less(a: string, b: string) {
    if b == "" then false
    else if a == "" then true
    else a[0] < b[0] || (a[0] == b[0] && Less(a[1..], b[1..]))
  }

  lemma {:induction false} LessIrreflexive(a: string)
    ensures !Less(a, a)
  {
    if a != "" {
      LessIrreflexive(a[1..]);
    }
  }

  lemma {:induction false} LessTransitive(a: string, b: string, c: string)
    requires Less(a, b) && Less(b, c)
    ensures Less(a, c)
  {
    if a != "" && a[0] == b[0] == c[0] {
      LessTransitive(a[1..], b[1..], c[1..]);
    }
  }

  lemma {:induction false} LessTotal(a: string, b: string)
    ensures a == b || Less(a, b) || Less(b, a)
  {
    if a != "" && b != "" && a[0] == b[0] {
      LessTotal(a[1..], b[1..]);
      assert a == [a[0]] + a[1..] && b == [b[0]] + b[1..];
    }
  }

  predicate StrictlySorted(s: seq<string>) {
    forall i, j :: 0 <= i < j < |s| ==> Less(s[i], s[j])
  }

  function Insert(x: string, s: seq<string>): seq<string> {
    if s == [] then [x]
    else if Less(x, s[0]) then [x] + s
    else [s[0]] + Insert(x, s[1..])
  }

  function Sort(s: seq<string>): seq<string> {
    if s == [] then [] else Insert(s[0], Sort(s[1..]))
  }

  lemma BelowAll(x: string, s: seq<string>)
    requires StrictlySorted(s) && s != [] && Less(x, s[0])
    ensures forall j :: 0 <= j < |s| ==> Less(x, s[j])
  {
    forall j | 0 < j < |s| ensures Less(x, s[j]) {
      LessTransitive(x, s[0], s[j]);
    }
  }

  lemma ConsSorted(x: string, s: seq<string>)
    requires StrictlySorted(s) && forall j :: 0 <= j < |s| ==> Less(x, s[j])
    ensures StrictlySorted([x] + s)
  {
  }

  lemma {:induction false} InsertKeepsElements(x: string, s: seq<string>)
    ensures multiset(Insert(x, s)) == multiset(s) + multiset{x}
  {
    if s != [] {
      InsertKeepsElements(x, s[1..]);
      assert s == [s[0]] + s[1..];
    }
  }

  lemma {:induction false} InsertFacts(x: string, s: seq<string>)
    requires StrictlySorted(s) && x !in s
    ensures StrictlySorted(Insert(x, s)) && multiset(Insert(x, s)) == multiset(s) + multiset{x}
  {
    InsertKeepsElements(x, s);
    if s != [] && Less(x, s[0]) {
      BelowAll(x, s);
      ConsSorted(x, s);
    } else if s != [] {
      LessTotal(x, s[0]);
      InsertFacts(x, s[1..]);
      var t := Insert(x, s[1..]);
      forall j | 0 <= j < |t| ensures Less(s[0], t[j]) {
        assert t[j] in multiset(t);
        if t[j] != x {
          assert t[j] in s[1..];
        }
      }
      ConsSorted(s[0], t);
    }
  }

  predicate Distinct(s: seq<string>) {
    forall i, j :: 0 <= i < j < |s| ==> s[i] != s[j]
  }

  lemma {:induction false} SortKeepsElements(s: seq<string>)
    ensures multiset(Sort(s)) == multiset(s)
  {
    if s != [] {
      SortKeepsElements(s[1..]);
      InsertKeepsElements(s[0], Sort(s[1..]));
      assert s == [s[0]] + s[1..];
    }
  }

  lemma SameMembers(a: seq<string>, b: seq<string>, x: string)
    requires multiset(a) == multiset(b)
    ensures x in a <==> x in b
  {
    assert x in a <==> x in multiset(a);
    assert x in b <==> x in multiset(b);
  }

  lemma {:induction false} SortFacts(s: seq<string>)
    requires Distinct(s)
    ensures StrictlySorted(Sort(s)) && multiset(Sort(s)) == multiset(s)
  {
    SortKeepsElements(s);
    if s != [] {
      SortFacts(s[1..]);
      SameMembers(Sort(s[1..]), s[1..], s[0]);
      InsertFacts(s[0], Sort(s[1..]));
    }
  }

  /** Strictly increasing, with exactly the non-empty names. */
  ghost predicate IsSortedSet(r: seq<string>, names: seq<string>) {
    StrictlySorted(r) && forall x :: x in r <==> x in names && x != ""
  }

  /** `sortedUniq`: the seen-set loop, then the sort. */
  method SortedUniq(names: seq<string>) returns (r: seq<string>)
    ensures IsSortedSet(r, names)
  {
    if |names| == 0 {
      return [];
    }
    var seen: set<string> := {};
    var out: seq<string> := [];
    for i := 0 to |names|
      invariant Distinct(out)
      invariant forall x :: x in seen <==> x in out
      invariant forall x :: x in out <==> x in names[..i] && x != ""
    {
      assert names[..i + 1] == names[..i] + [names[i]];
      if names[i] == "" {
        continue;
      }
      if names[i] in seen {
        continue;
      }
      seen := seen + {names[i]};
      out := out + [names[i]];
    }
    assert names[..|names|] == names;
    SortFacts(out);
    r := Sort(out);
    assert forall x :: x in r <==> x in multiset(r);
    assert forall x :: x in out <==> x in multiset(out);
  }

  /** A strictly increasing list is determined by its elements. */
  lemma {:induction false} SortedUnique(a: seq<string>, b: seq<string>)
    requires StrictlySorted(a) && StrictlySorted(b) && forall x :: x in a <==> x in b
    ensures a == b
  {
    HeadIn(a);
    HeadIn(b);
    if a != [] && b != [] {
      SameLeast(a, b);
      forall x ensures x in a[1..] <==> x in b[1..] {
        LessIrreflexive(a[0]);
        assert x in a <==> x == a[0] || x in a[1..];
        assert x in b <==> x == b[0] || x in b[1..];
      }
      SortedUnique(a[1..], b[1..]);
      assert a == [a[0]] + a[1..] && b == [b[0]] + b[1..];
    }
  }

  lemma HeadIn(s: seq<string>)
    ensures s != [] ==> s[0] in s
  {
  }

  lemma SameLeast(a: seq<string>, b: seq<string>)
    requires StrictlySorted(a) && StrictlySorted(b) && (forall x :: x in a <==> x in b) && a != [] && b != []
    ensures a[0] == b[0]
  {
    assert a[0] in b && b[0] in a;
    if a[0] != b[0] {
      LessIrreflexive(a[0]);
      LessTransitive(a[0], b[0], a[0]);
    }
  }

  // ----- the rendering -----

  datatype Volume = Volume(name: string, secretName: string)

  datatype Mount = Mount(name: string, path: string)

  /** The parts of the Istiod pod template that the certificate names decide. */
  datatype IstiodPod = IstiodPod(volumes: seq<Volume>, mounts: seq<Mount>, certHash: string)

  const TLS_MOUNT_ROOT := "/var/run/tls"
  const KUBECONFIG_VOLUME := "member-kubeconfig"
  const CACERTS_VOLUME := "cacerts"

  function MountPath(n: string): string {
    TLS_MOUNT_ROOT + "/" + n
  }

  function VolumeName(sha: Digest, lower: char -> char, n: string): string {
    Label(sha, lower, ["tls", n])
  }

  function CertHash(sha: Digest, sorted: seq<string>): string {
    if sorted == [] then "none" else HexEncode(sha(Join(sorted, ","))[..8])
  }

  ghost predicate IsRendering(sha: Digest, lower: char -> char, kubeconfig: string, names: seq<string>,
                              pod: IstiodPod) {
    exists certs :: IsSortedSet(certs, names) && pod == PodFor(sha, lower, kubeconfig, certs)
  }

  function TlsVolume(sha: Digest, lower: char -> char, n: string): Volume {
    Volume(VolumeName(sha, lower, n), n)
  }

  function TlsMount(sha: Digest, lower: char -> char, n: string): Mount {
    Mount(VolumeName(sha, lower, n), MountPath(n))
  }

  function TlsVolumes(sha: Digest, lower: char -> char, certs: seq<string>): seq<Volume> {
    seq(|certs|, i requires 0 <= i < |certs| => TlsVolume(sha, lower, certs[i]))
  }

  function TlsMounts(sha: Digest, lower: char -> char, certs: seq<string>): seq<Mount> {
    seq(|certs|, i requires 0 <= i < |certs| => TlsMount(sha, lower, certs[i]))
  }

  function PodFor(sha: Digest, lower: char -> char, kubeconfig: string, certs: seq<string>): IstiodPod {
    IstiodPod(
      [Volume(KUBECONFIG_VOLUME, kubeconfig), Volume(CACERTS_VOLUME, "cacerts")] + TlsVolumes(sha, lower, certs),
      [Mount(KUBECONFIG_VOLUME, "/var/run/member"), Mount(CACERTS_VOLUME, "/etc/cacerts")]
        + TlsMounts(sha, lower, certs),
      CertHash(sha, certs))
  }

  method RenderCert(sha: Digest, lower: char -> char, n: string) returns (volume: Volume, mount: Mount)
    ensures volume == TlsVolume(sha, lower, n) && mount == TlsMount(sha, lower, n)
  {
    var volName := SafeDNSLabel(sha, lower, ["tls", n]);
    volume := Volume(volName, n);
    mount := Mount(volName, TLS_MOUNT_ROOT + "/" + n);
  }

  /** The volume and mount loop of `IstiodDeployment`. */
  method RenderTls(sha: Digest, lower: char -> char, certs: seq<string>)
    returns (volumes: seq<Volume>, mounts: seq<Mount>)
    ensures volumes == TlsVolumes(sha, lower, certs) && mounts == TlsMounts(sha, lower, certs)
  {
    volumes, mounts := [], [];
    for i := 0 to |certs|
      invariant |volumes| == |mounts| == i
      invariant forall k :: 0 <= k < i ==>
        volumes[k] == TlsVolume(sha, lower, certs[k]) && mounts[k] == TlsMount(sha, lower, certs[k])
    {
      var volume, mount := RenderCert(sha, lower, certs[i]);
      volumes := volumes + [volume];
      mounts := mounts + [mount];
    }
  }

  /** `tlsCertHash`, which sorts once more. */
  method TlsCertHash(sha: Digest, names: seq<string>) returns (hash: string)
    ensures StrictlySorted(names) && "" !in names ==> hash == CertHash(sha, names)
  {
    if |names| == 0 {
      return "none";
    }
    var sorted := SortedUniq(names);
    if StrictlySorted(names) && "" !in names {
      SortedUnique(sorted, names);
    }
    hash := HexEncode(sha(Join(sorted, ","))[..8]);
  }

  /** `IstiodDeployment`, as far as the certificate names decide it. */
  method RenderIstiod(sha: Digest, lower: char -> char, kubeconfig: string, names: seq<string>) returns (pod: IstiodPod)
    ensures IsRendering(sha, lower, kubeconfig, names, pod)
  {
    var certs := SortedUniq(names);
    var volumes, mounts := RenderTls(sha, lower, certs);
    var hash := TlsCertHash(sha, certs);
    pod := IstiodPod(
      [Volume(KUBECONFIG_VOLUME, kubeconfig), Volume(CACERTS_VOLUME, "cacerts")] + volumes,
      [Mount(KUBECONFIG_VOLUME, "/var/run/member"), Mount(CACERTS_VOLUME, "/etc/cacerts")] + mounts,
      hash);
    assert pod == PodFor(sha, lower, kubeconfig, certs);
  }

  /** The rendering depends on the set of certificate names only: any order and any
      repetition of the Gateways and references gives the identical pod template. */
  lemma RenderingDependsOnSet(sha: Digest, lower: char -> char, kubeconfig: string, a: seq<string>, b: seq<string>,
                              p: IstiodPod, q: IstiodPod)
    requires IsRendering(sha, lower, kubeconfig, a, p) && IsRendering(sha, lower, kubeconfig, b, q)
    requires forall x :: x != "" ==> (x in a <==> x in b)
    ensures p == q
  {
    var ca :| IsSortedSet(ca, a) && p == PodFor(sha, lower, kubeconfig, ca);
    var cb :| IsSortedSet(cb, b) && q == PodFor(sha, lower, kubeconfig, cb);
    SortedUnique(ca, cb);
  }

  predicate MountedAt(pod: IstiodPod, i: int, n: string) {
    && 2 <= i < |pod.volumes| == |pod.mounts| && pod.volumes[i].secretName == n
    && pod.mounts[i] == Mount(pod.volumes[i].name, "/var/run/tls/" + n)
  }

  lemma MountPathIs(n: string)
    ensures MountPath(n) == "/var/run/tls/" + n
  {
    assert TLS_MOUNT_ROOT + "/" == "/var/run/tls/";
  }

  lemma PodMounts(sha: Digest, lower: char -> char, kubeconfig: string, certs: seq<string>, k: nat)
    requires k < |certs|
    ensures MountedAt(PodFor(sha, lower, kubeconfig, certs), k + 2, certs[k])
  {
    PodIndex(sha, lower, kubeconfig, certs, k);
    MountPathIs(certs[k]);
  }

  lemma PodIndex(sha: Digest, lower: char -> char, kubeconfig: string, certs: seq<string>, k: nat)
    requires k < |certs|
    ensures var pod := PodFor(sha, lower, kubeconfig, certs);
      && |pod.volumes| == |pod.mounts| == |certs| + 2
      && pod.volumes[k + 2] == TlsVolume(sha, lower, certs[k]) && pod.mounts[k + 2] == TlsMount(sha, lower, certs[k])
  {
    assert TlsVolumes(sha, lower, certs)[k] == TlsVolume(sha, lower, certs[k]);
    assert TlsMounts(sha, lower, certs)[k] == TlsMount(sha, lower, certs[k]);
  }

  /** What the rendering has besides the certificates, and the hash annotation: `none` without
      certificates, and otherwise the first eight digest bytes of their joined names. */
  lemma PodShape(sha: Digest, lower: char -> char, kubeconfig: string, names: seq<string>, pod: IstiodPod,
                 certs: seq<string>)
    requires IsRendering(sha, lower, kubeconfig, names, pod) && IsSortedSet(certs, names)
    ensures |pod.volumes| == |pod.mounts| == |certs| + 2
    ensures pod.volumes[..2] == [Volume("member-kubeconfig", kubeconfig), Volume("cacerts", "cacerts")]
    ensures pod.mounts[..2] == [Mount("member-kubeconfig", "/var/run/member"), Mount("cacerts", "/etc/cacerts")]
    ensures forall i :: 0 <= i < |certs| ==> MountedAt(pod, i + 2, certs[i])
    ensures pod.certHash == if certs == [] then "none" else HexEncode(sha(Join(certs, ","))[..8])
  {
    var cs :| IsSortedSet(cs, names) && pod == PodFor(sha, lower, kubeconfig, cs);
    SortedUnique(cs, certs);
    forall i | 0 <= i < |certs| ensures MountedAt(pod, i + 2, certs[i]) {
      PodMounts(sha, lower, kubeconfig, certs, i);
    }
    PodFixed(sha, lower, kubeconfig, certs);
  }

  lemma PodFixed(sha: Digest, lower: char -> char, kubeconfig: string, certs: seq<string>)
    ensures var pod := PodFor(sha, lower, kubeconfig, certs);
      && |pod.volumes| == |pod.mounts| == |certs| + 2
      && pod.volumes[..2] == [Volume("member-kubeconfig", kubeconfig), Volume("cacerts", "cacerts")]
      && pod.mounts[..2] == [Mount("member-kubeconfig", "/var/run/member"), Mount("cacerts", "/etc/cacerts")]
  {
  }

  /** Each certificate is mounted, from the Secret of its name, at its own path. */
  lemma EveryCertIsMounted(sha: Digest, lower: char -> char, kubeconfig: string, names: seq<string>, pod: IstiodPod,
                           n: string)
    requires IsRendering(sha, lower, kubeconfig, names, pod) && n in names && n != ""
    ensures exists i :: MountedAt(pod, i, n)
  {
    var certs :| IsSortedSet(certs, names) && pod == PodFor(sha, lower, kubeconfig, certs);
    var k :| 0 <= k < |certs| && certs[k] == n;
    PodMounts(sha, lower, kubeconfig, certs, k);
  }

  lemma MountPathInjective(a: string, b: string)
    ensures MountPath(a) == MountPath(b) ==> a == b
  {
    assert MountPath(a)[|TLS_MOUNT_ROOT| + 1..] == a && MountPath(b)[|TLS_MOUNT_ROOT| + 1..] == b;
  }

  lemma SortedIsDistinct(s: seq<string>, i: nat, j: nat)
    requires StrictlySorted(s) && i < |s| && j < |s| && i != j
    ensures s[i] != s[j]
  {
    LessIrreflexive(s[i]);
  }

  lemma MountPathIsOwn(n: string)
    ensures MountPath(n) != "/var/run/member" && MountPath(n) != "/etc/cacerts"
  {
    assert MountPath(n)[9] == 't' && "/var/run/member"[9] == 'm';
    assert MountPath(n)[1] == 'v' && "/etc/cacerts"[1] == 'e';
  }

  /** No two mounts share a path, whatever the names, and none takes a fixed path. */
  lemma MountPathsDistinct(sha: Digest, lower: char -> char, certs: seq<string>, i: nat, j: nat)
    requires StrictlySorted(certs) && i < |certs| && j < |certs|
    ensures var ms := TlsMounts(sha, lower, certs);
      && (i != j ==> ms[i].path != ms[j].path)
      && ms[i].path != "/var/run/member" && ms[i].path != "/etc/cacerts"
  {
    MountPathIsOwn(certs[i]);
    MountPathInjective(certs[i], certs[j]);
    if i != j {
      SortedIsDistinct(certs, i, j);
    }
  }

  lemma ShortVolumeName(sha: Digest, lower: char -> char, n: string)
    requires KeepsLabelChars(lower) && DnsLabel(n) && |n| <= 59
    ensures VolumeName(sha, lower, n) == "tls-" + n
  {
    assert ["tls", n][1..] == [n];
    assert Join(["tls", n], "-") == "tls-" + n;
    LabelOfLabel(sha, lower, ["tls", n]);
  }

  predicate ShortLabel(n: string) {
    DnsLabel(n) && |n| <= 59
  }

  lemma VolumeNameIsOwn(sha: Digest, lower: char -> char, n: string, m: string)
    requires KeepsLabelChars(lower) && ShortLabel(n) && ShortLabel(m)
    ensures VolumeName(sha, lower, n) != KUBECONFIG_VOLUME && VolumeName(sha, lower, n) != CACERTS_VOLUME
    ensures n != m ==> VolumeName(sha, lower, n) != VolumeName(sha, lower, m)
  {
    ShortVolumeName(sha, lower, n);
    ShortVolumeName(sha, lower, m);
    assert ("tls-" + n)[0] == 't' && KUBECONFIG_VOLUME[0] == 'm' && CACERTS_VOLUME[0] == 'c';
    assert ("tls-" + n)[4..] == n && ("tls-" + m)[4..] == m;
  }

  /** For label names of at most 59 characters all volume names are different, from each
      other and from the two fixed ones. */
  lemma VolumeNamesDistinct(sha: Digest, lower: char -> char, certs: seq<string>, i: nat, j: nat)
    requires StrictlySorted(certs) && i < |certs| && j < |certs|
    requires KeepsLabelChars(lower) && forall k :: 0 <= k < |certs| ==> ShortLabel(certs[k])
    ensures var vs := TlsVolumes(sha, lower, certs);
      && (i != j ==> vs[i].name != vs[j].name)
      && vs[i].name != KUBECONFIG_VOLUME && vs[i].name != CACERTS_VOLUME
  {
    if i != j {
      SortedIsDistinct(certs, i, j);
    }
    VolumeNameIsOwn(sha, lower, certs[i], certs[j]);
  }

  /** A Secret name with alphanumeric ends that leaves room for the prefix. */
  predicate ShortName(n: string) {
    n != "" && Alnum(n[0]) && Alnum(n[|n| - 1]) && |n| <= 59
  }

  lemma VolumeNameOf(sha: Digest, lower: char -> char, n: string)
    requires KeepsLabelChars(lower) && ShortName(n)
    ensures VolumeName(sha, lower, n) == "tls-" + Sanitize(lower, n)
  {
    assert ["tls", n][1..] == [n];
    assert Join(["tls", n], "-") == "tls-" + n;
    var s := Sanitize(lower, "tls-" + n);
    assert s == "tls-" + Sanitize(lower, n);
    TrimLeftAbsent(s, {'-'});
    TrimRightAbsent(s, {'-'});
  }

  /** Exactly when two Secrets get one volume name: when sanitising makes them equal. */
  lemma VolumeNamesEqualIff(sha: Digest, lower: char -> char, n: string, m: string)
    requires KeepsLabelChars(lower) && ShortName(n) && ShortName(m)
    ensures VolumeName(sha, lower, n) == VolumeName(sha, lower, m) <==> Sanitize(lower, n) == Sanitize(lower, m)
  {
    VolumeNameOf(sha, lower, n);
    VolumeNameOf(sha, lower, m);
    var s, t := Sanitize(lower, n), Sanitize(lower, m);
    assert ("tls-" + s)[4..] == s && ("tls-" + t)[4..] == t;
  }

  /** With dots in the names there are such pairs: Secrets `a.b` and `a-b`. */
  lemma VolumeNamesCollide(sha: Digest, lower: char -> char)
    requires KeepsLabelChars(lower) && lower('.') == '.'
    ensures VolumeName(sha, lower, "a.b") == VolumeName(sha, lower, "a-b")
  {
    assert ["tls", "a.b"][1..] == ["a.b"] && ["tls", "a-b"][1..] == ["a-b"];
    assert Join(["tls", "a.b"], "-") == "tls-a.b" && Join(["tls", "a-b"], "-") == "tls-a-b";
    assert Sanitize(lower, "tls-a.b") == "tls-a-b" == Sanitize(lower, "tls-a-b");
  }

  // ----- the hash follows the set -----

  predicate CommaFree(s: seq<string>) {
    forall i :: 0 <= i < |s| ==> s[i] != "" && ',' !in s[i]
  }

  lemma CutAtComma(x: string, a: string, y: string, b: string)
    requires ',' !in x && ',' !in y && x + "," + a == y + "," + b
    ensures x == y && a == b
  {
    var s := x + "," + a;
    assert s == y + "," + b;
    assert s[|x|] == ',' && s[|y|] == ',';
    assert forall k :: 0 <= k < |x| ==> s[k] == x[k] && s[k] != ',';
    assert forall k :: 0 <= k < |y| ==> s[k] == y[k] && s[k] != ',';
    assert s[..|x|] == x && s[..|y|] == y;
    assert s[|x| + 1..] == a && s[|y| + 1..] == b;
  }

  /** The hashed text determines the list of names. */
  lemma {:induction false} JoinInjective(a: seq<string>, b: seq<string>)
    requires CommaFree(a) && CommaFree(b) && Join(a, ",") == Join(b, ",")
    ensures a == b
  {
    if a == [] || b == [] {
      JoinEmpty(a);
      JoinEmpty(b);
    } else if |a| == 1 || |b| == 1 {
      JoinCommas(a);
      JoinCommas(b);
    } else {
      CutAtComma(a[0], Join(a[1..], ","), b[0], Join(b[1..], ","));
      JoinInjective(a[1..], b[1..]);
      assert a == [a[0]] + a[1..] && b == [b[0]] + b[1..];
    }
  }

  lemma JoinEmpty(a: seq<string>)
    requires CommaFree(a)
    ensures Join(a, ",") == "" <==> a == []
  {
  }

  lemma JoinCommas(a: seq<string>)
    requires CommaFree(a)
    ensures ',' in Join(a, ",") <==> |a| > 1
  {
    if |a| > 1 {
      assert Join(a, ",")[|a[0]|] == ',';
    }
  }

  /** A membership change rolls the pods: equal hash annotations mean equal certificate
      sets, unless two different texts share their first eight digest bytes. */
  lemma HashFollowsSet(sha: Digest, a: seq<string>, b: seq<string>)
    requires CommaFree(a) && CommaFree(b) && CertHash(sha, a) == CertHash(sha, b)
    ensures a == b || (Join(a, ",") != Join(b, ",") && sha(Join(a, ","))[..8] == sha(Join(b, ","))[..8])
  {
    HexIsAlnum(sha(Join(a, ","))[..8]);
    HexIsAlnum(sha(Join(b, ","))[..8]);
    assert |CertHash(sha, a)| == (if a == [] then 4 else 16);
    assert |CertHash(sha, b)| == (if b == [] then 4 else 16);
    if a != [] && b != [] {
      HexInjective(sha(Join(a, ","))[..8], sha(Join(b, ","))[..8]);
      if Join(a, ",") == Join(b, ",") {
        JoinInjective(a, b);
      }
    }
  }
}
