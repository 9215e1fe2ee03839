/** Hostname intersection between a listener and a route, against what it means: some
    concrete hostname is served by both. */
module Hostnames {
  import opened GatewayApi
  import opened Names

  predicate HasSuffix(s: string, x: string) {
    |x| <= |s| && s[|s| - |x|..] == x
  }

  predicate HostnamesIntersect(a: string, b: string) {
    || a == b || a == "" || b == ""
    || ("*." <= a && HasSuffix(b, a[1..]) && b != a[2..])
    || ("*." <= b && HasSuffix(a, b[1..]) && a != b[2..])
  }

  predicate RouteHostnamesIntersect(listener: Option<string>, routes: seq<string>) {
    listener.None? || routes == [] ||
    exists i :: 0 <= i < |routes| && HostnamesIntersect(listener.value, routes[i])
  }

  // ----- what the Gateway API promises -----

  /** A concrete hostname: dot-separated lower-case RFC 1123 labels. */
  predicate Host(h: string) {
    && h != "" && Alnum(h[0]) && Alnum(h[|h| - 1])
    && (forall i :: 0 <= i < |h| ==> Alnum(h[i]) || h[i] == '-' || h[i] == '.')
    && forall i :: 0 < i < |h| - 1 && h[i] == '.' ==> Alnum(h[i - 1]) && Alnum(h[i + 1])
  }

  /** Unset, concrete, or a wildcard over a concrete suffix. */
  predicate ValidPattern(p: string) {
    p == "" || Host(p) || ("*." <= p && Host(p[2..]))
  }

  /** A wildcard needs at least one more, non-empty, label in front of its suffix. */
  predicate Matches(p: string, h: string) {
    if p == "" then true
    else if "*." <= p then HasSuffix(h, p[1..]) && |h| > |p[1..]|
    else p == h
  }

  ghost predicate Common(a: string, b: string) {
    exists h :: Host(h) && Matches(a, h) && Matches(b, h)
  }

  lemma WildcardIsNotHost(p: string)
    requires "*." <= p
    ensures p[0] == '*' && p[1] == '.' && !Host(p) && p != ""
  {
  }

  /** A hostname that a valid pattern matches. */
  function Sample(p: string): (h: string)
    requires ValidPattern(p)
    ensures Host(h) && Matches(p, h)
  {
    if p == "" then "a"
    else if "*." <= p then
      WildcardIsNotHost(p);
      var h := "a" + p[1..];
      assert h[|h| - |p[1..]|..] == p[1..];
      assert forall i :: 2 <= i < |h| ==> h[i] == p[2..][i - 2];
      h
    else p
  }

  lemma SuffixOfSuffix(h: string, x: string, y: string)
    requires HasSuffix(h, x) && HasSuffix(h, y) && |x| <= |y|
    ensures HasSuffix(y, x)
  {
    assert y[|y| - |x|..] == h[|h| - |x|..];
  }

  lemma SuffixTrans(s: string, y: string, x: string)
    requires HasSuffix(s, y) && HasSuffix(y, x)
    ensures HasSuffix(s, x)
  {
    assert s[|s| - |x|..] == y[|y| - |x|..];
  }

  /** One direction of a wildcard: it covers the other pattern's sample. */
  lemma WildcardCovers(a: string, b: string)
    requires ValidPattern(a) && ValidPattern(b) && "*." <= a && b != ""
    requires HasSuffix(b, a[1..])
    ensures Matches(a, Sample(b))
  {
    WildcardIsNotHost(a);
    if "*." <= b {
      WildcardIsNotHost(b);
      assert |a[1..]| != |b|;
      assert HasSuffix(b[1..], a[1..]) by {
        assert HasSuffix(b, b[1..]);
        SuffixOfSuffix(b, a[1..], b[1..]);
      }
      SuffixTrans(Sample(b), b[1..], a[1..]);
    } else {
      assert |a[1..]| != |b|;
    }
  }

  lemma WildcardsWithCommonHost(a: string, b: string, h: string)
    requires ValidPattern(a) && ValidPattern(b) && "*." <= a && "*." <= b && |a| <= |b|
    requires Matches(a, h) && Matches(b, h)
    ensures HostnamesIntersect(a, b)
  {
    WildcardIsNotHost(a);
    WildcardIsNotHost(b);
    SuffixOfSuffix(h, a[1..], b[1..]);
    assert HasSuffix(b, b[1..]);
    SuffixTrans(b, b[1..], a[1..]);
    assert b[0] == '*' && a[2..][0] != '*';
  }

  lemma WildcardHasCommon(a: string, b: string)
    requires ValidPattern(a) && ValidPattern(b) && "*." <= a && b != "" && HasSuffix(b, a[1..])
    ensures Common(a, b) && Common(b, a)
  {
    WildcardCovers(a, b);
    assert Host(Sample(b)) && Matches(a, Sample(b)) && Matches(b, Sample(b));
  }

  /** If the test holds, some concrete hostname matches both. */
  lemma IntersectionHasCommon(a: string, b: string)
    requires ValidPattern(a) && ValidPattern(b) && HostnamesIntersect(a, b)
    ensures Common(a, b)
  {
    if a == b || b == "" {
      assert Host(Sample(a)) && Matches(a, Sample(a)) && Matches(b, Sample(a));
    } else if a == "" {
      assert Host(Sample(b)) && Matches(a, Sample(b)) && Matches(b, Sample(b));
    } else if "*." <= a && HasSuffix(b, a[1..]) {
      WildcardHasCommon(a, b);
    } else {
      WildcardHasCommon(b, a);
    }
  }

  lemma ConcreteMatch(a: string, b: string)
    requires ValidPattern(a) && Host(b) && !("*." <= b) && a != "" && Matches(a, b)
    ensures HostnamesIntersect(a, b) && HostnamesIntersect(b, a)
  {
    if "*." <= a {
      WildcardIsNotHost(a);
    }
  }

  /** If some concrete hostname matches both, the test holds. */
  lemma CommonIntersects(a: string, b: string)
    requires ValidPattern(a) && ValidPattern(b) && Common(a, b)
    ensures HostnamesIntersect(a, b)
  {
    if a != "" && b != "" {
      var h :| Host(h) && Matches(a, h) && Matches(b, h);
      if !("*." <= b) {
        ConcreteMatch(a, b);
      } else if !("*." <= a) {
        ConcreteMatch(b, a);
      } else if |a| <= |b| {
        WildcardsWithCommonHost(a, b, h);
      } else {
        WildcardsWithCommonHost(b, a, h);
      }
    }
  }

  /** Intersection is exact: for valid patterns the test holds if and only if some
      concrete hostname matches both. */
  lemma IntersectionIsExact(a: string, b: string)
    requires ValidPattern(a) && ValidPattern(b)
    ensures HostnamesIntersect(a, b) <==> Common(a, b)
  {
    if HostnamesIntersect(a, b) {
      IntersectionHasCommon(a, b);
    }
    if Common(a, b) {
      CommonIntersects(a, b);
    }
  }

  ghost predicate ListenerServes(listener: Option<string>, h: string) {
    listener.None? || Matches(listener.value, h)
  }

  ghost predicate RouteServes(routes: seq<string>, h: string) {
    routes == [] || exists i :: 0 <= i < |routes| && Matches(routes[i], h)
  }

  ghost predicate ServedByBoth(listener: Option<string>, routes: seq<string>, h: string) {
    Host(h) && ListenerServes(listener, h) && RouteServes(routes, h)
  }

  /** The same for a listener and the whole hostname list of a route. */
  lemma RouteIntersectionIsExact(listener: Option<string>, routes: seq<string>)
    requires listener.Some? ==> ValidPattern(listener.value)
    requires forall i :: 0 <= i < |routes| ==> ValidPattern(routes[i])
    ensures RouteHostnamesIntersect(listener, routes) <==> exists h :: ServedByBoth(listener, routes, h)
  {
    var l := listener.GetOr("");
    if RouteHostnamesIntersect(listener, routes) {
      if routes == [] {
        assert ServedByBoth(listener, routes, Sample(l));
      } else {
        var i := if listener.None? then 0 else
          var k :| 0 <= k < |routes| && HostnamesIntersect(listener.value, routes[k]); k;
        IntersectionIsExact(l, routes[i]);
        var h :| Host(h) && Matches(l, h) && Matches(routes[i], h);
        assert ServedByBoth(listener, routes, h);
      }
    }
    if exists h :: ServedByBoth(listener, routes, h) {
      var h :| ServedByBoth(listener, routes, h);
      if listener.Some? && routes != [] {
        var i :| 0 <= i < |routes| && Matches(routes[i], h);
        assert Common(l, routes[i]);
        IntersectionIsExact(l, routes[i]);
      }
    }
  }
}
