/** Cross-namespace references. The status writer and the gateway reconciler each have
    their own grant test; both are shown to decide the same `ReferenceGrant` meaning. */
module ReferenceGrants {
  import opened GatewayApi

  // ----- the meaning: one from entry and one to entry of the same grant -----

  predicate FromMatches(f: GrantFrom, group: string, kind: string, namespace: string) {
    f.group == group && f.kind == kind && f.namespace == namespace
  }

  predicate ToMatches(t: GrantTo, group: string, kind: string, name: string) {
    t.group == group && t.kind == kind && (t.name.None? || t.name.value == name)
  }

  predicate Grants(g: ReferenceGrant, from: GrantFrom, toGroup: string, toKind: string, toName: string) {
    && (exists i :: 0 <= i < |g.from| && FromMatches(g.from[i], from.group, from.kind, from.namespace))
    && (exists j :: 0 <= j < |g.to| && ToMatches(g.to[j], toGroup, toKind, toName))
  }

  // ----- the two tests, as written -----

  /** `referenceGrantAllows`: a flag from the first loop, then the second loop. */
  method ReferenceGrantAllows(g: ReferenceGrant, from: GrantFrom, toGroup: string, toKind: string, toName: string)
    returns (allowed: bool)
    ensures allowed <==> Grants(g, from, toGroup, toKind, toName)
  {
    var fromAllowed := false;
    for i := 0 to |g.from|
      invariant !fromAllowed && forall k :: 0 <= k < i ==>
        !FromMatches(g.from[k], from.group, from.kind, from.namespace)
    {
      if g.from[i].group == from.group && g.from[i].kind == from.kind && g.from[i].namespace == from.namespace {
        fromAllowed := true;
        break;
      }
    }
    if !fromAllowed {
      return false;
    }
    for j := 0 to |g.to|
      invariant forall k :: 0 <= k < j ==> !ToMatches(g.to[k], toGroup, toKind, toName)
    {
      var t := g.to[j];
      if t.group == toGroup && t.kind == toKind && (t.name == None || t.name.value == toName) {
        return true;
      }
    }
    allowed := false;
  }

  /** `gatewayReferenceGrantAllows`: the to loop nested in the from loop, for Gateways
      referring to Secrets. */
  method GatewayReferenceGrantAllows(g: ReferenceGrant, fromNamespace: string, toName: string) returns (allowed: bool)
    ensures allowed <==> Grants(g, GrantFrom(GATEWAY_GROUP, "Gateway", fromNamespace), "", "Secret", toName)
  {
    for i := 0 to |g.from|
      invariant forall k :: 0 <= k < i && FromMatches(g.from[k], GATEWAY_GROUP, "Gateway", fromNamespace) ==>
        forall j :: 0 <= j < |g.to| ==> !ToMatches(g.to[j], "", "Secret", toName)
    {
      var f := g.from[i];
      if f.group != GATEWAY_GROUP || f.kind != "Gateway" || f.namespace != fromNamespace {
        continue;
      }
      for j := 0 to |g.to|
        invariant forall k :: 0 <= k < j ==> !ToMatches(g.to[k], "", "Secret", toName)
      {
        var t := g.to[j];
        if t.group == "" && t.kind == "Secret" && (t.name == None || t.name.value == toName) {
          return true;
        }
      }
    }
    allowed := false;
  }

  /** A reference is permitted within a namespace, or by a grant listed in the target
      namespace; a failed list permits nothing. */
  predicate Permitted(grants: Fetched<seq<ReferenceGrant>>, from: GrantFrom, toGroup: string, toKind: string,
                      toNamespace: string, toName: string) {
    || from.namespace == toNamespace
    || (grants.Found? && exists i :: 0 <= i < |grants.value| && Grants(grants.value[i], from, toGroup, toKind, toName))
  }

  method ReferencePermitted(grants: Fetched<seq<ReferenceGrant>>, from: GrantFrom, toGroup: string, toKind: string,
                            toNamespace: string, toName: string) returns (permitted: bool)
    ensures permitted <==> Permitted(grants, from, toGroup, toKind, toNamespace, toName)
  {
    if from.namespace == toNamespace {
      return true;
    }
    if !grants.Found? {
      return false;
    }
    for i := 0 to |grants.value|
      invariant forall k :: 0 <= k < i ==> !Grants(grants.value[k], from, toGroup, toKind, toName)
    {
      var allowed := ReferenceGrantAllows(grants.value[i], from, toGroup, toKind, toName);
      if allowed {
        return true;
      }
    }
    permitted := false;
  }

  method GatewaySecretReferencePermitted(grants: Fetched<seq<ReferenceGrant>>, gatewayNamespace: string, ref: SecretRef)
    returns (permitted: bool)
    ensures permitted <==> Permitted(grants, GrantFrom(GATEWAY_GROUP, "Gateway", gatewayNamespace), "", "Secret",
                                     ref.namespace.GetOr(gatewayNamespace), ref.name)
  {
    var namespace := ref.namespace.GetOr(gatewayNamespace);
    if namespace == gatewayNamespace {
      return true;
    }
    if !grants.Found? {
      return false;
    }
    for i := 0 to |grants.value|
      invariant forall k :: 0 <= k < i ==>
        !Grants(grants.value[k], GrantFrom(GATEWAY_GROUP, "Gateway", gatewayNamespace), "", "Secret", ref.name)
    {
      var allowed := GatewayReferenceGrantAllows(grants.value[i], gatewayNamespace, ref.name);
      if allowed {
        return true;
      }
    }
    permitted := false;
  }
}
