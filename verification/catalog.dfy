/**
 The provider catalog: every (auth-object kind, method) pair the operator
 supports, paired with the provider variant that serves it, as one table.

 This is the reference against which the dispatcher's nested switch is checked:
 the table is written in the order of the advertised method list, so its
 methods are that list entry by entry.
 */
module Catalog {
  import opened MethodNames

  /** A lookup result: the value found, or nothing. */
  datatype Option<+T> = None | Some(value: T)

  /** The auth-object kinds the dispatcher recognises. */
  datatype AuthKind = Vault | HCP

  /** The concrete credential-provider variants. */
  datatype ProviderKind =
    | JWT
    | AppRole
    | Kubernetes
    | AWS
    | GCP
    | ServicePrincipal
  {
    /** The kind of auth object a variant belongs to. */
    function Family(): AuthKind {
      if ServicePrincipal? then HCP else Vault
    }
  }

  /** The method identifier a provider variant implements. */
  function MethodOf(c: Constants, p: ProviderKind): string {
    match p
    case JWT => c.jwt
    case AppRole => c.appRole
    case Kubernetes => c.kubernetes
    case AWS => c.aws
    case GCP => c.gcp
    case ServicePrincipal => c.servicePrincipal
  }

  datatype Entry = Entry(kind: AuthKind, authMethod: string, provider: ProviderKind)

  ghost predicate Matches(e: Entry, k: AuthKind, m: string) {
    e.kind == k && e.authMethod == m
  }

  /** The catalog, one entry per advertised method, in the advertised order. */
  function Table(c: Constants): (t: seq<Entry>)
    ensures |t| == |ProviderMethodsSupported(c)|
    ensures forall i :: 0 <= i < |t| ==> t[i].authMethod == ProviderMethodsSupported(c)[i]
    ensures forall i :: 0 <= i < |t| ==> t[i].authMethod == MethodOf(c, t[i].provider)
    ensures forall i :: 0 <= i < |t| ==> t[i].kind == t[i].provider.Family()
    ensures forall p: ProviderKind :: Entry(p.Family(), MethodOf(c, p), p) in t
  {
    var t := [
      Entry(Vault, c.kubernetes, Kubernetes),
      Entry(Vault, c.jwt, JWT),
      Entry(Vault, c.appRole, AppRole),
      Entry(Vault, c.aws, AWS),
      Entry(Vault, c.gcp, GCP),
      Entry(HCP, c.servicePrincipal, ServicePrincipal)
    ];
    assert t[0].provider == Kubernetes && t[1].provider == JWT && t[2].provider == AppRole;
    assert t[3].provider == AWS && t[4].provider == GCP && t[5].provider == ServicePrincipal;
    t
  }

  /**
   The provider of the first entry of `t` keyed by (k, m), or None when no
   entry has that key.
   */
  function Lookup(t: seq<Entry>, k: AuthKind, m: string): (r: Option<ProviderKind>)
    ensures r.None? <==> forall i :: 0 <= i < |t| ==> !Matches(t[i], k, m)
    ensures r.Some? ==>
      exists i :: && 0 <= i < |t| && Matches(t[i], k, m) && t[i].provider == r.value
                  && (forall j :: 0 <= j < i ==> !Matches(t[j], k, m))
  {
    if |t| == 0 then None
    else if t[0].kind == k && t[0].authMethod == m then Some(t[0].provider)
    else
      var r := Lookup(t[1..], k, m);
      assert forall i :: 1 <= i < |t| ==> t[i] == t[1..][i - 1];
      r
  }

}
