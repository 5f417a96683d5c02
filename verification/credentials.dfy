/**
 The credential-provider dispatcher `NewCredentialProvider`.

 Given an auth object, the dispatcher discriminates on the object's kind
 (VaultAuth, HCPAuth, anything else), selects a provider variant from the
 object's `Spec.Method`, calls that variant's `Init` once, and returns either
 the initialized provider or an error.

 The providers' `Init` bodies do cluster and network I/O and are not part of
 this model: `Init` is the parameter `init`, and the dispatcher returns, next to
 its result, the list of `Init` calls it made, so that "Init is called at most
 once, with the caller's arguments, and never on an error path" is a property
 of the returned value.
 */
module Credentials {
  import opened MethodNames
  import opened Catalog

  /**
   The auth objects the dispatcher can be handed. `VaultAuth` and `HCPAuth`
   carry the fields of their `Spec` the dispatcher reads (`authMethod`) and
   identify the object (`namespace`, `name`); any other object type is known
   only by its type name.
   */
  datatype AuthObject =
    | VaultAuth(namespace: string, name: string, authMethod: string)
    | HCPAuth(namespace: string, name: string, authMethod: string)
    | OtherObject(typeName: string)
  {
    predicate Recognized() {
      !OtherObject?
    }

    function Kind(): AuthKind
      requires Recognized()
    {
      if VaultAuth? then Vault else HCP
    }
  }

  /** The arguments of one `Init` call, on a zero-valued provider of variant `provider`. */
  datatype InitCall<Ctx, Client> = InitCall(
    ctx: Ctx,
    client: Client,
    provider: ProviderKind,
    obj: AuthObject,
    providerNamespace: string)

  /** What a provider's `Init` produces: its initialized state, or an opaque error. */
  datatype InitOutcome<S, E> = Initialized(state: S) | InitFailed(error: E)

  /** An initialized credential provider: its variant and the state `Init` left in it. */
  datatype Provider<S> = Provider(kind: ProviderKind, state: S)

  datatype ResolveError<E> =
    | UnsupportedMethod(authMethod: string)
    | UnsupportedAuthObject(typeName: string)
    | InitError(error: E)

  /** Go's `(provider, error)` pair: a provider with a nil error, or a nil provider with an error. */
  datatype Result<S, E> = Resolved(provider: Provider<S>) | Failed(err: ResolveError<E>)

  /** The dispatcher's result together with the `Init` calls it made, in order. */
  datatype Resolution<Ctx, Client, S, E> = Resolution(
    result: Result<S, E>,
    initCalls: seq<InitCall<Ctx, Client>>)

  /** The switch on a VaultAuth's method. */
  function SelectVaultProvider(c: Constants, m: string): (r: Option<ProviderKind>)
    ensures r.None? <==> m !in c.VaultMethods()
    ensures r.Some? ==> r.value.Family() == Vault && MethodOf(c, r.value) == m
  {
    if m == c.jwt then Some(JWT)
    else if m == c.appRole then Some(AppRole)
    else if m == c.kubernetes then Some(Kubernetes)
    else if m == c.aws then Some(AWS)
    else if m == c.gcp then Some(GCP)
    else None
  }

  /** The switch on an HCPAuth's method. */
  function SelectHCPProvider(c: Constants, m: string): (r: Option<ProviderKind>)
    ensures r.None? <==> m != c.servicePrincipal
    ensures r.Some? ==> r.value.Family() == HCP && MethodOf(c, r.value) == m
  {
    if m == c.servicePrincipal then Some(ServicePrincipal) else None
  }

  /** The method switch of the object's kind. */
  function SelectProvider(c: Constants, k: AuthKind, m: string): (r: Option<ProviderKind>)
    ensures r.None? <==> (if k == Vault then m !in c.VaultMethods() else m != c.servicePrincipal)
    ensures r.Some? ==> r.value.Family() == k && MethodOf(c, r.value) == m
  {
    match k
    case Vault => SelectVaultProvider(c, m)
    case HCP => SelectHCPProvider(c, m)
  }

  /** Call `Init` on the selected variant and turn its outcome into the dispatcher's result. */
  function InitProvider<Ctx, Client, S, E>(
    call: InitCall<Ctx, Client>,
    init: InitCall<Ctx, Client> -> InitOutcome<S, E>
  ): (out: Resolution<Ctx, Client, S, E>)
    ensures out.initCalls == [call]
    ensures out.result.Resolved? <==> init(call).Initialized?
    ensures out.result.Resolved? ==> out.result.provider == Provider(call.provider, init(call).state)
    ensures out.result.Failed? ==> out.result.err == InitError(init(call).error)
  {
    match init(call)
    case Initialized(s) => Resolution(Resolved(Provider(call.provider, s)), [call])
    case InitFailed(e) => Resolution(Failed(InitError(e)), [call])
  }

  /**
   NewCredentialProvider(ctx, client, obj, providerNamespace), with the method
   constants `c` and the providers' `Init` as parameters.
   */
  function NewCredentialProvider<Ctx, Client, S, E>(
    c: Constants,
    ctx: Ctx,
    client: Client,
    obj: AuthObject,
    providerNamespace: string,
    init: InitCall<Ctx, Client> -> InitOutcome<S, E>
  ): (out: Resolution<Ctx, Client, S, E>)
    // Init is called at most once, and only with the caller's arguments.
    ensures |out.initCalls| <= 1
    ensures forall call <- out.initCalls ::
      && call.ctx == ctx && call.client == client
      && call.obj == obj && call.providerNamespace == providerNamespace
    // The variant Init is called on implements the object's method within the object's kind.
    ensures forall call <- out.initCalls ::
      && obj.Recognized()
      && call.provider.Family() == obj.Kind()
      && MethodOf(c, call.provider) == obj.authMethod
    // Init is reached exactly for the methods of the object's own kind.
    ensures obj.VaultAuth? ==> (|out.initCalls| == 1 <==> obj.authMethod in c.VaultMethods())
    ensures obj.HCPAuth? ==> (|out.initCalls| == 1 <==> obj.authMethod == c.servicePrincipal)
    // An unknown kind, and only that, is an unsupported auth object.
    ensures obj.OtherObject? <==> out.result.Failed? && out.result.err.UnsupportedAuthObject?
    ensures obj.OtherObject? ==> out.result == Failed(UnsupportedAuthObject(obj.typeName))
    // A known kind whose method selects nothing is an unsupported method, and Init is not called.
    ensures obj.Recognized() ==>
      (out.initCalls == [] <==> out.result == Failed(UnsupportedMethod(obj.authMethod)))
    // Every other outcome is exactly what the one Init call returned.
    ensures out.result.Resolved? ==>
      && |out.initCalls| == 1
      && init(out.initCalls[0]) == Initialized(out.result.provider.state)
      && out.result.provider.kind == out.initCalls[0].provider
    ensures out.result.Failed? && out.result.err.InitError? ==>
      && |out.initCalls| == 1
      && init(out.initCalls[0]) == InitFailed(out.result.err.error)
    ensures out.result.Failed? && !out.result.err.InitError? ==> out.initCalls == []
  {
    if obj.OtherObject? then
      Resolution(Failed(UnsupportedAuthObject(obj.typeName)), [])
    else
      match SelectProvider(c, obj.Kind(), obj.authMethod)
      case None => Resolution(Failed(UnsupportedMethod(obj.authMethod)), [])
      case Some(p) => InitProvider(InitCall(ctx, client, p, obj, providerNamespace), init)
  }
}
