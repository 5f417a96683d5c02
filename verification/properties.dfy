/**
 Properties of the dispatcher that relate several calls, or relate the
 dispatcher's nested switch to the catalog table and the advertised method list.
 */
module CredentialsProperties {
  import opened MethodNames
  import opened Catalog
  import opened Credentials

  /** Within one kind, distinct variants implement distinct methods. */
  lemma MethodOfInjective(c: Constants, p: ProviderKind, q: ProviderKind)
    requires c.Valid()
    requires p.Family() == q.Family()
    requires MethodOf(c, p) == MethodOf(c, q)
    ensures p == q
  {
  }

  /** A variant's own method, under its own kind, selects that variant. */
  lemma SelectRoundTrip(c: Constants, p: ProviderKind)
    requires c.Valid()
    ensures SelectProvider(c, p.Family(), MethodOf(c, p)) == Some(p)
  {
  }

  /**
   The nested switch and the catalog table select the same variant for every
   (kind, method) pair, and reject the same pairs.
   */
  lemma SwitchMatchesCatalog(c: Constants, k: AuthKind, m: string)
    requires c.Valid()
    ensures Lookup(Table(c), k, m) == SelectProvider(c, k, m)
  {
    var t := Table(c);
    match SelectProvider(c, k, m)
    case Some(q) =>
      assert Entry(q.Family(), MethodOf(c, q), q) in t;
      var p := Lookup(t, k, m).value;
      var i :| 0 <= i < |t| && Matches(t[i], k, m) && t[i].provider == p;
      MethodOfInjective(c, p, q);
    case None =>
      if Lookup(t, k, m).Some? {
        var p := Lookup(t, k, m).value;
        var i :| 0 <= i < |t| && Matches(t[i], k, m) && t[i].provider == p;
        SelectRoundTrip(c, p);
        assert false;
      }
  }

  /**
   For a recognized object the dispatcher behaves as the catalog says: a
   (kind, method) pair with no entry is an unsupported method with no Init
   call, and an entry's variant is initialized once with the caller's arguments.
   */
  lemma DispatchMatchesCatalog<Ctx, Client, S, E>(
    c: Constants,
    ctx: Ctx,
    client: Client,
    obj: AuthObject,
    providerNamespace: string,
    init: InitCall<Ctx, Client> -> InitOutcome<S, E>)
    requires c.Valid()
    requires obj.Recognized()
    ensures var out := NewCredentialProvider(c, ctx, client, obj, providerNamespace, init);
      match Lookup(Table(c), obj.Kind(), obj.authMethod)
      case None => out == Resolution(Failed(UnsupportedMethod(obj.authMethod)), [])
      case Some(p) => out == InitProvider(InitCall(ctx, client, p, obj, providerNamespace), init)
  {
    SwitchMatchesCatalog(c, obj.Kind(), obj.authMethod);
  }

  /** Each recognized method selects exactly its own variant and initializes it once. */
  lemma SelectsOwnVariant<Ctx, Client, S, E>(
    c: Constants,
    p: ProviderKind,
    ctx: Ctx,
    client: Client,
    obj: AuthObject,
    providerNamespace: string,
    init: InitCall<Ctx, Client> -> InitOutcome<S, E>)
    requires c.Valid()
    requires obj.Recognized() && obj.Kind() == p.Family() && obj.authMethod == MethodOf(c, p)
    ensures NewCredentialProvider(c, ctx, client, obj, providerNamespace, init).initCalls
         == [InitCall(ctx, client, p, obj, providerNamespace)]
  {
    SelectRoundTrip(c, p);
  }

  /** An error from Init is returned unchanged, and no provider is returned. */
  lemma InitErrorPropagated<Ctx, Client, S, E>(
    c: Constants,
    p: ProviderKind,
    ctx: Ctx,
    client: Client,
    obj: AuthObject,
    providerNamespace: string,
    init: InitCall<Ctx, Client> -> InitOutcome<S, E>,
    e: E)
    requires c.Valid()
    requires obj.Recognized() && obj.Kind() == p.Family() && obj.authMethod == MethodOf(c, p)
    requires init(InitCall(ctx, client, p, obj, providerNamespace)) == InitFailed(e)
    ensures NewCredentialProvider(c, ctx, client, obj, providerNamespace, init).result
         == Failed(InitError(e))
  {
    SelectsOwnVariant(c, p, ctx, client, obj, providerNamespace, init);
  }

  /** When Init succeeds, the result is the initialized provider of the selected variant. */
  lemma InitSuccessReturnsProvider<Ctx, Client, S, E>(
    c: Constants,
    p: ProviderKind,
    ctx: Ctx,
    client: Client,
    obj: AuthObject,
    providerNamespace: string,
    init: InitCall<Ctx, Client> -> InitOutcome<S, E>,
    s: S)
    requires c.Valid()
    requires obj.Recognized() && obj.Kind() == p.Family() && obj.authMethod == MethodOf(c, p)
    requires init(InitCall(ctx, client, p, obj, providerNamespace)) == Initialized(s)
    ensures NewCredentialProvider(c, ctx, client, obj, providerNamespace, init).result
         == Resolved(Provider(p, s))
  {
    SelectsOwnVariant(c, p, ctx, client, obj, providerNamespace, init);
  }

  /** An object of any other type is an unsupported auth object, and no Init is called. */
  lemma UnsupportedObjectRejected<Ctx, Client, S, E>(
    c: Constants,
    ctx: Ctx,
    client: Client,
    typeName: string,
    providerNamespace: string,
    init: InitCall<Ctx, Client> -> InitOutcome<S, E>)
    ensures NewCredentialProvider(c, ctx, client, OtherObject(typeName), providerNamespace, init)
         == Resolution(Failed(UnsupportedAuthObject(typeName)), [])
  {
  }

  /**
   A VaultAuth whose method is none of the five Vault methods, and an HCPAuth
   whose method is not the service-principal method, are unsupported methods
   carrying that method, and no Init is called.
   */
  lemma UnknownMethodRejected<Ctx, Client, S, E>(
    c: Constants,
    ctx: Ctx,
    client: Client,
    obj: AuthObject,
    providerNamespace: string,
    init: InitCall<Ctx, Client> -> InitOutcome<S, E>)
    requires obj.VaultAuth? ==> obj.authMethod !in c.VaultMethods()
    requires obj.HCPAuth? ==> obj.authMethod != c.servicePrincipal
    requires obj.Recognized()
    ensures NewCredentialProvider(c, ctx, client, obj, providerNamespace, init)
         == Resolution(Failed(UnsupportedMethod(obj.authMethod)), [])
  {
  }

  /** An empty method is never defaulted to a variant, for either kind. */
  lemma EmptyMethodRejected<Ctx, Client, S, E>(
    c: Constants,
    ctx: Ctx,
    client: Client,
    obj: AuthObject,
    providerNamespace: string,
    init: InitCall<Ctx, Client> -> InitOutcome<S, E>)
    requires c.Valid()
    requires obj.Recognized() && obj.authMethod == ""
    ensures NewCredentialProvider(c, ctx, client, obj, providerNamespace, init)
         == Resolution(Failed(UnsupportedMethod("")), [])
  {
    UnknownMethodRejected(c, ctx, client, obj, providerNamespace, init);
  }

  /**
   Lookup is keyed by kind: a method of the other kind's group is rejected,
   so an HCPAuth naming a Vault method, or a VaultAuth naming the
   service-principal method, reaches no Init.
   */
  lemma CrossKindMethodRejected<Ctx, Client, S, E>(
    c: Constants,
    p: ProviderKind,
    ctx: Ctx,
    client: Client,
    obj: AuthObject,
    providerNamespace: string,
    init: InitCall<Ctx, Client> -> InitOutcome<S, E>)
    requires c.Valid()
    requires obj.Recognized() && obj.Kind() != p.Family() && obj.authMethod == MethodOf(c, p)
    ensures NewCredentialProvider(c, ctx, client, obj, providerNamespace, init)
         == Resolution(Failed(UnsupportedMethod(obj.authMethod)), [])
  {
    UnknownMethodRejected(c, ctx, client, obj, providerNamespace, init);
  }

  /**
   The methods that reach Init, over both kinds, are exactly the entries of
   the advertised method list.
   */
  lemma AdvertisedMethodsReachInit<Ctx, Client, S, E>(
    c: Constants,
    m: string,
    ctx: Ctx,
    client: Client,
    namespace: string,
    name: string,
    providerNamespace: string,
    init: InitCall<Ctx, Client> -> InitOutcome<S, E>)
    ensures m in ProviderMethodsSupported(c) <==>
      || |NewCredentialProvider(c, ctx, client, VaultAuth(namespace, name, m), providerNamespace, init).initCalls| == 1
      || |NewCredentialProvider(c, ctx, client, HCPAuth(namespace, name, m), providerNamespace, init).initCalls| == 1
  {
  }
}
