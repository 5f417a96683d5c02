# Credential-provider dispatcher of the Vault Secrets Operator

This project models `NewCredentialProvider` and `ProviderMethodsSupported`
from `internal/credentials/credentials.go` of the Vault Secrets Operator.

`NewCredentialProvider(ctx, client, obj, providerNamespace)` works in four steps:

1. It switches on the Go type of `obj`. The cases are `*VaultAuth`, `*HCPAuth` and anything else.
2. For a known type it switches on `obj.Spec.Method`.
   A VaultAuth accepts five methods: JWT, AppRole, Kubernetes, AWS and GCP.
   An HCPAuth accepts one method: ServicePrincipal.
3. It calls `Init` once on a zero-valued provider of the selected variant.
   The call receives the caller's `ctx`, `client`, the same object and the same namespace.
4. It returns the initialized provider, or a nil provider with an error.

`ProviderMethodsSupported` is the advertised list of the six method identifiers.

How the model is organised:

- `methods.dfy` (module `MethodNames`) models the six method constants and the advertised list.
  The constants come from the `consts` and `hcp` packages, which are not part of this model.
  So they are a record parameter of type `Constants`.
  `Valid()` says the six strings are nonempty and pairwise distinct.
  Go already refuses duplicate constant cases in one switch, so the five Vault methods are distinct.
  Non-emptiness and a service-principal method distinct from the Vault ones are assumptions about the unseen constants.
  Only the lemmas that need these facts require `Valid()`; the dispatcher itself does not.
- `catalog.dfy` (module `Catalog`) holds the provider variants and a catalog table.
  The table has one (kind, method, variant) entry per advertised method, in the advertised order.
  A recursive `Lookup` returns the first entry with a given key.
  The code dispatches with a nested switch; the table is an independent reference definition,
  and `SwitchMatchesCatalog` and `DispatchMatchesCatalog` prove the switch equal to it.
- `credentials.dfy` (module `Credentials`) holds the auth objects, errors, results and the dispatcher.
  `Init` is a function parameter, since its bodies do cluster and network I/O.
  The dispatcher returns the list of `Init` calls it made next to its result.
  This makes "Init is called at most once, with the caller's arguments, and never on an error path" a property of the returned value.
- `properties.dfy` (module `CredentialsProperties`) holds lemmas that relate the dispatcher to the catalog, to the advertised list and to `Init`'s outcome.

Go's `(provider, error)` pair becomes `Result = Resolved(provider) | Failed(err)`.
So "a nil provider whenever the error is non-nil" holds by construction.

## Model

| member | source | states |
|---|---|---|
| MethodNames.ProviderMethodsSupported | internal/credentials/credentials.go:19-26 | six entries, exactly the five Vault methods plus the service-principal method, with no duplicates when the constants are distinct |
| Catalog.Table | internal/credentials/credentials.go:19-26 | one entry per advertised method, entry i carrying the i-th advertised method; each entry's variant implements that method within its own kind; every variant appears |
| Credentials.SelectVaultProvider | internal/credentials/credentials.go:33-46 | a VaultAuth method selects a variant iff it is one of the five Vault methods; the variant chosen is a Vault variant implementing that method |
| Credentials.SelectHCPProvider | internal/credentials/credentials.go:55-60 | an HCPAuth method selects a variant iff it is the service-principal method; the variant is the HCP one |
| Credentials.SelectProvider | internal/credentials/credentials.go:30-60 | the method switch is chosen by the object's kind: nothing is selected iff the method is outside that kind's group (the five Vault methods, or the service-principal method); any variant selected belongs to that kind and implements the given method |
| Credentials.InitProvider | internal/credentials/credentials.go:48-52 | exactly one Init call with the given arguments; success returns the provider of that variant holding Init's state; failure returns Init's error unchanged |
| Credentials.NewCredentialProvider | internal/credentials/credentials.go:28-71 | at most one Init call, always with the caller's ctx, client, object and namespace, on a variant that implements the object's method within the object's kind; Init is reached iff the method belongs to the object's kind; an unsupported auth object iff the type is unknown; for a known kind, no Init call iff the result is an unsupported-method error carrying the method; every other result is exactly Init's outcome |
| CredentialsProperties.SelectRoundTrip | internal/credentials/credentials.go:33-57 | a variant's own method, looked up under its own kind, selects that variant |
| CredentialsProperties.SwitchMatchesCatalog | internal/credentials/credentials.go:30-60 | for every (kind, method) pair the nested switch and the catalog table select the same variant or both reject |
| CredentialsProperties.DispatchMatchesCatalog | internal/credentials/credentials.go:30-66 | for a known kind, the nested switch agrees with the catalog lookup keyed by (kind, method): no entry means an unsupported-method error with no Init call; an entry means its variant is initialized once with the caller's arguments |
| CredentialsProperties.SelectsOwnVariant | internal/credentials/credentials.go:33-62 | each recognized method selects exactly its own variant (JWT to JWT, ..., ServicePrincipal to ServicePrincipal) and Init is called exactly once on it, with the caller's arguments |
| CredentialsProperties.InitErrorPropagated | internal/credentials/credentials.go:48-64 | when Init fails with e on the selected variant, the result is that same e and no provider |
| CredentialsProperties.InitSuccessReturnsProvider | internal/credentials/credentials.go:48-70 | when Init succeeds, the result is the initialized provider of the selected variant |
| CredentialsProperties.UnsupportedObjectRejected | internal/credentials/credentials.go:67-68 | an object of any other type yields an unsupported-auth-object error naming its type, and no Init call |
| CredentialsProperties.UnknownMethodRejected | internal/credentials/credentials.go:44-59 | a VaultAuth method outside the Vault group, or an HCPAuth method other than service-principal, yields an unsupported-method error carrying that method, and no Init call |
| CredentialsProperties.EmptyMethodRejected | internal/credentials/credentials.go:44-59 | an empty method is rejected for both kinds and never defaulted to a variant |
| CredentialsProperties.CrossKindMethodRejected | internal/credentials/credentials.go:55-59 | lookup is scoped by kind: a method of the other kind's group (a Vault method on an HCPAuth, service-principal on a VaultAuth) is rejected with no Init call |
| CredentialsProperties.AdvertisedMethodsReachInit | internal/credentials/credentials.go:19-57 | a method reaches Init for some kind iff it is an entry of the advertised list |

## Left out

- The concrete providers' `Init` and credential-issuing bodies (in the `vault` and `hcp` packages) are not part of this model. `Init` is the uninterpreted parameter `init`, and its outcome is an input.
- `context.Context` and the controller-runtime `client.Client` are opaque type parameters. Cancellation and timeouts are decided inside `Init`, not by this code.
- The concrete string values of the method constants are not part of this model. They are the abstract record `Constants`.
- Go's runtime type switch is modelled as a datatype tag. The `%T` rendering of an unknown object is its `typeName` field.
- A typed nil `*VaultAuth` or `*HCPAuth` would match its case and then dereference nil. The model has no nil objects.
- Error messages built by `fmt.Errorf` are datatype constructors, not strings.
