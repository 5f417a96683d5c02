/**
 The authentication-method identifiers of the operator.

 The concrete string values live in the `consts` package (the five Vault
 methods) and the `hcp` package (the service-principal method); neither is part
 of this model. They are therefore a parameter: any record of six strings that
 satisfies `Valid` stands for the real constants.
 */
module MethodNames {

  /** One value per exported method constant. */
  datatype Constants = Constants(
    kubernetes: string,
    jwt: string,
    appRole: string,
    aws: string,
    gcp: string,
    servicePrincipal: string)
  {
    /** The five methods a VaultAuth object may name. */
    function VaultMethods(): set<string> {
      {kubernetes, jwt, appRole, aws, gcp}
    }

    /** The real constants are nonempty and no two of them are equal. */
    ghost predicate Valid() {
      && kubernetes != "" && jwt != "" && appRole != "" && aws != "" && gcp != ""
      && servicePrincipal != ""
      && kubernetes != jwt && kubernetes != appRole && kubernetes != aws && kubernetes != gcp
      && jwt != appRole && jwt != aws && jwt != gcp
      && appRole != aws && appRole != gcp
      && aws != gcp
      && servicePrincipal !in VaultMethods()
    }
  }

  /**
   The advertised method list, in declaration order: the five Vault methods
   followed by the HCP service-principal method.
   */
  function ProviderMethodsSupported(c: Constants): (ms: seq<string>)
    ensures |ms| == 6
    ensures forall m :: m in ms <==> m in c.VaultMethods() || m == c.servicePrincipal
    ensures c.Valid() ==> forall i, j :: 0 <= i < j < |ms| ==> ms[i] != ms[j]
  {
    [c.kubernetes, c.jwt, c.appRole, c.aws, c.gcp, c.servicePrincipal]
  }
}
