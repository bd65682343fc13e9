/**
 * The gate followed by `getAuthor`: route handlers read the author from
 * `request.auth.credentials.user`, which the framework takes from the
 * validator's response.
 */
module AuthPipeline {
  import opened Wrappers
  import opened Js
  import opened ServiceAuth
  import opened Authors

  /** `request.auth.credentials.user` as seen after the gate has decided. */
  function CredentialsUser(r: Validation): (user: Js) {
    Get(Get(Some(Response(r)), "credentials"), "user")
  }

  /**
   * Whatever the gate admits, `getAuthor` accepts, and the author is the
   * calling service; whatever the gate rejects carries no user, so
   * `getAuthor` fails.
   */
  lemma AdmittedServiceIsAuthor(payload: Js, defaultScopes: seq<string>)
    ensures var r := ValidateServiceCredentials(payload, defaultScopes);
      && (GetAuthor(CredentialsUser(r)).Ok? <==> r.Valid?)
      && (r.Valid? ==>
            GetAuthor(CredentialsUser(r))
              == Ok(Author(Get(payload, "serviceId").value, Get(payload, "serviceName").value)))
  {
  }
}
