/**
 * The post-verification step of the `jwt-service` authentication strategy
 * (src/plugins/auth/index.js): once the token's signature and time claims
 * have been checked, decide from the decoded payload whether the calling
 * service is admitted, and with which credentials.
 */
module ServiceAuth {
  import opened Wrappers
  import opened Js

  /** Why a request was rejected; the source logs it as a bracketed code. */
  datatype Reason = MissingPayload | MissingFields

  /** The acting identity, `credentials.user`. */
  datatype User = User(id: Value, displayName: Value) {
    /** The JavaScript object `{ id, displayName }`. */
    function ToValue(): (v: Value)
      ensures v.Obj? && v.fields.Keys == {"id", "displayName"}
      ensures Get(Some(v), "id") == Some(id)
      ensures Get(Some(v), "displayName") == Some(displayName)
    {
      Obj(map["id" := id, "displayName" := displayName])
    }
  }

  /** `{ user, scope }`: who the caller is and what it may do. */
  datatype Credentials = Credentials(user: User, scope: seq<string>) {
    /** The JavaScript object `{ user: { id, displayName }, scope: [...] }`. */
    function ToValue(): (v: Value)
      ensures v.Obj? && v.fields.Keys == {"user", "scope"}
      ensures Get(Some(v), "user") == Some(user.ToValue())
      ensures Get(Some(v), "scope") == Some(Arr(ScopeValues(scope)))
    {
      Obj(map["user" := user.ToValue(), "scope" := Arr(ScopeValues(scope))])
    }
  }

  /** The outcome of the strategy's validate function. */
  datatype Validation = Valid(credentials: Credentials) | Invalid(reason: Reason)

  /** The scope list as a JavaScript array of strings. */
  function ScopeValues(scope: seq<string>): (r: seq<Value>)
    ensures |r| == |scope|
    ensures forall i :: 0 <= i < |scope| ==> r[i] == Str(scope[i])
  {
    if scope == [] then [] else [Str(scope[0])] + ScopeValues(scope[1..])
  }

  /** A service payload carries a truthy `serviceId` and a truthy `serviceName`. */
  predicate HasServiceIdentity(payload: Js) {
    Truthy(Get(payload, "serviceId")) && Truthy(Get(payload, "serviceName"))
  }

  /**
   * `validateServiceCredentials`. `payload` is `artifacts.decoded.payload`;
   * `defaultScopes` is what `getDefaultScopes()` returns. That function is
   * not part of this model, so it is a parameter and every property holds
   * whatever list it returns. Each rejection carries exactly one reason,
   * and a missing payload is reported before anything is read from it.
   */
  function ValidateServiceCredentials(payload: Js, defaultScopes: seq<string>): (r: Validation)
    ensures r.Valid? <==> Truthy(payload) && HasServiceIdentity(payload)
    ensures Falsy(payload) ==> r == Invalid(MissingPayload)
    ensures Truthy(payload) && !HasServiceIdentity(payload) ==> r == Invalid(MissingFields)
    ensures r.Valid? ==>
      && Get(payload, "serviceId") == Some(r.credentials.user.id)
      && Get(payload, "serviceName") == Some(r.credentials.user.displayName)
      && r.credentials.scope == defaultScopes
  {
    if Falsy(payload) then
      Invalid(MissingPayload)
    else
      var serviceId := Get(payload, "serviceId");
      var serviceName := Get(payload, "serviceName");
      if Falsy(serviceId) || Falsy(serviceName) then
        Invalid(MissingFields)
      else
        Valid(Credentials(User(serviceId.value, serviceName.value), defaultScopes))
  }

  /**
   * The lines the validator logs: none on admission, and on rejection
   * exactly the line of its reason, whose tag names that reason.
   */
  function Logged(r: Validation): (lines: seq<string>)
    ensures r.Valid? ==> lines == []
    ensures r.Invalid? ==> lines == [LogMessage(r.reason)]
    ensures r.Invalid? ==>
      && TagOf(lines[0]) == Some(Code(r.reason))
      && ReasonOfCode(Code(r.reason)) == Some(r.reason)
  {
    match r
    case Valid(_) => []
    case Invalid(reason) => [LogMessage(reason)]
  }

  /**
   * The object handed back to the framework: `{ isValid: false }` on
   * rejection, `{ isValid: true, credentials }` on admission.
   */
  function Response(r: Validation): (resp: Value)
    ensures resp.Obj?
    ensures Get(Some(resp), "isValid") == Some(Bool(r.Valid?))
    ensures Get(Some(resp), "credentials").Some? <==> r.Valid?
    ensures r.Invalid? ==> resp.fields.Keys == {"isValid"}
    ensures r.Valid? ==>
      && resp.fields.Keys == {"isValid", "credentials"}
      && Get(Some(resp), "credentials") == Some(r.credentials.ToValue())
  {
    match r
    case Valid(c) => Obj(map["isValid" := Bool(true), "credentials" := c.ToValue()])
    case Invalid(_) => Obj(map["isValid" := Bool(false)])
  }

  // ---------------------------------------------------------------------
  // The log lines
  // ---------------------------------------------------------------------

  /** The machine-readable code that tags the log line of a rejection. */
  function Code(reason: Reason): (code: string)
    ensures ']' !in code
    ensures ReasonOfCode(code) == Some(reason)
  {
    match reason
    case MissingPayload => "authMissingPayload"
    case MissingFields => "authMissingFields"
  }

  /** The human-readable text that follows the tag. */
  function Detail(reason: Reason): (text: string) {
    match reason
    case MissingPayload => " Auth: Missing payload from token."
    case MissingFields => " Auth: Missing required fields (serviceId or serviceName) in token payload."
  }

  /**
   * The line logged at `info` level when a request is rejected: the
   * source's text, which is the reason's code in brackets followed by
   * the detail.
   */
  function LogMessage(reason: Reason): (line: string)
    ensures line == "[" + Code(reason) + "]" + Detail(reason)
    ensures TagOf(line) == Some(Code(reason))
  {
    TagOfTagged(Code(reason), Detail(reason));
    match reason
    case MissingPayload =>
      PayloadLineSplit();
      "[authMissingPayload] Auth: Missing payload from token."
    case MissingFields =>
      FieldsLineSplit();
      "[authMissingFields] Auth: Missing required fields (serviceId or serviceName) in token payload."
  }

  /*
   * The two source lines decomposed into tag and detail. The verifier
   * compares string literals element by element, so the longer line is
   * joined from short pieces, one per lemma.
   */

  lemma PayloadLineSplit()
    ensures "[" + Code(MissingPayload) + "]" + Detail(MissingPayload)
      == "[authMissingPayload] Auth: Missing payload from token."
  {
    assert "[" + "authMissingPayload" + "]" == "[authMissingPayload]";
  }

  lemma FieldsTag()
    ensures "[" + "authMissingFields" + "]" == "[authMissingFields]"
  {
  }

  lemma FieldsDetail1()
    ensures " Auth: Missing required fields" + " (serviceId or serviceName)"
      == " Auth: Missing required fields (serviceId or serviceName)"
  {
  }

  lemma FieldsDetail2()
    ensures " Auth: Missing required fields (serviceId or serviceName)" + " in token payload."
      == " Auth: Missing required fields (serviceId or serviceName) in token payload."
  {
  }

  lemma FieldsLine1()
    ensures "[authMissingFields]" + " Auth: Missing required fields"
      == "[authMissingFields] Auth: Missing required fields"
  {
  }

  lemma FieldsLine2()
    ensures "[authMissingFields] Auth: Missing required fields" + " (serviceId or serviceName)"
      == "[authMissingFields] Auth: Missing required fields (serviceId or serviceName)"
  {
  }

  lemma FieldsLine3()
    ensures "[authMissingFields] Auth: Missing required fields (serviceId or serviceName)" + " in token payload."
      == "[authMissingFields] Auth: Missing required fields (serviceId or serviceName) in token payload."
  {
  }

  lemma Associate(a: string, b: string, c: string, d: string)
    ensures a + (b + c + d) == a + b + c + d
  {
  }

  lemma FieldsLineSplit()
    ensures "[" + Code(MissingFields) + "]" + Detail(MissingFields)
      == "[authMissingFields] Auth: Missing required fields (serviceId or serviceName) in token payload."
  {
    FieldsTag();
    FieldsDetail1();
    FieldsDetail2();
    FieldsLine1();
    FieldsLine2();
    FieldsLine3();
    Associate("[authMissingFields]", " Auth: Missing required fields",
      " (serviceId or serviceName)", " in token payload.");
  }

  // ---------------------------------------------------------------------
  // Reading the reason code back from a log line. The source has no such
  // reader; it is here to check the log format: each line opens with a
  // bracketed code, and the code names exactly one reason.
  // ---------------------------------------------------------------------

  /** The text before the first `]`, if there is one. */
  function UpToClose(s: string): (prefix: Option<string>) {
    if s == [] then None
    else if s[0] == ']' then Some([])
    else match UpToClose(s[1..])
      case None => None
      case Some(t) => Some([s[0]] + t)
  }

  /** The bracketed tag that opens a log line. */
  function TagOf(line: string): (tag: Option<string>) {
    if |line| > 0 && line[0] == '[' then UpToClose(line[1..]) else None
  }

  /** The reason a code stands for. */
  function ReasonOfCode(code: string): (reason: Option<Reason>) {
    if code == "authMissingPayload" then Some(MissingPayload)
    else if code == "authMissingFields" then Some(MissingFields)
    else None
  }

  lemma {:induction false} UpToCloseOf(tag: string, rest: string)
    requires ']' !in tag
    ensures UpToClose(tag + "]" + rest) == Some(tag)
  {
    if tag != [] {
      assert (tag + "]" + rest)[1..] == tag[1..] + "]" + rest;
      UpToCloseOf(tag[1..], rest);
      assert [tag[0]] + tag[1..] == tag;
    }
  }

  lemma TagOfTagged(tag: string, rest: string)
    requires ']' !in tag
    ensures TagOf("[" + tag + "]" + rest) == Some(tag)
  {
    assert ("[" + tag + "]" + rest)[1..] == tag + "]" + rest;
    UpToCloseOf(tag, rest);
  }

  // ---------------------------------------------------------------------
  // Properties of the gate
  // ---------------------------------------------------------------------

  /** An absent or `null` payload is rejected with `authMissingPayload`. */
  lemma MissingPayloadRejected(defaultScopes: seq<string>)
    ensures ValidateServiceCredentials(None, defaultScopes) == Invalid(MissingPayload)
    ensures ValidateServiceCredentials(Some(Null), defaultScopes) == Invalid(MissingPayload)
    ensures Response(Invalid(MissingPayload)) == Obj(map["isValid" := Bool(false)])
    ensures Logged(Invalid(MissingPayload)) == ["[authMissingPayload] Auth: Missing payload from token."]
  {
  }

  /** A payload with a `serviceName` and no `serviceId` is rejected with `authMissingFields`. */
  lemma MissingServiceIdRejected(name: string, defaultScopes: seq<string>)
    ensures ValidateServiceCredentials(Some(Obj(map["serviceName" := Str(name)])), defaultScopes)
      == Invalid(MissingFields)
    ensures Logged(Invalid(MissingFields))
      == ["[authMissingFields] Auth: Missing required fields (serviceId or serviceName) in token payload."]
  {
  }

  /** A payload with a `serviceId` and no `serviceName` is rejected with `authMissingFields`. */
  lemma MissingServiceNameRejected(id: string, defaultScopes: seq<string>)
    ensures ValidateServiceCredentials(Some(Obj(map["serviceId" := Str(id)])), defaultScopes)
      == Invalid(MissingFields)
  {
  }

  /**
   * The field check is a truthiness test: an empty string (or `null`)
   * behaves exactly like an absent field, for either field.
   */
  lemma EmptyFieldLikeAbsent(fields: map<string, Value>, key: string, defaultScopes: seq<string>)
    requires key == "serviceId" || key == "serviceName"
    ensures ValidateServiceCredentials(Some(Obj(fields[key := Str("")])), defaultScopes)
      == ValidateServiceCredentials(Some(Obj(fields - {key})), defaultScopes)
      == ValidateServiceCredentials(Some(Obj(fields[key := Null])), defaultScopes)
      == Invalid(MissingFields)
  {
  }

  /**
   * Two string claims, the form the tokens carry: admitted iff both are
   * non-empty, and then the user is exactly the service.
   */
  lemma StringClaims(fields: map<string, Value>, id: string, name: string, defaultScopes: seq<string>)
    ensures var r := ValidateServiceCredentials(
        Some(Obj(fields["serviceId" := Str(id)]["serviceName" := Str(name)])), defaultScopes);
      && (r.Valid? <==> id != "" && name != "")
      && (r.Valid? ==> r.credentials == Credentials(User(Str(id), Str(name)), defaultScopes))
      && (r.Invalid? ==> r.reason == MissingFields)
  {
  }

  /**
   * The whole object returned for a token with two non-empty string
   * claims: `{ isValid: true, credentials: { user: { id, displayName },
   * scope } }`, nothing more.
   */
  lemma AdmittedResponse(id: string, name: string, defaultScopes: seq<string>)
    requires id != "" && name != ""
    ensures Response(ValidateServiceCredentials(
        Some(Obj(map["serviceId" := Str(id), "serviceName" := Str(name)])), defaultScopes))
      == Obj(map[
        "isValid" := Bool(true),
        "credentials" := Obj(map[
          "user" := Obj(map["id" := Str(id), "displayName" := Str(name)]),
          "scope" := Arr(ScopeValues(defaultScopes))])])
  {
  }

  /**
   * The scope granted does not depend on the payload: any two admitted
   * requests carry the same scope, the default one in its own order.
   */
  lemma ScopeIndependentOfPayload(p1: Js, p2: Js, defaultScopes: seq<string>)
    requires ValidateServiceCredentials(p1, defaultScopes).Valid?
    requires ValidateServiceCredentials(p2, defaultScopes).Valid?
    ensures ValidateServiceCredentials(p1, defaultScopes).credentials.scope
      == ValidateServiceCredentials(p2, defaultScopes).credentials.scope
      == defaultScopes
  {
  }

  /**
   * Only `serviceId` and `serviceName` are read: payloads that agree on
   * them get the same outcome, whatever else they carry.
   */
  lemma OnlyIdentityClaimsMatter(p1: Js, p2: Js, defaultScopes: seq<string>)
    requires Truthy(p1) == Truthy(p2)
    requires Get(p1, "serviceId") == Get(p2, "serviceId")
    requires Get(p1, "serviceName") == Get(p2, "serviceName")
    ensures ValidateServiceCredentials(p1, defaultScopes) == ValidateServiceCredentials(p2, defaultScopes)
  {
  }
}
