/**
 * `getAuthor` (src/helpers/get-author.js): the author record stamped on
 * form metadata, taken from the request's credentials.
 */
module Authors {
  import opened Wrappers
  import opened Js

  /** `FormMetadataAuthor`: exactly an id and a display name. */
  datatype Author = Author(id: Value, displayName: Value) {
    /** The JavaScript object `{ id, displayName }`. */
    function ToValue(): (v: Value)
      ensures v.Obj? && v.fields.Keys == {"id", "displayName"}
      ensures Get(Some(v), "id") == Some(id)
      ensures Get(Some(v), "displayName") == Some(displayName)
    {
      Obj(map["id" := id, "displayName" := displayName])
    }
  }

  /** The author, or the `401 Unauthorized` error that `getAuthor` throws. */
  datatype AuthorResult = Ok(author: Author) | Unauthorized(message: string)

  const UnauthorizedMessage: string :=
    "Failed to get the author. User is undefined or has a malformed/missing id/displayName."

  /**
   * `getAuthor(user)`: fails unless the user is present with a truthy `id`
   * and a truthy `displayName`, and keeps only those two fields.
   */
  function GetAuthor(user: Js): (r: AuthorResult)
    ensures r.Ok? <==> Truthy(Get(user, "id")) && Truthy(Get(user, "displayName"))
    ensures r.Unauthorized? ==> r.message == UnauthorizedMessage
    ensures r.Ok? ==>
      && Get(user, "id") == Some(r.author.id)
      && Get(user, "displayName") == Some(r.author.displayName)
  {
    var id := Get(user, "id");
    if Falsy(id) || Falsy(Get(user, "displayName")) then
      Unauthorized(UnauthorizedMessage)
    else
      Ok(Author(id.value, Get(user, "displayName").value))
  }

  /** `getAuthor(undefined)` and `getAuthor(null)` are unauthorized. */
  lemma MissingUserUnauthorized()
    ensures GetAuthor(None) == Unauthorized(UnauthorizedMessage)
    ensures GetAuthor(Some(Null)) == Unauthorized(UnauthorizedMessage)
  {
  }

  /** A user whose `id` is absent or empty is unauthorized. */
  lemma MissingIdUnauthorized(fields: map<string, Value>)
    ensures GetAuthor(Some(Obj(fields - {"id"}))) == Unauthorized(UnauthorizedMessage)
    ensures GetAuthor(Some(Obj(fields["id" := Str("")]))) == Unauthorized(UnauthorizedMessage)
  {
  }

  /** A user whose `displayName` is absent or empty is unauthorized. */
  lemma MissingDisplayNameUnauthorized(fields: map<string, Value>)
    ensures GetAuthor(Some(Obj(fields - {"displayName"}))) == Unauthorized(UnauthorizedMessage)
    ensures GetAuthor(Some(Obj(fields["displayName" := Str("")]))) == Unauthorized(UnauthorizedMessage)
  {
  }

  /**
   * A user with non-empty string `id` and `displayName` yields exactly
   * those; every other field (`scope`, say) is dropped from the record.
   */
  lemma AuthorKeepsIdentityOnly(fields: map<string, Value>, id: string, name: string)
    requires id != "" && name != ""
    ensures var r := GetAuthor(Some(Obj(fields["id" := Str(id)]["displayName" := Str(name)])));
      && r == Ok(Author(Str(id), Str(name)))
      && r.author.ToValue().fields.Keys == {"id", "displayName"}
  {
  }

  /** The outcome depends on `id` and `displayName` alone. */
  lemma OnlyIdentityFieldsMatter(u1: Js, u2: Js)
    requires Get(u1, "id") == Get(u2, "id")
    requires Get(u1, "displayName") == Get(u2, "displayName")
    ensures GetAuthor(u1) == GetAuthor(u2)
  {
  }

  /** Feeding an author record back in gives the same author. */
  lemma GetAuthorIdempotent(user: Js)
    requires GetAuthor(user).Ok?
    ensures GetAuthor(Some(GetAuthor(user).author.ToValue())) == GetAuthor(user)
  {
  }
}
