/** Vocabulary shared by every handler: optional values, the coarse outcome of a
    request, the partial-merge rule of the update handlers and the admin gate. */
module Common {

  datatype Option<T> = None | Some(value: T)

  /** What a handler answers. `Aborted` stands for a handler that panics: the
      router is built with gin.New() and no recovery middleware, so net/http
      drops the connection without a response. */
  datatype Outcome = Ok | BadRequest | NotFound | Conflict | ServerError | Aborted

  /** The partial-field-merge rule of every update handler: a non-zero incoming
      value overwrites the stored one, the zero value of its type keeps it. */
  function Pick<T(==)>(incoming: T, zero: T, stored: T): (r: T)
    ensures incoming != zero ==> r == incoming
    ensures incoming == zero ==> r == stored
  {
    if incoming != zero then incoming else stored
  }

  /** Merging the same incoming value twice is the same as merging it once. */
  lemma PickIdempotent<T>(incoming: T, zero: T, stored: T)
    ensures Pick(incoming, zero, Pick(incoming, zero, stored)) == Pick(incoming, zero, stored)
  {
  }

  /** A merge never clears a field: a stored non-zero value stays non-zero. */
  lemma PickNeverClears<T>(incoming: T, zero: T, stored: T)
    requires stored != zero
    ensures Pick(incoming, zero, stored) != zero
  {
  }

  /** The admin gate of CreateFood, CreateTable and CreateInvoice: `c.Get("isAdmin")`
      yields the flag the authentication middleware stored, or nothing when the
      key is absent, and the handler compares that value with `false`. Only a
      present `false` is rejected; an absent flag passes. */
  function AdminRejects(isAdmin: Option<bool>): (rejects: bool)
    ensures rejects <==> isAdmin.Some? && !isAdmin.value
    ensures isAdmin.None? ==> !rejects
  {
    isAdmin == Some(false)
  }
}
