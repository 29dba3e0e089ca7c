/** Small value wrappers shared by the whole model. */
module Wrappers {

  /** A value that may be absent (`undefined` or `null` in the handlers). */
  datatype Option<+T> = None | Some(value: T) {
    function GetOr(default: T): T {
      match this
      case Some(v) => v
      case None => default
    }
  }

  /** One field of a partial update: `Keep` when the key is absent from the
      update object, `Set(v)` when it is present (even when `v` itself is
      an absent optional value, as in `{ profit: undefined }`). */
  datatype Update<+T> = Keep | Set(value: T) {
    function Apply(current: T): T {
      match this
      case Keep => current
      case Set(v) => v
    }
  }

  /** What `{ ...existing, ...updates }` leaves in one field: the supplied
      value when the update carries one, and the stored value otherwise. */
  predicate Took<T(==)>(u: Update<T>, stored: T, merged: T) {
    (u.Set? ==> merged == u.value) && (u.Keep? ==> merged == stored)
  }

  /** A JavaScript string is truthy exactly when it is non-empty;
      an absent one is falsy. */
  predicate Truthy(s: Option<string>) {
    s.Some? && s.value != ""
  }
}

/** The shape of every JSON reply of the route handlers. */
module Http {

  /** `Ok` is a 200 reply with `success: true`; `Fail` carries the HTTP
      status and the error message of a `success: false` reply. */
  datatype Reply<+T> = Ok(data: T) | Fail(status: nat, error: string) {
    function Status(): nat {
      if Ok? then 200 else status
    }
  }
}
