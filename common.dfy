/** Small shared vocabulary: optional values, Python truthiness of request
    fields, the outcome of evaluating an expression that may raise, and the
    HTTP status codes the handlers answer with. */
module Common {

  datatype Option<T> = None | Some(value: T) {
    /** `d.get(key, default)` once the key's presence is known. */
    function GetOr(default: T): T {
      if Some? then value else default
    }
  }

  /** A request key of a nullable column: absent, JSON null (`Some(None)`) or a value.
      `data.get(key)` yields None for both of the first two. */
  function Flatten<T>(o: Option<Option<T>>): Option<T> {
    if o.Some? then o.value else None
  }

  /** Python truthiness of `data.get(key)` for a string-valued key:
      an absent key and the empty string are both falsy. */
  predicate Given(o: Option<string>) {
    o.Some? && o.value != ""
  }

  /** The result of evaluating a Python expression that may raise. */
  datatype Eval<T> = Value(v: T) | Raised

  const OK: int := 200
  const Created: int := 201
  const BadRequest: int := 400
  const Unauthorized: int := 401
  const Forbidden: int := 403
  const NotFound: int := 404
  const Conflict: int := 409
  /** What Flask answers when a handler raises an exception it does not catch. */
  const InternalError: int := 500
}
