/** Result shapes shared by every action of the blog. */
module Wrappers {

  datatype Option<T> = None | Some(value: T) {
    function GetOr(default: T): T {
      match this
      case Some(v) => v
      case None => default
    }
  }

  /** The `ActionResult<T>` every server action returns:
      `{ success: true, data }` or `{ success: false, error }`. */
  datatype ActionResult<T> = Ok(data: T) | Err(error: string)

  /** What the caller of an action observes: a returned result, a redirect raised
      by the authentication helpers, or an exception that escapes the action. */
  datatype Outcome<T> = Returned(result: T) | Redirected(path: string) | Threw(message: string)

  datatype Unit = Unit

  /** JavaScript truthiness of a nullable string: present and not empty. */
  predicate Truthy(s: Option<string>) {
    s.Some? && s.value != ""
  }
}
