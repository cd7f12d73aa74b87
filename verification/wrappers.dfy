/** Failure-carrying datatypes shared by every module of the model. */
module Wrappers {

  /** A value that may be absent: Python's `None` or a missing dictionary key. */
  datatype Option<+T> = None | Some(value: T) {

    /** The wrapped value, or `default` when absent (Python's `x or default`). */
    function GetOr(default: T): T {
      match this
      case Some(v) => v
      case None => default
    }
  }

  /** A string-valued key of a decoded JSON object: absent, present with
      `null`, or present with a string. */
  datatype Field = Missing | Null | Present(text: string) {

    /** `d.get(key, default)`: the default only when the key is absent;
        a present `null` is `None`. */
    function GetValue(default: string): (v: Option<string>)
      ensures Missing? ==> v == Some(default)
      ensures Null? ==> v == None
      ensures Present? ==> v == Some(text)
    {
      match this
      case Missing => Some(default)
      case Null => None
      case Present(t) => Some(t)
    }

    /** How an f-string shows `d.get(key, default)`: `None` for a present
        `null`. */
    function GetText(default: string): (r: string)
      ensures Missing? ==> r == default
      ensures Null? ==> r == "None"
      ensures Present? ==> r == text
    {
      match GetValue(default)
      case Some(t) => t
      case None => "None"
    }
  }

  /** The outcome of a step that either produces a value or raises an exception. */
  datatype Result<+R, +E> = Success(value: R) | Failure(error: E)

  /** An `HTTPException` raised by an endpoint: status code and `detail` text. */
  datatype HttpError = HttpError(status: int, detail: string)

  /** The text `str(KeyError(key))` renders: the key in single quotes. */
  function KeyErrorText(key: string): (r: string)
    ensures |r| == |key| + 2 && r[0] == '\'' && r[|r| - 1] == '\''
    ensures r[1..|r| - 1] == key
  {
    "'" + key + "'"
  }
}
