/**
 * The exceptions the bot's core raises, as values.
 *
 * Each constructor is one Python exception class (the project's own ones from
 * exceptions.py and the built-in ones the core can raise); `Str` gives what
 * Python's `str(error)` yields, which is what the poll loop compares and sends.
 */
module Errors {

  datatype Error =
    | CheckResponseError(msg: string)   // exceptions.CheckResponseError
    | ValuesMissingError(msg: string)   // exceptions.ValuesMissingError
    | TypeError(msg: string)            // built-in TypeError
    | IndexError(msg: string)           // built-in IndexError
    | KeyError(key: string)             // built-in KeyError, raised with the missing key
    | UnboundLocalError(name: string)   // built-in UnboundLocalError, for the unbound local

  /** `str(error)`: a KeyError shows its key in single quotes, which is the
      key's repr for the keys the core looks up (none holds a quote or an escape);
      an UnboundLocalError names the variable (CPython 3.11 wording); the others
      show their message. */
  function Str(e: Error): string
  {
    match e
    case CheckResponseError(m) => m
    case ValuesMissingError(m) => m
    case TypeError(m) => m
    case IndexError(m) => m
    case KeyError(k) => "'" + k + "'"
    case UnboundLocalError(n) =>
      "cannot access local variable '" + n + "' where it is not associated with a value"
  }

  /** Two KeyErrors read the same exactly when they name the same key. */
  lemma KeyErrorTextNamesKey(a: string, b: string)
    ensures Str(KeyError(a)) == Str(KeyError(b)) <==> a == b
  {
    if Str(KeyError(a)) == Str(KeyError(b)) {
      var sa, sb := Str(KeyError(a)), Str(KeyError(b));
      assert |a| == |b|;
      forall k | 0 <= k < |a| ensures a[k] == b[k] {
        assert sa[k + 1] == a[k] && sb[k + 1] == b[k];
      }
    }
  }

  /** A computation that either returns a value or raises an exception. */
  datatype Result<T> = Ok(value: T) | Err(error: Error)

  datatype Option<T> = None | Some(value: T)
}
