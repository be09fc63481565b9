/** Values shared by the whole model: options, results, the three states of a
    Python dictionary key, and Python exceptions as (kind, str(e)) pairs. */
module Common {

  datatype Option<+T> = None | Some(value: T)

  datatype Result<+T, +E> = Ok(value: T) | Err(error: E)

  /** What a Python dict holds under one key: the key is missing, it is bound
      to None, or it is bound to a value. */
  datatype Field<+T> = Absent | Null | Val(value: T)

  /** `d.get(key, default)`: the default is used only when the key is missing;
      a key bound to None still gives None. */
  function Get<T>(f: Field<T>, default: T): Option<T>
  {
    match f
    case Absent => Some(default)
    case Null => None
    case Val(v) => Some(v)
  }

  /** `d.get(key)` with no default. */
  function GetOrNone<T>(f: Field<T>): Option<T>
  {
    match f
    case Val(v) => Some(v)
    case _ => None
  }

  /** The kinds of exception the model distinguishes. */
  datatype ExcKind = ValueError | TypeError | HTTPException(status: nat) | OtherException

  /** A raised exception: its class and `str(e)`. */
  datatype Exc = Exc(kind: ExcKind, msg: string)
}
