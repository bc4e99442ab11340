/** Failure-compatible wrappers shared by every module of the model, and the
    representation of filesystem paths as sequences of components. */
module Common {

  /** Rust's `Option<T>`. */
  datatype Option<+T> = None | Some(value: T) {

    /** The wrapped value, or `default` when there is none (`Option::unwrap_or`). */
    function UnwrapOr(default: T): T {
      match this
      case Some(v) => v
      case None => default
    }

    /** `a.or_else(|| b)`: the first present value of the two. */
    function OrElse(other: Option<T>): Option<T> {
      if Some? then this else other
    }
  }

  /** Rust's `Result<T, E>`, usable with `:-`. */
  datatype Result<+T, +E> = Ok(value: T) | Err(error: E) {

    predicate IsFailure() {
      Err?
    }

    function PropagateFailure<U>(): Result<U, E>
      requires Err?
    {
      Err(error)
    }

    function Extract(): T
      requires Ok?
    {
      value
    }
  }

  /** A filesystem path as the sequence of its components. */
  type Path = seq<string>

  /** `Path::strip_prefix`: the components of `p` after `base`, when `base`
      is a component-wise prefix of `p`. */
  function StripPrefix(p: Path, base: Path): (r: Option<Path>)
    ensures r.Some? <==> base <= p
    ensures r.Some? ==> base + r.value == p
  {
    if base <= p then Some(p[|base|..]) else None
  }

  /** An opaque operating-system error (`std::io::Error`). */
  datatype IoError = IoError(path: Path)
}
