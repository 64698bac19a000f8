/** Values and failures shared by every part of the range language. */
module RangeTypes {

  datatype Option<+T> = None | Some(value: T)

  /** The ways a call into the range language can fail; each one is an exception in the source. */
  datatype Error =
    | Unbalanced               // strmap: the last comma group still has unequal '[' and ']'
    | NoMatch                  // strmap: an empty segment has no regular-expression match
    | CastFailed(text: string) // the integer cast rejected this text
    | ZeroStep                 // a stepped range was asked for with step 0
    | BadShape                 // lstranges was given a tuple it cannot expand
    | EmptyIndex               // fileindex: nothing follows the first '['

  /** Failure-compatible result, so that `:-` aborts on the first error like an exception. */
  datatype Result<+T> = Ok(value: T) | Err(error: Error) {
    predicate IsFailure() { Err? }
    function PropagateFailure<U>(): Result<U>
      requires Err?
    {
      Err(error)
    }
    function Extract(): T
      requires Ok?
    {
      value
    }
  }

  /**
   * The values that flow between the parser and the expander: a cast integer,
   * a Python tuple, or a Python list.
   */
  datatype Tree = Scalar(n: int) | Tup(items: seq<Tree>) | Lst(items: seq<Tree>)

  /** Integers as a list of scalar leaves, in order. */
  function Scalars(xs: seq<int>): seq<Tree>
  {
    seq(|xs|, i requires 0 <= i < |xs| => Scalar(xs[i]))
  }
}
