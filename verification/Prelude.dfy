/** Outcome types shared by every layer. */
module Prelude {

  datatype Option<+T> = None | Some(value: T)

  /** A failure-compatible outcome: `:-` extracts the value or propagates the error. */
  datatype Result<+T, +E> = Ok(value: T) | Err(error: E) {

    predicate IsFailure() {
      Err?
    }

    function PropagateFailure<U>(): Result<U, E>
      requires Err?
    {
      Err(error)
    }

    function Extract(): T
      requires Ok?
    {
      value
    }
  }

  function Max(a: nat, b: nat): nat {
    if a < b then b else a
  }

  /** `part` stands in `whole` from `i` on. */
  ghost predicate Stands<T>(whole: seq<T>, i: nat, part: seq<T>) {
    i + |part| <= |whole| && forall k | 0 <= k < |part| :: whole[i + k] == part[k]
  }

  lemma StandsSplit<T>(whole: seq<T>, i: nat, a: seq<T>, b: seq<T>)
    requires Stands(whole, i, a + b)
    ensures Stands(whole, i, a) && Stands(whole, i + |a|, b)
  {
    forall k | 0 <= k < |a| ensures whole[i + k] == a[k] {
      assert (a + b)[k] == a[k];
    }
    forall k | 0 <= k < |b| ensures whole[i + |a| + k] == b[k] {
      assert whole[i + (|a| + k)] == (a + b)[|a| + k];
    }
  }

  /** The error kinds the lexer and the two parsers report. */
  datatype ErrorKind =
    | UnexpectedEof
    | UnexpectedCharacter
    | TabCharacter
    | InvalidScalar
    | InvalidAnchor
    | UnknownAnchor
    | InvalidDirective
    | InvalidMergeKey
    | TrailingContent
    | AmbiguousVersion
}
