/** Option, Result and Outcome: the shapes used for values that may be absent
    (Python None, JavaScript null/undefined) and for operations that may raise. */
module Wrappers {

  datatype Option<+T> = None | Some(value: T) {
    function GetOr(default: T): T {
      match this
      case Some(v) => v
      case None => default
    }
  }

  /** A handler either returns a value or raises an error. */
  datatype Result<+T, +E> = Ok(value: T) | Err(error: E)

  /** A check that either passes or raises an error (a Python function returning None or raising). */
  datatype Outcome<+E> = Pass | Fail(error: E)
}

/** A field of a partial-update schema: left out of the JSON body, or given a value.
    Pydantic's `model_dump(exclude_unset=True)` keeps exactly the `Set` fields. */
module Fields {

  datatype Field<+T> = Unset | Set(value: T)
  {
    /** The value after a partial update: the new one when given, else the old one. */
    function Or(old_value: T): T
    {
      match this
      case Set(v) => v
      case Unset => old_value
    }
  }

  /** `Field(max_length=n)` on a string. */
  predicate FitsIn(s: string, n: nat)
  {
    |s| <= n
  }

  /** The row after `setattr` has been applied for each item in turn. */
  function ApplyAll<R, C>(apply: (R, C) -> R, row: R, items: seq<C>): R
  {
    if items == [] then row else apply(ApplyAll(apply, row, items[..|items| - 1]), items[|items| - 1])
  }

  /** Applying two lists of items in turn is applying their concatenation. */
  lemma {:induction false} ApplyAllAppend<R, C>(apply: (R, C) -> R, row: R, a: seq<C>, b: seq<C>)
    ensures ApplyAll(apply, row, a + b) == ApplyAll(apply, ApplyAll(apply, row, a), b)
    decreases |b|
  {
    if b != [] {
      var b' := b[..|b| - 1];
      assert (a + b)[..|a + b| - 1] == a + b';
      ApplyAllAppend(apply, row, a, b');
    } else {
      assert a + b == a;
    }
  }

  /** Applying one optional item: nothing when it is absent, else `setattr` for it. */
  function ApplyStep<R, C>(apply: (R, C) -> R, row: R, item: seq<C>): R
  {
    if item == [] then row else apply(row, item[0])
  }

  /** Applying a list of items and then at most one more is one step after the list. */
  lemma ApplyAllStep<R, C>(apply: (R, C) -> R, row: R, p: seq<C>, item: seq<C>)
    requires |item| <= 1
    ensures ApplyAll(apply, row, p + item) == ApplyStep(apply, ApplyAll(apply, row, p), item)
  {
    if item != [] {
      assert (p + item)[..|p + item| - 1] == p;
    } else {
      assert p + item == p;
    }
  }
}
