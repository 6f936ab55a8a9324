// Small result types shared by every module.
module Options {
  datatype Option<+T> = None | Some(value: T)

  // A value or an error; usable with the `:-` operator.
  datatype Result<+T, +E> = Ok(value: T) | Err(error: E) {
    predicate IsFailure() {
      Err?
    }

    function PropagateFailure<U>(): Result<U, E>
      requires Err?
    {
      Err(error)
    }

    function Extract(): T
      requires Ok?
    {
      value
    }
  }

  // A check with no value: `:- Need(condition, error)`.
  datatype Check<+E> = Pass | Fail(error: E) {
    predicate IsFailure() {
      Fail?
    }

    function PropagateFailure<U>(): Result<U, E>
      requires Fail?
    {
      Err(error)
    }
  }

  function Need<E>(condition: bool, error: E): Check<E> {
    if condition then Pass else Fail(error)
  }

  predicate NoDuplicates<T(==)>(s: seq<T>) {
    forall i, j :: 0 <= i < j < |s| ==> s[i] != s[j]
  }

  lemma ConcatDistinct<T>(left: seq<T>, right: seq<T>)
    requires NoDuplicates(left) && NoDuplicates(right) && forall x <- left :: x !in right
    ensures NoDuplicates(left + right)
  {
    var all := left + right;
    forall i, j | 0 <= i < j < |all|
      ensures all[i] != all[j]
    {
      if i < |left| <= j {
        assert all[i] in left && all[j] in right;
      }
    }
  }
}
