/** Definitions shared by every module of the model. */
module Base {

  /** `nullptr`: a `Task*` or `TaskTracker*` is the index of its slot in the static array it points into. */
  const NIL: int := -1

  const TWO32: nat := 0x1_0000_0000
  const TWO64: nat := 0x1_0000_0000_0000_0000
  const U64_MAX: nat := 0xFFFF_FFFF_FFFF_FFFF

  /** `static_cast<uintptr_t>(-errno)`. */
  function Errno(errno: nat): nat
    requires errno <= U64_MAX
  {
    U64_MAX + 1 - errno
  }

  /** Either the kernel goes on, or the hart was stopped by a fail-closed check (`hart::park`). */
  datatype Outcome<+T> = Run(value: T) | Park {
    predicate IsFailure() { Park? }

    function PropagateFailure<U>(): Outcome<U>
      requires Park?
    {
      Park
    }

    function Extract(): T
      requires Run?
    {
      value
    }
  }

  ghost predicate Distinct<T(!new)>(s: seq<T>) {
    forall i, j :: 0 <= i < j < |s| ==> s[i] != s[j]
  }
}
