/** A list of checks made one after the other, each with the error it raises. */
module Checks {
  import opened Wrappers

  datatype Check<E> = Check(holds: bool, error: E)

  /** The error of the first check, from number `i` on, that does not hold. */
  function FirstFailed<E>(checks: seq<Check<E>>, i: nat): Option<E>
    requires i <= |checks|
    decreases |checks| - i
  {
    if i == |checks| then None
    else if !checks[i].holds then Some(checks[i].error)
    else FirstFailed(checks, i + 1)
  }

  /** Five checks at a time. */
  lemma Unrolled<E>(checks: seq<Check<E>>, i: nat)
    requires i + 5 <= |checks|
    ensures FirstFailed(checks, i) ==
      if !checks[i].holds then Some(checks[i].error)
      else if !checks[i + 1].holds then Some(checks[i + 1].error)
      else if !checks[i + 2].holds then Some(checks[i + 2].error)
      else if !checks[i + 3].holds then Some(checks[i + 3].error)
      else if !checks[i + 4].holds then Some(checks[i + 4].error)
      else FirstFailed(checks, i + 5)
  {
    assert FirstFailed(checks, i + 4)
        == if !checks[i + 4].holds then Some(checks[i + 4].error) else FirstFailed(checks, i + 5);
    assert FirstFailed(checks, i + 3)
        == if !checks[i + 3].holds then Some(checks[i + 3].error) else FirstFailed(checks, i + 4);
    assert FirstFailed(checks, i + 2)
        == if !checks[i + 2].holds then Some(checks[i + 2].error) else FirstFailed(checks, i + 3);
    assert FirstFailed(checks, i + 1)
        == if !checks[i + 1].holds then Some(checks[i + 1].error) else FirstFailed(checks, i + 2);
  }

  lemma NoneLeft<E>(checks: seq<Check<E>>)
    ensures FirstFailed(checks, |checks|) == None
  {
  }

  /** Checks made after others. */
  lemma {:induction false} Joined<E>(checks: seq<Check<E>>, more: seq<Check<E>>, i: nat)
    requires i <= |checks|
    ensures FirstFailed(checks + more, i)
         == if FirstFailed(checks, i).Some? then FirstFailed(checks, i) else FirstFailed(more, 0)
    decreases |checks| - i
  {
    if i < |checks| {
      Joined(checks, more, i + 1);
    } else {
      Shifted(checks, more, 0);
    }
  }

  lemma {:induction false} Shifted<E>(checks: seq<Check<E>>, more: seq<Check<E>>, i: nat)
    requires i <= |more|
    ensures FirstFailed(checks + more, |checks| + i) == FirstFailed(more, i)
    decreases |more| - i
  {
    if i < |more| {
      Shifted(checks, more, i + 1);
    }
  }
}
