/**
 * Left-to-right search over the positions `i, i + 1, ..., n - 1` for the
 * first one at which a test yields a value: the order in which the server
 * tries the braces of the agent's output.
 */
module Search {
  import opened Wrappers

  /** The value at the first position in `[i, n)` where `f` yields one. */
  function FirstSome<T>(f: nat -> Option<T>, i: nat, n: nat): Option<T>
    decreases n - i
  {
    if n <= i then None
    else if f(i).Some? then f(i)
    else FirstSome(f, i + 1, n)
  }

  /** A found value comes from some position in range, with nothing found before it. */
  lemma {:induction false} FirstSomeFound<T>(f: nat -> Option<T>, i: nat, n: nat) returns (j: nat)
    requires FirstSome(f, i, n).Some?
    ensures i <= j < n && f(j) == FirstSome(f, i, n)
    ensures forall k | i <= k < j :: f(k).None?
    decreases n - i
  {
    if f(i).Some? {
      j := i;
    } else {
      j := FirstSomeFound(f, i + 1, n);
    }
  }

  /** The first position that yields a value decides the search. */
  lemma {:induction false} FirstSomeAt<T>(f: nat -> Option<T>, i: nat, j: nat, n: nat)
    requires i <= j < n && f(j).Some?
    requires forall k | i <= k < j :: f(k).None?
    ensures FirstSome(f, i, n) == f(j)
    decreases j - i
  {
    if i < j {
      FirstSomeAt(f, i + 1, j, n);
    }
  }

  /** Nothing is found exactly when no position in range yields a value. */
  lemma {:induction false} FirstSomeNone<T>(f: nat -> Option<T>, i: nat, n: nat)
    ensures FirstSome(f, i, n).None? <==> forall k | i <= k < n :: f(k).None?
    decreases n - i
  {
    if i < n {
      FirstSomeNone(f, i + 1, n);
    }
  }

  /** First match wins: `v` is found exactly when it is yielded at some position and nowhere before. */
  lemma FirstSomeLeftmost<T>(f: nat -> Option<T>, n: nat, v: T)
    ensures FirstSome(f, 0, n) == Some(v) <==>
            exists j | 0 <= j < n :: f(j) == Some(v) && forall k | 0 <= k < j :: f(k).None?
  {
    if FirstSome(f, 0, n).Some? {
      var j := FirstSomeFound(f, 0, n);
    }
    if j :| 0 <= j < n && f(j) == Some(v) && forall k | 0 <= k < j :: f(k).None? {
      FirstSomeAt(f, 0, j, n);
    }
  }
}
