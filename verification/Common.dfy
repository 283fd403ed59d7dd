/** Small helpers shared by the models. */
module Common {

  datatype Option<+T> = None | Some(value: T)

  /** The last element of a nonempty sequence. */
  function Last<T>(s: seq<T>): T
    requires |s| > 0
  {
    s[|s| - 1]
  }

  /** A sequence without its last element. */
  function Front<T>(s: seq<T>): seq<T>
    requires |s| > 0
  {
    s[..|s| - 1]
  }

  /** The position at place `pos` of the endless repetition of `n` positions. */
  function Cycled(pos: nat, n: nat): (i: nat)
    requires n > 0
    ensures i < n
  {
    if pos < n then pos else Cycled(pos - n, n)
  }

  lemma {:induction false} CycledSuccessor(a: nat, n: nat)
    requires n > 0
    ensures Cycled(a + 1, n) == if Cycled(a, n) + 1 == n then 0 else Cycled(a, n) + 1
  {
    if a >= n {
      CycledSuccessor(a - n, n);
    }
  }

  /** Two places hold the same position exactly when they are a whole number of rounds apart. */
  lemma {:induction false} CycledEqual(a: nat, b: nat, n: nat)
    requires n > 0 && b <= a
    ensures Cycled(a, n) == Cycled(b, n) <==> Cycled(a - b, n) == 0
    decreases a
  {
    if b >= n {
      CycledEqual(a - n, b - n, n);
    } else if a >= b + n {
      CycledEqual(a - n, b, n);
    } else if a >= n {
      assert Cycled(a, n) == a - n;
    }
  }
}
