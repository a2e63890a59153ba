/** A fact about list comprehensions shared by the filters and expansions
    of the model: one that works element by element distributes over
    concatenation. */
module Lists {

  /** `resolve` takes a non-empty list apart at its head: the head's
      contribution `expand(s[0])` comes first, then the rest's. */
  ghost predicate SplitsAtHead<T, U>(resolve: seq<T> -> seq<U>, expand: T -> seq<U>, s: seq<T>) {
    |s| > 0 ==> resolve(s) == expand(s[0]) + resolve(s[1..])
  }

  /** Any map on lists that is empty on the empty list and takes each list
      apart at its head distributes over concatenation. */
  lemma {:induction false} AppendByHead<T, U>(resolve: seq<T> -> seq<U>, expand: T -> seq<U>,
                                              a: seq<T>, b: seq<T>)
    requires resolve([]) == []
    requires forall s :: SplitsAtHead(resolve, expand, s)
    ensures resolve(a + b) == resolve(a) + resolve(b)
    decreases |a|
  {
    if |a| == 0 {
      assert a + b == b;
    } else {
      AppendByHead(resolve, expand, a[1..], b);
      assert (a + b)[1..] == a[1..] + b;
      assert (a + b)[0] == a[0];
      assert SplitsAtHead(resolve, expand, a);
      assert SplitsAtHead(resolve, expand, a + b);
    }
  }
}
