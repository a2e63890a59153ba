/** Python's `list.sort(key=...)` / `sorted(..., key=...)` for keys that are
    tuples `(text, int, int)`: a stable sort, modelled as insertion sort on
    sequences. */
module Sorting {
  import opened Text

  /** A sort-key tuple, compared component by component. */
  datatype Key = Key(text: string, first: int, second: int)

  /** Python's `<` on the tuple. */
  predicate KeyLess(a: Key, b: Key) {
    || StrLess(a.text, b.text)
    || (a.text == b.text && a.first < b.first)
    || (a.text == b.text && a.first == b.first && a.second < b.second)
  }

  lemma KeyLessIrreflexive(a: Key)
    ensures !KeyLess(a, a)
  {
    StrLessIrreflexive(a.text);
  }

  lemma KeyLessTransitive(a: Key, b: Key, c: Key)
    requires KeyLess(a, b) && KeyLess(b, c)
    ensures KeyLess(a, c)
  {
    if StrLess(a.text, b.text) && StrLess(b.text, c.text) {
      StrLessTransitive(a.text, b.text, c.text);
    }
  }

  lemma KeyLessTotal(a: Key, b: Key)
    ensures a == b || KeyLess(a, b) || KeyLess(b, a)
  {
    StrLessTotal(a.text, b.text);
  }

  /** "Not greater" is transitive. */
  lemma KeyLeTransitive(a: Key, b: Key, c: Key)
    requires !KeyLess(b, a) && !KeyLess(c, b)
    ensures !KeyLess(c, a)
  {
    KeyLessTotal(a, b);
    KeyLessTotal(b, c);
    if KeyLess(c, a) {
      if a == b {
      } else if b == c {
      } else {
        KeyLessTransitive(a, b, c);
        KeyLessTransitive(c, a, b);
        KeyLessIrreflexive(b);
      }
    }
  }

  /** No element is followed by one with a smaller key. */
  ghost predicate SortedBy<T>(s: seq<T>, key: T -> Key) {
    forall i, j :: 0 <= i < j < |s| ==> !KeyLess(key(s[j]), key(s[i]))
  }

  /** The elements of `s` whose key is `k`, in their order in `s`. */
  function WithKey<T>(s: seq<T>, key: T -> Key, k: Key): seq<T>
    decreases |s|
  {
    if |s| == 0 then []
    else (if key(s[0]) == k then [s[0]] else []) + WithKey(s[1..], key, k)
  }

  /** Places `x` before the first element whose key is not smaller than
      its own, so `x` precedes every element with an equal key. */
  function Insert<T>(x: T, s: seq<T>, key: T -> Key): (r: seq<T>)
    ensures |r| == |s| + 1
    decreases |s|
  {
    if |s| == 0 || !KeyLess(key(s[0]), key(x)) then [x] + s
    else [s[0]] + Insert(x, s[1..], key)
  }

  lemma {:induction false} InsertMultiset<T>(x: T, s: seq<T>, key: T -> Key)
    ensures multiset(Insert(x, s, key)) == multiset(s) + multiset{x}
    decreases |s|
  {
    if |s| > 0 && KeyLess(key(s[0]), key(x)) {
      InsertMultiset(x, s[1..], key);
      assert s == [s[0]] + s[1..];
    }
  }

  lemma {:induction false} InsertSorted<T>(x: T, s: seq<T>, key: T -> Key)
    requires SortedBy(s, key)
    ensures SortedBy(Insert(x, s, key), key)
    decreases |s|
  {
    var r := Insert(x, s, key);
    if |s| == 0 {
    } else if !KeyLess(key(s[0]), key(x)) {
      forall i, j | 0 <= i < j < |r| ensures !KeyLess(key(r[j]), key(r[i])) {
        if i == 0 {
          assert r[j] == s[j - 1];
          if j - 1 > 0 {
            KeyLeTransitive(key(x), key(s[0]), key(s[j - 1]));
          }
        } else {
          assert r[i] == s[i - 1] && r[j] == s[j - 1];
        }
      }
    } else {
      var t := Insert(x, s[1..], key);
      InsertSorted(x, s[1..], key);
      assert r == [s[0]] + t;
      assert !KeyLess(key(x), key(s[0])) by {
        if KeyLess(key(x), key(s[0])) {
          KeyLessTransitive(key(x), key(s[0]), key(x));
          KeyLessIrreflexive(key(x));
        }
      }
      assert forall m :: 0 <= m < |s[1..]| ==> !KeyLess(key(s[1..][m]), key(s[0])) by {
        forall m | 0 <= m < |s[1..]| ensures !KeyLess(key(s[1..][m]), key(s[0])) {
          assert s[1..][m] == s[m + 1];
        }
      }
      InsertAbove(x, s[1..], key, key(s[0]));
      forall i, j | 0 <= i < j < |r| ensures !KeyLess(key(r[j]), key(r[i])) {
        if i == 0 {
          assert r[j] == t[j - 1];
        } else {
          assert r[i] == t[i - 1] && r[j] == t[j - 1];
        }
      }
    }
  }

  /** Inserting an element not below `lo` into elements not below `lo`
      keeps every element not below `lo`. */
  lemma InsertAbove<T>(x: T, s: seq<T>, key: T -> Key, lo: Key)
    requires !KeyLess(key(x), lo)
    requires forall m :: 0 <= m < |s| ==> !KeyLess(key(s[m]), lo)
    ensures forall j :: 0 <= j < |Insert(x, s, key)| ==> !KeyLess(key(Insert(x, s, key)[j]), lo)
  {
    var t := Insert(x, s, key);
    InsertMultiset(x, s, key);
    forall j | 0 <= j < |t| ensures !KeyLess(key(t[j]), lo) {
      assert t[j] in multiset(t);
      if t[j] != x {
        assert t[j] in multiset(s);
        var m :| 0 <= m < |s| && s[m] == t[j];
      }
    }
  }

  lemma {:induction false} InsertWithKey<T>(x: T, s: seq<T>, key: T -> Key, k: Key)
    requires SortedBy(s, key)
    ensures WithKey(Insert(x, s, key), key, k) == (if key(x) == k then [x] else []) + WithKey(s, key, k)
    decreases |s|
  {
    if |s| == 0 || !KeyLess(key(s[0]), key(x)) {
      assert ([x] + s)[1..] == s;
    } else {
      var t := Insert(x, s[1..], key);
      assert SortedBy(s[1..], key) by {
        forall i, j | 0 <= i < j < |s[1..]| ensures !KeyLess(key(s[1..][j]), key(s[1..][i])) {
          assert s[1..][j] == s[j + 1] && s[1..][i] == s[i + 1];
        }
      }
      InsertWithKey(x, s[1..], key, k);
      assert ([s[0]] + t)[1..] == t;
      KeyLessIrreflexive(key(x));
      assert key(s[0]) != key(x);
    }
  }

  /** `sorted(s, key=key)`: a permutation of `s`, ordered by key, in which
      the elements of each key keep their original relative order. */
  function Sort<T>(s: seq<T>, key: T -> Key): (r: seq<T>)
    ensures |r| == |s|
    ensures multiset(r) == multiset(s)
    ensures SortedBy(r, key)
    ensures forall k :: WithKey(r, key, k) == WithKey(s, key, k)
    decreases |s|
  {
    if |s| == 0 then []
    else
      var rest := Sort(s[1..], key);
      InsertMultiset(s[0], rest, key);
      InsertSorted(s[0], rest, key);
      assert s == [s[0]] + s[1..];
      var r := Insert(s[0], rest, key);
      assert forall k :: WithKey(r, key, k) == WithKey(s, key, k) by {
        forall k ensures WithKey(r, key, k) == WithKey(s, key, k) {
          InsertWithKey(s[0], rest, key, k);
        }
      }
      r
  }

  /** Picking the elements of one key commutes with concatenation. */
  lemma {:induction false} WithKeyAppend<T>(a: seq<T>, b: seq<T>, key: T -> Key, k: Key)
    ensures WithKey(a + b, key, k) == WithKey(a, key, k) + WithKey(b, key, k)
    decreases |a|
  {
    if |a| == 0 {
      assert a + b == b;
    } else {
      WithKeyAppend(a[1..], b, key, k);
      assert (a + b)[1..] == a[1..] + b;
      assert (a + b)[0] == a[0];
    }
  }

  /** The elements of one key in a prefix are the first ones of that key
      in the whole sequence. */
  lemma WithKeyPrefix<T>(s: seq<T>, m: nat, key: T -> Key, k: Key)
    requires m <= |s|
    ensures |WithKey(s[..m], key, k)| <= |WithKey(s, key, k)|
    ensures WithKey(s[..m], key, k) == WithKey(s, key, k)[..|WithKey(s[..m], key, k)|]
  {
    assert s == s[..m] + s[m..];
    WithKeyAppend(s[..m], s[m..], key, k);
  }
}
