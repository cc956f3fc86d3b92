/** Python's `sorted(xs, key=k)`: a stable sort on an integer key. Descending order
    (`reverse=True`, which Python also keeps stable) is the same sort on the negated key.
    The same sort on a string key, in Python's order on strings, follows it. */
module StableSort {

  predicate SortedBy<T>(s: seq<T>, key: T -> int) {
    forall i, j :: 0 <= i < j < |s| ==> key(s[i]) <= key(s[j])
  }

  /** The elements of `s` whose key is `v`, in their order in `s`. */
  function WithKey<T>(s: seq<T>, key: T -> int, v: int): seq<T> {
    if s == [] then [] else (if key(s[0]) == v then [s[0]] else []) + WithKey(s[1..], key, v)
  }

  /** Insertion after every element whose key is not greater. */
  function Insert<T>(x: T, s: seq<T>, key: T -> int): seq<T> {
    if s == [] then [x]
    else if key(x) < key(s[0]) then [x] + s
    else [s[0]] + Insert(x, s[1..], key)
  }

  function SortBy<T>(s: seq<T>, key: T -> int): seq<T> {
    if s == [] then [] else Insert(s[|s| - 1], SortBy(s[..|s| - 1], key), key)
  }

  lemma {:induction false} WithKeyConcat<T>(a: seq<T>, b: seq<T>, key: T -> int, v: int)
    ensures WithKey(a + b, key, v) == WithKey(a, key, v) + WithKey(b, key, v)
  {
    if a == [] {
      assert a + b == b;
    } else {
      var h := if key(a[0]) == v then [a[0]] else [];
      assert (a + b)[0] == a[0] && (a + b)[1..] == a[1..] + b;
      assert WithKey(a + b, key, v) == h + WithKey(a[1..] + b, key, v);
      WithKeyConcat(a[1..], b, key, v);
      assert WithKey(a, key, v) == h + WithKey(a[1..], key, v);
      SeqAssoc(h, WithKey(a[1..], key, v), WithKey(b, key, v));
    }
  }

  lemma SeqAssoc<T>(x: seq<T>, y: seq<T>, z: seq<T>)
    ensures x + (y + z) == x + y + z
  {
  }

  lemma {:induction false} WithKeyNone<T>(s: seq<T>, key: T -> int, v: int)
    requires forall i :: 0 <= i < |s| ==> key(s[i]) != v
    ensures WithKey(s, key, v) == []
  {
    if s != [] { WithKeyNone(s[1..], key, v); }
  }

  lemma {:induction false} InsertBounded<T>(x: T, s: seq<T>, key: T -> int, m: int)
    requires m <= key(x) && forall i :: 0 <= i < |s| ==> m <= key(s[i])
    ensures forall i :: 0 <= i < |Insert(x, s, key)| ==> m <= key(Insert(x, s, key)[i])
  {
    if s != [] && key(x) >= key(s[0]) {
      InsertBounded(x, s[1..], key, m);
    }
  }

  lemma {:induction false} InsertSorted<T>(x: T, s: seq<T>, key: T -> int)
    requires SortedBy(s, key)
    ensures SortedBy(Insert(x, s, key), key)
  {
    if s != [] && key(x) >= key(s[0]) {
      InsertSorted(x, s[1..], key);
      InsertBounded(x, s[1..], key, key(s[0]));
    }
  }

  lemma {:induction false} InsertMultiset<T>(x: T, s: seq<T>, key: T -> int)
    ensures multiset(Insert(x, s, key)) == multiset(s) + multiset{x}
  {
    if s != [] && key(x) >= key(s[0]) {
      InsertMultiset(x, s[1..], key);
      assert s == [s[0]] + s[1..];
    }
  }

  /** Insertion adds `x` and keeps every other element. */
  lemma InsertMembers<T>(x: T, s: seq<T>, key: T -> int)
    ensures forall y :: y in Insert(x, s, key) <==> y == x || y in s
  {
    InsertMultiset(x, s, key);
    forall y ensures y in Insert(x, s, key) <==> y == x || y in s {
      assert y in Insert(x, s, key) <==> y in multiset(Insert(x, s, key));
      assert y in s <==> y in multiset(s);
    }
  }

  lemma {:induction false} InsertWithKey<T>(x: T, s: seq<T>, key: T -> int, v: int)
    requires SortedBy(s, key)
    ensures WithKey(Insert(x, s, key), key, v) == WithKey(s, key, v) + (if key(x) == v then [x] else [])
  {
    if s == [] {
    } else if key(x) < key(s[0]) {
      assert ([x] + s)[1..] == s;
      if key(x) == v {
        assert forall i :: 0 <= i < |s| ==> key(s[0]) <= key(s[i]);
        WithKeyNone(s, key, v);
      }
    } else {
      var tail := s[1..];
      assert SortedBy(tail, key) by {
        forall i, j | 0 <= i < j < |tail| ensures key(tail[i]) <= key(tail[j]) {
          assert tail[i] == s[i + 1] && tail[j] == s[j + 1];
        }
      }
      InsertWithKey(x, tail, key, v);
      var r := Insert(x, tail, key);
      assert ([s[0]] + r)[1..] == r;
      var h := if key(s[0]) == v then [s[0]] else [];
      assert WithKey([s[0]] + r, key, v) == h + WithKey(r, key, v);
      assert WithKey(s, key, v) == h + WithKey(tail, key, v);
    }
  }

  /** `sorted` returns the input ordered by key; among equal keys the input order is kept
      (which also makes the output a permutation of the input). */
  lemma {:induction false} SortByFacts<T>(s: seq<T>, key: T -> int)
    ensures SortedBy(SortBy(s, key), key)
    ensures multiset(SortBy(s, key)) == multiset(s)
    ensures |SortBy(s, key)| == |s|
    ensures forall v :: WithKey(SortBy(s, key), key, v) == WithKey(s, key, v)
  {
    if s != [] {
      var init, last := s[..|s| - 1], s[|s| - 1];
      SortByFacts(init, key);
      InsertSorted(last, SortBy(init, key), key);
      InsertMultiset(last, SortBy(init, key), key);
      assert s == init + [last];
      forall v ensures WithKey(SortBy(s, key), key, v) == WithKey(s, key, v) {
        InsertWithKey(last, SortBy(init, key), key, v);
        WithKeyConcat(init, [last], key, v);
        assert [last][1..] == [];
      }
      assert |SortBy(s, key)| == |multiset(SortBy(s, key))|;
    }
  }

  /** A prefix of the sorted sequence, as `sorted(...)[:k]` keeps: a sub-multiset of the
      input, no kept element has a greater key than a dropped one, and the kept elements of
      each key are the first ones of that key in the input. */
  lemma SortedPrefixFacts<T>(s: seq<T>, key: T -> int, t: seq<T>)
    requires t <= SortBy(s, key)
    ensures multiset(t) <= multiset(s)
    ensures forall e, d :: e in t && d in multiset(s) - multiset(t) ==> key(e) <= key(d)
    ensures forall v :: WithKey(t, key, v) <= WithKey(s, key, v)
  {
    var sorted := SortBy(s, key);
    SortByFacts(s, key);
    var rest := sorted[|t|..];
    assert sorted == t + rest;
    assert multiset(s) - multiset(t) == multiset(rest);
    SortedSplit(t, rest, key);
    forall v ensures WithKey(t, key, v) <= WithKey(s, key, v) {
      WithKeyConcat(t, rest, key, v);
    }
  }

  /** In a sorted sequence every element of a prefix comes no later than every element after it. */
  lemma SortedSplit<T>(t: seq<T>, rest: seq<T>, key: T -> int)
    requires SortedBy(t + rest, key)
    ensures forall e, d :: e in t && d in rest ==> key(e) <= key(d)
  {
    forall e, d | e in t && d in rest ensures key(e) <= key(d) {
      var i :| 0 <= i < |t| && t[i] == e;
      var j :| 0 <= j < |rest| && rest[j] == d;
      assert (t + rest)[i] == e && (t + rest)[|t| + j] == d;
    }
  }

  // ================================================================ string keys

  /** Python's `a <= b` on strings: code point by code point, a proper prefix first. */
  predicate TextLe(a: string, b: string)
    decreases |a|
  {
    if a == [] then true
    else if b == [] then false
    else if a[0] != b[0] then a[0] < b[0]
    else TextLe(a[1..], b[1..])
  }

  lemma {:induction false} TextLeTotal(a: string, b: string)
    ensures TextLe(a, b) || TextLe(b, a)
    decreases |a|
  {
    if a != [] && b != [] && a[0] == b[0] {
      TextLeTotal(a[1..], b[1..]);
    }
  }

  lemma {:induction false} TextLeTrans(a: string, b: string, c: string)
    requires TextLe(a, b) && TextLe(b, c)
    ensures TextLe(a, c)
    decreases |a|
  {
    if a != [] && a[0] == b[0] && b[0] == c[0] {
      TextLeTrans(a[1..], b[1..], c[1..]);
    }
  }

  predicate SortedByText<T>(s: seq<T>, key: T -> string) {
    forall i, j :: 0 <= i < j < |s| ==> TextLe(key(s[i]), key(s[j]))
  }

  /** The elements of `s` whose key is `v`, in their order in `s`. */
  function WithText<T>(s: seq<T>, key: T -> string, v: string): seq<T> {
    if s == [] then [] else (if key(s[0]) == v then [s[0]] else []) + WithText(s[1..], key, v)
  }

  /** Insertion after every element whose key is not greater. */
  function InsertText<T>(x: T, s: seq<T>, key: T -> string): seq<T> {
    if s == [] then [x]
    else if !TextLe(key(s[0]), key(x)) then [x] + s
    else [s[0]] + InsertText(x, s[1..], key)
  }

  function SortByText<T>(s: seq<T>, key: T -> string): seq<T> {
    if s == [] then [] else InsertText(s[|s| - 1], SortByText(s[..|s| - 1], key), key)
  }

  lemma {:induction false} WithTextConcat<T>(a: seq<T>, b: seq<T>, key: T -> string, v: string)
    ensures WithText(a + b, key, v) == WithText(a, key, v) + WithText(b, key, v)
  {
    if a == [] {
      assert a + b == b;
    } else {
      var h := if key(a[0]) == v then [a[0]] else [];
      assert (a + b)[0] == a[0] && (a + b)[1..] == a[1..] + b;
      assert WithText(a + b, key, v) == h + WithText(a[1..] + b, key, v);
      WithTextConcat(a[1..], b, key, v);
      assert WithText(a, key, v) == h + WithText(a[1..], key, v);
      SeqAssoc(h, WithText(a[1..], key, v), WithText(b, key, v));
    }
  }

  lemma {:induction false} WithTextNone<T>(s: seq<T>, key: T -> string, v: string)
    requires forall i :: 0 <= i < |s| ==> key(s[i]) != v
    ensures WithText(s, key, v) == []
  {
    if s != [] { WithTextNone(s[1..], key, v); }
  }

  lemma {:induction false} InsertTextBounded<T>(x: T, s: seq<T>, key: T -> string, m: string)
    requires TextLe(m, key(x)) && forall i :: 0 <= i < |s| ==> TextLe(m, key(s[i]))
    ensures forall i :: 0 <= i < |InsertText(x, s, key)| ==> TextLe(m, key(InsertText(x, s, key)[i]))
  {
    if s != [] && TextLe(key(s[0]), key(x)) {
      InsertTextBounded(x, s[1..], key, m);
    }
  }

  lemma {:induction false} InsertTextSorted<T>(x: T, s: seq<T>, key: T -> string)
    requires SortedByText(s, key)
    ensures SortedByText(InsertText(x, s, key), key)
  {
    if s != [] {
      if TextLe(key(s[0]), key(x)) {
        InsertTextSorted(x, s[1..], key);
        InsertTextBounded(x, s[1..], key, key(s[0]));
      } else {
        TextLeTotal(key(s[0]), key(x));
        forall i | 0 <= i < |s| ensures TextLe(key(x), key(s[i])) {
          if i > 0 {
            TextLeTrans(key(x), key(s[0]), key(s[i]));
          }
        }
      }
    }
  }

  lemma {:induction false} InsertTextMultiset<T>(x: T, s: seq<T>, key: T -> string)
    ensures multiset(InsertText(x, s, key)) == multiset(s) + multiset{x}
  {
    if s != [] && TextLe(key(s[0]), key(x)) {
      InsertTextMultiset(x, s[1..], key);
      assert s == [s[0]] + s[1..];
    }
  }

  lemma {:induction false} InsertWithText<T>(x: T, s: seq<T>, key: T -> string, v: string)
    requires SortedByText(s, key)
    ensures WithText(InsertText(x, s, key), key, v) == WithText(s, key, v) + (if key(x) == v then [x] else [])
  {
    if s == [] {
    } else if !TextLe(key(s[0]), key(x)) {
      assert ([x] + s)[1..] == s;
      if key(x) == v {
        forall i | 0 <= i < |s| ensures key(s[i]) != v {
          if i == 0 {
            TextLeTotal(key(s[0]), key(s[0]));
          }
        }
        WithTextNone(s, key, v);
      }
    } else {
      var tail := s[1..];
      assert SortedByText(tail, key) by {
        forall i, j | 0 <= i < j < |tail| ensures TextLe(key(tail[i]), key(tail[j])) {
          assert tail[i] == s[i + 1] && tail[j] == s[j + 1];
        }
      }
      InsertWithText(x, tail, key, v);
      var r := InsertText(x, tail, key);
      assert ([s[0]] + r)[1..] == r;
      var h := if key(s[0]) == v then [s[0]] else [];
      assert WithText([s[0]] + r, key, v) == h + WithText(r, key, v);
      assert WithText(s, key, v) == h + WithText(tail, key, v);
    }
  }

  /** `sorted` on a string key returns the input in Python's string order; among equal
      keys the input order is kept. */
  lemma {:induction false} SortByTextFacts<T>(s: seq<T>, key: T -> string)
    ensures SortedByText(SortByText(s, key), key)
    ensures multiset(SortByText(s, key)) == multiset(s)
    ensures |SortByText(s, key)| == |s|
    ensures forall v :: WithText(SortByText(s, key), key, v) == WithText(s, key, v)
  {
    if s != [] {
      var init, last := s[..|s| - 1], s[|s| - 1];
      SortByTextFacts(init, key);
      InsertTextSorted(last, SortByText(init, key), key);
      InsertTextMultiset(last, SortByText(init, key), key);
      assert s == init + [last];
      forall v ensures WithText(SortByText(s, key), key, v) == WithText(s, key, v) {
        InsertWithText(last, SortByText(init, key), key, v);
        WithTextConcat(init, [last], key, v);
        assert [last][1..] == [];
      }
      assert |SortByText(s, key)| == |multiset(SortByText(s, key))|;
    }
  }

  /** `SortedPrefixFacts` for a string key. */
  lemma SortedTextPrefixFacts<T>(s: seq<T>, key: T -> string, t: seq<T>)
    requires t <= SortByText(s, key)
    ensures multiset(t) <= multiset(s)
    ensures forall e, d :: e in t && d in multiset(s) - multiset(t) ==> TextLe(key(e), key(d))
    ensures forall v :: WithText(t, key, v) <= WithText(s, key, v)
  {
    var sorted := SortByText(s, key);
    SortByTextFacts(s, key);
    var rest := sorted[|t|..];
    assert sorted == t + rest;
    assert multiset(s) - multiset(t) == multiset(rest);
    SortedTextSplit(t, rest, key);
    forall v ensures WithText(t, key, v) <= WithText(s, key, v) {
      WithTextConcat(t, rest, key, v);
    }
  }

  /** In a sorted sequence every element of a prefix comes no later than every element after it. */
  lemma SortedTextSplit<T>(t: seq<T>, rest: seq<T>, key: T -> string)
    requires SortedByText(t + rest, key)
    ensures forall e, d :: e in t && d in rest ==> TextLe(key(e), key(d))
  {
    forall e, d | e in t && d in rest ensures TextLe(key(e), key(d)) {
      var i :| 0 <= i < |t| && t[i] == e;
      var j :| 0 <= j < |rest| && rest[j] == d;
      assert (t + rest)[i] == e && (t + rest)[|t| + j] == d;
    }
  }
}
