/**
 * Lists of records that carry a string id, and `list.filter(r => key(r) !== k)`,
 * the one removal both the user roster and the alert list perform.
 */
module KeyedLists {

  /** The ids of `s`, in order. */
  function Keys<T>(s: seq<T>, key: T -> string): (ks: seq<string>)
    ensures |ks| == |s|
    ensures forall i | 0 <= i < |s| :: ks[i] == key(s[i])
  {
    if s == [] then [] else [key(s[0])] + Keys(s[1..], key)
  }

  /** No record of `s` has id `k`. */
  predicate NoKey<T>(s: seq<T>, key: T -> string, k: string)
  {
    forall i | 0 <= i < |s| :: key(s[i]) != k
  }

  /** No two records of `s` share an id. */
  predicate UniqueKeys<T>(s: seq<T>, key: T -> string)
  {
    forall i, j | 0 <= i < j < |s| :: key(s[i]) != key(s[j])
  }

  /** `a` is `b` with some elements dropped and the rest in their order. */
  predicate IsSubsequence<T(==)>(a: seq<T>, b: seq<T>)
    decreases |b|
  {
    if a == [] then true
    else if b == [] then false
    else if a[0] == b[0] then IsSubsequence(a[1..], b[1..])
    else IsSubsequence(a, b[1..])
  }

  /** `s.filter(r => key(r) !== k)`. */
  function Without<T(==,!new)>(s: seq<T>, key: T -> string, k: string): (r: seq<T>)
    ensures |r| <= |s|
    ensures NoKey(r, key, k)
  {
    if s == [] then []
    else
      var rest := Without(s[1..], key, k);
      if key(s[0]) == k then rest else [s[0]] + rest
  }

  /** What survives the filter is exactly the records whose id differs from `k`. */
  lemma {:induction false} WithoutMembers<T(!new)>(s: seq<T>, key: T -> string, k: string)
    ensures forall x :: x in Without(s, key, k) <==> x in s && key(x) != k
  {
    if s != [] {
      WithoutMembers(s[1..], key, k);
      assert forall x :: x in s <==> x == s[0] || x in s[1..];
    }
  }

  /** Filtering out an id that no record has changes nothing. */
  lemma {:induction false} WithoutAbsent<T(!new)>(s: seq<T>, key: T -> string, k: string)
    requires NoKey(s, key, k)
    ensures Without(s, key, k) == s
  {
    if s != [] {
      WithoutAbsent(s[1..], key, k);
    }
  }

  /** Filtering twice by the same id is filtering once. */
  lemma WithoutIdempotent<T(!new)>(s: seq<T>, key: T -> string, k: string)
    ensures Without(Without(s, key, k), key, k) == Without(s, key, k)
  {
    WithoutAbsent(Without(s, key, k), key, k);
  }

  /** Filtering works element by element, so it distributes over concatenation. */
  lemma {:induction false} WithoutConcat<T(!new)>(a: seq<T>, b: seq<T>, key: T -> string, k: string)
    ensures Without(a + b, key, k) == Without(a, key, k) + Without(b, key, k)
  {
    if a == [] {
      assert a + b == b;
    } else {
      assert (a + b)[1..] == a[1..] + b;
      WithoutConcat(a[1..], b, key, k);
    }
  }

  /** The records that survive the filter keep their relative order. */
  lemma {:induction false} WithoutKeepsOrder<T(!new)>(s: seq<T>, key: T -> string, k: string)
    ensures IsSubsequence(Without(s, key, k), s)
  {
    if s != [] {
      WithoutKeepsOrder(s[1..], key, k);
      if key(s[0]) == k {
        SubsequenceOfTail(Without(s[1..], key, k), s);
      } else {
        assert ([s[0]] + Without(s[1..], key, k))[1..] == Without(s[1..], key, k);
      }
    }
  }

  /** A subsequence of the tail is a subsequence of the whole. */
  lemma {:induction false} SubsequenceOfTail<T>(a: seq<T>, b: seq<T>)
    requires b != [] && IsSubsequence(a, b[1..])
    ensures IsSubsequence(a, b)
    decreases |b|, 0
  {
    if a != [] && a[0] == b[0] {
      // Greedy matching takes b[0]; what remains of a still embeds in b[1..].
      TailOfSubsequence(a, b[1..]);
    }
  }

  /** Dropping the first element of a subsequence keeps it a subsequence. */
  lemma {:induction false} TailOfSubsequence<T>(a: seq<T>, b: seq<T>)
    requires a != [] && IsSubsequence(a, b)
    ensures IsSubsequence(a[1..], b)
    decreases |b|, 1
  {
    assert b != [];
    if a[0] == b[0] {
      if a[1..] != [] {
        SubsequenceOfTail(a[1..], b);
      }
    } else {
      TailOfSubsequence(a, b[1..]);
      if a[1..] != [] {
        SubsequenceOfTail(a[1..], b);
      }
    }
  }

  /** With unique ids, filtering by the id at index `i` removes exactly that record. */
  lemma {:induction false} WithoutUnique<T(!new)>(s: seq<T>, key: T -> string, i: nat)
    requires UniqueKeys(s, key) && i < |s|
    ensures Without(s, key, key(s[i])) == s[..i] + s[i + 1..]
  {
    var k := key(s[i]);
    if i == 0 {
      assert NoKey(s[1..], key, k) by {
        assert forall j | 0 <= j < |s[1..]| :: s[1..][j] == s[j + 1];
      }
      WithoutAbsent(s[1..], key, k);
    } else {
      var t := s[1..];
      assert UniqueKeys(t, key) by {
        assert forall j | 0 <= j < |t| :: t[j] == s[j + 1];
      }
      assert t[i - 1] == s[i];
      WithoutUnique(t, key, i - 1);
      assert key(s[0]) != k;
      assert s[..i] == [s[0]] + t[..i - 1];
      assert s[i + 1..] == t[i..];
    }
  }

  /** Filtering keeps ids unique. */
  lemma {:induction false} WithoutKeepsUnique<T(!new)>(s: seq<T>, key: T -> string, k: string)
    requires UniqueKeys(s, key)
    ensures UniqueKeys(Without(s, key, k), key)
  {
    if s != [] {
      WithoutKeepsUnique(s[1..], key, k);
      var rest := Without(s[1..], key, k);
      if key(s[0]) != k {
        forall j | 0 <= j < |rest|
          ensures key(rest[j]) != key(s[0])
        {
          WithoutMembers(s[1..], key, k);
          assert rest[j] in s[1..];
        }
        assert forall j | 1 <= j < |[s[0]] + rest| :: ([s[0]] + rest)[j] == rest[j - 1];
      }
    }
  }
}
