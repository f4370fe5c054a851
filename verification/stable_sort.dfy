/**
  A stable sort on integer keys. `Array.prototype.sort` is required to be
  stable, so a comparator of the form `key(a) - key(b)` orders by key and
  keeps elements with equal keys in their input order. The sort is an
  insertion sort written as a function; its contract is sortedness,
  permutation and stability.
 */
module StableSort {
  import opened Seqs

  /** Keys never decrease from left to right. */
  predicate SortedBy<T>(s: seq<T>, key: T -> int)
  {
    forall i, j :: 0 <= i < j < |s| ==> key(s[i]) <= key(s[j])
  }

  /** The predicate "has key `k`", used to state stability one key at a time. */
  function KeyIs<T>(key: T -> int, k: int): T -> bool
  {
    x => key(x) == k
  }

  /** Places `x` in front of the first element whose key is not smaller than its own. */
  function Insert<T(==)>(x: T, s: seq<T>, key: T -> int): (r: seq<T>)
    requires SortedBy(s, key)
    ensures SortedBy(r, key)
    ensures multiset(r) == multiset(s) + multiset{x}
    ensures |r| == |s| + 1
  {
    if |s| == 0 || key(x) <= key(s[0]) then
      [x] + s
    else
      assert s == [s[0]] + s[1..];
      var rest := Insert(x, s[1..], key);
      assert rest[0] in multiset(rest);
      [s[0]] + rest
  }

  /** `s` rearranged into ascending key order, equal keys keeping their input order. */
  function Sort<T(==)>(s: seq<T>, key: T -> int): (r: seq<T>)
    ensures SortedBy(r, key)
    ensures multiset(r) == multiset(s)
    ensures |r| == |s|
  {
    if |s| == 0 then []
    else
      assert s == [s[0]] + s[1..];
      Insert(s[0], Sort(s[1..], key), key)
  }

  /** Inserting `x` puts it before every element of equal key and keeps the others' relative order. */
  lemma {:induction false} InsertStable<T(!new)>(x: T, s: seq<T>, key: T -> int, k: int)
    requires SortedBy(s, key)
    ensures Filter(Insert(x, s, key), KeyIs(key, k))
         == if key(x) == k then [x] + Filter(s, KeyIs(key, k)) else Filter(s, KeyIs(key, k))
  {
    var p := KeyIs(key, k);
    if |s| == 0 || key(x) <= key(s[0]) {
      assert ([x] + s)[1..] == s;
      if key(x) == k {
        assert Filter(s, p) == Filter([], p) + Filter(s, p);
      }
    } else {
      InsertStable(x, s[1..], key, k);
      assert ([s[0]] + Insert(x, s[1..], key))[1..] == Insert(x, s[1..], key);
      if key(x) == k {
        // s[0] sorts strictly before x, so it does not carry key k
        assert !p(s[0]);
      }
    }
  }

  /** Stability: restricted to any one key, the sorted sequence is the input sequence. */
  lemma {:induction false} SortStable<T(!new)>(s: seq<T>, key: T -> int, k: int)
    ensures Filter(Sort(s, key), KeyIs(key, k)) == Filter(s, KeyIs(key, k))
  {
    if |s| > 0 {
      SortStable(s[1..], key, k);
      InsertStable(s[0], Sort(s[1..], key), key, k);
    }
  }

  /** Sorting a sequence that is already in key order changes nothing. */
  lemma {:induction false} SortSortedIsIdentity<T(!new)>(s: seq<T>, key: T -> int)
    requires SortedBy(s, key)
    ensures Sort(s, key) == s
  {
    if |s| > 0 {
      assert SortedBy(s[1..], key);
      SortSortedIsIdentity(s[1..], key);
      assert s == [s[0]] + s[1..];
    }
  }

  /** Sorting twice by the same key is sorting once. */
  lemma SortIdempotent<T(!new)>(s: seq<T>, key: T -> int)
    ensures Sort(Sort(s, key), key) == Sort(s, key)
  {
    SortSortedIsIdentity(Sort(s, key), key);
  }
}
