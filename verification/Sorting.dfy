/** Sorting, stable or with ties left open, and de-duplication by key, as the frames of the program do them. */
module Sorting {
  import opened Common

  ghost predicate TotalPreorder<T(!new)>(le: (T, T) -> bool) {
    && (forall a, b :: le(a, b) || le(b, a))
    && forall a, b, c :: le(a, b) && le(b, c) ==> le(a, c)
  }

  ghost predicate Ordered<T>(s: seq<T>, le: (T, T) -> bool) {
    forall i, j :: 0 <= i < j < |s| ==> le(s[i], s[j])
  }

  /** What any sort makes of a sequence: the same elements in order, those that tie in any arrangement. */
  ghost predicate Arranged<T>(s: seq<T>, t: seq<T>, le: (T, T) -> bool) {
    multiset(t) == multiset(s) && Ordered(t, le)
  }

  /** Puts x before the first element that it may precede. */
  function Insert<T>(x: T, s: seq<T>, le: (T, T) -> bool): seq<T> {
    if s == [] then [x] else if le(x, s[0]) then [x] + s else [s[0]] + Insert(x, s[1..], le)
  }

  /** Stable: of two elements that tie, the earlier one stays in front. */
  function Sort<T>(s: seq<T>, le: (T, T) -> bool): seq<T> {
    if s == [] then [] else Insert(s[0], Sort(s[1..], le), le)
  }

  lemma {:induction false} InsertMembers<T>(x: T, s: seq<T>, le: (T, T) -> bool)
    ensures multiset(Insert(x, s, le)) == multiset(s) + multiset{x}
    ensures |Insert(x, s, le)| == |s| + 1
  {
    if s != [] {
      assert s == [s[0]] + s[1..];
      if !le(x, s[0]) { InsertMembers(x, s[1..], le); }
    }
  }

  lemma {:induction false} InsertOrdered<T(!new)>(x: T, s: seq<T>, le: (T, T) -> bool)
    requires TotalPreorder(le) && Ordered(s, le)
    ensures Ordered(Insert(x, s, le), le)
  {
    if s != [] {
      if le(x, s[0]) {
        forall j | 0 <= j < |s| ensures le(x, s[j]) { assert j == 0 || le(s[0], s[j]); }
      } else {
        var rest := Insert(x, s[1..], le);
        InsertOrdered(x, s[1..], le);
        InsertMembers(x, s[1..], le);
        forall j | 0 <= j < |rest| ensures le(s[0], rest[j]) {
          assert rest[j] in multiset(rest);
          if rest[j] != x { assert rest[j] in s[1..]; }
        }
      }
    }
  }

  lemma {:induction false} SortOrdered<T(!new)>(s: seq<T>, le: (T, T) -> bool)
    requires TotalPreorder(le)
    ensures Ordered(Sort(s, le), le)
    ensures multiset(Sort(s, le)) == multiset(s)
  {
    if s != [] {
      SortOrdered(s[1..], le);
      InsertOrdered(s[0], Sort(s[1..], le), le);
      InsertMembers(s[0], Sort(s[1..], le), le);
      assert s == [s[0]] + s[1..];
    }
  }

  /** A sequence in order is left alone. */
  lemma {:induction false} SortKeepsOrdered<T>(s: seq<T>, le: (T, T) -> bool)
    requires Ordered(s, le)
    ensures Sort(s, le) == s
  {
    if s != [] {
      SortKeepsOrdered(s[1..], le);
      assert s == [s[0]] + s[1..];
      assert |s| > 1 ==> le(s[0], s[1]);
    }
  }

  /** Sorting by a single column, which leaves ties open. */
  method SortSingle<T(!new)>(s: seq<T>, le: (T, T) -> bool) returns (sorted: seq<T>)
    requires TotalPreorder(le)
    ensures Arranged(s, sorted, le)
  {
    sorted := Sort(s, le);
    SortOrdered(s, le);
  }

  // ---------------------------------------------------------------- by key

  function FirstOf<T, K(==)>(s: seq<T>, key: T -> K, k: K): Option<T> {
    if s == [] then None else if key(s[0]) == k then Some(s[0]) else FirstOf(s[1..], key, k)
  }

  function LastOf<T, K(==)>(s: seq<T>, key: T -> K, k: K): Option<T> {
    if s == [] then None
    else if LastOf(s[1..], key, k).Some? then LastOf(s[1..], key, k)
    else if key(s[0]) == k then Some(s[0])
    else None
  }

  ghost predicate DistinctKeys<T, K>(s: seq<T>, key: T -> K) {
    forall i, j :: 0 <= i < j < |s| ==> key(s[i]) != key(s[j])
  }

  /** `drop_duplicates(keep="first")`, leaving out the keys already seen. */
  function KeepFirst<T, K(==)>(s: seq<T>, key: T -> K, seen: set<K>): seq<T> {
    if s == [] then []
    else if key(s[0]) in seen then KeepFirst(s[1..], key, seen)
    else [s[0]] + KeepFirst(s[1..], key, seen + {key(s[0])})
  }

  /** `drop_duplicates(keep="last")`. */
  function KeepLast<T, K(==)>(s: seq<T>, key: T -> K): seq<T> {
    if s == [] then []
    else if LastOf(s[1..], key, key(s[0])).Some? then KeepLast(s[1..], key)
    else [s[0]] + KeepLast(s[1..], key)
  }

  lemma {:induction false} FirstOfIs<T, K>(s: seq<T>, key: T -> K, k: K)
    ensures FirstOf(s, key, k).Some? <==> exists x :: x in s && key(x) == k
    ensures FirstOf(s, key, k).Some? ==> FirstOf(s, key, k).value in s && key(FirstOf(s, key, k).value) == k
  {
    if s != [] {
      FirstOfIs(s[1..], key, k);
      assert s == [s[0]] + s[1..];
    }
  }

  lemma {:induction false} LastOfIs<T, K>(s: seq<T>, key: T -> K, k: K)
    ensures LastOf(s, key, k).Some? <==> exists x :: x in s && key(x) == k
    ensures LastOf(s, key, k).Some? ==> LastOf(s, key, k).value in s && key(LastOf(s, key, k).value) == k
  {
    if s != [] {
      LastOfIs(s[1..], key, k);
      assert s == [s[0]] + s[1..];
    }
  }

  lemma {:induction false} KeepFirstIs<T, K>(s: seq<T>, key: T -> K, seen: set<K>)
    ensures DistinctKeys(KeepFirst(s, key, seen), key)
    ensures forall x :: x in KeepFirst(s, key, seen) ==> key(x) !in seen
    ensures forall x :: x in KeepFirst(s, key, seen) ==> FirstOf(s, key, key(x)) == Some(x)
    ensures forall k :: k !in seen && FirstOf(s, key, k).Some? ==> FirstOf(s, key, k).value in KeepFirst(s, key, seen)
  {
    if s != [] {
      KeepFirstIs(s[1..], key, seen);
      KeepFirstIs(s[1..], key, seen + {key(s[0])});
    }
  }

  lemma {:induction false} KeepLastIs<T, K>(s: seq<T>, key: T -> K)
    ensures DistinctKeys(KeepLast(s, key), key)
    ensures forall x :: x in KeepLast(s, key) ==> x in s
    ensures forall k :: LastOf(KeepLast(s, key), key, k) == LastOf(s, key, k)
  {
    if s != [] {
      KeepLastIs(s[1..], key);
      var rest := KeepLast(s[1..], key);
      if LastOf(s[1..], key, key(s[0])).None? {
        LastOfIs(rest, key, key(s[0]));
        assert forall i :: 0 <= i < |rest| ==> rest[i] in rest;
        assert ([s[0]] + rest)[1..] == rest;
      }
    }
  }

  /** What stays first under a key when x, which came before everything in s, is sorted in. */
  lemma {:induction false} InsertFirst<T(!new), K>(x: T, s: seq<T>, le: (T, T) -> bool, key: T -> K, k: K)
    requires TotalPreorder(le) && Ordered(s, le)
    ensures FirstOf(Insert(x, s, le), key, k)
         == if key(x) == k && (FirstOf(s, key, k).None? || le(x, FirstOf(s, key, k).value)) then Some(x)
            else FirstOf(s, key, k)
  {
    if s != [] {
      FirstOfIs(s, key, k);
      if le(x, s[0]) {
        assert ([x] + s)[1..] == s;
        forall y | y in s ensures le(x, y) {
          var j :| 0 <= j < |s| && s[j] == y;
          assert j == 0 || le(s[0], s[j]);
        }
      } else {
        InsertFirst(x, s[1..], le, key, k);
      }
    }
  }

  lemma {:induction false} InsertLast<T(!new), K>(x: T, s: seq<T>, le: (T, T) -> bool, key: T -> K, k: K)
    requires TotalPreorder(le) && Ordered(s, le)
    ensures LastOf(Insert(x, s, le), key, k)
         == if key(x) == k && (LastOf(s, key, k).None? || !le(x, LastOf(s, key, k).value)) then Some(x)
            else LastOf(s, key, k)
  {
    if s != [] {
      LastOfIs(s, key, k);
      if le(x, s[0]) {
        assert ([x] + s)[1..] == s;
        forall y | y in s ensures le(x, y) {
          var j :| 0 <= j < |s| && s[j] == y;
          assert j == 0 || le(s[0], s[j]);
        }
      } else {
        InsertLast(x, s[1..], le, key, k);
        assert ([s[0]] + Insert(x, s[1..], le))[1..] == Insert(x, s[1..], le);
      }
    } else {
      assert [x][1..] == [];
    }
  }

  /** The first of the least, per key: what a stable sort brings to the front. */
  function Least<T, K(==)>(s: seq<T>, le: (T, T) -> bool, key: T -> K, k: K): Option<T> {
    if s == [] then None
    else
      var rest := Least(s[1..], le, key, k);
      if key(s[0]) == k && (rest.None? || le(s[0], rest.value)) then Some(s[0]) else rest
  }

  /** The last of the greatest, per key: what a stable sort brings to the back. */
  function Greatest<T, K(==)>(s: seq<T>, le: (T, T) -> bool, key: T -> K, k: K): Option<T> {
    if s == [] then None
    else
      var rest := Greatest(s[1..], le, key, k);
      if key(s[0]) == k && (rest.None? || !le(s[0], rest.value)) then Some(s[0]) else rest
  }

  lemma {:induction false} SortFirst<T(!new), K>(s: seq<T>, le: (T, T) -> bool, key: T -> K, k: K)
    requires TotalPreorder(le)
    ensures FirstOf(Sort(s, le), key, k) == Least(s, le, key, k)
  {
    if s != [] {
      SortFirst(s[1..], le, key, k);
      SortOrdered(s[1..], le);
      InsertFirst(s[0], Sort(s[1..], le), le, key, k);
    }
  }

  lemma {:induction false} SortLast<T(!new), K>(s: seq<T>, le: (T, T) -> bool, key: T -> K, k: K)
    requires TotalPreorder(le)
    ensures LastOf(Sort(s, le), key, k) == Greatest(s, le, key, k)
  {
    if s != [] {
      SortLast(s[1..], le, key, k);
      SortOrdered(s[1..], le);
      InsertLast(s[0], Sort(s[1..], le), le, key, k);
    }
  }

  // ---------------------------------------------------------------- rearranging

  lemma {:induction false} ArrangedMembers<T(!new)>(s: seq<T>, t: seq<T>)
    requires multiset(t) == multiset(s)
    ensures |t| == |s| && forall x :: x in t <==> x in s
  {
    assert |multiset(t)| == |t| && |multiset(s)| == |s|;
    forall x ensures x in t <==> x in s {
      assert x in t <==> x in multiset(t);
      assert x in s <==> x in multiset(s);
    }
  }

  lemma {:induction false} SortMembers<T(!new)>(s: seq<T>, le: (T, T) -> bool)
    requires TotalPreorder(le)
    ensures |Sort(s, le)| == |s| && forall x :: x in Sort(s, le) <==> x in s
  {
    SortOrdered(s, le);
    ArrangedMembers(s, Sort(s, le));
  }

  lemma {:induction false} TwiceInside<T>(s: seq<T>, i: nat, j: nat)
    requires i < j < |s| && s[i] == s[j]
    ensures multiset(s)[s[i]] >= 2
  {
    assert s == s[..i] + [s[i]] + s[i + 1..j] + [s[j]] + s[j + 1..];
  }

  lemma {:induction false} OnceInside<T, K>(s: seq<T>, key: T -> K, x: T)
    requires DistinctKeys(s, key)
    ensures multiset(s)[x] <= 1
  {
    if x in s {
      var i :| 0 <= i < |s| && s[i] == x;
      assert s == s[..i] + [x] + s[i + 1..];
      assert x !in s[..i] && x !in s[i + 1..];
      assert x !in multiset(s[..i]) && x !in multiset(s[i + 1..]);
    }
  }

  /** Rearranging keeps keys distinct. */
  lemma {:induction false} ArrangedDistinct<T(!new), K>(s: seq<T>, t: seq<T>, key: T -> K)
    requires multiset(t) == multiset(s) && DistinctKeys(s, key)
    ensures DistinctKeys(t, key)
  {
    ArrangedMembers(s, t);
    forall i, j | 0 <= i < j < |t| ensures key(t[i]) != key(t[j]) {
      if key(t[i]) == key(t[j]) {
        assert t[i] in s && t[j] in s;
        var k, m :| 0 <= k < |s| && 0 <= m < |s| && s[k] == t[i] && s[m] == t[j];
        assert k == m;
        TwiceInside(t, i, j);
        OnceInside(s, key, t[i]);
      }
    }
  }

  /** Under distinct keys an element is the last of its key. */
  lemma {:induction false} LastOfDistinct<T, K>(s: seq<T>, key: T -> K, x: T)
    requires DistinctKeys(s, key) && x in s
    ensures LastOf(s, key, key(x)) == Some(x)
  {
    LastOfIs(s, key, key(x));
    var y := LastOf(s, key, key(x)).value;
    var i :| 0 <= i < |s| && s[i] == x;
    var j :| 0 <= j < |s| && s[j] == y;
    assert i == j;
  }

  /** Rearranging rows of distinct keys changes what is found under no key. */
  lemma {:induction false} ArrangedLookup<T(!new), K>(s: seq<T>, t: seq<T>, key: T -> K, k: K)
    requires multiset(t) == multiset(s) && DistinctKeys(s, key)
    ensures LastOf(t, key, k) == LastOf(s, key, k)
  {
    ArrangedMembers(s, t);
    ArrangedDistinct(s, t, key);
    LastOfIs(s, key, k);
    LastOfIs(t, key, k);
    if LastOf(s, key, k).Some? { LastOfDistinct(t, key, LastOf(s, key, k).value); }
  }

  /** In a sequence in order the last element of a key is a greatest one of that key. */
  lemma {:induction false} LastOfOrdered<T(!new), K>(s: seq<T>, le: (T, T) -> bool, key: T -> K, k: K)
    requires TotalPreorder(le) && Ordered(s, le)
    ensures LastOf(s, key, k).Some? ==> forall x :: x in s && key(x) == k ==> le(x, LastOf(s, key, k).value)
  {
    if s != [] {
      LastOfOrdered(s[1..], le, key, k);
      LastOfIs(s[1..], key, k);
      assert s == [s[0]] + s[1..];
      if LastOf(s[1..], key, k).Some? {
        var last := LastOf(s[1..], key, k).value;
        var i :| 0 <= i < |s[1..]| && s[1..][i] == last;
        assert le(s[0], s[i + 1]);
      }
    }
  }

  lemma {:induction false} SplitOrdered<T>(a: seq<T>, x: T, b: seq<T>, le: (T, T) -> bool)
    requires Ordered(a + b, le)
    requires forall j :: 0 <= j < |a| ==> le(a[j], x)
    requires forall j :: 0 <= j < |b| ==> le(x, b[j])
    ensures Ordered(a + [x] + b, le)
  {
    var t, s, n := a + [x] + b, a + b, |a|;
    forall i, j | 0 <= i < j < |t| ensures le(t[i], t[j]) {
      if j < n {
        assert t[i] == s[i] && t[j] == s[j];
      } else if n < i {
        assert t[i] == s[i - 1] && t[j] == s[j - 1];
      } else if i < n < j {
        assert t[i] == s[i] && t[j] == s[j - 1];
      }
    }
  }

  /** Putting x where it fits is one arrangement of a sequence in order and x. */
  lemma {:induction false} PutInside<T>(s: seq<T>, i: nat, x: T, le: (T, T) -> bool)
    requires Ordered(s, le) && i <= |s|
    requires forall j :: 0 <= j < i ==> le(s[j], x)
    requires forall j :: i <= j < |s| ==> le(x, s[j])
    ensures Arranged(s + [x], s[..i] + [x] + s[i..], le)
  {
    assert s == s[..i] + s[i..];
    SplitOrdered(s[..i], x, s[i..], le);
  }

  /** The order that puts r last among the elements it ties with. */
  ghost function PuttingLast<T(!new)>(le: (T, T) -> bool, r: T): (T, T) -> bool {
    (a: T, b: T) => le(a, b) && (!le(b, a) || a != r || b == r)
  }

  lemma {:induction false} PuttingLastTotal<T(!new)>(le: (T, T) -> bool, r: T)
    requires TotalPreorder(le)
    ensures TotalPreorder(PuttingLast(le, r))
  {
    var order := PuttingLast(le, r);
    forall a, b, c | order(a, b) && order(b, c) ensures order(a, c) { assert le(a, c); }
  }

  /** Every greatest element of a key is the last of it in some arrangement. */
  lemma {:induction false} AnyGreatestCanBeLast<T(!new), K>(s: seq<T>, le: (T, T) -> bool, key: T -> K, k: K, r: T)
    returns (t: seq<T>)
    requires TotalPreorder(le) && r in s && key(r) == k
    requires forall x :: x in s && key(x) == k ==> le(x, r)
    ensures Arranged(s, t, le) && LastOf(t, key, k) == Some(r)
  {
    var order := PuttingLast(le, r);
    PuttingLastTotal(le, r);
    t := Sort(s, order);
    SortOrdered(s, order);
    SortMembers(s, order);
    LastOfIs(t, key, k);
    LastOfOrdered(t, order, key, k);
    var last := LastOf(t, key, k).value;
    assert order(r, last) && le(last, r);
  }

  lemma {:induction false} ConsDistinct<T, K>(key: T -> K, x: T, s: seq<T>)
    requires DistinctKeys([x] + s, key)
    ensures DistinctKeys(s, key) && forall i :: 0 <= i < |s| ==> key(s[i]) != key(x)
  {
    var all := [x] + s;
    forall i, j | 0 <= i < j < |s| ensures key(s[i]) != key(s[j]) { assert key(all[i + 1]) != key(all[j + 1]); }
    forall i | 0 <= i < |s| ensures key(s[i]) != key(x) { assert key(all[0]) != key(all[i + 1]); }
  }

  lemma {:induction false} LastOfConcat<T, K>(a: seq<T>, b: seq<T>, key: T -> K, k: K)
    ensures LastOf(a + b, key, k) == if LastOf(b, key, k).Some? then LastOf(b, key, k) else LastOf(a, key, k)
  {
    if a == [] {
      assert a + b == b;
    } else {
      assert (a + b)[1..] == a[1..] + b;
      LastOfConcat(a[1..], b, key, k);
    }
  }
}
