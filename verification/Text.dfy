/**
 The library text operations the agent leans on: string order, stable sorting by
 a string key, key listing, and white-space trimming.  Strings are sequences of
 code points; comparing them code point by code point gives the same order as
 comparing their UTF-8 bytes.
 */
module Text {

  // ------------------------------------------------------------ order

  predicate Less(a: string, b: string)
  {
    if b == "" then false
    else if a == "" then true
    else if a[0] != b[0] then a[0] < b[0]
    else Less(a[1..], b[1..])
  }

  /** The first `i` characters agree, and then `a` ends or has the smaller character. */
  ghost predicate SmallerAt(a: string, b: string, i: int)
  {
    && 0 <= i <= |a| && i < |b| && a[..i] == b[..i]
    && (i == |a| || a[i] < b[i])
  }

  /** The order is lexicographic. */
  lemma {:induction false} LessIsLexicographic(a: string, b: string)
    ensures Less(a, b) <==> exists i :: SmallerAt(a, b, i)
  {
    if a != "" && b != "" && a[0] == b[0] {
      LessIsLexicographic(a[1..], b[1..]);
      if Less(a, b) {
        var i :| SmallerAt(a[1..], b[1..], i);
        assert a[..i + 1] == [a[0]] + a[1..][..i] && b[..i + 1] == [b[0]] + b[1..][..i];
        assert SmallerAt(a, b, i + 1);
      }
      forall i | SmallerAt(a, b, i)
        ensures Less(a, b)
      {
        if i > 0 {
          assert a[1..][..i - 1] == a[..i][1..] && b[1..][..i - 1] == b[..i][1..];
          assert SmallerAt(a[1..], b[1..], i - 1);
        }
      }
    } else {
      assert forall i :: SmallerAt(a, b, i) && i > 0 ==> a[..i][0] == b[..i][0];
      assert Less(a, b) ==> SmallerAt(a, b, 0);
    }
  }

  lemma {:induction false} Irreflexive(a: string)
    ensures !Less(a, a)
  {
    if a != "" {
      Irreflexive(a[1..]);
    }
  }

  lemma {:induction false} Transitive(a: string, b: string, c: string)
    requires Less(a, b) && Less(b, c)
    ensures Less(a, c)
  {
    if a != "" && a[0] == b[0] == c[0] {
      Transitive(a[1..], b[1..], c[1..]);
    }
  }

  lemma {:induction false} Asymmetric(a: string, b: string)
    requires Less(a, b)
    ensures !Less(b, a)
  {
    if Less(b, a) {
      Transitive(a, b, a);
      Irreflexive(a);
    }
  }

  lemma {:induction false} Total(a: string, b: string)
    requires !Less(a, b) && !Less(b, a)
    ensures a == b
  {
    if a != "" && b != "" {
      Total(a[1..], b[1..]);
      assert a == [a[0]] + a[1..] && b == [b[0]] + b[1..];
    }
  }

  /** `b <= c` and `a < b`, in the order's own terms. */
  lemma LessThenNotGreater(a: string, b: string, c: string)
    requires !Less(b, a) && !Less(c, b)
    ensures !Less(c, a)
  {
    if Less(c, a) {
      if Less(a, b) {
        Transitive(c, a, b);
      } else {
        Total(a, b);
      }
    }
  }

  // ------------------------------------------------------------ sorting

  ghost predicate Sorted<T>(key: T -> string, xs: seq<T>)
  {
    forall i, j :: 0 <= i < j < |xs| ==> !Less(key(xs[j]), key(xs[i]))
  }

  /** Puts `x` before the first element whose key is not smaller. */
  function Insert<T>(key: T -> string, x: T, xs: seq<T>): (r: seq<T>)
    ensures |r| == |xs| + 1
  {
    if xs == [] then [x]
    else if Less(key(xs[0]), key(x)) then [xs[0]] + Insert(key, x, xs[1..])
    else [x] + xs
  }

  /** `sort.SliceStable` by a string key. */
  function SortBy<T>(key: T -> string, xs: seq<T>): (r: seq<T>)
    ensures |r| == |xs|
  {
    if xs == [] then [] else Insert(key, xs[0], SortBy(key, xs[1..]))
  }

  lemma {:induction false} InsertElements<T>(key: T -> string, x: T, xs: seq<T>)
    ensures multiset(Insert(key, x, xs)) == multiset(xs) + multiset{x}
  {
    if xs != [] {
      assert xs == [xs[0]] + xs[1..];
      if Less(key(xs[0]), key(x)) {
        InsertElements(key, x, xs[1..]);
      }
    }
  }

  lemma {:induction false} InsertSorted<T>(key: T -> string, x: T, xs: seq<T>)
    requires Sorted(key, xs)
    ensures Sorted(key, Insert(key, x, xs))
  {
    if xs != [] {
      if Less(key(xs[0]), key(x)) {
        var rest := Insert(key, x, xs[1..]);
        InsertSorted(key, x, xs[1..]);
        InsertElements(key, x, xs[1..]);
        Asymmetric(key(xs[0]), key(x));
        forall j | 0 <= j < |rest|
          ensures !Less(key(rest[j]), key(xs[0]))
        {
          assert rest[j] in multiset(rest);
          assert rest[j] == x || rest[j] in xs[1..];
        }
      } else {
        Irreflexive(key(xs[0]));
        forall j | 0 <= j < |xs|
          ensures !Less(key(xs[j]), key(x))
        {
          LessThenNotGreater(key(x), key(xs[0]), key(xs[j]));
        }
      }
    }
  }

  /** Sorting permutes and orders. */
  lemma {:induction false} SortByCorrect<T>(key: T -> string, xs: seq<T>)
    ensures multiset(SortBy(key, xs)) == multiset(xs)
    ensures Sorted(key, SortBy(key, xs))
  {
    if xs != [] {
      assert xs == [xs[0]] + xs[1..];
      SortByCorrect(key, xs[1..]);
      InsertElements(key, xs[0], SortBy(key, xs[1..]));
      InsertSorted(key, xs[0], SortBy(key, xs[1..]));
    }
  }

  ghost predicate Injective<T(!new)>(key: T -> string)
  {
    forall x, y :: key(x) == key(y) ==> x == y
  }

  /** Both arrangements of the same elements end with the greatest one. */
  lemma GreatestIsLast<T(!new)>(key: T -> string, xs: seq<T>, ys: seq<T>)
    requires Injective(key) && multiset(xs) == multiset(ys)
    requires Sorted(key, xs) && Sorted(key, ys) && xs != [] && ys != []
    ensures xs[|xs| - 1] == ys[|ys| - 1]
  {
    var x, y := xs[|xs| - 1], ys[|ys| - 1];
    assert x in multiset(ys) && y in multiset(xs);
    var i :| 0 <= i < |ys| && ys[i] == x;
    var j :| 0 <= j < |xs| && xs[j] == y;
    Irreflexive(key(x));
    Total(key(x), key(y));
  }

  lemma SameWithoutLast<T>(xs: seq<T>, ys: seq<T>)
    requires xs != [] && ys != [] && xs[|xs| - 1] == ys[|ys| - 1] && multiset(xs) == multiset(ys)
    ensures multiset(xs[..|xs| - 1]) == multiset(ys[..|ys| - 1])
    ensures xs[..|xs| - 1] == ys[..|ys| - 1] ==> xs == ys
  {
    var a, b, z := xs[..|xs| - 1], ys[..|ys| - 1], [xs[|xs| - 1]];
    assert xs == a + z && ys == b + z;
    assert multiset(a) == multiset(xs) - multiset(z);
    assert multiset(b) == multiset(ys) - multiset(z);
  }

  lemma EmptyTogether<T>(xs: seq<T>, ys: seq<T>)
    requires multiset(xs) == multiset(ys)
    ensures xs == [] <==> ys == []
  {
    assert |multiset(xs)| == |multiset(ys)|;
  }

  /** With an injective key the elements have one sorted arrangement, built up from the least element. */
  lemma {:induction false} OneSortedArrangement<T(!new)>(key: T -> string, xs: seq<T>, ys: seq<T>)
    requires Injective(key) && multiset(xs) == multiset(ys)
    requires Sorted(key, xs) && Sorted(key, ys)
    ensures xs == ys
    decreases |xs|
  {
    EmptyTogether(xs, ys);
    if xs != [] {
      GreatestIsLast(key, xs, ys);
      SameWithoutLast(xs, ys);
      OneSortedArrangement(key, xs[..|xs| - 1], ys[..|ys| - 1]);
    }
  }

  /** Sorting by an injective key forgets exactly the order. */
  lemma SortForgetsOrder<T(!new)>(key: T -> string, xs: seq<T>, ys: seq<T>)
    requires Injective(key)
    ensures SortBy(key, xs) == SortBy(key, ys) <==> multiset(xs) == multiset(ys)
  {
    SortByCorrect(key, xs);
    SortByCorrect(key, ys);
    if multiset(xs) == multiset(ys) {
      OneSortedArrangement(key, SortBy(key, xs), SortBy(key, ys));
    }
  }

  /** Sorting what is sorted changes nothing. */
  lemma SortIdempotent<T(!new)>(key: T -> string, xs: seq<T>)
    requires Injective(key)
    ensures SortBy(key, SortBy(key, xs)) == SortBy(key, xs)
  {
    SortByCorrect(key, xs);
    SortForgetsOrder(key, SortBy(key, xs), xs);
  }

  function Self(s: string): string { s }

  /** `sort.Strings`. */
  function SortStrings(xs: seq<string>): (r: seq<string>)
    ensures |r| == |xs|
  {
    SortBy(Self, xs)
  }

  // ------------------------------------------------------------ key lists

  ghost predicate StrictlySorted(xs: seq<string>)
  {
    forall i, j :: 0 <= i < j < |xs| ==> Less(xs[i], xs[j])
  }

  function Elements<T>(xs: seq<T>): set<T>
  {
    set x | x in xs
  }

  ghost predicate Distinct<T>(xs: seq<T>)
  {
    forall i, j :: 0 <= i < j < |xs| ==> xs[i] != xs[j]
  }

  /** One order in which a map range may deliver the keys. */
  ghost predicate Enumerates(order: seq<string>, keys: set<string>)
  {
    Distinct(order) && Elements(order) == keys
  }

  /** Two strictly sorted lists with the same elements are equal. */
  lemma {:induction false} StrictUnique(xs: seq<string>, ys: seq<string>)
    requires StrictlySorted(xs) && StrictlySorted(ys) && Elements(xs) == Elements(ys)
    ensures xs == ys
  {
    EmptyElements(xs);
    EmptyElements(ys);
    if xs != [] {
      assert xs[0] in Elements(ys) && ys[0] in Elements(xs);
      var i :| 0 <= i < |ys| && ys[i] == xs[0];
      var j :| 0 <= j < |xs| && xs[j] == ys[0];
      if i > 0 && j > 0 {
        Asymmetric(ys[0], ys[i]);
      }
      assert xs[0] == ys[0];
      TailElements(xs);
      TailElements(ys);
      StrictUnique(xs[1..], ys[1..]);
      assert xs == [xs[0]] + xs[1..] && ys == [ys[0]] + ys[1..];
    }
  }

  lemma EmptyElements<T>(xs: seq<T>)
    ensures Elements(xs) == {} <==> xs == []
  {
    if xs != [] {
      assert xs[0] in Elements(xs);
    }
  }

  lemma ConsElements<T>(x: T, xs: seq<T>)
    ensures Elements([x] + xs) == {x} + Elements(xs)
  {
  }

  lemma TailElements(xs: seq<string>)
    requires StrictlySorted(xs) && xs != []
    ensures Elements(xs[1..]) == Elements(xs) - {xs[0]}
  {
    forall x | x in xs[1..]
      ensures x != xs[0]
    {
      Irreflexive(x);
    }
    assert forall x :: x in xs ==> x == xs[0] || x in xs[1..];
  }

  /** Sorting any enumeration gives the strictly sorted list of the keys. */
  lemma SortEnumeration(order: seq<string>, keys: set<string>)
    requires Enumerates(order, keys)
    ensures StrictlySorted(SortStrings(order)) && Elements(SortStrings(order)) == keys
  {
    var r := SortStrings(order);
    SortByCorrect(Self, order);
    DistinctMultiset(order);
    forall i, j | 0 <= i < j < |r|
      ensures Less(r[i], r[j])
    {
      if !Less(r[i], r[j]) {
        Total(r[i], r[j]);
        TwiceInMultiset(r, i, j);
        assert false;
      }
    }
    forall x
      ensures x in Elements(r) <==> x in keys
    {
      assert x in r <==> x in multiset(r);
      assert x in order <==> x in multiset(order);
    }
  }

  lemma {:induction false} DistinctMultiset<T>(xs: seq<T>)
    requires Distinct(xs)
    ensures forall x :: multiset(xs)[x] <= 1
  {
    if xs != [] {
      var k := |xs| - 1;
      assert xs == xs[..k] + [xs[k]];
      DistinctMultiset(xs[..k]);
      assert xs[k] !in xs[..k];
    }
  }

  lemma TwiceInMultiset<T>(xs: seq<T>, i: nat, j: nat)
    requires i < j < |xs| && xs[i] == xs[j]
    ensures multiset(xs)[xs[i]] >= 2
  {
    assert xs == xs[..j] + [xs[j]] + xs[j + 1..];
    assert xs[i] in xs[..j];
  }

  /** The least element of a non-empty set. */
  lemma {:induction false} LeastExists(keys: set<string>) returns (m: string)
    requires keys != {}
    ensures m in keys && forall x :: x in keys ==> !Less(x, m)
    decreases |keys|
  {
    m :| m in keys;
    var rest := keys - {m};
    Irreflexive(m);
    if rest != {} {
      var n := LeastExists(rest);
      if Less(n, m) {
        forall x | x in keys
          ensures !Less(x, n)
        {
          if x == m {
            Asymmetric(n, m);
          }
        }
        m := n;
      } else {
        forall x | x in keys
          ensures !Less(x, m)
        {
          if x != m {
            LessThenNotGreater(m, n, x);
          }
        }
      }
    }
  }

  ghost predicate Least(keys: set<string>, m: string)
  {
    m in keys && forall x :: x in keys ==> !Less(x, m)
  }

  ghost function PickLeast(keys: set<string>): (m: string)
    requires keys != {}
    ensures Least(keys, m)
  {
    assert exists m :: Least(keys, m) by {
      var m := LeastExists(keys);
      assert Least(keys, m);
    }
    var m :| Least(keys, m);
    m
  }

  lemma PrependLeast(keys: set<string>, m: string, rest: seq<string>)
    requires Least(keys, m) && StrictlySorted(rest) && Elements(rest) == keys - {m}
    ensures StrictlySorted([m] + rest) && Elements([m] + rest) == keys
  {
    ConsElements(m, rest);
    forall j | 0 <= j < |rest|
      ensures Less(m, rest[j])
    {
      assert rest[j] in Elements(rest);
      if !Less(m, rest[j]) {
        Total(m, rest[j]);
      }
    }
  }

  /** `slices.Sorted(maps.Keys(m))`: the keys in strictly ascending order, whatever order the map delivers. */
  ghost function SortedKeys(keys: set<string>): (r: seq<string>)
    ensures StrictlySorted(r) && Elements(r) == keys
    decreases |keys|
  {
    if keys == {} then []
    else
      var m := PickLeast(keys);
      var rest := SortedKeys(keys - {m});
      PrependLeast(keys, m, rest);
      [m] + rest
  }

  lemma SortedKeysIsSort(order: seq<string>, keys: set<string>)
    requires Enumerates(order, keys)
    ensures SortStrings(order) == SortedKeys(keys)
  {
    SortEnumeration(order, keys);
    StrictUnique(SortStrings(order), SortedKeys(keys));
  }

  lemma StrictlySortedDistinct(xs: seq<string>)
    requires StrictlySorted(xs)
    ensures Distinct(xs)
  {
    forall i, j | 0 <= i < j < |xs|
      ensures xs[i] != xs[j]
    {
      Irreflexive(xs[i]);
    }
  }

  lemma AppendEnumerates(order: seq<string>, keys: set<string>, key: string)
    requires Enumerates(order, keys) && key !in keys
    ensures Enumerates(order + [key], keys + {key})
  {
  }

  /** A map range over the keys: any order, each key once. */
  method ListKeys(keys: set<string>) returns (order: seq<string>)
    ensures Enumerates(order, keys)
  {
    order := [];
    var left := keys;
    ghost var seen: set<string> := {};
    while left != {}
      invariant left !! seen && left + seen == keys && Enumerates(order, seen)
      decreases |left|
    {
      var key :| key in left;
      AppendEnumerates(order, seen, key);
      order := order + [key];
      left, seen := left - {key}, seen + {key};
    }
    assert seen == keys;
  }

  // ------------------------------------------------------------ trimming

  /** `unicode.IsSpace`. */
  predicate IsSpace(c: char)
  {
    var n := c as int;
    || 0x09 <= n <= 0x0D || n == 0x20 || n == 0x85 || n == 0xA0 || n == 0x1680
    || 0x2000 <= n <= 0x200A || n == 0x2028 || n == 0x2029 || n == 0x202F || n == 0x205F || n == 0x3000
  }

  predicate Trimmed(s: string)
  {
    s == "" || (!IsSpace(s[0]) && !IsSpace(s[|s| - 1]))
  }

  function TrimLeft(s: string): (r: string)
    ensures r == "" || !IsSpace(r[0])
  {
    if s == "" || !IsSpace(s[0]) then s else TrimLeft(s[1..])
  }

  function TrimRight(s: string): (r: string)
    ensures r == "" || !IsSpace(r[|r| - 1])
    ensures r <= s
  {
    if s == "" || !IsSpace(s[|s| - 1]) then s else TrimRight(s[..|s| - 1])
  }

  /** `strings.TrimSpace`. */
  function Trim(s: string): (r: string)
    ensures Trimmed(r)
  {
    TrimRight(TrimLeft(s))
  }

  /** `s` is `r` with white space before position `i` and after position `j`. */
  ghost predicate Surrounds(s: string, r: string, i: int, j: int)
  {
    && 0 <= i <= j <= |s| && r == s[i..j]
    && (forall k :: 0 <= k < i ==> IsSpace(s[k])) && (forall k :: j <= k < |s| ==> IsSpace(s[k]))
  }

  lemma {:induction false} TrimLeftDrops(s: string) returns (i: nat)
    ensures i <= |s| && TrimLeft(s) == s[i..] && forall k :: 0 <= k < i ==> IsSpace(s[k])
  {
    i := 0;
    if s != "" && IsSpace(s[0]) {
      var n := TrimLeftDrops(s[1..]);
      i := n + 1;
      assert s[1..][n..] == s[i..];
      assert forall k :: 1 <= k < i ==> s[k] == s[1..][k - 1];
    }
  }

  lemma {:induction false} TrimRightDrops(s: string)
    ensures forall k :: |TrimRight(s)| <= k < |s| ==> IsSpace(s[k])
  {
    if s != "" && IsSpace(s[|s| - 1]) {
      TrimRightDrops(s[..|s| - 1]);
    }
  }

  /** Trimming removes white space at both ends and nothing else, and leaves none there. */
  lemma TrimIsTheMiddle(s: string)
    ensures Trimmed(Trim(s)) && exists i, j :: Surrounds(s, Trim(s), i, j)
  {
    var i := TrimLeftDrops(s);
    TrimRightDrops(TrimLeft(s));
    var j := i + |Trim(s)|;
    forall k | j <= k < |s|
      ensures IsSpace(s[k])
    {
      assert s[k] == TrimLeft(s)[k - i];
    }
    assert Surrounds(s, Trim(s), i, j);
  }
}
