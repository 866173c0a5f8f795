/** Value types shared by every module: optional values, results and Go's byte slices.

    A Go `string` is a Dafny `string` whose characters stand for single bytes.  A Go `[]byte`
    whose bytes are framed arithmetically is a `Bytes`. */
module Prelude {

  datatype Option<+T> = None | Some(value: T)

  /** The pair (value, error) of a Go call: error texts are not modelled. */
  datatype Result<+T> = Ok(value: T) | Err

  newtype byte = x: int | 0 <= x < 0x100

  type Bytes = seq<byte>

  function Ascii(text: string): Bytes {
    seq(|text|, i requires 0 <= i < |text| => (text[i] as int % 0x100) as byte)
  }

  lemma Associates<T>(a: seq<T>, b: seq<T>, c: seq<T>)
    ensures a + b + c == a + (b + c)
    ensures forall x :: x in b ==> x in a + b + c
  {
  }

  predicate HasPrefix<T(==)>(text: seq<T>, prefix: seq<T>) {
    prefix <= text
  }

  predicate HasSuffix<T(==)>(text: seq<T>, suffix: seq<T>) {
    |suffix| <= |text| && text[|text| - |suffix|..] == suffix
  }
}

/** Bytewise string order and the order-independent facts about sorted sequences. */
module Ordering {

  /** Go's `<` on strings: bytewise lexicographic order. */
  predicate Less(a: string, b: string) {
    b != [] && (a == [] || a[0] < b[0] || (a[0] == b[0] && Less(a[1..], b[1..])))
  }

  lemma {:induction false} LessIrreflexive(a: string)
    ensures !Less(a, a)
  {
    if a != [] { LessIrreflexive(a[1..]); }
  }

  lemma {:induction false} LessTransitive(a: string, b: string, c: string)
    requires Less(a, b) && Less(b, c)
    ensures Less(a, c)
  {
    if a != [] && a[0] == b[0] == c[0] { LessTransitive(a[1..], b[1..], c[1..]); }
  }

  lemma {:induction false} LessTotal(a: string, b: string)
    ensures Less(a, b) || a == b || Less(b, a)
  {
    if a != [] && b != [] && a[0] == b[0] {
      LessTotal(a[1..], b[1..]);
      assert a == [a[0]] + a[1..] && b == [b[0]] + b[1..];
    }
  }

  lemma LessAsymmetric(a: string, b: string)
    requires Less(a, b)
    ensures !Less(b, a) && a != b
  {
    LessIrreflexive(a);
    if Less(b, a) { LessTransitive(a, b, a); }
  }

  /** A shared prefix does not influence the order. */
  lemma {:induction false} LessSamePrefix(prefix: string, a: string, b: string)
    ensures Less(prefix + a, prefix + b) <==> Less(a, b)
  {
    if prefix == [] {
      assert prefix + a == a && prefix + b == b;
    } else {
      assert (prefix + a)[1..] == prefix[1..] + a && (prefix + b)[1..] == prefix[1..] + b;
      LessSamePrefix(prefix[1..], a, b);
    }
  }

  ghost predicate StrictlyAscending(keys: seq<string>) {
    forall i, j :: 0 <= i < j < |keys| ==> Less(keys[i], keys[j])
  }

  ghost function Elements<T>(items: seq<T>): set<T> {
    set x | x in items
  }

  lemma NonemptyHasElements<T>(items: seq<T>)
    ensures items != [] ==> Elements(items) != {}
  {
    if items != [] { assert items[0] in Elements(items); }
  }

  lemma AscendingDistinct(keys: seq<string>, i: nat, j: nat)
    requires StrictlyAscending(keys) && i < |keys| && j < |keys| && keys[i] == keys[j]
    ensures i == j
  {
    LessIrreflexive(keys[i]);
  }

  lemma AscendingHead(a: seq<string>, b: seq<string>)
    requires StrictlyAscending(a) && StrictlyAscending(b) && Elements(a) == Elements(b) && a != []
    ensures b != [] && a[0] == b[0]
  {
    assert a[0] in Elements(b);
    assert b[0] in Elements(a);
    if a[0] != b[0] {
      var i :| 0 <= i < |b| && b[i] == a[0];
      var j :| 0 <= j < |a| && a[j] == b[0];
      LessAsymmetric(b[0], b[i]);
    }
  }

  /** A set of strings has only one strictly ascending listing. */
  lemma {:induction false} AscendingUnique(a: seq<string>, b: seq<string>)
    requires StrictlyAscending(a) && StrictlyAscending(b) && Elements(a) == Elements(b)
    ensures a == b
  {
    if a == [] {
      NonemptyHasElements(b);
    } else {
      AscendingHead(a, b);
      forall k | k in a[1..] ensures k in b[1..] { TailMember(a, b, k); }
      forall k | k in b[1..] ensures k in a[1..] { TailMember(b, a, k); }
      assert Elements(a[1..]) == Elements(b[1..]);
      AscendingUnique(a[1..], b[1..]);
      assert a == [a[0]] + a[1..] && b == [b[0]] + b[1..];
    }
  }

  lemma TailMember(a: seq<string>, b: seq<string>, k: string)
    requires StrictlyAscending(a) && StrictlyAscending(b) && Elements(a) == Elements(b)
    requires a != [] && b != [] && a[0] == b[0] && k in a[1..]
    ensures k in b[1..]
  {
    var i :| 0 <= i < |a[1..]| && a[1..][i] == k;
    LessIrreflexive(k);
    assert a[i + 1] == k && k in Elements(b);
    var j :| 0 <= j < |b| && b[j] == k;
    assert b[j] == b[1..][j - 1];
  }

  /** The strictly ascending listing of a finite set of strings. */
  ghost function Listing(keys: set<string>): (list: seq<string>)
    ensures StrictlyAscending(list) && Elements(list) == keys && |list| == |keys|
  {
    if keys == {} then [] else
      LeastExists(keys);
      var least :| IsLeast(least, keys);
      var rest := Listing(keys - {least});
      LeastGoesFirst(least, keys, rest);
      [least] + rest
  }

  lemma LeastGoesFirst(least: string, keys: set<string>, rest: seq<string>)
    requires IsLeast(least, keys) && StrictlyAscending(rest) && Elements(rest) == keys - {least}
    ensures StrictlyAscending([least] + rest) && Elements([least] + rest) == keys
  {
    forall i | 0 <= i < |rest| ensures Less(least, rest[i]) { assert rest[i] in Elements(rest); }
    forall k ensures k in Elements([least] + rest) <==> k in keys { assert k in rest <==> k in Elements(rest); }
  }

  ghost predicate IsLeast(least: string, keys: set<string>) {
    least in keys && forall k :: k in keys && k != least ==> Less(least, k)
  }

  lemma {:induction false} LeastExists(keys: set<string>)
    requires keys != {}
    ensures exists least :: IsLeast(least, keys)
    decreases |keys|
  {
    var k :| k in keys;
    var rest := keys - {k};
    if rest == {} {
      assert keys == {k};
      assert IsLeast(k, keys);
    } else {
      LeastExists(rest);
      var least :| IsLeast(least, rest);
      LessTotal(k, least);
      if Less(k, least) {
        forall other | other in keys && other != k ensures Less(k, other) {
          if other != least { LessTransitive(k, least, other); }
        }
        assert IsLeast(k, keys);
      } else {
        assert IsLeast(least, keys);
      }
    }
  }
}

/** `sort.Slice`: some reordering in which no element is less than an earlier one.  The
    standard library does not promise stability, so callers may rely on the contract only. */
module Sorting {
  import opened Ordering

  ghost predicate StrictWeakOrder<T(!new)>(less: (T, T) -> bool) {
    && (forall a :: !less(a, a))
    && (forall a, b, c :: less(a, b) && less(b, c) ==> less(a, c))
    && (forall a, b, c :: !less(a, b) && !less(b, c) ==> !less(a, c))
  }

  ghost predicate Sorted<T>(items: seq<T>, less: (T, T) -> bool) {
    forall i, j :: 0 <= i < j < |items| ==> !less(items[j], items[i])
  }

  method SortSlice<T(!new)>(items: seq<T>, less: (T, T) -> bool) returns (sorted: seq<T>)
    requires StrictWeakOrder(less)
    ensures multiset(sorted) == multiset(items)
    ensures Sorted(sorted, less)
  {
    sorted := [];
    for n := 0 to |items|
      invariant multiset(sorted) == multiset(items[..n])
      invariant Sorted(sorted, less)
    {
      assert items[..n + 1] == items[..n] + [items[n]];
      sorted := Insert(items[n], sorted, less);
    }
    assert items[..|items|] == items;
  }

  method Insert<T(!new)>(item: T, items: seq<T>, less: (T, T) -> bool) returns (result: seq<T>)
    requires StrictWeakOrder(less) && Sorted(items, less)
    ensures multiset(result) == multiset(items) + multiset{item}
    ensures Sorted(result, less)
  {
    var at := 0;
    while at < |items| && less(items[at], item)
      invariant 0 <= at <= |items|
      invariant forall i :: 0 <= i < at ==> less(items[i], item)
    {
      at := at + 1;
    }
    result := items[..at] + [item] + items[at..];
    assert items == items[..at] + items[at..];
    forall i, j | 0 <= i < j < |result| ensures !less(result[j], result[i]) {
      if i < at && j == at {
        assert !less(item, items[i]);
      } else if i == at {
        assert result[j] == items[j - 1];
        if j - 1 > at { assert !less(items[j - 1], items[at]); }
        assert !less(items[at], item);
      } else if i < at < j {
        assert result[j] == items[j - 1] && result[i] == items[i];
      }
    }
  }

  /** `less` compares the keys of its arguments bytewise. */
  ghost predicate OrdersBy<T(!new)>(less: (T, T) -> bool, key: T -> string) {
    forall a, b :: less(a, b) <==> Less(key(a), key(b))
  }

  lemma KeyOrderIsStrictWeak<T(!new)>(less: (T, T) -> bool, key: T -> string)
    requires OrdersBy(less, key)
    ensures StrictWeakOrder(less)
  {
    forall a ensures !less(a, a) { LessIrreflexive(key(a)); }
    forall a, b, c | less(a, b) && less(b, c) ensures less(a, c) { LessTransitive(key(a), key(b), key(c)); }
    forall a, b, c | !less(a, b) && !less(b, c) ensures !less(a, c) {
      LessTotal(key(a), key(b));
      LessTotal(key(b), key(c));
      if less(a, c) && Less(key(c), key(b)) { LessTransitive(key(a), key(c), key(b)); }
    }
  }

  ghost predicate DistinctKeys<T>(items: seq<T>, key: T -> string) {
    forall i, j :: 0 <= i < j < |items| ==> key(items[i]) != key(items[j])
  }

  function Keys<T>(items: seq<T>, key: T -> string): (keys: seq<string>)
    ensures |keys| == |items|
  {
    seq(|items|, i requires 0 <= i < |items| => key(items[i]))
  }

  lemma TwiceInSequence<T>(items: seq<T>, i: nat, j: nat)
    requires i < j < |items| && items[i] == items[j]
    ensures multiset(items)[items[i]] >= 2
  {
    assert items == items[..j] + [items[j]] + items[j + 1..];
    assert items[..j][i] == items[i];
  }

  lemma OnceWhenDistinct<T>(items: seq<T>, key: T -> string, k: nat)
    requires DistinctKeys(items, key) && k < |items|
    ensures multiset(items)[items[k]] == 1
  {
    var before, after := items[..k], items[k + 1..];
    assert items == before + [items[k]] + after;
    forall i | 0 <= i < |before| ensures before[i] != items[k] { assert key(items[i]) != key(items[k]); }
    forall i | 0 <= i < |after| ensures after[i] != items[k] { assert key(items[k]) != key(items[k + 1 + i]); }
  }

  lemma SameMembers<T>(a: seq<T>, b: seq<T>)
    requires multiset(a) == multiset(b)
    ensures |a| == |b| && forall x :: x in a <==> x in b
  {
    forall x ensures x in a <==> x in b { assert x in multiset(a) <==> x in multiset(b); }
    assert |a| == |multiset(a)| == |multiset(b)| == |b|;
  }

  lemma DistinctKeysPermute<T>(a: seq<T>, b: seq<T>, key: T -> string)
    requires multiset(a) == multiset(b) && DistinctKeys(a, key)
    ensures DistinctKeys(b, key)
  {
    SameMembers(a, b);
    forall i, j | 0 <= i < j < |b| ensures key(b[i]) != key(b[j]) {
      if key(b[i]) == key(b[j]) {
        assert b[i] in b && b[j] in b;
        var k :| 0 <= k < |a| && a[k] == b[i];
        var l :| 0 <= l < |a| && a[l] == b[j];
        assert k == l;
        TwiceInSequence(b, i, j);
        OnceWhenDistinct(a, key, k);
      }
    }
  }

  lemma KeysAscend<T(!new)>(sorted: seq<T>, less: (T, T) -> bool, key: T -> string)
    requires OrdersBy(less, key) && Sorted(sorted, less) && DistinctKeys(sorted, key)
    ensures StrictlyAscending(Keys(sorted, key))
  {
    forall i, j | 0 <= i < j < |sorted| ensures Less(key(sorted[i]), key(sorted[j])) {
      assert !less(sorted[j], sorted[i]);
      LessTotal(key(sorted[i]), key(sorted[j]));
    }
  }

  lemma KeyElements<T>(items: seq<T>, key: T -> string)
    ensures Elements(Keys(items, key)) == set x | x in items :: key(x)
  {
    forall x | x in items ensures key(x) in Keys(items, key) {
      var i :| 0 <= i < |items| && items[i] == x;
      assert Keys(items, key)[i] == key(x);
    }
  }

  /** Sorting by pairwise different keys puts the keys in their one ascending order. */
  lemma SortedByKey<T(!new)>(items: seq<T>, sorted: seq<T>, less: (T, T) -> bool, key: T -> string)
    requires OrdersBy(less, key) && DistinctKeys(items, key)
    requires multiset(sorted) == multiset(items) && Sorted(sorted, less)
    ensures Keys(sorted, key) == Listing(Elements(Keys(items, key)))
    ensures |sorted| == |items| && forall x :: x in sorted <==> x in items
  {
    SameMembers(items, sorted);
    DistinctKeysPermute(items, sorted, key);
    KeysAscend(sorted, less, key);
    KeyElements(items, key);
    KeyElements(sorted, key);
    AscendingUnique(Keys(sorted, key), Listing(Elements(Keys(items, key))));
  }

  lemma EqualByKey<T>(a: seq<T>, b: seq<T>, key: T -> string, i: nat)
    requires multiset(a) == multiset(b) && DistinctKeys(b, key) && i < |a| == |b| && key(a[i]) == key(b[i])
    ensures a[i] == b[i]
  {
    SameMembers(a, b);
    assert a[i] in a;
    var j :| 0 <= j < |b| && b[j] == a[i];
    assert j == i;
  }

  /** An arrangement with ascending keys is the only one a sort by those keys can produce. */
  lemma OnlyArrangement<T(!new)>(sorted: seq<T>, target: seq<T>, less: (T, T) -> bool, key: T -> string)
    requires OrdersBy(less, key) && multiset(sorted) == multiset(target) && Sorted(sorted, less)
    requires StrictlyAscending(Keys(target, key))
    ensures sorted == target
  {
    forall i, j | 0 <= i < j < |target| ensures key(target[i]) != key(target[j]) {
      if Keys(target, key)[i] == Keys(target, key)[j] { AscendingDistinct(Keys(target, key), i, j); }
    }
    SameMembers(sorted, target);
    DistinctKeysPermute(target, sorted, key);
    KeysAscend(sorted, less, key);
    KeyElements(sorted, key);
    KeyElements(target, key);
    AscendingUnique(Keys(sorted, key), Keys(target, key));
    forall i | 0 <= i < |sorted| ensures sorted[i] == target[i] {
      assert Keys(sorted, key)[i] == Keys(target, key)[i];
      EqualByKey(sorted, target, key, i);
    }
  }

  ghost predicate NoDuplicates<T>(items: seq<T>) {
    forall i, j :: 0 <= i < j < |items| ==> items[i] != items[j]
  }

  lemma {:induction false} CountsOnce<T>(items: seq<T>, x: T)
    requires NoDuplicates(items)
    ensures multiset(items)[x] == if x in items then 1 else 0
  {
    if items != [] {
      var front, last := items[..|items| - 1], items[|items| - 1];
      assert items == front + [last];
      CountsOnce(front, x);
    }
  }

  /** Lists without duplicates and with the same members are rearrangements of each other. */
  lemma SameMembersPermute<T>(a: seq<T>, b: seq<T>)
    requires NoDuplicates(a) && NoDuplicates(b) && forall x :: x in a <==> x in b
    ensures multiset(a) == multiset(b)
  {
    forall x ensures multiset(a)[x] == multiset(b)[x] {
      CountsOnce(a, x);
      CountsOnce(b, x);
    }
  }

  ghost predicate TiesAreEqual<T(!new)>(items: seq<T>, less: (T, T) -> bool) {
    forall x, y :: x in items && y in items && !less(x, y) && !less(y, x) ==> x == y
  }

  lemma SortedHead<T(!new)>(a: seq<T>, b: seq<T>, less: (T, T) -> bool)
    requires StrictWeakOrder(less) && Sorted(a, less) && Sorted(b, less) && multiset(a) == multiset(b)
    requires TiesAreEqual(a, less) && a != []
    ensures b != [] && a[0] == b[0]
  {
    SameMembers(a, b);
    assert a[0] in b && b[0] in a;
    var i :| 0 <= i < |b| && b[i] == a[0];
    var j :| 0 <= j < |a| && a[j] == b[0];
    assert !less(a[0], b[0]) && !less(b[0], a[0]);
  }

  lemma TailIsSorted<T(!new)>(items: seq<T>, less: (T, T) -> bool)
    requires Sorted(items, less) && TiesAreEqual(items, less) && items != []
    ensures Sorted(items[1..], less) && TiesAreEqual(items[1..], less)
  {
    assert forall i :: 0 <= i < |items[1..]| ==> items[1..][i] == items[i + 1];
    assert forall x :: x in items[1..] ==> x in items;
  }

  lemma TailsPermute<T>(a: seq<T>, b: seq<T>)
    requires a != [] && b != [] && a[0] == b[0] && multiset(a) == multiset(b)
    ensures multiset(a[1..]) == multiset(b[1..])
  {
    assert a == [a[0]] + a[1..] && b == [b[0]] + b[1..];
    assert multiset(a[1..]) == multiset(a) - multiset{a[0]};
    assert multiset(b[1..]) == multiset(b) - multiset{b[0]};
  }

  /** Where ties are identical elements, even an unstable sort has one result. */
  lemma {:induction false} SortedIsUnique<T(!new)>(a: seq<T>, b: seq<T>, less: (T, T) -> bool)
    requires StrictWeakOrder(less) && Sorted(a, less) && Sorted(b, less) && multiset(a) == multiset(b)
    requires TiesAreEqual(a, less)
    ensures a == b
  {
    SameMembers(a, b);
    if a != [] {
      SortedHead(a, b, less);
      TiesPermute(a, b, less);
      TailsPermute(a, b);
      TailIsSorted(a, less);
      TailIsSorted(b, less);
      SortedIsUnique(a[1..], b[1..], less);
      assert a == [a[0]] + a[1..] && b == [b[0]] + b[1..];
    }
  }

  lemma TiesPermute<T(!new)>(a: seq<T>, b: seq<T>, less: (T, T) -> bool)
    requires multiset(a) == multiset(b) && TiesAreEqual(a, less)
    ensures TiesAreEqual(b, less)
  {
    SameMembers(a, b);
  }
}
