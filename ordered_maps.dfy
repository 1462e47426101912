/** A model of std::map<std::string, V>: a finite map from keys to values together
    with the order in which the map is iterated, which for std::map is the
    ascending order of std::string's operator<. */
module OrderedMaps {

  /** std::string's operator<: lexicographic comparison of the characters, where
      a proper prefix comes before every longer string that extends it. */
  predicate Less(a: string, b: string)
  {
    if a == [] then b != []
    else b != [] && (a[0] < b[0] || (a[0] == b[0] && Less(a[1..], b[1..])))
  }

  lemma {:induction false} LessIrreflexive(a: string)
    ensures !Less(a, a)
  {
    if a != [] {
      LessIrreflexive(a[1..]);
    }
  }

  lemma {:induction false} LessTransitive(a: string, b: string, c: string)
    requires Less(a, b) && Less(b, c)
    ensures Less(a, c)
  {
    if a != [] && a[0] == b[0] && b[0] == c[0] {
      LessTransitive(a[1..], b[1..], c[1..]);
    }
  }

  lemma {:induction false} LessTotal(a: string, b: string)
    requires a != b
    ensures Less(a, b) || Less(b, a)
  {
    if a != [] && b != [] && a[0] == b[0] {
      assert a == [a[0]] + a[1..] && b == [b[0]] + b[1..];
      LessTotal(a[1..], b[1..]);
    }
  }

  lemma LessAsymmetric(a: string, b: string)
    requires Less(a, b)
    ensures !Less(b, a)
  {
    if Less(b, a) {
      LessTransitive(a, b, a);
      LessIrreflexive(a);
    }
  }

  /** Strictly ascending, hence free of repetitions. */
  ghost predicate Sorted(s: seq<string>)
  {
    forall i, j | 0 <= i < j < |s| :: Less(s[i], s[j])
  }

  lemma SortedNoRepeat(s: seq<string>)
    requires Sorted(s) && s != []
    ensures s[0] !in s[1..]
  {
    if s[0] in s[1..] {
      var j :| 0 <= j < |s[1..]| && s[1..][j] == s[0];
      LessIrreflexive(s[0]);
    }
  }

  /** Every element after the head of a sorted sequence lies above the head. */
  lemma SortedHeadBelow(s: seq<string>, x: string)
    requires Sorted(s) && s != [] && x in s[1..]
    ensures Less(s[0], x)
  {
    var j :| 0 <= j < |s[1..]| && s[1..][j] == x;
    assert s[j + 1] == x;
  }

  /** Puts k before the first element above it; in a sorted sequence that
      does not hold k, that is k's place. */
  function InsertSorted(s: seq<string>, k: string): (r: seq<string>)
    ensures forall x :: x in r <==> x in s || x == k
    ensures |r| == |s| + 1
    ensures Sorted(s) && k !in s ==> Sorted(r)
  {
    if s == [] then [k]
    else if Less(k, s[0]) then
      assert Sorted(s) ==> forall j | 0 < j < |s| :: Less(k, s[j]) by {
        if Sorted(s) {
          forall j | 0 < j < |s| ensures Less(k, s[j]) {
            LessTransitive(k, s[0], s[j]);
          }
        }
      }
      [k] + s
    else
      var rest := InsertSorted(s[1..], k);
      assert Sorted(s) && k !in s ==> forall x | x in rest :: Less(s[0], x) by {
        if Sorted(s) && k !in s {
          LessTotal(k, s[0]);
          forall x | x in rest ensures Less(s[0], x) {
            if x != k {
              SortedHeadBelow(s, x);
            }
          }
        }
      }
      assert s == [s[0]] + s[1..];
      [s[0]] + rest
  }

  /** No element occurs twice. */
  ghost predicate Distinct(s: seq<string>)
  {
    forall i, j | 0 <= i < j < |s| :: s[i] != s[j]
  }

  lemma SortedDistinct(s: seq<string>)
    requires Sorted(s)
    ensures Distinct(s)
  {
    forall i, j | 0 <= i < j < |s| ensures s[i] != s[j] {
      LessIrreflexive(s[i]);
    }
  }

  /** Two sorted sequences with the same elements start with the same element. */
  lemma SortedSameHead(a: seq<string>, b: seq<string>)
    requires Sorted(a) && Sorted(b) && a != [] && b != []
    requires forall x :: x in a <==> x in b
    ensures a[0] == b[0]
  {
    assert a == [a[0]] + a[1..] && b == [b[0]] + b[1..];
    assert a[0] == b[0] || Less(b[0], a[0]) by {
      if a[0] != b[0] {
        assert a[0] in b;
        SortedHeadBelow(b, a[0]);
      }
    }
    assert a[0] == b[0] || Less(a[0], b[0]) by {
      if a[0] != b[0] {
        assert b[0] in a;
        SortedHeadBelow(a, b[0]);
      }
    }
    if Less(a[0], b[0]) {
      LessAsymmetric(a[0], b[0]);
    }
  }

  /** Two sorted sequences with the same elements are the same sequence. */
  lemma {:induction false} SortedDetermined(a: seq<string>, b: seq<string>)
    requires Sorted(a) && Sorted(b)
    requires forall x :: x in a <==> x in b
    ensures a == b
  {
    SortedCard(a);
    SortedCard(b);
    assert (set x | x in a) == (set x | x in b);
    if a != [] {
      SortedSameHead(a, b);
      SortedNoRepeat(a);
      SortedNoRepeat(b);
      assert a == [a[0]] + a[1..] && b == [b[0]] + b[1..];
      forall x ensures x in a[1..] <==> x in b[1..] {
        assert x in a[1..] ==> x in a && x != a[0];
        assert x in b[1..] ==> x in b && x != b[0];
      }
      SortedDetermined(a[1..], b[1..]);
    }
  }

  lemma {:induction false} SortedCard(s: seq<string>)
    requires Sorted(s)
    ensures |set x | x in s| == |s|
  {
    if s != [] {
      SortedNoRepeat(s);
      SortedCard(s[1..]);
      assert s == [s[0]] + s[1..];
      assert (set x | x in s) == {s[0]} + (set x | x in s[1..]);
    }
  }

  /** The map together with its iteration order. */
  datatype OrderedMap<V> = OrderedMap(keys: seq<string>, items: map<string, V>)

  /** The iteration order lists every key of the map exactly once, ascending. */
  ghost predicate Valid<V>(m: OrderedMap<V>)
  {
    && Sorted(m.keys)
    && (forall k :: k in m.keys <==> k in m.items)
  }

  function Empty<V>(): (m: OrderedMap<V>)
    ensures Valid(m) && m.items == map[]
  {
    OrderedMap([], map[])
  }

  /** std::map::insert: adds k with value v when k is absent; an existing
      entry is left as it was. */
  function Insert<V>(m: OrderedMap<V>, k: string, v: V): (r: OrderedMap<V>)
    ensures Valid(m) ==> Valid(r)
    ensures r.items == if k in m.items then m.items else m.items[k := v]
  {
    if k in m.items then m
    else OrderedMap(InsertSorted(m.keys, k), m.items[k := v])
  }

  /** An assignment through the reference std::map hands out for a key it
      already holds: the value changes, the key set and the order do not. */
  function Assign<V>(m: OrderedMap<V>, k: string, v: V): (r: OrderedMap<V>)
    requires k in m.items
    ensures Valid(m) ==> Valid(r)
    ensures r.keys == m.keys
    ensures r.items == m.items[k := v]
  {
    OrderedMap(m.keys, m.items[k := v])
  }

  /** The iteration order is determined by the contents. */
  lemma SameItemsSameMap<V>(m1: OrderedMap<V>, m2: OrderedMap<V>)
    requires Valid(m1) && Valid(m2) && m1.items == m2.items
    ensures m1 == m2
  {
    SortedDetermined(m1.keys, m2.keys);
  }

  /** std::map::size counts the iteration order. */
  lemma SizeIsKeyCount<V>(m: OrderedMap<V>)
    requires Valid(m)
    ensures |m.keys| == |m.items|
  {
    SortedCard(m.keys);
    assert (set x | x in m.keys) == m.items.Keys;
  }
}
