/**
 * `usort` with `strcmp` on names: the byte-wise order on strings and a stable
 * insertion sort by a string key.
 */
module Sorting {

  /** `strcmp(a, b) < 0`. */
  predicate StrLt(a: string, b: string)
  {
    if a == [] then b != []
    else if b == [] then false
    else if a[0] != b[0] then a[0] < b[0]
    else StrLt(a[1..], b[1..])
  }

  /** `strcmp(a, b) <= 0`. */
  predicate StrLe(a: string, b: string)
  {
    !StrLt(b, a)
  }

  lemma {:induction false} StrLtIrreflexive(a: string)
    ensures !StrLt(a, a)
  {
    if a != [] {
      StrLtIrreflexive(a[1..]);
    }
  }

  lemma {:induction false} StrLtTransitive(a: string, b: string, c: string)
    requires StrLt(a, b) && StrLt(b, c)
    ensures StrLt(a, c)
  {
    if a != [] && b != [] && c != [] && a[0] == b[0] == c[0] {
      StrLtTransitive(a[1..], b[1..], c[1..]);
    }
  }

  lemma {:induction false} StrLtTotal(a: string, b: string)
    requires a != b
    ensures StrLt(a, b) || StrLt(b, a)
  {
    if a != [] && b != [] && a[0] == b[0] {
      assert a == [a[0]] + a[1..] && b == [b[0]] + b[1..];
      StrLtTotal(a[1..], b[1..]);
    }
  }

  /** strcmp order is a total preorder: total and transitive. */
  lemma {:induction false} StrLeTotalPreorder()
    ensures forall a, b :: StrLe(a, b) || StrLe(b, a)
    ensures forall a, b, c :: StrLe(a, b) && StrLe(b, c) ==> StrLe(a, c)
  {
    forall a, b ensures StrLe(a, b) || StrLe(b, a) {
      if StrLt(a, b) && StrLt(b, a) {
        StrLtTransitive(a, b, a);
        StrLtIrreflexive(a);
      }
    }
    forall a, b, c | StrLe(a, b) && StrLe(b, c) ensures StrLe(a, c) {
      if StrLt(c, a) {
        if a == b {
        } else {
          StrLtTotal(a, b);
          StrLtTransitive(c, a, b);
        }
      }
    }
  }

  predicate SortedBy<T>(s: seq<T>, key: T -> string)
  {
    forall i, j :: 0 <= i < j < |s| ==> StrLe(key(s[i]), key(s[j]))
  }

  /** Inserts `x` after every leading element whose key is not greater than its own. */
  function Insert<T>(x: T, s: seq<T>, key: T -> string): (r: seq<T>)
    ensures |r| == |s| + 1
  {
    if s == [] then [x]
    else if StrLt(key(x), key(s[0])) then [x] + s
    else [s[0]] + Insert(x, s[1..], key)
  }

  /** An element no greater than every element of an ordered sequence can lead it. */
  lemma {:induction false} ConsSorted<T>(h: T, r: seq<T>, key: T -> string)
    requires SortedBy(r, key)
    requires forall j :: 0 <= j < |r| ==> StrLe(key(h), key(r[j]))
    ensures SortedBy([h] + r, key)
  {
    var c := [h] + r;
    forall i, j | 0 <= i < j < |c| ensures StrLe(key(c[i]), key(c[j])) {
      assert c[j] == r[j - 1];
      if i > 0 {
        assert c[i] == r[i - 1];
      }
    }
  }

  /** Inserting into an ordered sequence keeps it ordered and adds exactly `x`. */
  lemma {:induction false} InsertSorted<T>(x: T, s: seq<T>, key: T -> string)
    requires SortedBy(s, key)
    ensures SortedBy(Insert(x, s, key), key)
    ensures multiset(Insert(x, s, key)) == multiset(s) + multiset{x}
  {
    if s == [] {
    } else if StrLt(key(x), key(s[0])) {
      forall j | 0 <= j < |s| ensures StrLe(key(x), key(s[j])) {
        if StrLt(key(s[j]), key(x)) {
          StrLtTransitive(key(s[j]), key(x), key(s[0]));
          if j == 0 {
            StrLtIrreflexive(key(s[0]));
          }
        }
      }
      ConsSorted(x, s, key);
    } else {
      var tail := s[1..];
      var rest := Insert(x, tail, key);
      InsertSorted(x, tail, key);
      assert s == [s[0]] + tail;
      forall j | 0 <= j < |rest| ensures StrLe(key(s[0]), key(rest[j])) {
        assert rest[j] in multiset(tail) + multiset{x} by {
          assert rest[j] in multiset(rest);
        }
        if rest[j] != x {
          var k :| 0 <= k < |tail| && tail[k] == rest[j];
          assert s[k + 1] == rest[j];
        }
      }
      ConsSorted(s[0], rest, key);
    }
  }

  /** A stable sort of `s` by `key` (PHP 8's `usort` is stable). */
  function SortBy<T>(s: seq<T>, key: T -> string): (r: seq<T>)
    ensures |r| == |s|
  {
    if s == [] then [] else Insert(s[|s| - 1], SortBy(s[..|s| - 1], key), key)
  }

  /** The sorted sequence is ordered by key and a permutation of the input. */
  lemma {:induction false} SortByCorrect<T>(s: seq<T>, key: T -> string)
    ensures SortedBy(SortBy(s, key), key)
    ensures multiset(SortBy(s, key)) == multiset(s)
  {
    if s != [] {
      SortByCorrect(s[..|s| - 1], key);
      InsertSorted(s[|s| - 1], SortBy(s[..|s| - 1], key), key);
      assert s == s[..|s| - 1] + [s[|s| - 1]];
    }
  }
}
