/** Generic sequence operations standing in for the JavaScript array methods the
    storefront uses: `filter`, `findIndex`/`find`, and the "ids are unique" invariant. */
module Seqs {
  import opened Wrappers

  /** `s.filter(keep)`: the elements of `s` that satisfy `keep`, in their original order. */
  function Filter<T>(s: seq<T>, keep: T -> bool): (r: seq<T>)
    ensures |r| <= |s|
    ensures forall x :: x in r ==> x in s && keep(x)
    ensures forall x :: x in s && keep(x) ==> x in r
  {
    if s == [] then []
    else if keep(s[0]) then [s[0]] + Filter(s[1..], keep)
    else Filter(s[1..], keep)
  }

  /** `Filter` distributes over concatenation: it never reorders what it keeps. */
  lemma {:induction false} FilterConcat<T>(a: seq<T>, b: seq<T>, keep: T -> bool)
    ensures Filter(a + b, keep) == Filter(a, keep) + Filter(b, keep)
  {
    if a == [] {
      assert a + b == b;
    } else {
      assert (a + b)[0] == a[0];
      assert (a + b)[1..] == a[1..] + b;
      FilterConcat(a[1..], b, keep);
    }
  }

  /** When every element satisfies `keep`, `Filter` returns its input. */
  lemma {:induction false} FilterAllKept<T>(s: seq<T>, keep: T -> bool)
    requires forall i :: 0 <= i < |s| ==> keep(s[i])
    ensures Filter(s, keep) == s
  {
    if s != [] {
      FilterAllKept(s[1..], keep);
    }
  }

  /** Filtering twice by the same predicate is the same as filtering once. */
  lemma {:induction false} FilterIdempotent<T>(s: seq<T>, keep: T -> bool)
    ensures Filter(Filter(s, keep), keep) == Filter(s, keep)
  {
    var r := Filter(s, keep);
    forall i | 0 <= i < |r| ensures keep(r[i]) {
      assert r[i] in r;
    }
    FilterAllKept(r, keep);
  }

  /** A predicate and its complement split a sequence: the two filtered lengths add up. */
  lemma {:induction false} FilterComplementLength<T>(s: seq<T>, keep: T -> bool, drop: T -> bool)
    requires forall x :: drop(x) == !keep(x)
    ensures |Filter(s, keep)| + |Filter(s, drop)| == |s|
  {
    if s != [] {
      FilterComplementLength(s[1..], keep, drop);
    }
  }

  /** `s.findIndex(matches)` as an option: the index of the FIRST element that
      matches, or `None` (JavaScript's `-1`) when no element does. */
  function FirstIndex<T>(s: seq<T>, matches: T -> bool): (r: Option<nat>)
    ensures r.Some? ==> r.value < |s| && matches(s[r.value])
    ensures r.Some? ==> forall j :: 0 <= j < r.value ==> !matches(s[j])
    ensures r.None? <==> forall j :: 0 <= j < |s| ==> !matches(s[j])
  {
    if s == [] then None
    else if matches(s[0]) then Some(0)
    else
      match FirstIndex(s[1..], matches)
      case None => None
      case Some(i) => Some(i + 1)
  }

  /** `FirstIndex` finds `i` exactly when `i` is the first matching position. */
  lemma FirstIndexIs<T>(s: seq<T>, matches: T -> bool, i: nat)
    requires i < |s| && matches(s[i])
    requires forall j :: 0 <= j < i ==> !matches(s[j])
    ensures FirstIndex(s, matches) == Some(i)
  {
  }

  /** No two positions of `s` carry the same key. */
  predicate UniqueBy<T>(s: seq<T>, key: T -> int) {
    forall i, j :: 0 <= i < j < |s| ==> key(s[i]) != key(s[j])
  }

  /** Filtering keeps keys unique: it only drops elements. */
  lemma {:induction false} FilterUniqueBy<T>(s: seq<T>, keep: T -> bool, key: T -> int)
    requires UniqueBy(s, key)
    ensures UniqueBy(Filter(s, keep), key)
  {
    if s != [] {
      var tail := s[1..];
      assert UniqueBy(tail, key) by {
        forall i, j | 0 <= i < j < |tail| ensures key(tail[i]) != key(tail[j]) {
          assert tail[i] == s[i + 1] && tail[j] == s[j + 1];
        }
      }
      FilterUniqueBy(tail, keep, key);
      if keep(s[0]) {
        var ft := Filter(tail, keep);
        var r := [s[0]] + ft;
        forall i, j | 0 <= i < j < |r| ensures key(r[i]) != key(r[j]) {
          if i == 0 {
            assert r[j] == ft[j - 1];
            assert ft[j - 1] in ft;
            assert ft[j - 1] in tail;
            var k :| 0 <= k < |tail| && tail[k] == ft[j - 1];
            assert s[k + 1] == r[j];
          } else {
            assert r[i] == ft[i - 1] && r[j] == ft[j - 1];
          }
        }
      }
    }
  }

  /** Filtering skips an element that `keep` rejects: the result is that of the
      part before it followed by that of the part after it. */
  lemma FilterSkipsAt<T>(s: seq<T>, keep: T -> bool, i: nat)
    requires i < |s| && !keep(s[i])
    ensures Filter(s, keep) == Filter(s[..i], keep) + Filter(s[i + 1..], keep)
  {
    var rest := s[i..];
    assert s == s[..i] + rest;
    FilterConcat(s[..i], rest, keep);
    assert rest[0] == s[i] && rest[1..] == s[i + 1..];
  }

  /** When keys are unique, filtering out the key of position `i` removes exactly
      that position. */
  lemma FilterDropsUniqueAt<T>(s: seq<T>, keep: T -> bool, key: T -> int, i: nat)
    requires UniqueBy(s, key) && i < |s|
    requires forall j :: 0 <= j < |s| ==> (keep(s[j]) <==> key(s[j]) != key(s[i]))
    ensures Filter(s, keep) == s[..i] + s[i + 1..]
  {
    var prefix, suffix := s[..i], s[i + 1..];
    FilterAllKept(prefix, keep) by {
      forall j | 0 <= j < |prefix| ensures keep(prefix[j]) {
        assert key(s[j]) != key(s[i]);
      }
    }
    FilterAllKept(suffix, keep) by {
      forall j | 0 <= j < |suffix| ensures keep(suffix[j]) {
        assert key(s[i]) != key(s[i + 1 + j]);
      }
    }
    FilterSkipsAt(s, keep, i);
  }
}
