/** Optional values: `undefined` / `null` in TypeScript, `None` in Python. */
module Common {
  datatype Option<T> = None | Some(value: T)

  /** `x ?? d`: the value when present, the default otherwise. */
  function OrElse<T>(o: Option<T>, d: T): T
  {
    match o
    case Some(v) => v
    case None => d
  }

  /** The elements of `s` at which `p` holds, in order (`Array.prototype.filter`). */
  function Filter<T>(s: seq<T>, p: T -> bool): (r: seq<T>)
    ensures |r| <= |s|
    ensures forall x :: x in r ==> x in s && p(x)
    ensures forall x :: x in s && p(x) ==> x in r
  {
    if s == [] then [] else (if p(s[0]) then [s[0]] else []) + Filter(s[1..], p)
  }

  lemma {:induction false} FilterAppend<T>(a: seq<T>, b: seq<T>, p: T -> bool)
    ensures Filter(a + b, p) == Filter(a, p) + Filter(b, p)
  {
    if a != [] {
      assert (a + b)[0] == a[0];
      assert (a + b)[1..] == a[1..] + b;
      FilterAppend(a[1..], b, p);
      var h := if p(a[0]) then [a[0]] else [];
      calc {
        Filter(a + b, p);
        h + Filter(a[1..] + b, p);
        h + (Filter(a[1..], p) + Filter(b, p));
        (h + Filter(a[1..], p)) + Filter(b, p);
      }
    } else {
      assert a + b == b;
    }
  }

  /** Filtering with a test every element passes keeps the sequence as it is. */
  lemma {:induction false} FilterKeepsAll<T>(s: seq<T>, p: T -> bool)
    requires forall i :: 0 <= i < |s| ==> p(s[i])
    ensures Filter(s, p) == s
  {
    if s != [] {
      assert forall i :: 0 <= i < |s[1..]| ==> s[1..][i] == s[i + 1];
      FilterKeepsAll(s[1..], p);
      assert s == [s[0]] + s[1..];
    }
  }

  function Min(a: nat, b: nat): nat { if a < b then a else b }

  /** `s.slice(0, k)`. */
  function Take<T>(s: seq<T>, k: nat): (r: seq<T>)
    ensures |r| == Min(k, |s|) && r == s[..Min(k, |s|)]
  {
    s[..Min(k, |s|)]
  }

  /** `s.slice(k)`. */
  function Drop<T>(s: seq<T>, k: nat): (r: seq<T>)
    ensures |r| == |s| - Min(k, |s|) && r == s[Min(k, |s|)..]
  {
    s[Min(k, |s|)..]
  }

  /** `s.slice(a, b)` with non-negative bounds. */
  function Slice<T>(s: seq<T>, a: nat, b: nat): (r: seq<T>)
    ensures |r| <= |s|
  {
    var lo := Min(a, |s|);
    var hi := Min(b, |s|);
    if hi <= lo then [] else s[lo..hi]
  }

  /** No element occurs twice. */
  predicate Distinct<T(==)>(s: seq<T>)
  {
    forall i, j :: 0 <= i < j < |s| ==> s[i] != s[j]
  }

  /** A sub-sequence of a distinct sequence is distinct. */
  lemma {:induction false} FilterDistinct<T>(s: seq<T>, p: T -> bool)
    requires Distinct(s)
    ensures Distinct(Filter(s, p))
  {
    if s != [] {
      assert Distinct(s[1..]) by {
        forall i, j | 0 <= i < j < |s[1..]| ensures s[1..][i] != s[1..][j] {
          assert s[1..][i] == s[i + 1] && s[1..][j] == s[j + 1];
        }
      }
      FilterDistinct(s[1..], p);
      var rest := Filter(s[1..], p);
      assert s[0] !in s[1..] by {
        forall i | 0 <= i < |s[1..]| ensures s[1..][i] != s[0] {
          assert s[1..][i] == s[i + 1];
        }
      }
      assert s[0] !in rest;
      var h := if p(s[0]) then [s[0]] else [];
      assert Filter(s, p) == h + rest;
      forall i, j | 0 <= i < j < |h + rest| ensures (h + rest)[i] != (h + rest)[j] {
        if i < |h| {
          assert (h + rest)[j] == rest[j - |h|];
          assert rest[j - |h|] in rest;
        } else {
          assert (h + rest)[i] == rest[i - |h|] && (h + rest)[j] == rest[j - |h|];
        }
      }
    }
  }

  /** `s.includes(x) ? s.filter(y => y !== x) : [...s, x]`: take `x` out, or add it at the end. */
  function Toggle<T(==)>(s: seq<T>, x: T): (r: seq<T>)
  {
    if x in s then Filter(s, (y: T) => y != x) else s + [x]
  }

  /** After a toggle `x` is present exactly when it was absent; every other element stays as it was. */
  lemma ToggleFlips<T>(s: seq<T>, x: T)
    ensures x in Toggle(s, x) <==> x !in s
    ensures forall y :: y != x ==> (y in Toggle(s, x) <==> y in s)
  {
  }

  /** Toggling keeps a sequence free of duplicates. */
  lemma ToggleKeepsDistinct<T>(s: seq<T>, x: T)
    requires Distinct(s)
    ensures Distinct(Toggle(s, x))
  {
    if x in s {
      FilterDistinct(s, (y: T) => y != x);
    } else {
      var r := s + [x];
      forall i, j | 0 <= i < j < |r| ensures r[i] != r[j] {
        if j == |s| {
          assert r[i] == s[i];
          assert s[i] in s;
        }
      }
    }
  }

  /** Toggling an absent element twice gives back the sequence. */
  lemma ToggleTwiceAbsent<T>(s: seq<T>, x: T)
    requires x !in s
    ensures Toggle(Toggle(s, x), x) == s
  {
    var keep := (y: T) => y != x;
    assert x in s + [x];
    FilterAppend(s, [x], keep);
    FilterKeepsAll(s, keep);
    assert Filter([x], keep) == [] by {
      assert [x][1..] == [];
    }
  }

  /** Toggling a present element twice moves it to the end. */
  lemma ToggleTwicePresent<T>(s: seq<T>, x: T)
    requires x in s
    ensures Toggle(Toggle(s, x), x) == Filter(s, (y: T) => y != x) + [x]
  {
  }
}
