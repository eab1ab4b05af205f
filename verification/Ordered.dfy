/** Byte strings, strict total orders, and the ascending listing in which a
    BTreeMap iterates its keys. */
module Ordered {
  type Byte = x: int | 0 <= x < 256
  type Bytes = seq<Byte>

  function Max(a: nat, b: nat): nat {
    if a < b then b else a
  }

  function Min(a: nat, b: nat): nat {
    if a < b then a else b
  }

  function Pow2(n: nat): (p: nat)
    ensures p > 0
  {
    if n == 0 then 1 else 2 * Pow2(n - 1)
  }

  /** Bytes read as one big-endian number. */
  function BigEndian(b: Bytes): nat {
    if b == [] then 0 else b[0] * Pow2(8 * (|b| - 1)) + BigEndian(b[1..])
  }

  lemma PowSum(a: nat, b: nat)
    ensures Pow2(a + b) == Pow2(a) * Pow2(b)
  {
    if a > 0 {
      PowSum(a - 1, b);
    }
  }

  lemma {:induction false} BigEndianBound(b: Bytes)
    ensures BigEndian(b) < Pow2(8 * |b|)
  {
    if b != [] {
      var unit := Pow2(8 * (|b| - 1));
      BigEndianBound(b[1..]);
      PowSum(8, 8 * (|b| - 1));
      assert Pow2(8) == 256;
      Product(b[0], 255, unit);
    }
  }

  lemma Product(x: nat, y: nat, k: nat)
    requires x <= y
    ensures x * k <= y * k
  {
  }

  /** Leading bytes weigh more. */
  lemma {:induction false} BigEndianConcat(a: Bytes, b: Bytes)
    ensures BigEndian(a + b) == BigEndian(a) * Pow2(8 * |b|) + BigEndian(b)
  {
    if a == [] {
      assert a + b == b;
    } else {
      assert (a + b)[1..] == a[1..] + b;
      BigEndianConcat(a[1..], b);
      PowSum(8 * (|a| - 1), 8 * |b|);
      Expand(a[0], Pow2(8 * (|a| - 1)), Pow2(8 * |b|), BigEndian(a[1..]));
    }
  }

  lemma Expand(x: nat, p: nat, q: nat, y: nat)
    ensures x * (p * q) + y * q == (x * p + y) * q
  {
  }

  lemma {:induction false} BigEndianZero(b: Bytes)
    ensures BigEndian(b) == 0 <==> forall i :: 0 <= i < |b| ==> b[i] == 0
  {
    if b != [] {
      BigEndianZero(b[1..]);
      assert BigEndian(b) == b[0] * Pow2(8 * (|b| - 1)) + BigEndian(b[1..]);
      if b[0] != 0 {
        Product(1, b[0], Pow2(8 * (|b| - 1)));
      }
      assert forall i :: 1 <= i < |b| ==> b[i] == b[1..][i - 1];
    }
  }

  lemma FewerKeys<K, V>(m: map<K, V>, kept: map<K, V>)
    requires kept.Keys <= m.Keys
    ensures |kept| <= |m|
  {
    assert |m.Keys| == |kept.Keys| + |m.Keys - kept.Keys|;
  }

  lemma SliceNext<T>(s: seq<T>, i: nat)
    requires i < |s|
    ensures s[..i + 1] == s[..i] + [s[i]] && s[..i + 1][..i] == s[..i]
  {
  }

  lemma ConcatAssociates<T>(a: seq<T>, b: seq<T>, c: seq<T>)
    ensures a + (b + c) == (a + b) + c
  {
  }

  ghost predicate StrictTotal<T(!new)>(less: (T, T) -> bool) {
    && (forall x :: !less(x, x))
    && (forall x, y :: x != y ==> less(x, y) || less(y, x))
    && (forall x, y, z :: less(x, y) && less(y, z) ==> less(x, z))
  }

  ghost predicate SortedBy<T>(s: seq<T>, less: (T, T) -> bool) {
    forall i, j :: 0 <= i < j < |s| ==> less(s[i], s[j])
  }

  lemma LeastExists<T(!new)>(s: set<T>, less: (T, T) -> bool)
    requires s != {} && StrictTotal(less)
    ensures exists x :: x in s && forall y :: y in s ==> y == x || less(x, y)
  {
    var a :| a in s;
    if s != {a} {
      LeastExists(s - {a}, less);
      var b :| b in s - {a} && forall y :: y in s - {a} ==> y == b || less(b, y);
      var m := if less(a, b) then a else b;
      forall y | y in s ensures y == m || less(m, y) {
        assert y == a || y in s - {a};
      }
    }
  }

  function Least<T(!new, ==)>(s: set<T>, less: (T, T) -> bool): (m: T)
    requires s != {} && StrictTotal(less)
    ensures m in s && forall y :: y in s ==> y == m || less(m, y)
  {
    LeastExists(s, less);
    var m :| m in s && forall y :: y in s ==> y == m || less(m, y);
    m
  }

  /** The elements of a finite set in ascending order. */
  function Ascending<T(!new, ==)>(s: set<T>, less: (T, T) -> bool): (r: seq<T>)
    requires StrictTotal(less)
    ensures SortedBy(r, less)
    ensures forall x :: x in r <==> x in s
    ensures |r| == |s|
  {
    if s == {} then [] else
      var m := Least(s, less);
      var rest := Ascending(s - {m}, less);
      assert forall i :: 0 <= i < |rest| ==> rest[i] in rest;
      [m] + rest
  }

  /** Byte-wise lexicographic order, the order of Rust's `str` and byte slices. */
  predicate LexLess(a: Bytes, b: Bytes) {
    b != [] && (a == [] || a[0] < b[0] || (a[0] == b[0] && LexLess(a[1..], b[1..])))
  }

  lemma LexTransitive(a: Bytes, b: Bytes, c: Bytes)
    requires LexLess(a, b) && LexLess(b, c)
    ensures LexLess(a, c)
  {
    if a != [] && a[0] == b[0] == c[0] {
      LexTransitive(a[1..], b[1..], c[1..]);
    }
  }

  lemma LexTotal(a: Bytes, b: Bytes)
    ensures a == b || LexLess(a, b) || LexLess(b, a)
    ensures !LexLess(a, a)
  {
    if a != [] {
      if b != [] && a[0] == b[0] {
        LexTotal(a[1..], b[1..]);
        assert a == [a[0]] + a[1..] && b == [b[0]] + b[1..];
      } else {
        LexTotal(a[1..], []);
      }
    }
  }

  lemma LexIsStrictTotal()
    ensures StrictTotal(LexLess)
  {
    forall x, y, z | LexLess(x, y) && LexLess(y, z) ensures LexLess(x, z) {
      LexTransitive(x, y, z);
    }
    forall x: Bytes, y: Bytes ensures !LexLess(x, x) && (x != y ==> LexLess(x, y) || LexLess(y, x)) {
      LexTotal(x, y);
    }
  }
}
