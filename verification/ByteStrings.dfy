/** Byte strings: big-endian integers, the lexicographic order of the key space,
    and the set-to-sorted-list function behind every listing. */
module ByteStrings {

  type byte = x: int | 0 <= x < 256

  type Bytes = seq<byte>

  /** The bytes of a 7-bit string literal. */
  function Ascii(s: string): (b: Bytes)
    requires forall i :: 0 <= i < |s| ==> s[i] < 128 as char
    ensures |b| == |s|
  {
    seq(|s|, i requires 0 <= i < |s| => s[i] as int)
  }

  // ---------- Big-endian integers ----------

  function Pow256(width: nat): (p: nat)
    ensures p > 0
  {
    if width == 0 then 1 else 256 * Pow256(width - 1)
  }

  /** The low `width` bytes of v, most significant first: a Go conversion to a
      narrower unsigned type followed by binary.BigEndian. */
  function BigEndian(width: nat, v: nat): (s: Bytes)
    ensures |s| == width
  {
    if width == 0 then [] else BigEndian(width - 1, v / 256) + [v % 256]
  }

  function FromBigEndian(s: Bytes): nat {
    if s == [] then 0 else 256 * FromBigEndian(s[..|s| - 1]) + s[|s| - 1]
  }

  lemma {:induction false} BigEndianInRange(width: nat, v: nat)
    requires v < Pow256(width)
    ensures FromBigEndian(BigEndian(width, v)) == v
  {
    if width > 0 {
      var s := BigEndian(width, v);
      assert s[..|s| - 1] == BigEndian(width - 1, v / 256);
      BigEndianInRange(width - 1, v / 256);
    }
  }

  /** The conversion truncates: one full turn is invisible. */
  lemma {:induction false} BigEndianWraps(width: nat, v: nat)
    ensures BigEndian(width, v + Pow256(width)) == BigEndian(width, v)
  {
    if width > 0 {
      BigEndianWraps(width - 1, v / 256);
      assert (v + Pow256(width)) / 256 == v / 256 + Pow256(width - 1);
    }
  }

  lemma {:induction false} BigEndianOfFromBigEndian(s: Bytes)
    ensures BigEndian(|s|, FromBigEndian(s)) == s
    ensures FromBigEndian(s) < Pow256(|s|)
  {
    if s != [] {
      BigEndianOfFromBigEndian(s[..|s| - 1]);
    }
  }

  lemma SmallMultiple(d: int, k: int)
    requires -d < d * k < d
    ensures k == 0
  {
  }

  lemma Quotient(v: nat, d: nat, s: nat, rest: nat)
    requires d > 0 && rest < d && v == d * s + rest
    ensures v / d == s
  {
    var q, r := v / d, v % d;
    assert v == d * q + r;
    assert d * (q - s) == d * q - d * s == rest - r;
    SmallMultiple(d, q - s);
  }

  lemma DivTwice(v: nat, p: nat)
    requires p > 0
    ensures v / 256 / p == v / (256 * p)
  {
    var q, r := v / 256, v % 256;
    var s, t := q / p, q % p;
    assert q == p * s + t;
    assert v == 256 * p * s + (256 * t + r);
    Quotient(v, 256 * p, s, 256 * t + r);
  }

  /** The digits of v to the base 256, the one with the highest weight first. */
  function Digits(width: nat, v: nat): (s: Bytes)
    ensures |s| == width
  {
    seq(width, i requires 0 <= i < width => v / Pow256(width - 1 - i) % 256)
  }

  lemma DigitOfQuotient(width: nat, v: nat, i: nat)
    requires i + 1 < width
    ensures Digits(width, v)[i] == Digits(width - 1, v / 256)[i]
  {
    DivTwice(v, Pow256(width - 2 - i));
    assert Pow256(width - 1 - i) == 256 * Pow256(width - 2 - i);
    assert Digits(width, v)[i] == v / Pow256(width - 1 - i) % 256;
    assert Digits(width - 1, v / 256)[i] == v / 256 / Pow256(width - 2 - i) % 256;
  }

  lemma LastDigit(width: nat, v: nat)
    requires width > 0
    ensures Digits(width, v)[width - 1] == v % 256
  {
    assert Pow256(0) == 1;
  }

  lemma {:induction false} BigEndianDigits(width: nat, v: nat)
    ensures BigEndian(width, v) == Digits(width, v)
  {
    hide Digits, Pow256;
    if width > 0 {
      BigEndianDigits(width - 1, v / 256);
      LastDigit(width, v);
      forall i | 0 <= i < width - 1 ensures Digits(width, v)[i] == Digits(width - 1, v / 256)[i] {
        DigitOfQuotient(width, v, i);
      }
    }
  }

  // ---------- Lexicographic order ----------

  predicate IsPrefix(p: Bytes, k: Bytes) {
    |p| <= |k| && k[..|p|] == p
  }

  predicate LexLess(a: Bytes, b: Bytes) {
    b != [] && (a == [] || a[0] < b[0] || (a[0] == b[0] && LexLess(a[1..], b[1..])))
  }

  /** What the order is: b goes on where a ends, or is the greater at the first byte in
      which they differ. */
  lemma {:induction false} LexLessIff(a: Bytes, b: Bytes)
    ensures LexLess(a, b) <==> exists k :: 0 <= k <= |a| && k < |b| && a[..k] == b[..k] && (k == |a| || a[k] < b[k])
  {
    if a != [] && b != [] && a[0] == b[0] {
      var a', b' := a[1..], b[1..];
      LexLessIff(a', b');
      forall k | 0 <= k <= |a'| && k < |b'| && a'[..k] == b'[..k] ensures a[..k + 1] == b[..k + 1] {
        assert a[..k + 1] == [a[0]] + a'[..k] && b[..k + 1] == [b[0]] + b'[..k];
      }
      forall k | 0 < k <= |a| && k < |b| && a[..k] == b[..k] ensures a'[..k - 1] == b'[..k - 1] {
        assert a'[..k - 1] == a[..k][1..] && b'[..k - 1] == b[..k][1..];
      }
      if LexLess(a', b') {
        var k :| 0 <= k <= |a'| && k < |b'| && a'[..k] == b'[..k] && (k == |a'| || a'[k] < b'[k]);
        assert a[..k + 1] == b[..k + 1];
      }
    } else if b != [] {
      assert a[..0] == b[..0];
      forall k | 0 < k <= |a| && k < |b| ensures a[..k] != b[..k] {
        assert a[..k][0] != b[..k][0];
      }
    }
  }

  lemma {:induction false} LexTotal(a: Bytes, b: Bytes)
    ensures a == b || LexLess(a, b) || LexLess(b, a)
    ensures !(LexLess(a, b) && LexLess(b, a))
    ensures a == b ==> !LexLess(a, b)
  {
    if a != [] && b != [] {
      LexTotal(a[1..], b[1..]);
      assert a == [a[0]] + a[1..] && b == [b[0]] + b[1..];
    }
  }

  lemma {:induction false} LexTransitive(a: Bytes, b: Bytes, c: Bytes)
    requires LexLess(a, b) && LexLess(b, c)
    ensures LexLess(a, c)
  {
    if a != [] && a[0] == b[0] == c[0] {
      LexTransitive(a[1..], b[1..], c[1..]);
    }
  }

  /** Adding a common prefix keeps the order of keys, and stripping it does too. */
  lemma {:induction false} LexCommonPrefix(p: Bytes, a: Bytes, b: Bytes)
    ensures LexLess(p + a, p + b) <==> LexLess(a, b)
  {
    if p == [] {
      assert p + a == a && p + b == b;
    } else {
      assert (p + a)[1..] == p[1..] + a && (p + b)[1..] == p[1..] + b;
      LexCommonPrefix(p[1..], a, b);
    }
  }

  // ---------- Sorted listings ----------

  ghost predicate StrictlyAscending(xs: seq<Bytes>) {
    forall i, j :: 0 <= i < j < |xs| ==> LexLess(xs[i], xs[j])
  }

  predicate IsLeast(m: Bytes, s: set<Bytes>) {
    m in s && forall y :: y in s ==> y == m || LexLess(m, y)
  }

  lemma {:induction false} LeastExists(s: set<Bytes>)
    requires s != {}
    ensures exists m :: IsLeast(m, s)
  {
    var x :| x in s;
    var rest := s - {x};
    if rest == {} {
      assert s == {x};
      assert IsLeast(x, s);
    } else {
      LeastExists(rest);
      var m :| IsLeast(m, rest);
      LexTotal(x, m);
      if LexLess(x, m) {
        forall y | y in s ensures y == x || LexLess(x, y) {
          if y != x && y != m {
            LexTransitive(x, m, y);
          }
        }
        assert IsLeast(x, s);
      } else {
        assert IsLeast(m, s);
      }
    }
  }

  lemma LeastIsUnique(s: set<Bytes>)
    ensures forall a, b :: IsLeast(a, s) && IsLeast(b, s) ==> a == b
  {
    forall a, b | IsLeast(a, s) && IsLeast(b, s) ensures a == b {
      LexTotal(a, b);
    }
  }

  function Least(s: set<Bytes>): (m: Bytes)
    requires s != {}
    ensures IsLeast(m, s)
  {
    LeastExists(s);
    LeastIsUnique(s);
    var m :| m in s && IsLeast(m, s);
    m
  }

  /** The elements of s in ascending byte order. */
  function Ascending(s: set<Bytes>): (xs: seq<Bytes>)
    ensures |xs| == |s|
    ensures forall x :: x in xs <==> x in s
  {
    if s == {} then []
    else
      var m := Least(s);
      [m] + Ascending(s - {m})
  }

  lemma {:induction false} AscendingIsSorted(s: set<Bytes>)
    ensures StrictlyAscending(Ascending(s))
  {
    if s != {} {
      var m := Least(s);
      AscendingIsSorted(s - {m});
      var tail := Ascending(s - {m});
      forall j | 0 <= j < |tail| ensures LexLess(m, tail[j]) {
        assert tail[j] in s - {m};
      }
    }
  }

  /** A strictly ascending list is determined by its elements. */
  lemma {:induction false} SortedListIsAscending(xs: seq<Bytes>, s: set<Bytes>)
    requires StrictlyAscending(xs)
    requires forall x :: x in xs <==> x in s
    ensures xs == Ascending(s)
  {
    if xs == [] {
      assert forall x :: x in s ==> x in xs;
      assert s == {};
    } else {
      assert xs[0] in s;
      var m := Least(s);
      forall y | y in s ensures y == xs[0] || LexLess(xs[0], y) {
        assert y in xs;
      }
      assert IsLeast(xs[0], s);
      LeastIsUnique(s);
      forall x ensures x in xs[1..] <==> x in s - {m} {
        if x in xs[1..] {
          LexTotal(xs[0], xs[0]);
        }
        if x in s - {m} {
          assert x in xs;
        }
      }
      SortedListIsAscending(xs[1..], s - {m});
    }
  }

  // ---------- Maps ----------

  lemma UpdateIsExtensional<K, V>(m: map<K, V>, m': map<K, V>, k: K, v: V)
    requires m'.Keys == m.Keys + {k} && m'[k] == v
    requires forall x :: x in m && x != k ==> m'[x] == m[x]
    ensures m' == m[k := v]
  {
  }

  lemma RemovalIsExtensional<K, V>(m: map<K, V>, m': map<K, V>, k: K)
    requires m'.Keys == m.Keys - {k}
    requires forall x :: x in m && x != k ==> m'[x] == m[x]
    ensures m' == m - {k}
  {
  }
}
