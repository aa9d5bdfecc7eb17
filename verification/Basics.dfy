/** Vocabulary shared by the models: optional values, byte-wise string order and sorting. */
module Basics {

  type byte = x: int | 0 <= x < 256

  type bytes = seq<byte>

  datatype Option<+T> = None | Some(value: T)

  datatype Result<+T, +E> = Ok(value: T) | Err(error: E)

  /** Required text: not empty and free of control characters. */
  predicate PlainText(t: string)
  {
    t != "" && forall i :: 0 <= i < |t| ==> 0x20 as char <= t[i] && t[i] != 0x7f as char
  }

  /** strcmp order: the first differing character decides, a proper prefix comes first. */
  predicate LexLe(a: string, b: string)
  {
    a == [] || (b != [] && (a[0] < b[0] || (a[0] == b[0] && LexLe(a[1..], b[1..]))))
  }

  lemma {:induction false} LexTotal(a: string, b: string)
    ensures LexLe(a, b) || LexLe(b, a)
  {
    if a != [] && b != [] && a[0] == b[0] {
      LexTotal(a[1..], b[1..]);
    }
  }

  lemma {:induction false} LexAntisymmetric(a: string, b: string)
    requires LexLe(a, b) && LexLe(b, a)
    ensures a == b
  {
    if a != [] && b != [] {
      LexAntisymmetric(a[1..], b[1..]);
      assert a == [a[0]] + a[1..] && b == [b[0]] + b[1..];
    }
  }

  lemma {:induction false} LexTransitive(a: string, b: string, c: string)
    requires LexLe(a, b) && LexLe(b, c)
    ensures LexLe(a, c)
  {
    if a != [] && b != [] && c != [] && a[0] == b[0] && b[0] == c[0] {
      LexTransitive(a[1..], b[1..], c[1..]);
    }
  }

  predicate Sorted(s: seq<string>)
  {
    forall i, k :: 0 <= i < k < |s| ==> LexLe(s[i], s[k])
  }

  function Insert(x: string, s: seq<string>): (r: seq<string>)
    ensures multiset(r) == multiset(s) + multiset{x}
    ensures Sorted(s) ==> Sorted(r)
  {
    if s == [] then [x]
    else if LexLe(x, s[0]) then
      InsertFront(x, s);
      [x] + s
    else
      var t := Insert(x, s[1..]);
      InsertLater(x, s, t);
      [s[0]] + t
  }

  lemma InsertFront(x: string, s: seq<string>)
    requires s != [] && LexLe(x, s[0])
    ensures multiset([x] + s) == multiset(s) + multiset{x}
    ensures Sorted(s) ==> Sorted([x] + s)
  {
    if Sorted(s) {
      forall k | 0 <= k < |s| ensures LexLe(x, s[k]) {
        if 0 < k {
          LexTransitive(x, s[0], s[k]);
        }
      }
    }
  }

  lemma InsertLater(x: string, s: seq<string>, t: seq<string>)
    requires s != [] && !LexLe(x, s[0])
    requires multiset(t) == multiset(s[1..]) + multiset{x} && (Sorted(s[1..]) ==> Sorted(t))
    ensures multiset([s[0]] + t) == multiset(s) + multiset{x}
    ensures Sorted(s) ==> Sorted([s[0]] + t)
  {
    assert s == [s[0]] + s[1..];
    LexTotal(x, s[0]);
    if Sorted(s) {
      forall k | 0 <= k < |t| ensures LexLe(s[0], t[k]) {
        assert t[k] in multiset(t);
        if t[k] != x {
          assert t[k] in s[1..];
        }
      }
    }
  }

  /** Strings in ascending order, duplicates kept (g_ptr_array_sort with strcmp). */
  function Sort(s: seq<string>): (r: seq<string>)
    ensures Sorted(r) && multiset(r) == multiset(s)
  {
    if s == [] then []
    else
      assert s == [s[0]] + s[1..];
      Insert(s[0], Sort(s[1..]))
  }

  /** Ascending order is canonical: it forgets everything but the multiset. */
  lemma {:induction false} SortedUnique(a: seq<string>, b: seq<string>)
    requires Sorted(a) && Sorted(b) && multiset(a) == multiset(b)
    ensures a == b
  {
    assert |a| == |multiset(a)| && |b| == |multiset(b)|;
    if a != [] {
      LeastFirst(a, b);
      LeastFirst(b, a);
      LexAntisymmetric(a[0], b[0]);
      assert a == [a[0]] + a[1..] && b == [b[0]] + b[1..];
      SameRemoval(a, 0, b, 0);
      assert a[1..] == Without(a, 0) && b[1..] == Without(b, 0);
      SortedUnique(a[1..], b[1..]);
    }
  }

  lemma LeastFirst(a: seq<string>, b: seq<string>)
    requires Sorted(a) && multiset(a) == multiset(b) && a != [] && b != []
    ensures LexLe(a[0], b[0])
  {
    assert b[0] in multiset(a) by {
      assert b[0] in multiset(b);
    }
    var k :| 0 <= k < |a| && a[k] == b[0];
    LexTotal(a[0], a[0]);
  }

  lemma Assoc<T>(a: seq<T>, b: seq<T>, c: seq<T>)
    ensures a + b + c == a + (b + c)
  {
  }

  predicate Distinct<T(==)>(s: seq<T>)
  {
    forall i, k :: 0 <= i < k < |s| ==> s[i] != s[k]
  }

  function SetOf<T>(s: seq<T>): set<T>
  {
    set x | x in s
  }

  /** The names that satisfy p, in their order. */
  function Keep(names: seq<string>, p: string -> bool): seq<string>
  {
    if names == [] then [] else (if p(names[0]) then [names[0]] else []) + Keep(names[1..], p)
  }

  lemma {:induction false} KeepMembers(names: seq<string>, p: string -> bool)
    ensures forall x :: x in Keep(names, p) <==> x in names && p(x)
    ensures Sorted(names) ==> Sorted(Keep(names, p))
  {
    if names != [] {
      KeepMembers(names[1..], p);
      assert names == [names[0]] + names[1..];
      var rest := Keep(names[1..], p);
      if Sorted(names) {
        forall k | 0 <= k < |rest| ensures LexLe(names[0], rest[k]) {
          assert rest[k] in names[1..];
        }
      }
    }
  }

  lemma {:induction false} KeepConcat(a: seq<string>, b: seq<string>, p: string -> bool)
    ensures Keep(a + b, p) == Keep(a, p) + Keep(b, p)
  {
    if a == [] {
      assert a + b == b;
    } else {
      assert (a + b)[0] == a[0] && (a + b)[1..] == a[1..] + b;
      KeepConcat(a[1..], b, p);
    }
  }

  lemma {:induction false} KeepOne(names: seq<string>, p: string -> bool, x: string)
    requires Distinct(names) && forall y :: y in names ==> (p(y) <==> y == x)
    ensures Keep(names, p) == if x in names then [x] else []
  {
    if names != [] {
      assert names == [names[0]] + names[1..];
      KeepOne(names[1..], p, x);
      assert names[0] == x ==> x !in names[1..];
    }
  }

  /** The members of a set in ascending order. */
  ghost function SortedSet(s: set<string>): (r: seq<string>)
    ensures Sorted(r) && multiset(r) == multiset(s)
  {
    if s == {} then []
    else
      var x :| x in s;
      assert multiset(s) == multiset(s - {x}) + multiset{x};
      Insert(x, SortedSet(s - {x}))
  }

  lemma SortedSetMembers(s: set<string>)
    ensures SetOf(SortedSet(s)) == s && Distinct(SortedSet(s))
  {
    var r := SortedSet(s);
    forall x ensures x in r <==> x in s {
      assert x in multiset(r) <==> x in r;
    }
    MultisetDistinct(r);
  }

  lemma {:induction false} MultisetDistinct(r: seq<string>)
    requires forall x :: x in r ==> multiset(r)[x] == 1
    ensures Distinct(r)
  {
    forall i, k | 0 <= i < k < |r| ensures r[i] != r[k] {
      assert r == r[..i + 1] + r[i + 1..];
      assert multiset(r) == multiset(r[..i + 1]) + multiset(r[i + 1..]);
      assert r[i] == r[..i + 1][i];
      assert r[k] == r[i + 1..][k - i - 1];
      assert r[i] in multiset(r[..i + 1]) && r[k] in multiset(r[i + 1..]);
      assert multiset(r)[r[i]] == multiset(r[..i + 1])[r[i]] + multiset(r[i + 1..])[r[i]];
      assert r[i] in r;
    }
  }

  function Without<T>(s: seq<T>, k: nat): (r: seq<T>)
    requires k < |s|
    ensures multiset(s) == multiset(r) + multiset{s[k]}
    ensures |r| == |s| - 1 && forall x :: x in r ==> x in s
  {
    assert s == s[..k] + [s[k]] + s[k + 1..];
    s[..k] + s[k + 1..]
  }

  /** Taking the same element out of two sequences neither hides nor causes a difference. */
  lemma SameRemoval<T>(s: seq<T>, i: nat, t: seq<T>, k: nat)
    requires i < |s| && k < |t| && s[i] == t[k]
    ensures multiset(s) == multiset(t) <==> multiset(Without(s, i)) == multiset(Without(t, k))
  {
    assert multiset(Without(s, i)) == multiset(s) - multiset{s[i]};
    assert multiset(Without(t, k)) == multiset(t) - multiset{t[k]};
  }

  /** Position of the first occurrence of u, or the length when there is none. */
  function Cut<T(==)>(s: seq<T>, u: T): (r: nat)
    ensures r <= |s|
  {
    if s == [] || s[0] == u then 0 else 1 + Cut(s[1..], u)
  }

  lemma {:induction false} CutAt<T>(a: seq<T>, b: seq<T>, u: T)
    requires u !in a
    ensures Cut(a + [u] + b, u) == |a| && Cut(a, u) == |a|
  {
    if a != [] {
      assert (a + [u] + b)[1..] == a[1..] + [u] + b && (a + [u] + b)[0] == a[0];
      CutAt(a[1..], b, u);
    } else {
      assert (a + [u] + b)[0] == u;
    }
  }

  /** Cutting at the first separator is unambiguous. */
  lemma FirstCut<T>(a: seq<T>, b: seq<T>, c: seq<T>, d: seq<T>, u: T)
    requires u !in a && u !in c && a + [u] + b == c + [u] + d
    ensures a == c && b == d
  {
    CutAt(a, b, u);
    CutAt(c, d, u);
    assert a == (a + [u] + b)[..|a|] && c == (c + [u] + d)[..|c|];
    assert b == (a + [u] + b)[|a| + 1..] && d == (c + [u] + d)[|c| + 1..];
  }

  /** A text without the separator is no text with it. */
  lemma NoCut<T>(m: seq<T>, b: seq<T>, n: seq<T>, u: T)
    requires u !in m && u !in b
    ensures m != b + [u] + n
  {
    CutAt(b, n, u);
    CutAt(m, n, u);
  }

  function Decimal(n: nat): string
  {
    if n < 10 then ["0123456789"[n]] else Decimal(n / 10) + ["0123456789"[n % 10]]
  }

  function ParseDecimal(s: string): Option<nat>
  {
    if s == "" || !('0' <= s[|s| - 1] <= '9') then None
    else
      var digit := s[|s| - 1] as int - '0' as int;
      if |s| == 1 then Some(digit)
      else
        var rest := ParseDecimal(s[..|s| - 1]);
        if rest.None? then None else Some(rest.value * 10 + digit)
  }

  lemma {:induction false} DecimalReadsBack(n: nat)
    ensures ParseDecimal(Decimal(n)) == Some(n)
    ensures '\n' !in Decimal(n)
  {
    if n >= 10 {
      DecimalReadsBack(n / 10);
      assert Decimal(n)[..|Decimal(n)| - 1] == Decimal(n / 10);
    }
  }
}
