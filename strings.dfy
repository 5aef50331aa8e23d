/** String and sequence helpers the Rust standard library provides to the core:
    `join`, `split` on one character, `retain`, `replace`, `trim`, decimal
    formatting. */
module Strings {

  /** Number of occurrences of `x` in `s`. */
  function Occurrences<T(==)>(s: seq<T>, x: T): (n: nat)
    ensures n <= |s|
    ensures n == 0 <==> x !in s
  {
    if s == [] then 0 else (if s[0] == x then 1 else 0) + Occurrences(s[1..], x)
  }

  lemma {:induction false} OccurrencesAppend<T>(a: seq<T>, b: seq<T>, x: T)
    ensures Occurrences(a + b, x) == Occurrences(a, x) + Occurrences(b, x)
  {
    if a == [] {
      assert a + b == b;
    } else {
      assert (a + b)[1..] == a[1..] + b;
      OccurrencesAppend(a[1..], b, x);
    }
  }

  /** Counting in `s` is counting in all of it but the last element, plus
      that element. */
  lemma OccurrencesSnoc<T>(s: seq<T>, x: T)
    requires s != []
    ensures Occurrences(s, x) == Occurrences(s[..|s| - 1], x) + (if s[|s| - 1] == x then 1 else 0)
  {
    var init, last := s[..|s| - 1], s[|s| - 1];
    assert init + [last] == s;
    OccurrencesAppend(init, [last], x);
    assert [last][1..] == [];
  }

  lemma {:induction false} OccurrencesRemoveAll<T>(s: seq<T>, x: T, y: T)
    ensures Occurrences(RemoveAll(s, x), y) == if x == y then 0 else Occurrences(s, y)
  {
    if s != [] {
      OccurrencesRemoveAll(s[1..], x, y);
    }
  }

  /** No element of `keys` appears twice. */
  predicate Distinct<T(==)>(keys: seq<T>)
  {
    forall i, j :: 0 <= i < j < |keys| ==> keys[i] != keys[j]
  }

  lemma {:induction false} OccurrencesDistinct<T>(keys: seq<T>, k: T)
    requires Distinct(keys) && k in keys
    ensures Occurrences(keys, k) == 1
  {
    if keys[0] == k {
      assert k !in keys[1..] by {
        forall j | 0 <= j < |keys[1..]| ensures keys[1..][j] != k {
          assert keys[1..][j] == keys[j + 1];
        }
      }
    } else {
      OccurrencesDistinct(keys[1..], k);
    }
  }

  /** `order` lists every element of `keys` exactly once (how the iteration
      order of a hash map is modelled). */
  predicate Enumerates<T(==,!new)>(order: seq<T>, keys: set<T>)
  {
    Distinct(order) && (forall x :: x in order ==> x in keys) && (forall x :: x in keys ==> x in order)
  }

  lemma {:induction false} EnumeratesCard<T(!new)>(order: seq<T>, keys: set<T>)
    requires Enumerates(order, keys)
    ensures |order| == |keys|
  {
    if order != [] {
      var n := |order| - 1;
      var init := order[..n];
      assert order[n] !in init by {
        forall j | 0 <= j < n ensures init[j] != order[n] {
          assert init[j] == order[j];
        }
      }
      assert Distinct(init) by {
        forall i, j | 0 <= i < j < n ensures init[i] != init[j] {
          assert init[i] == order[i] && init[j] == order[j];
        }
      }
      assert order == init + [order[n]];
      assert forall x :: x in init <==> x in keys - {order[n]};
      EnumeratesCard(init, keys - {order[n]});
    }
  }

  /** `n` copies of `x`. */
  function Repeat<T>(x: T, n: nat): (r: seq<T>)
    ensures |r| == n
    ensures forall i :: 0 <= i < n ==> r[i] == x
  {
    if n == 0 then [] else Repeat(x, n - 1) + [x]
  }

  lemma RepeatAppend<T>(x: T, m: nat, n: nat)
    ensures Repeat(x, m) + Repeat(x, n) == Repeat(x, m + n)
  {
  }

  /** Concatenation regroups freely. */
  lemma Associative<T>(a: seq<T>, b: seq<T>, c: seq<T>)
    ensures (a + b) + c == a + (b + c)
  {
  }

  /** Appending all of `s` is appending all but its last element, then that
      element. */
  lemma AppendSnoc<T>(a: seq<T>, s: seq<T>)
    requires s != []
    ensures (a + s[..|s| - 1]) + [s[|s| - 1]] == a + s
  {
    assert s[..|s| - 1] + [s[|s| - 1]] == s;
  }

  /** `before` followed by `k` copies of `x`, extended by one more copy or
      by nothing, is `before` followed by that many copies. */
  lemma RepeatSnoc<T>(before: seq<T>, mid: seq<T>, x: T, k: nat, more: bool)
    requires mid == before + Repeat(x, k)
    ensures mid + (if more then [x] else []) == before + Repeat(x, k + (if more then 1 else 0))
  {
    if more {
      assert Repeat(x, k + 1) == Repeat(x, k) + [x];
    } else {
      assert mid + [] == mid;
    }
  }

  /** `s` without the elements equal to `x`, the others kept in order
      (Rust's `retain(|t| t != x)` and `filter(|t| t != x)`). */
  function RemoveAll<T(==)>(s: seq<T>, x: T): (r: seq<T>)
    ensures x !in r
    ensures |r| == |s| - Occurrences(s, x)
    ensures forall i :: 0 <= i < |r| ==> r[i] in s
  {
    if s == [] then []
    else if s[0] == x then assert s == [s[0]] + s[1..]; RemoveAll(s[1..], x)
    else assert s == [s[0]] + s[1..]; [s[0]] + RemoveAll(s[1..], x)
  }

  lemma {:induction false} RemoveAllAppend<T>(a: seq<T>, b: seq<T>, x: T)
    ensures RemoveAll(a + b, x) == RemoveAll(a, x) + RemoveAll(b, x)
  {
    if a == [] {
      assert a + b == b;
    } else {
      var ab := a + b;
      assert ab[0] == a[0];
      assert a[1..] + b == ab[1..];
      RemoveAllAppend(a[1..], b, x);
    }
  }

  /** Removing `x` keeps every other element with its multiplicity. */
  lemma {:induction false} RemoveAllMultiset<T>(s: seq<T>, x: T)
    ensures multiset(RemoveAll(s, x)) == multiset(s)[x := 0]
  {
    if s != [] {
      RemoveAllMultiset(s[1..], x);
      assert s == [s[0]] + s[1..];
    }
  }

  /** The elements of `s` that are not in `xs`, in order and with their
      multiplicity. */
  function Without<T(==,!new)>(s: seq<T>, xs: seq<T>): (r: seq<T>)
    ensures forall y :: y in r <==> y in s && y !in xs
  {
    if s == [] then []
    else
      assert forall y :: y in s <==> y == s[0] || y in s[1..];
      (if s[0] in xs then [] else [s[0]]) + Without(s[1..], xs)
  }

  /** Removing nothing keeps the sequence. */
  lemma {:induction false} WithoutNone<T(!new)>(s: seq<T>)
    ensures Without(s, []) == s
  {
    if s != [] {
      WithoutNone(s[1..]);
      assert s == [s[0]] + s[1..];
    }
  }

  /** Removing one more element is one `RemoveAll` after the others. */
  lemma {:induction false} WithoutSnoc<T(!new)>(s: seq<T>, xs: seq<T>, x: T)
    ensures Without(s, xs + [x]) == RemoveAll(Without(s, xs), x)
  {
    if s != [] {
      WithoutSnoc(s[1..], xs, x);
      var head := if s[0] in xs then [] else [s[0]];
      RemoveAllAppend(head, Without(s[1..], xs), x);
      if head != [] {
        assert head[1..] == [];
      }
    }
  }

  lemma {:induction false} RemoveAllAbsent<T>(s: seq<T>, x: T)
    requires x !in s
    ensures RemoveAll(s, x) == s
  {
    if s != [] {
      RemoveAllAbsent(s[1..], x);
    }
  }

  /** `parts` with `sep` between consecutive parts (`[String]::join`). */
  function Join(parts: seq<string>, sep: string): string
  {
    if parts == [] then []
    else if |parts| == 1 then parts[0]
    else parts[0] + sep + Join(parts[1..], sep)
  }

  /** `s` cut at every `c` (`str::split` with a one-character pattern); the
      empty string is one empty piece. */
  function Split(s: string, c: char): (r: seq<string>)
    ensures |r| == Occurrences(s, c) + 1
    ensures forall i :: 0 <= i < |r| ==> c !in r[i]
  {
    if s == [] then [[]]
    else
      var rest := Split(s[1..], c);
      if s[0] == c then [[]] + rest else [[s[0]] + rest[0]] + rest[1..]
  }

  lemma {:induction false} SplitWithoutSeparator(s: string, c: char)
    requires c !in s
    ensures Split(s, c) == [s]
  {
    if s != [] {
      SplitWithoutSeparator(s[1..], c);
      assert [s[0]] + s[1..] == s;
    }
  }

  /** Splitting distributes over a separator: the pieces of `a + [c] + b` are
      the pieces of `a` followed by the pieces of `b`. */
  lemma {:induction false} SplitAround(a: string, b: string, c: char)
    ensures Split(a + [c] + b, c) == Split(a, c) + Split(b, c)
  {
    if a == [] {
      assert a + [c] + b == [c] + b;
      assert ([c] + b)[1..] == b;
    } else {
      assert (a + [c] + b)[1..] == a[1..] + [c] + b;
      assert (a + [c] + b)[0] == a[0];
      SplitAround(a[1..], b, c);
    }
  }

  /** A separator at each end adds an empty piece at each end. */
  lemma SplitFramed(b: string, c: char)
    ensures Split([c] + b + [c], c) == [[]] + Split(b, c) + [[]]
  {
    SplitAround(b, [], c);
    assert b + [c] + [] == b + [c];
    SplitAround([], b + [c], c);
    assert [] + [c] + (b + [c]) == [c] + b + [c];
  }

  lemma {:induction false} JoinPrepend(x: string, parts: seq<string>, sep: string)
    requires parts != []
    ensures Join([x + parts[0]] + parts[1..], sep) == x + Join(parts, sep)
  {
    var q := [x + parts[0]] + parts[1..];
    assert q[1..] == parts[1..];
  }

  /** Joining the pieces of a split with the same character gives the string back. */
  lemma {:induction false} JoinSplit(s: string, c: char)
    ensures Join(Split(s, c), [c]) == s
  {
    if s != [] {
      var rest := Split(s[1..], c);
      JoinSplit(s[1..], c);
      if s[0] == c {
        assert ([[]] + rest)[1..] == rest;
        assert [s[0]] + s[1..] == s;
      } else {
        JoinPrepend([s[0]], rest, [c]);
        assert [s[0]] + s[1..] == s;
      }
    }
  }

  /** Splitting a join of non-empty-list pieces that do not contain the
      separator gives the pieces back. */
  lemma {:induction false} SplitJoin(parts: seq<string>, c: char)
    requires parts != []
    requires forall i :: 0 <= i < |parts| ==> c !in parts[i]
    ensures Split(Join(parts, [c]), c) == parts
  {
    SplitWithoutSeparator(parts[0], c);
    if |parts| > 1 {
      SplitJoin(parts[1..], c);
      SplitAround(parts[0], Join(parts[1..], [c]), c);
      assert [parts[0]] + parts[1..] == parts;
    }
  }

  /** A join of `n` pieces that do not contain `c`, with `c` as separator,
      holds exactly `n - 1` copies of `c`. */
  lemma {:induction false} JoinSeparators(parts: seq<string>, c: char)
    requires parts != []
    requires forall i :: 0 <= i < |parts| ==> c !in parts[i]
    ensures Occurrences(Join(parts, [c]), c) == |parts| - 1
  {
    SplitJoin(parts, c);
  }

  /** `str::replace`: every non-overlapping occurrence of `pat`, scanning from
      the left, replaced by `rep`; an empty `pat` matches at every character
      boundary, both ends included. */
  function ReplaceAll(s: string, pat: string, rep: string): string
    decreases |s|
  {
    if pat == [] then
      (if s == [] then rep else rep + [s[0]] + ReplaceAll(s[1..], pat, rep))
    else if |pat| <= |s| && s[..|pat|] == pat then
      rep + ReplaceAll(s[|pat|..], pat, rep)
    else if s == [] then []
    else [s[0]] + ReplaceAll(s[1..], pat, rep)
  }

  /** `char::is_whitespace`: the Unicode White_Space property. */
  predicate IsWhitespace(c: char)
  {
    ('\t' <= c <= '\r') || c == ' ' || c == '\U{85}' || c == '\U{A0}' || c == '\U{1680}'
    || ('\U{2000}' <= c <= '\U{200A}') || c == '\U{2028}' || c == '\U{2029}'
    || c == '\U{202F}' || c == '\U{205F}' || c == '\U{3000}'
  }

  function TrimStart(s: string): (r: string)
    ensures r != [] ==> !IsWhitespace(r[0])
  {
    if s != [] && IsWhitespace(s[0]) then TrimStart(s[1..]) else s
  }

  function TrimEnd(s: string): string
  {
    if s != [] && IsWhitespace(s[|s| - 1]) then TrimEnd(s[..|s| - 1]) else s
  }

  /** `str::trim`. */
  function Trim(s: string): string
  {
    TrimEnd(TrimStart(s))
  }

  lemma {:induction false} TrimStartEmpty(s: string)
    ensures TrimStart(s) == [] <==> forall i :: 0 <= i < |s| ==> IsWhitespace(s[i])
  {
    if s != [] && IsWhitespace(s[0]) {
      TrimStartEmpty(s[1..]);
      assert forall i :: 1 <= i < |s| ==> s[i] == s[1..][i - 1];
    }
  }

  lemma {:induction false} TrimEndEmptyOnlyIfEmpty(s: string)
    ensures TrimEnd(s) == [] <==> forall i :: 0 <= i < |s| ==> IsWhitespace(s[i])
  {
    if s != [] && IsWhitespace(s[|s| - 1]) {
      TrimEndEmptyOnlyIfEmpty(s[..|s| - 1]);
      assert forall i :: 0 <= i < |s| - 1 ==> s[i] == s[..|s| - 1][i];
    }
  }

  /** `s.trim().is_empty()` holds exactly when every character of `s` is white space. */
  lemma TrimEmpty(s: string)
    ensures Trim(s) == [] <==> forall i :: 0 <= i < |s| ==> IsWhitespace(s[i])
  {
    TrimStartEmpty(s);
    TrimEndEmptyOnlyIfEmpty(TrimStart(s));
  }

  /** Decimal digits of `n`, as `format!("{}", n)` writes them. */
  function NatToString(n: nat): (r: string)
    ensures r != []
    ensures forall i :: 0 <= i < |r| ==> '0' <= r[i] <= '9'
  {
    if n < 10 then [DigitChar(n)] else NatToString(n / 10) + [DigitChar(n % 10)]
  }

  function DigitChar(d: nat): (c: char)
    requires d < 10
    ensures '0' <= c <= '9'
  {
    "0123456789"[d]
  }

  /** The number a string of decimal digits denotes. */
  function ParseDecimal(s: string): nat
    requires forall i :: 0 <= i < |s| ==> '0' <= s[i] <= '9'
  {
    if s == [] then 0 else ParseDecimal(s[..|s| - 1]) * 10 + (s[|s| - 1] as int - '0' as int)
  }

  /** Decimal formatting loses nothing: reading the digits back gives `n`. */
  lemma {:induction false} ParseNatToString(n: nat)
    ensures ParseDecimal(NatToString(n)) == n
  {
    if n >= 10 {
      ParseNatToString(n / 10);
      var s := NatToString(n / 10) + [DigitChar(n % 10)];
      assert s[..|s| - 1] == NatToString(n / 10);
    }
  }
}
