/** `std::cmp::Ordering` and the lexicographic order of strings (`String::cmp`),
    which the knowledge-base sort and sled's key order rely on. Comparing the
    UTF-8 bytes of two strings orders them as comparing their code points
    does, so the order is stated on characters. */
module Lex {

  datatype Ordering = Less | Equal | Greater {
    /** `Ordering::reverse`. */
    function Flip(): Ordering
    {
      match this
      case Less => Greater
      case Equal => Equal
      case Greater => Less
    }

    /** `Ordering::then_with`: this ordering unless it is `Equal`, then `next`. */
    function Then(next: Ordering): Ordering
    {
      if this == Equal then next else this
    }
  }

  function Cmp(a: string, b: string): (o: Ordering)
    ensures o == Equal <==> a == b
  {
    if a == [] && b == [] then Equal
    else if a == [] then Less
    else if b == [] then Greater
    else if a[0] < b[0] then Less
    else if a[0] > b[0] then Greater
    else
      assert a == [a[0]] + a[1..] && b == [b[0]] + b[1..];
      Cmp(a[1..], b[1..])
  }

  /** Swapping the operands reverses the ordering. */
  lemma {:induction false} CmpFlip(a: string, b: string)
    ensures Cmp(b, a) == Cmp(a, b).Flip()
  {
    if a != [] && b != [] && a[0] == b[0] {
      CmpFlip(a[1..], b[1..]);
    }
  }

  /** "Not greater" is transitive. */
  lemma {:induction false} CmpTransitive(a: string, b: string, c: string)
    requires Cmp(a, b) != Greater && Cmp(b, c) != Greater
    ensures Cmp(a, c) != Greater
  {
    if a != [] && b != [] && c != [] && a[0] == b[0] && b[0] == c[0] {
      CmpTransitive(a[1..], b[1..], c[1..]);
    }
  }

  /** The lexicographic order of equally long lists of strings: the first
      position where they differ decides. */
  function CmpSeq(xs: seq<string>, ys: seq<string>): (o: Ordering)
    requires |xs| == |ys|
    ensures o == Equal <==> xs == ys
  {
    if xs == [] then Equal
    else
      assert xs == [xs[0]] + xs[1..] && ys == [ys[0]] + ys[1..];
      Cmp(xs[0], ys[0]).Then(CmpSeq(xs[1..], ys[1..]))
  }

  lemma {:induction false} CmpSeqFlip(xs: seq<string>, ys: seq<string>)
    requires |xs| == |ys|
    ensures CmpSeq(ys, xs) == CmpSeq(xs, ys).Flip()
  {
    if xs != [] {
      CmpFlip(xs[0], ys[0]);
      CmpSeqFlip(xs[1..], ys[1..]);
    }
  }

  lemma {:induction false} CmpSeqTransitive(xs: seq<string>, ys: seq<string>, zs: seq<string>)
    requires |xs| == |ys| == |zs|
    requires CmpSeq(xs, ys) != Greater && CmpSeq(ys, zs) != Greater
    ensures CmpSeq(xs, zs) != Greater
  {
    if xs != [] {
      CmpFlip(xs[0], ys[0]);
      CmpFlip(ys[0], zs[0]);
      CmpTransitive(xs[0], ys[0], zs[0]);
      if Cmp(xs[0], ys[0]) == Equal && Cmp(ys[0], zs[0]) == Equal {
        CmpSeqTransitive(xs[1..], ys[1..], zs[1..]);
      }
    }
  }

  /** Comparing one more position at the end matters only when all earlier
      positions tie: the order `Iterator::fold` with `then_with` computes. */
  lemma {:induction false} CmpSeqSnoc(xs: seq<string>, ys: seq<string>, x: string, y: string)
    requires |xs| == |ys|
    ensures CmpSeq(xs + [x], ys + [y]) == CmpSeq(xs, ys).Then(Cmp(x, y))
  {
    if xs != [] {
      assert (xs + [x])[1..] == xs[1..] + [x];
      assert (ys + [y])[1..] == ys[1..] + [y];
      CmpSeqSnoc(xs[1..], ys[1..], x, y);
    }
  }

  /** `s` is in strictly ascending order. */
  predicate StrictlyAscending(s: seq<string>)
  {
    forall i, j :: 0 <= i < j < |s| ==> Cmp(s[i], s[j]) == Less
  }

  /** Every non-empty finite set of strings has a least element. */
  lemma {:induction false} LeastExists(keys: set<string>)
    requires keys != {}
    ensures exists k :: k in keys && forall j :: j in keys ==> Cmp(k, j) != Greater
    decreases |keys|
  {
    var x :| x in keys;
    if keys == {x} {
      assert forall j :: j in keys ==> Cmp(x, j) != Greater;
    } else {
      LeastExists(keys - {x});
      var m :| m in keys - {x} && forall j :: j in keys - {x} ==> Cmp(m, j) != Greater;
      if Cmp(m, x) != Greater {
        forall j | j in keys ensures Cmp(m, j) != Greater {
          if j == x {
          }
        }
      } else {
        CmpFlip(m, x);
        forall j | j in keys ensures Cmp(x, j) != Greater {
          if j != x {
            CmpTransitive(x, m, j);
          }
        }
      }
    }
  }

  /** The least element of a non-empty set of strings. */
  ghost function Least(keys: set<string>): (k: string)
    requires keys != {}
    ensures k in keys
    ensures forall j :: j in keys ==> Cmp(k, j) != Greater
  {
    LeastExists(keys);
    var k :| k in keys && forall j :: j in keys ==> Cmp(k, j) != Greater;
    k
  }

  /** Putting a key below all others in front of an ascending list keeps it ascending. */
  lemma AscendingPrepend(k: string, rest: seq<string>)
    requires StrictlyAscending(rest)
    requires forall i :: 0 <= i < |rest| ==> Cmp(k, rest[i]) == Less
    ensures StrictlyAscending([k] + rest)
  {
    var s := [k] + rest;
    forall i, j | 0 <= i < j < |s| ensures Cmp(s[i], s[j]) == Less {
      if i > 0 {
        assert s[i] == rest[i - 1] && s[j] == rest[j - 1];
      } else {
        assert s[j] == rest[j - 1];
      }
    }
  }

  /** The elements of `keys` in ascending order: the order in which sled
      iterates a tree's keys. */
  ghost function SortedKeys(keys: set<string>): (r: seq<string>)
    ensures |r| == |keys|
    ensures forall k :: k in r <==> k in keys
    ensures StrictlyAscending(r)
    decreases |keys|
  {
    if keys == {} then []
    else
      var k := Least(keys);
      var rest := SortedKeys(keys - {k});
      LeastBelowRest(keys, k, rest);
      AscendingPrepend(k, rest);
      [k] + rest
  }

  lemma LeastBelowRest(keys: set<string>, k: string, rest: seq<string>)
    requires k in keys && forall j :: j in keys ==> Cmp(k, j) != Greater
    requires forall x :: x in rest <==> x in keys - {k}
    ensures forall i :: 0 <= i < |rest| ==> Cmp(k, rest[i]) == Less
  {
    forall i | 0 <= i < |rest| ensures Cmp(k, rest[i]) == Less {
      assert rest[i] in keys - {k};
    }
  }
}
