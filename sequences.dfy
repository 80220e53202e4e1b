/** Concatenation of a sequence of sequences, and mapping a function over
    a sequence: the shapes in which replies are built from their parts. */
module Sequences {

  /** The parts one after another. */
  function Concat<T>(parts: seq<seq<T>>): seq<T>
    decreases |parts|
  {
    if parts == [] then [] else Concat(parts[..|parts| - 1]) + parts[|parts| - 1]
  }

  /** Appending to a sum of two parts appends to the second part. */
  lemma AppendToSecond<T>(whole: seq<T>, first: seq<T>, second: seq<T>, more: seq<T>)
    requires whole == first + second
    ensures whole + more == first + (second + more)
  {
  }

  lemma AppendThree<T>(a: seq<T>, b: seq<T>, c: seq<T>)
    ensures a + b + c == a + (b + c)
  {
  }

  /** Appending four parts one at a time appends their sum. */
  lemma AppendFour<T>(x: seq<T>, a: seq<T>, b: seq<T>, c: seq<T>, d: seq<T>)
    ensures x + a + b + c + d == x + (a + b + c + d)
  {
  }

  /** A sum of two parts splits back into them. */
  lemma SplitAt<T>(whole: seq<T>, first: seq<T>, second: seq<T>)
    requires whole == first + second
    ensures whole[..|first|] == first && whole[|first|..] == second
  {
  }

  /** f applied to each element, in order. */
  function Map<A, B>(f: A -> B, xs: seq<A>): (r: seq<B>)
    ensures |r| == |xs| && forall i | 0 <= i < |xs| :: r[i] == f(xs[i])
  {
    seq(|xs|, i requires 0 <= i < |xs| => f(xs[i]))
  }

  lemma MapAppend<A, B>(f: A -> B, a: seq<A>, b: seq<A>)
    ensures Map(f, a + b) == Map(f, a) + Map(f, b)
  {
  }

  lemma {:induction false} ConcatAppend<T>(a: seq<seq<T>>, b: seq<seq<T>>)
    ensures Concat(a + b) == Concat(a) + Concat(b)
    decreases |b|
  {
    if b == [] {
      assert a + b == a;
    } else {
      var init := b[..|b| - 1];
      ConcatAppend(a, init);
      assert (a + b)[..|a + b| - 1] == a + init;
      assert (a + b)[|a + b| - 1] == b[|b| - 1];
    }
  }

  /** The first part comes first. */
  lemma {:induction false} ConcatFront<T>(parts: seq<seq<T>>)
    requires parts != []
    ensures Concat(parts) == parts[0] + Concat(parts[1..])
  {
    ConcatAppend([parts[0]], parts[1..]);
    assert [parts[0]] + parts[1..] == parts;
    assert Concat([parts[0]]) == parts[0] by {
      assert [parts[0]][..0] == [];
    }
  }

  lemma ConcatFour<T>(a: seq<T>, b: seq<T>, c: seq<T>, d: seq<T>)
    ensures Concat([a, b, c, d]) == a + b + c + d
  {
    assert Concat([a]) == a by {
      assert [a][..0] == [];
    }
    assert Concat([a, b]) == a + b by {
      assert [a, b][..1] == [a];
    }
    assert Concat([a, b, c]) == a + b + c by {
      assert [a, b, c][..2] == [a, b];
    }
    assert [a, b, c, d][..3] == [a, b, c];
  }

  lemma ConcatOne<T>(part: seq<T>)
    ensures Concat([part]) == part
  {
    assert [part][..0] == [];
  }

  /** Parts of length k make k bytes each. */
  lemma {:induction false} ConcatLength<T>(parts: seq<seq<T>>, k: nat)
    requires forall j | 0 <= j < |parts| :: |parts[j]| == k
    ensures |Concat(parts)| == k * |parts|
    decreases |parts|
  {
    if parts != [] {
      var n := |parts| - 1;
      ConcatLength(parts[..n], k);
      assert k * n + k == k * |parts|;
    }
  }

  /** When every part has length k, part i sits at [k * i, k * i + k). */
  lemma ConcatGroups<T>(parts: seq<seq<T>>, k: nat, i: nat)
    requires forall j | 0 <= j < |parts| :: |parts[j]| == k
    requires i < |parts|
    ensures |Concat(parts)| == k * |parts|
    ensures Concat(parts)[k * i..k * i + k] == parts[i]
  {
    var before, after := parts[..i], parts[i + 1..];
    assert parts == before + [parts[i]] + after;
    ConcatAppend(before + [parts[i]], after);
    ConcatAppend(before, [parts[i]]);
    ConcatOne(parts[i]);
    ConcatLength(before, k);
    ConcatLength(parts, k);
  }

  lemma TakeOneMore<T>(s: seq<T>, i: nat)
    requires i < |s|
    ensures s[..i + 1] == s[..i] + [s[i]]
  {
  }

  lemma TakeAll<T>(s: seq<T>)
    ensures s[..|s|] == s
  {
  }
}
