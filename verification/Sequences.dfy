/** One text inside another: the lines of the first occur in the second, in order. */
module Sequences {
  predicate Subsequence(a: seq<string>, b: seq<string>) {
    if a == [] then true
    else if b == [] then false
    else if a[0] == b[0] then Subsequence(a[1..], b[1..])
    else Subsequence(a, b[1..])
  }

  lemma {:induction false} SubsequenceSkip(a: seq<string>, x: string, b: seq<string>)
    requires Subsequence(a, b)
    ensures Subsequence(a, [x] + b)
    decreases |b|, 1
  {
    assert ([x] + b)[1..] == b;
    if a != [] && a[0] == x {
      SubsequenceTail(a, b);
    }
  }

  lemma {:induction false} SubsequenceTail(a: seq<string>, b: seq<string>)
    requires a != [] && Subsequence(a, b)
    ensures Subsequence(a[1..], b)
    decreases |b|, 0
  {
    if a[0] == b[0] {
      SubsequenceSkip(a[1..], b[0], b[1..]);
      assert [b[0]] + b[1..] == b;
    } else {
      SubsequenceTail(a, b[1..]);
      SubsequenceSkip(a[1..], b[0], b[1..]);
      assert [b[0]] + b[1..] == b;
    }
  }

  lemma {:induction false} SubsequencePrefix(p: seq<string>, a: seq<string>, b: seq<string>)
    requires Subsequence(a, b)
    ensures Subsequence(p + a, p + b)
  {
    if p == [] {
      assert p + a == a && p + b == b;
    } else {
      SubsequencePrefix(p[1..], a, b);
      assert (p + a)[1..] == p[1..] + a && (p + b)[1..] == p[1..] + b;
    }
  }

  lemma {:induction false} SkipAll(a: seq<string>, p: seq<string>, b: seq<string>)
    requires Subsequence(a, b)
    ensures Subsequence(a, p + b)
  {
    if p == [] {
      assert p + b == b;
    } else {
      SkipAll(a, p[1..], b);
      SubsequenceSkip(a, p[0], p[1..] + b);
      assert [p[0]] + (p[1..] + b) == p + b;
    }
  }

  lemma {:induction false} SubsequenceBoth(a: seq<string>, b: seq<string>, c: seq<string>, d: seq<string>)
    requires Subsequence(a, b) && Subsequence(c, d)
    ensures Subsequence(a + c, b + d)
    decreases |b|
  {
    if a == [] {
      assert a + c == c;
      SkipAll(c, b, d);
    } else if a[0] == b[0] {
      SubsequenceBoth(a[1..], b[1..], c, d);
      assert (a + c)[1..] == a[1..] + c && (b + d)[1..] == b[1..] + d;
    } else {
      SubsequenceBoth(a, b[1..], c, d);
      assert (b + d)[1..] == b[1..] + d;
    }
  }

  lemma {:induction false} SubsequenceTransitive(a: seq<string>, b: seq<string>, c: seq<string>)
    requires Subsequence(a, b) && Subsequence(b, c)
    ensures Subsequence(a, c)
    decreases |c|
  {
    if a == [] {
    } else if b[0] == c[0] {
      SubsequenceTransitive(if a[0] == b[0] then a[1..] else a, b[1..], c[1..]);
    } else {
      SubsequenceTransitive(a, b, c[1..]);
      SubsequenceSkip(a, c[0], c[1..]);
      assert [c[0]] + c[1..] == c;
    }
  }
}
