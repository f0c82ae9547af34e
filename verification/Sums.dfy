/** Adding up a sequence. */
module Sums {
  function SumOf<T>(s: seq<T>, worth: T -> nat): nat {
    if s == [] then 0 else SumOf(s[..|s| - 1], worth) + worth(s[|s| - 1])
  }

  lemma {:induction false} SumOfConcat<T>(a: seq<T>, b: seq<T>, worth: T -> nat)
    ensures SumOf(a + b, worth) == SumOf(a, worth) + SumOf(b, worth)
  {
    if b == [] {
      assert a + b == a;
    } else {
      assert (a + b)[..|a + b| - 1] == a + b[..|b| - 1];
      SumOfConcat(a, b[..|b| - 1], worth);
    }
  }

  lemma SumOfOne<T>(x: T, worth: T -> nat)
    ensures SumOf([], worth) == 0 && SumOf([x], worth) == worth(x)
  {
    assert [x][..0] == [];
  }

  lemma SumOfWithout<T>(s: seq<T>, i: nat, worth: T -> nat)
    requires i < |s|
    ensures SumOf(s, worth) == SumOf(s[..i] + s[i + 1..], worth) + worth(s[i])
  {
    assert s == s[..i] + ([s[i]] + s[i + 1..]);
    SumOfConcat(s[..i], [s[i]] + s[i + 1..], worth);
    SumOfConcat([s[i]], s[i + 1..], worth);
    SumOfConcat(s[..i], s[i + 1..], worth);
    SumOfOne(s[i], worth);
  }

  lemma {:induction false} SumOfAtMost<T>(s: seq<T>, worth: T -> nat, each: nat)
    requires forall x :: x in s ==> worth(x) <= each
    ensures SumOf(s, worth) <= |s| * each
  {
    if s != [] {
      SumOfAtMost(s[..|s| - 1], worth, each);
      Product(|s|, each);
    }
  }

  lemma Product(k: int, w: int)
    ensures k * w == (k - 1) * w + w
  {
  }
}
