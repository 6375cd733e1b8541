// Ends of sequences.
module Sequences {

  function Least(a: nat, b: nat): nat { if a < b then a else b }

  function LastN<T>(s: seq<T>, n: nat): seq<T> { if n < |s| then s[|s| - n..] else s }

  function FirstN<T>(s: seq<T>, n: nat): seq<T> { if n < |s| then s[..n] else s }

  // They are the two ends of the sequence, as long as asked for if it is long enough.
  lemma EndsOf<T>(s: seq<T>, n: nat)
    ensures |LastN(s, n)| == |FirstN(s, n)| == if n < |s| then n else |s|
    ensures FirstN(s, n) <= s
    ensures exists head: seq<T> :: s == head + LastN(s, n)
  {
    assert s == s[..|s| - |LastN(s, n)|] + LastN(s, n);
  }

  lemma LastNConcat<T>(a: seq<T>, b: seq<T>, n: nat)
    ensures |LastN(b, n)| == Least(n, |b|)
    ensures LastN(a + b, n) == LastN(a, n - Least(n, |b|)) + LastN(b, n)
  {
  }

  lemma FirstNConcat<T>(a: seq<T>, b: seq<T>, n: nat)
    ensures |FirstN(a, n)| == Least(n, |a|)
    ensures FirstN(a + b, n) == FirstN(a, n) + FirstN(b, n - Least(n, |a|))
  {
  }

  lemma HasMember<T>(s: seq<T>)
    requires s != []
    ensures exists x :: x in s
  {
    assert s[0] in s;
  }
}
