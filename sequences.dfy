/** Small facts about sequence concatenation that the proofs use by name. */
module Sequences {
  lemma Assoc<T>(a: seq<T>, b: seq<T>, c: seq<T>)
    ensures a + (b + c) == (a + b) + c
  {
  }

  lemma ConsSplit<T>(s: seq<T>)
    requires s != []
    ensures s == [s[0]] + s[1..]
  {
  }

  lemma TailAppend<T>(a: seq<T>, b: seq<T>)
    requires a != []
    ensures (a + b)[1..] == a[1..] + b
  {
    assert |(a + b)[1..]| == |a[1..] + b|;
    forall i | 0 <= i < |a[1..] + b| ensures (a + b)[1..][i] == (a[1..] + b)[i] {
      if i < |a| - 1 { assert (a + b)[i + 1] == a[i + 1]; } else { assert (a + b)[i + 1] == b[i - (|a| - 1)]; }
    }
  }
}
