/** Concatenation of a sequence of sequences. */
module Seqs {

  function Flatten<T>(ss: seq<seq<T>>): seq<T> {
    if ss == [] then [] else Flatten(ss[..|ss| - 1]) + ss[|ss| - 1]
  }

  lemma {:induction false} FlattenAppend<T>(a: seq<seq<T>>, b: seq<seq<T>>)
    ensures Flatten(a + b) == Flatten(a) + Flatten(b)
    decreases |b|
  {
    hide Flatten;
    if b == [] {
      FlattenNone<T>();
      assert a + b == a;
    } else {
      var n := |b| - 1;
      FlattenAppend(a, b[..n]);
      assert a + b == (a + b[..n]) + [b[n]] && b == b[..n] + [b[n]];
      FlattenOneMore(a + b[..n], b[n]);
      FlattenOneMore(b[..n], b[n]);
      assert (Flatten(a) + Flatten(b[..n])) + b[n] == Flatten(a) + (Flatten(b[..n]) + b[n]);
    }
  }

  lemma FlattenNone<T>()
    ensures Flatten<T>([]) == []
  {
  }

  lemma FlattenOneMore<T>(ss: seq<seq<T>>, s: seq<T>)
    ensures Flatten(ss + [s]) == Flatten(ss) + s
  {
    assert (ss + [s])[..|ss|] == ss;
  }

  lemma FlattenSplit<T>(ss: seq<seq<T>>, i: nat)
    requires i <= |ss|
    ensures Flatten(ss) == Flatten(ss[..i]) + Flatten(ss[i..])
  {
    assert ss == ss[..i] + ss[i..];
    FlattenAppend(ss[..i], ss[i..]);
  }

  lemma FlattenOne<T>(s: seq<T>)
    ensures Flatten([s]) == s
  {
    assert [s][..0] == [];
    assert Flatten([s]) == Flatten([s][..0]) + s;
  }

  lemma {:induction false} FlattenHas<T>(ss: seq<seq<T>>, i: nat, x: T)
    requires i < |ss| && x in ss[i]
    ensures x in Flatten(ss)
  {
    var n := |ss| - 1;
    if i < n {
      assert ss[..n][i] == ss[i];
      FlattenHas(ss[..n], i, x);
    }
  }
}
