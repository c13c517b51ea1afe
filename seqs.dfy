/** Concatenation of a sequence of sequences, as the engine's loops build their move lists. */
module Seqs {

  /** The elements of ss[0], then of ss[1], and so on (Iterables.concat / repeated addAll). */
  function Flatten<T>(ss: seq<seq<T>>): seq<T>
  {
    if ss == [] then [] else Flatten(ss[..|ss| - 1]) + ss[|ss| - 1]
  }

  /** The total length of the parts. */
  function TotalLength<T>(ss: seq<seq<T>>): nat
  {
    if ss == [] then 0 else TotalLength(ss[..|ss| - 1]) + |ss[|ss| - 1]|
  }

  /** One more part is appended at the end. */
  lemma FlattenSnoc<T>(ss: seq<seq<T>>, s: seq<T>)
    ensures Flatten(ss + [s]) == Flatten(ss) + s
  {
    assert (ss + [s])[..|ss|] == ss;
  }

  /** A prefix one element longer is the shorter prefix with that element appended. */
  lemma PrefixSnoc<T>(s: seq<T>, n: nat)
    requires 0 < n <= |s|
    ensures s[..n] == s[..n - 1] + [s[n - 1]]
  {
  }

  /** Some element after the first is some element of the sequence. */
  lemma ExistsInTail<T>(s: seq<T>, p: T -> bool)
    requires s != []
    ensures (exists i :: 0 <= i < |s[1..]| && p(s[1..][i])) ==> exists i :: 0 <= i < |s| && p(s[i])
  {
    if exists i :: 0 <= i < |s[1..]| && p(s[1..][i]) {
      var i :| 0 <= i < |s[1..]| && p(s[1..][i]);
      assert s[i + 1] == s[1..][i];
    }
  }

  /** Every element is the first one and every element after it. */
  lemma ForallSplit<T>(s: seq<T>, p: T -> bool)
    requires s != []
    ensures (forall i :: 0 <= i < |s| ==> p(s[i])) <==> p(s[0]) && forall i :: 0 <= i < |s[1..]| ==> p(s[1..][i])
  {
    assert forall i :: 0 < i < |s| ==> s[i] == s[1..][i - 1];
  }

  /** The loop form: the first i + 1 parts are the first i parts followed by part i. */
  lemma FlattenPrefix<T>(ss: seq<seq<T>>, i: nat)
    requires i < |ss|
    ensures Flatten(ss[..i + 1]) == Flatten(ss[..i]) + ss[i]
  {
    assert ss[..i + 1][..i] == ss[..i];
  }

  lemma {:induction false} FlattenLength<T>(ss: seq<seq<T>>)
    ensures |Flatten(ss)| == TotalLength(ss)
  {
    if ss != [] {
      FlattenLength(ss[..|ss| - 1]);
    }
  }

  /** An element is in the concatenation exactly when it is in one of the parts. */
  lemma {:induction false} FlattenMember<T>(ss: seq<seq<T>>, x: T)
    ensures x in Flatten(ss) <==> exists i :: 0 <= i < |ss| && x in ss[i]
  {
    if ss != [] {
      var n := |ss| - 1;
      FlattenMember(ss[..n], x);
      assert Flatten(ss) == Flatten(ss[..n]) + ss[n];
      assert forall i :: 0 <= i < n ==> ss[..n][i] == ss[i];
    }
  }

  /** When each part has at most one element, the concatenation is no longer than the number of parts. */
  lemma {:induction false} FlattenOfSingletons<T>(ss: seq<seq<T>>)
    requires forall i :: 0 <= i < |ss| ==> |ss[i]| <= 1
    ensures |Flatten(ss)| <= |ss|
  {
    if ss != [] {
      FlattenOfSingletons(ss[..|ss| - 1]);
    }
  }
}
