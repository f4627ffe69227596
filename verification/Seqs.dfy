/** Bytes, optional values and a few facts about sequences, shared by all components. */
module Seqs {

  type Byte = b: int | 0 <= b < 256
  type Bytes = seq<Byte>

  datatype Option<T> = None | Some(value: T)

  /** The sequence without its element at k. */
  function Remove<T>(s: seq<T>, k: nat): (r: seq<T>)
    requires k < |s|
    ensures |r| == |s| - 1
    ensures forall j {:trigger r[j]} :: 0 <= j < |r| ==> r[j] == s[if j < k then j else j + 1]
  {
    s[..k] + s[k + 1..]
  }

  lemma Associate<T>(a: seq<T>, b: seq<T>, c: seq<T>)
    ensures a + (b + c) == a + b + c
  {
  }

  /** The sum of f over a sequence. */
  ghost function Total<T>(f: T -> nat, s: seq<T>): nat {
    if |s| == 0 then 0 else Total(f, s[..|s| - 1]) + f(s[|s| - 1])
  }

  lemma TotalAppend<T>(f: T -> nat, s: seq<T>, x: T)
    ensures Total(f, s + [x]) == Total(f, s) + f(x)
  {
    assert (s + [x])[..|s|] == s;
  }

  lemma {:induction false} TotalRemove<T>(f: T -> nat, s: seq<T>, k: nat)
    requires k < |s|
    ensures Total(f, Remove(s, k)) == Total(f, s) - f(s[k])
  {
    var last := |s| - 1;
    if k == last {
      assert Remove(s, k) == s[..last];
    } else {
      TotalRemove(f, s[..last], k);
      assert Remove(s, k) == Remove(s[..last], k) + [s[last]];
      TotalAppend(f, Remove(s[..last], k), s[last]);
    }
  }

  /** The sum does not depend on the order. */
  lemma {:induction false} TotalPermutation<T>(f: T -> nat, s: seq<T>, t: seq<T>)
    requires multiset(s) == multiset(t)
    ensures Total(f, s) == Total(f, t)
    decreases |s|
  {
    assert |s| == |multiset(s)| == |multiset(t)| == |t|;
    if s != [] {
      var x := s[|s| - 1];
      assert x in multiset(t);
      var k :| 0 <= k < |t| && t[k] == x;
      assert s == s[..|s| - 1] + [x];
      assert t == t[..k] + [x] + t[k + 1..];
      assert multiset(Remove(t, k)) == multiset(t) - multiset{x};
      TotalRemove(f, t, k);
      TotalPermutation(f, s[..|s| - 1], Remove(t, k));
    }
  }

  /** The number of true entries. */
  ghost function Count(b: seq<bool>): (n: nat)
    ensures n <= |b|
  {
    if |b| == 0 then 0 else Count(b[..|b| - 1]) + (if b[|b| - 1] then 1 else 0)
  }

  lemma {:induction false} CountUpdate(b: seq<bool>, i: nat, v: bool)
    requires i < |b|
    ensures Count(b[i := v]) == Count(b) + (if v then 1 else 0) - (if b[i] then 1 else 0)
  {
    var last := |b| - 1;
    if i == last {
      assert b[i := v][..last] == b[..last];
    } else {
      assert b[i := v][..last] == b[..last][i := v];
      CountUpdate(b[..last], i, v);
    }
  }

  lemma {:induction false} CountAllOrSome(b: seq<bool>)
    ensures Count(b) == |b| <==> forall i :: 0 <= i < |b| ==> b[i]
    ensures Count(b) == 0 <==> forall i :: 0 <= i < |b| ==> !b[i]
  {
    if |b| > 0 {
      var last := |b| - 1;
      CountAllOrSome(b[..last]);
      assert forall i :: 0 <= i < last ==> b[..last][i] == b[i];
    }
  }
}
