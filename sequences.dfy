/** Concatenating a list of integer sequences, and how such a
    concatenation splits around one of its parts. */
module Sequences {

  /** The segments `segs`, one after the other. */
  function Concat(segs: seq<seq<int>>): seq<int>
  {
    if segs == [] then [] else segs[0] + Concat(segs[1..])
  }

  /** A concatenation splits around any one of its segments. */
  lemma {:induction false} ConcatSplit(segs: seq<seq<int>>, k: nat)
    requires k < |segs|
    ensures Concat(segs) == Concat(segs[..k]) + segs[k] + Concat(segs[k + 1..])
  {
    if k == 0 {
      assert segs[..0] == [];
    } else {
      var tail := segs[1..];
      ConcatSplit(tail, k - 1);
      assert tail[k - 1] == segs[k];
      assert tail[k..] == segs[k + 1..];
      var front := segs[..k];
      assert front[0] == segs[0];
      assert front[1..] == tail[..k - 1];
      assert Concat(front) == segs[0] + Concat(tail[..k - 1]);
      var x, y, z := Concat(tail[..k - 1]), segs[k], Concat(segs[k + 1..]);
      assert segs[0] + (x + y + z) == (segs[0] + x) + y + z;
    }
  }

  /** Each segment adds its own length to the length of the prefix before it. */
  lemma ConcatPrefixStep(segs: seq<seq<int>>, k: nat)
    requires k < |segs|
    ensures |Concat(segs[..k + 1])| == |Concat(segs[..k])| + |segs[k]|
  {
    var front := segs[..k + 1];
    ConcatSplit(front, k);
    assert front[..k] == segs[..k];
    assert front[k + 1..] == [];
  }

  /** Two concatenations whose parts agree except for one, of equal length,
      agree everywhere outside that part. */
  lemma ConcatFrame(s: seq<seq<int>>, t: seq<seq<int>>, k: nat)
    requires |s| == |t| && k < |s| && |s[k]| == |t[k]|
    requires forall j :: 0 <= j < |s| && j != k ==> s[j] == t[j]
    ensures |Concat(s)| == |Concat(t)|
    ensures forall i :: 0 <= i < |Concat(s)| && !(|Concat(s[..k])| <= i < |Concat(s[..k])| + |s[k]|) ==>
      Concat(s)[i] == Concat(t)[i]
  {
    ConcatSplit(s, k);
    ConcatSplit(t, k);
    assert s[..k] == t[..k];
    assert s[k + 1..] == t[k + 1..];
    MiddleFrame(Concat(s[..k]), s[k], t[k], Concat(s[k + 1..]));
  }

  /** Two rows that differ in one middle part agree everywhere outside it. */
  lemma MiddleFrame(a: seq<int>, x: seq<int>, y: seq<int>, b: seq<int>)
    requires |x| == |y|
    ensures forall i :: 0 <= i < |a + x + b| && !(|a| <= i < |a| + |x|) ==> (a + x + b)[i] == (a + y + b)[i]
  {
  }

  lemma Concat8(a: seq<int>, b: seq<int>, c: seq<int>, d: seq<int>,
                e: seq<int>, f: seq<int>, g: seq<int>, h: seq<int>)
    ensures Concat([a, b, c, d, e, f, g, h]) == a + b + c + d + e + f + g + h
  {
    var s := [a, b, c, d, e, f, g, h];
    assert Concat(s[8..]) == [];
    assert Concat(s[7..]) == h + Concat(s[8..]);
    assert Concat(s[6..]) == g + Concat(s[7..]);
    assert Concat(s[5..]) == f + Concat(s[6..]);
    assert Concat(s[4..]) == e + Concat(s[5..]);
    assert Concat(s[3..]) == d + Concat(s[4..]);
    assert Concat(s[2..]) == c + Concat(s[3..]);
    assert Concat(s[1..]) == b + Concat(s[2..]);
  }
}
