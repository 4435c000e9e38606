/** Machine words as sequences of bytes, most significant first. Every shift and mask of
    the unaligned accesses moves or keeps whole bytes, so it acts on these lanes. */
module Lanes {
  type Lane = seq<bv8>
  type Word = s: Lane | |s| == 4 witness [0, 0, 0, 0]
  type Long = s: Lane | |s| == 8 witness [0, 0, 0, 0, 0, 0, 0, 0]

  function Fill(n: nat, b: bv8): (r: Lane)
    ensures |r| == n && forall i :: 0 <= i < n ==> r[i] == b
  {
    seq(n, i requires 0 <= i < n => b)
  }

  /** Shifts left and right by `n` bytes. */
  function Lsl(x: Lane, n: nat): (r: Lane)
    requires n <= |x|
    ensures |r| == |x| && forall i :: 0 <= i < |x| ==> r[i] == if i + n < |x| then x[i + n] else 0
  {
    x[n..] + Fill(n, 0)
  }

  function Lsr(x: Lane, n: nat): (r: Lane)
    requires n <= |x|
    ensures |r| == |x| && forall i :: 0 <= i < |x| ==> r[i] == if i < n then 0 else x[i - n]
  {
    Fill(n, 0) + x[..|x| - n]
  }

  function And(x: Lane, y: Lane): (r: Lane)
    requires |x| == |y|
    ensures |r| == |x| && forall i :: 0 <= i < |x| ==> r[i] == x[i] & y[i]
  {
    seq(|x|, i requires 0 <= i < |x| => x[i] & y[i])
  }

  function Or(x: Lane, y: Lane): (r: Lane)
    requires |x| == |y|
    ensures |r| == |x| && forall i :: 0 <= i < |x| ==> r[i] == x[i] | y[i]
  {
    seq(|x|, i requires 0 <= i < |x| => x[i] | y[i])
  }

  function Not(x: Lane): (r: Lane)
    ensures |r| == |x| && forall i :: 0 <= i < |x| ==> r[i] == !x[i]
  {
    seq(|x|, i requires 0 <= i < |x| => !x[i])
  }

  function Ones(n: nat): Lane {
    Fill(n, 0xFF)
  }

  function Low(x: Long): Word {
    x[4..]
  }

  function ZeroExtend(x: Word): Long {
    Fill(4, 0) + x
  }

  function SignExtend(x: Word): Long {
    Fill(4, if x[0] >= 0x80 then 0xFF else 0) + x
  }

  predicate IsSignExtended(x: Long) {
    x == SignExtend(Low(x))
  }

  lemma KeepsByte(x: bv8)
    ensures x & 0xFF == x && x & 0 == 0 && x | 0 == x && 0 | x == x && !(0xFF as bv8) == 0 && !(0 as bv8) == 0xFF
  {
  }

  /** Clearing the bytes that a shifted value will fill, and filling them. */
  lemma MergeLeft(prior: Lane, value: Lane, n: nat)
    requires |prior| == |value| && n <= |value|
    ensures Or(And(prior, Not(Lsl(Ones(|value|), n))), Lsl(value, n)) == value[n..] + prior[|value| - n..]
  {
    var r := Or(And(prior, Not(Lsl(Ones(|value|), n))), Lsl(value, n));
    var s := value[n..] + prior[|value| - n..];
    assert |r| == |s|;
    forall i | 0 <= i < |r|
      ensures r[i] == s[i]
    {
      KeepsByte(prior[i]);
      if i + n < |value| {
        KeepsByte(value[i + n]);
      }
    }
  }

  lemma MergeRight(prior: Lane, value: Lane, n: nat)
    requires |prior| == |value| && n <= |value|
    ensures Or(And(prior, Not(Lsr(Ones(|value|), n))), Lsr(value, n)) == prior[..n] + value[..|value| - n]
  {
    var r := Or(And(prior, Not(Lsr(Ones(|value|), n))), Lsr(value, n));
    var s := prior[..n] + value[..|value| - n];
    assert |r| == |s|;
    forall i | 0 <= i < |r|
      ensures r[i] == s[i]
    {
      KeepsByte(prior[i]);
      if i >= n {
        KeepsByte(value[i - n]);
      }
    }
  }
}
