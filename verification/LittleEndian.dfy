/** Numbers as bytes, the lowest first. */
module LittleEndian {
  import opened Wrappers
  import opened Bits

  function Pow256(n: nat): (r: nat)
    ensures r > 0
  {
    if n == 0 then 1 else 256 * Pow256(n - 1)
  }

  function LE(n: nat, v: nat): (r: seq<Byte>)
    ensures |r| == n
  {
    if n == 0 then [] else [v % 256] + LE(n - 1, v / 256)
  }

  function UnLE(s: seq<Byte>): nat {
    if s == [] then 0 else s[0] + 256 * UnLE(s[1..])
  }

  lemma {:induction false} UnLEOfLE(n: nat, v: nat)
    requires v < Pow256(n)
    ensures UnLE(LE(n, v)) == v
    decreases n
  {
    if n > 0 {
      UnLEOfLE(n - 1, v / 256);
      assert LE(n, v)[1..] == LE(n - 1, v / 256);
    }
  }

  lemma {:induction false} UnLEBound(s: seq<Byte>)
    ensures UnLE(s) < Pow256(|s|)
  {
    if s != [] {
      UnLEBound(s[1..]);
    }
  }

  lemma Pow256Words()
    ensures Pow256(2) == 0x1_0000 && Pow256(4) == 0x1_0000_0000 && Pow256(8) == 0x1_0000_0000_0000_0000
  {
    assert Pow256(4) == 256 * (256 * (256 * (256 * Pow256(0))));
    assert Pow256(8) == 256 * (256 * (256 * (256 * Pow256(4))));
  }

  /** Writes the `n` low bytes of `v`, lowest first. */
  method WriteLE(out: array<Byte>, off: nat, n: nat, v: nat)
    requires off + n <= out.Length
    modifies out
    ensures out[..] == old(out[..off]) + LE(n, v) + old(out[off + n..])
  {
    var rest := v;
    ghost var done: seq<Byte> := [];
    for i := 0 to n
      invariant out[..] == old(out[..off]) + done + old(out[off + i..])
      invariant LE(n, v) == done + LE(n - i, rest) && |done| == i
    {
      out[off + i] := rest % 256;
      done := done + [rest % 256];
      rest := rest / 256;
    }
    assert LE(n, v) == done;
  }

  /** Reads `n` bytes, unless the input ends before them. */
  method ReadLE(input: seq<Byte>, off: nat, n: nat) returns (r: Option<nat>)
    ensures r == if off + n <= |input| then Some(UnLE(input[off..off + n])) else None
  {
    if off + n > |input| {
      return None;
    }
    var v: nat, scale: nat := 0, 1;
    for i := 0 to n
      invariant scale == Pow256(i) && v == UnLE(input[off..off + i])
    {
      UnLEAppend(input[off..off + i], input[off + i]);
      assert input[off..off + i + 1] == input[off..off + i] + [input[off + i]];
      v := v + input[off + i] * scale;
      scale := 256 * scale;
    }
    r := Some(v);
  }

  lemma {:induction false} UnLEAppend(s: seq<Byte>, b: Byte)
    ensures UnLE(s + [b]) == UnLE(s) + b * Pow256(|s|)
    decreases |s|
  {
    if s == [] {
      assert [b][1..] == [];
    } else {
      UnLEAppend(s[1..], b);
      assert (s + [b])[1..] == s[1..] + [b];
      calc {
        UnLE(s + [b]);
        s[0] + 256 * (UnLE(s[1..]) + b * Pow256(|s| - 1));
        UnLE(s) + 256 * (b * Pow256(|s| - 1));
        UnLE(s) + b * Pow256(|s|);
      }
    }
  }
}
