/**
  The word-wise copy and fill of the memory benchmark.  Memory is an array of bytes and
  an address is an index into it; a 32-bit access needs an address divisible by four.
*/
module Ramspeed {

  type byte = x: int | 0 <= x < 256
  type word = x: int | 0 <= x < 0x1_0000_0000

  // The bytes of a word in memory order, lowest first.
  function WordOf(a: byte, b: byte, c: byte, d: byte): word {
    a + 0x100 * (b + 0x100 * (c + 0x100 * d))
  }

  function ByteOf(w: word, i: nat): byte
    requires i < 4
  {
    match i
    case 0 => w % 0x100
    case 1 => w / 0x100 % 0x100
    case 2 => w / 0x100 / 0x100 % 0x100
    case 3 => w / 0x100 / 0x100 / 0x100
  }

  /** A word that is loaded and stored leaves its bytes where they were. */
  lemma WordRoundTrip(a: byte, b: byte, c: byte, d: byte)
    ensures var w := WordOf(a, b, c, d);
            ByteOf(w, 0) == a && ByteOf(w, 1) == b && ByteOf(w, 2) == c && ByteOf(w, 3) == d
  {
    LowByte(a, b + 0x100 * (c + 0x100 * d));
    LowByte(b, c + 0x100 * d);
    LowByte(c, d);
  }

  lemma LowByte(a: byte, n: nat)
    ensures (a + 0x100 * n) % 0x100 == a && (a + 0x100 * n) / 0x100 == n
  {
  }

  // Fit for a 32-bit access.
  predicate OnWord(a: nat) {
    a % 4 == 0
  }

  lemma NextWord(a: nat, n: nat)
    requires OnWord(a)
    ensures OnWord(a + 4 * n)
  {
  }

  method Load32(mem: array<byte>, at: nat) returns (w: word)
    requires OnWord(at) && at + 4 <= mem.Length
    ensures w == WordOf(mem[at], mem[at + 1], mem[at + 2], mem[at + 3])
  {
    w := WordOf(mem[at], mem[at + 1], mem[at + 2], mem[at + 3]);
  }

  method Store32(mem: array<byte>, at: nat, w: word)
    requires OnWord(at) && at + 4 <= mem.Length
    modifies mem
    ensures forall i :: 0 <= i < mem.Length ==>
              mem[i] == if at <= i < at + 4 then ByteOf(w, i - at) else old(mem[i])
  {
    mem[at] := ByteOf(w, 0);
    mem[at + 1] := ByteOf(w, 1);
    mem[at + 2] := ByteOf(w, 2);
    mem[at + 3] := ByteOf(w, 3);
  }

  // ----- Specification: byte by byte -----

  // The memory `m` after `k` bytes have been copied from `src` to `dst`.
  ghost predicate Copied(m: seq<byte>, now: seq<byte>, dst: nat, src: nat, k: nat)
    requires dst + k <= |m| && src + k <= |m|
  {
    && |now| == |m|
    && (forall i {:trigger now[i]} :: dst <= i < dst + k ==> now[i] == m[i - dst + src])
    && (forall i {:trigger now[i]} :: 0 <= i < |m| && !(dst <= i < dst + k) ==> now[i] == m[i])
  }

  ghost predicate Filled(m: seq<byte>, now: seq<byte>, dst: nat, v: byte, k: nat) {
    |now| == |m| && forall i :: 0 <= i < |m| ==> now[i] == if dst <= i < dst + k then v else m[i]
  }

  // The regions lie in memory and do not overlap.
  predicate Apart(size: nat, dst: nat, src: nat, len: nat) {
    dst + len <= size && src + len <= size && (dst + len <= src || src + len <= dst)
  }

  // `n` more bytes, one by one.
  method CopyBytes(mem: array<byte>, ghost m: seq<byte>, dst: nat, src: nat, ghost len: nat, done: nat, n: nat)
    requires Apart(mem.Length, dst, src, len) && |m| == mem.Length && done + n <= len
    requires Copied(m, mem[..], dst, src, done)
    modifies mem
    ensures Copied(m, mem[..], dst, src, done + n)
  {
    for i := 0 to n
      invariant Copied(m, mem[..], dst, src, done + i)
    {
      ghost var now := mem[..];
      assert now[src + (done + i)] == m[src + (done + i)];
      mem[dst + (done + i)] := mem[src + (done + i)];
      assert mem[..] == now[dst + (done + i) := m[src + (done + i)]];
    }
  }

  // One word.
  method CopyWord(mem: array<byte>, ghost m: seq<byte>, dst: nat, src: nat, ghost len: nat, done: nat)
    requires Apart(mem.Length, dst, src, len) && |m| == mem.Length && done + 4 <= len
    requires OnWord(dst + done) && OnWord(src + done)
    requires Copied(m, mem[..], dst, src, done)
    modifies mem
    ensures Copied(m, mem[..], dst, src, done + 4)
  {
    hide WordOf, ByteOf;
    ghost var now := mem[..];
    var d, s := dst + done, src + done;
    var w := Load32(mem, s);
    assert forall i :: s <= i < s + 4 ==> mem[i] == now[i] == m[i];
    WordRoundTrip(m[s], m[s + 1], m[s + 2], m[s + 3]);
    Store32(mem, d, w);
    forall i | 0 <= i < |m| ensures mem[i] == if dst <= i < d + 4 then m[i - dst + src] else m[i] {
      assert now[i] == if dst <= i < d then m[i - dst + src] else m[i];
      assert i - d == 0 || i - d == 1 || i - d == 2 || i - d == 3 || !(d <= i < d + 4);
    }
  }

  method CopyWords(mem: array<byte>, ghost m: seq<byte>, dst: nat, src: nat, ghost len: nat, done: nat, n: nat)
    requires Apart(mem.Length, dst, src, len) && |m| == mem.Length && done + 4 * n <= len
    requires OnWord(dst + done) && OnWord(src + done)
    requires Copied(m, mem[..], dst, src, done)
    modifies mem
    ensures Copied(m, mem[..], dst, src, done + 4 * n)
  {
    for i := 0 to n
      invariant Copied(m, mem[..], dst, src, done + 4 * i)
    {
      CopyWord(mem, m, dst, src, len, done + 4 * i);
    }
  }

  // How far the next aligned address is.
  function Gap(a: nat, alignMask: nat): nat {
    var off := a % (alignMask + 1);
    if off == 0 then 0 else alignMask + 1 - off
  }

  lemma GapShrinks(a: nat, alignMask: nat)
    requires alignMask == 3 || alignMask == 7
    ensures Gap(a, alignMask) > 0 ==> Gap(a + 1, alignMask) == Gap(a, alignMask) - 1
  {
    if alignMask == 3 {
      assert Gap(a + 1, 3) == (3 - a % 4);
    } else {
      assert Gap(a + 1, 7) == (7 - a % 8);
    }
  }

  lemma NoGap(a: nat, alignMask: nat)
    requires alignMask == 3 || alignMask == 7
    ensures Gap(a, alignMask) == 0 ==> OnWord(a)
  {
    if alignMask == 7 {
      assert a == 4 * (2 * (a / 8)) + a % 8;
    }
  }

  // The head: single bytes up to an aligned address, or all there is.
  method CopyHead(mem: array<byte>, ghost m: seq<byte>, dst: nat, src: nat, len: nat, alignMask: nat)
    returns (done: nat)
    requires alignMask == 3 || alignMask == 7
    requires dst % (alignMask + 1) == src % (alignMask + 1)
    requires Apart(mem.Length, dst, src, len) && |m| == mem.Length
    requires Copied(m, mem[..], dst, src, 0)
    modifies mem
    ensures done <= len && Copied(m, mem[..], dst, src, done)
    ensures done < len ==> OnWord(dst + done) && OnWord(src + done)
  {
    hide Copied;
    var dAlign := dst % (alignMask + 1);
    done := 0;
    if dAlign != 0 {
      dAlign := alignMask + 1 - dAlign;
    }
    assert dAlign == Gap(dst, alignMask) == Gap(src, alignMask);
    hide Gap;
    while dAlign != 0 && done != len
      invariant done <= len && Copied(m, mem[..], dst, src, done)
      invariant dAlign == Gap(dst + done, alignMask) == Gap(src + done, alignMask)
      decreases len - done
    {
      CopyBytes(mem, m, dst, src, len, done, 1);
      GapShrinks(dst + done, alignMask);
      GapShrinks(src + done, alignMask);
      dAlign, done := dAlign - 1, done + 1;
    }
    NoGap(dst + done, alignMask);
    NoGap(src + done, alignMask);
  }

  /**
    Whatever the alignments and the length, the result is that of a byte-by-byte copy;
    every word access is aligned and within the two regions.
  */
  method InternalMemcpy(mem: array<byte>, dst: nat, src: nat, len: nat, alignMask: nat)
    requires alignMask == 3 || alignMask == 7
    requires Apart(mem.Length, dst, src, len)
    modifies mem
    ensures Copied(old(mem[..]), mem[..], dst, src, len)
  {
    hide Copied;
    ghost var m := mem[..];
    CopiedNothing(m, dst, src);
    var done := 0;
    if src % (alignMask + 1) != dst % (alignMask + 1) {
      while len - done > 32
        invariant done <= len && Copied(m, mem[..], dst, src, done)
      {
        CopyBytes(mem, m, dst, src, len, done, 32);
        done := done + 32;
      }
    } else {
      done := CopyHead(mem, m, dst, src, len, alignMask);
      done := CopyBody(mem, m, dst, src, len, done);
    }
    CopyBytes(mem, m, dst, src, len, done, len - done);
  }

  // Eight words at a time, then one word at a time, until four bytes or less are left.
  method CopyBody(mem: array<byte>, ghost m: seq<byte>, dst: nat, src: nat, len: nat, from: nat)
    returns (done: nat)
    requires Apart(mem.Length, dst, src, len) && |m| == mem.Length && from <= len
    requires from < len ==> OnWord(dst + from) && OnWord(src + from)
    requires Copied(m, mem[..], dst, src, from)
    modifies mem
    ensures done <= len <= done + 4 && Copied(m, mem[..], dst, src, done)
  {
    hide Copied, OnWord;
    done := from;
    while len - done > 32
      invariant done <= len && Copied(m, mem[..], dst, src, done)
      invariant done < len ==> OnWord(dst + done) && OnWord(src + done)
    {
      CopyWords(mem, m, dst, src, len, done, 8);
      NextWord(dst + done, 8);
      NextWord(src + done, 8);
      done := done + 32;
    }
    while len - done > 4
      invariant done <= len && Copied(m, mem[..], dst, src, done)
      invariant done < len ==> OnWord(dst + done) && OnWord(src + done)
    {
      CopyWords(mem, m, dst, src, len, done, 1);
      NextWord(dst + done, 1);
      NextWord(src + done, 1);
      done := done + 4;
    }
  }

  lemma CopiedNothing(m: seq<byte>, dst: nat, src: nat)
    requires dst <= |m| && src <= |m|
    ensures Copied(m, m, dst, src, 0)
  {
  }

  // ----- Fill -----

  method SetBytes(mem: array<byte>, ghost m: seq<byte>, dst: nat, v: byte, done: nat, n: nat)
    requires dst + done + n <= mem.Length && Filled(m, mem[..], dst, v, done)
    modifies mem
    ensures Filled(m, mem[..], dst, v, done + n)
  {
    for i := 0 to n
      invariant Filled(m, mem[..], dst, v, done + i)
    {
      ghost var now := mem[..];
      mem[dst + (done + i)] := v;
      assert mem[..] == now[dst + (done + i) := v];
    }
  }

  method SetWords(mem: array<byte>, ghost m: seq<byte>, dst: nat, v: byte, v32: word, done: nat, n: nat)
    requires dst + done + 4 * n <= mem.Length && OnWord(dst + done)
    requires v32 == WordOf(v, v, v, v) && Filled(m, mem[..], dst, v, done)
    modifies mem
    ensures Filled(m, mem[..], dst, v, done + 4 * n)
  {
    hide WordOf, ByteOf;
    WordRoundTrip(v, v, v, v);
    for i := 0 to n
      invariant Filled(m, mem[..], dst, v, done + 4 * i)
    {
      ghost var now := mem[..];
      var d := dst + (done + 4 * i);
      Store32(mem, d, v32);
      forall j | 0 <= j < |m| ensures mem[j] == if dst <= j < d + 4 then v else m[j] {
        assert now[j] == if dst <= j < d then v else m[j];
        assert j - d == 0 || j - d == 1 || j - d == 2 || j - d == 3 || !(d <= j < d + 4);
      }
    }
  }

  /** Whatever the alignment and the length, the result is that of a byte-by-byte fill. */
  method InternalMemset(mem: array<byte>, dst: nat, v: byte, len: nat, alignMask: nat)
    requires alignMask == 3 || alignMask == 7
    requires dst + len <= mem.Length
    modifies mem
    ensures Filled(old(mem[..]), mem[..], dst, v, len)
  {
    hide Filled;
    ghost var m := mem[..];
    var dAlign := dst % (alignMask + 1);
    var done := 0;
    FilledNothing(m, dst, v);
    if dAlign != 0 {
      dAlign := alignMask + 1 - dAlign;
    }
    assert dAlign == Gap(dst, alignMask);
    while dAlign != 0 && done != len
      invariant done <= len && Filled(m, mem[..], dst, v, done)
      invariant dAlign == Gap(dst + done, alignMask)
      decreases len - done
    {
      SetBytes(mem, m, dst, v, done, 1);
      GapShrinks(dst + done, alignMask);
      dAlign, done := dAlign - 1, done + 1;
    }
    NoGap(dst + done, alignMask);
    var v32: word := v + v * 0x100 + v * 0x1_0000 + v * 0x100_0000;
    done := SetBody(mem, m, dst, v, v32, len, done);
    SetBytes(mem, m, dst, v, done, len - done);
  }

  method SetBody(mem: array<byte>, ghost m: seq<byte>, dst: nat, v: byte, v32: word, len: nat, from: nat)
    returns (done: nat)
    requires dst + len <= mem.Length && from <= len
    requires from < len ==> OnWord(dst + from)
    requires v32 == WordOf(v, v, v, v) && Filled(m, mem[..], dst, v, from)
    modifies mem
    ensures done <= len <= done + 4 && Filled(m, mem[..], dst, v, done)
  {
    hide Filled, WordOf, OnWord;
    done := from;
    while len - done > 32
      invariant done <= len && Filled(m, mem[..], dst, v, done)
      invariant done < len ==> OnWord(dst + done)
    {
      SetWords(mem, m, dst, v, v32, done, 8);
      NextWord(dst + done, 8);
      done := done + 32;
    }
    while len - done > 4
      invariant done <= len && Filled(m, mem[..], dst, v, done)
      invariant done < len ==> OnWord(dst + done)
    {
      SetWords(mem, m, dst, v, v32, done, 1);
      NextWord(dst + done, 1);
      done := done + 4;
    }
  }

  lemma FilledNothing(m: seq<byte>, dst: nat, v: byte)
    ensures Filled(m, m, dst, v, 0)
  {
  }
}
