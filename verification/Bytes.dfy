/** Bytes, fixed-width words and the little- and big-endian fields that the two
    disk-image writers store in place. */
module Bytes {

  type byte = x: int | 0 <= x < 0x100
  type word = x: int | 0 <= x < 0x1_0000
  type dword = x: int | 0 <= x < 0x1_0000_0000

  const U16_MAX := 0xFFFF
  const U32_MAX := 0xFFFF_FFFF

  datatype Result<+T, +E> = Ok(value: T) | Err(error: E)

  datatype Option<+T> = None | Some(value: T)

  function Zeros(n: nat): (s: seq<byte>)
    ensures |s| == n
    ensures forall i :: 0 <= i < n ==> s[i] == 0
  {
    seq(n, i => 0)
  }

  /** `s` continued by zeros, or cut, to exactly `n` bytes. */
  function Fit(s: seq<byte>, n: nat): (r: seq<byte>)
    ensures |r| == n
    ensures forall i :: 0 <= i < n ==> r[i] == if i < |s| then s[i] else 0
  {
    seq(n, i requires 0 <= i < n => if i < |s| then s[i] else 0)
  }

  /** Pieces one after the other. */
  function Flatten(pieces: seq<seq<byte>>): (r: seq<byte>)
  {
    if pieces == [] then [] else pieces[0] + Flatten(pieces[1..])
  }

  function DivCeil(n: nat, d: nat): (r: nat)
    requires d > 0
  {
    (n + d - 1) / d
  }

  function Le16(v: word): (s: seq<byte>)
    ensures |s| == 2
  {
    [v % 0x100, v / 0x100]
  }

  function Le32(v: dword): (s: seq<byte>)
    ensures |s| == 4
  {
    [v % 0x100, v / 0x100 % 0x100, v / 0x100 / 0x100 % 0x100, v / 0x100 / 0x100 / 0x100]
  }

  function Be16(v: word): (s: seq<byte>)
    ensures |s| == 2
  {
    [v / 0x100, v % 0x100]
  }

  function Be32(v: dword): (s: seq<byte>)
    ensures |s| == 4
  {
    [v / 0x100 / 0x100 / 0x100, v / 0x100 / 0x100 % 0x100, v / 0x100 % 0x100, v % 0x100]
  }

  function ReadLe16(s: seq<byte>, at: nat): (v: word)
    requires at + 2 <= |s|
  {
    var lo: int, hi: int := s[at], s[at + 1];
    lo + 0x100 * hi
  }

  function ReadLe32(s: seq<byte>, at: nat): (v: dword)
    requires at + 4 <= |s|
  {
    var a: int, b: int, c: int, d: int := s[at], s[at + 1], s[at + 2], s[at + 3];
    a + 0x100 * b + 0x1_0000 * c + 0x100_0000 * d
  }

  lemma ReadLe32OfLe32(v: dword, s: seq<byte>, at: nat)
    requires at + 4 <= |s|
    requires s[at..at + 4] == Le32(v)
    ensures ReadLe32(s, at) == v
  {
    assert s[at] == s[at..at + 4][0] && s[at + 1] == s[at..at + 4][1];
    assert s[at + 2] == s[at..at + 4][2] && s[at + 3] == s[at..at + 4][3];
    var q := v / 0x100;
    var r := q / 0x100;
    assert v == 0x100 * q + v % 0x100 && q == 0x100 * r + q % 0x100 && r == 0x100 * (r / 0x100) + r % 0x100;
  }

  /** `buf` with `field` stored at offset `at`. */
  function Put(buf: seq<byte>, at: nat, field: seq<byte>): (r: seq<byte>)
    requires at + |field| <= |buf|
    ensures |r| == |buf|
    ensures forall i :: 0 <= i < |buf| ==>
      r[i] == if at <= i < at + |field| then field[i - at] else buf[i]
  {
    buf[..at] + field + buf[at + |field|..]
  }

  /** `copy_from_slice` into a part of a buffer. */
  method Store(buf: array<byte>, at: nat, field: seq<byte>)
    requires at + |field| <= buf.Length
    modifies buf
    ensures buf[..] == Put(old(buf[..]), at, field)
  {
    var i := 0;
    while i < |field|
      invariant 0 <= i <= |field|
      invariant forall k :: 0 <= k < buf.Length ==>
        buf[k] == if at <= k < at + i then field[k - at] else old(buf[k])
    {
      buf[at + i] := field[i];
      i := i + 1;
    }
  }
}
