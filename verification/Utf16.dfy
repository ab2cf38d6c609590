/** UTF-16 as section 2.1 of RFC 2781 defines it: `str::encode_utf16` and
    `String::from_utf16`. A Dafny `char` is a Unicode scalar value, exactly like
    a Rust `char`. */
module Utf16 {
  import opened Bytes

  function EncodeChar(c: char): (u: seq<word>)
    ensures 1 <= |u| <= 2
  {
    var v := c as int;
    if v < 0x1_0000 then [v]
    else [0xD800 + (v - 0x1_0000) / 0x400, 0xDC00 + (v - 0x1_0000) % 0x400]
  }

  function Encode(s: string): (u: seq<word>)
    ensures s != [] ==> u != []
  {
    if s == [] then [] else EncodeChar(s[0]) + Encode(s[1..])
  }

  /** `None` for an unpaired surrogate. */
  function Decode(u: seq<word>): (r: Option<string>)
  {
    if u == [] then Some([])
    else if u[0] < 0xD800 || 0xE000 <= u[0] then
      match Decode(u[1..])
      case None => None
      case Some(rest) => Some([u[0] as char] + rest)
    else if u[0] < 0xDC00 && |u| >= 2 && 0xDC00 <= u[1] < 0xE000 then
      match Decode(u[2..])
      case None => None
      case Some(rest) =>
        var high: int, low: int := u[0] - 0xD800, u[1] - 0xDC00;
        Some([(0x1_0000 + 0x400 * high + low) as char] + rest)
    else None
  }

  /** Decoding undoes encoding for every string, surrogate pairs included. */
  lemma {:induction false} DecodeEncode(s: string)
    ensures Decode(Encode(s)) == Some(s)
  {
    if s != [] {
      DecodeEncode(s[1..]);
      var head, u := EncodeChar(s[0]), Encode(s);
      assert u[|head|..] == Encode(s[1..]);
      assert u[..|head|] == head;
      if |head| == 1 {
        assert u[0] == head[0];
      } else {
        assert u[0] == head[0] && u[1] == head[1];
      }
      assert s == [s[0]] + s[1..];
    }
  }

  /** A zero unit, the end marker of a long name, comes from a NUL character only. */
  lemma {:induction false} ZeroUnitIsNul(s: string)
    ensures 0 in Encode(s) <==> '\0' in s
  {
    if s != [] {
      ZeroUnitIsNul(s[1..]);
      assert s == [s[0]] + s[1..];
      assert 0 in EncodeChar(s[0]) <==> s[0] == '\0';
    }
  }
}
