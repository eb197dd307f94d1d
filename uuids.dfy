/** The two library behaviours the naming scheme depends on: `uuid.UUID.String()` of
    github.com/google/uuid (lower-case hexadecimal in 8-4-4-4-12 groups) and the `encoding/hex`
    encoder and decoder. */
module Uuids {
  import opened Wrappers
  import opened Text

  newtype byte = x: int | 0 <= x < 256

  /** A UUID is its 16 bytes. */
  type Uuid = s: seq<byte> | |s| == 16 witness [0, 0, 0, 0, 0, 0, 0, 0, 0, 0, 0, 0, 0, 0, 0, 0]

  const NilUuid: Uuid := [0, 0, 0, 0, 0, 0, 0, 0, 0, 0, 0, 0, 0, 0, 0, 0]

  const HexAlphabet: string := "0123456789abcdef"

  predicate IsHexChar(c: char)
  {
    '0' <= c <= '9' || 'a' <= c <= 'f' || 'A' <= c <= 'F'
  }

  predicate AllHex(s: string)
  {
    forall i :: 0 <= i < |s| ==> IsHexChar(s[i])
  }

  function HexValue(c: char): (v: int)
    requires IsHexChar(c)
    ensures 0 <= v < 16
  {
    if '0' <= c <= '9' then c as int - '0' as int
    else if 'a' <= c <= 'f' then c as int - 'a' as int + 10
    else c as int - 'A' as int + 10
  }

  function ByteHex(b: byte): string
  {
    [HexAlphabet[b as int / 16], HexAlphabet[b as int % 16]]
  }

  /** `hex.EncodeToString`: two lower-case hexadecimal digits per byte. */
  function Hex(bs: seq<byte>): (s: string)
    ensures |s| == 2 * |bs|
    ensures AllHex(s) && '-' !in s && ':' !in s
  {
    if bs == [] then [] else ByteHex(bs[0]) + Hex(bs[1..])
  }

  lemma {:induction false} HexAppend(a: seq<byte>, b: seq<byte>)
    ensures Hex(a + b) == Hex(a) + Hex(b)
  {
    if a == [] {
      assert a + b == b;
    } else {
      assert (a + b)[1..] == a[1..] + b;
      HexAppend(a[1..], b);
    }
  }

  /** `hex.DecodeString`: pairs of hexadecimal digits of either case, one byte per pair; an odd
      length or a character outside the alphabet is an error. */
  function HexDecode(s: string): (r: Result<seq<byte>>)
    ensures r.Ok? ==> 2 * |r.value| == |s|
  {
    if |s| == 0 then Ok([])
    else if !IsHexChar(s[0]) then Err("encoding/hex: invalid byte: " + [s[0]])
    else if |s| == 1 then Err("encoding/hex: odd length hex string")
    else if !IsHexChar(s[1]) then Err("encoding/hex: invalid byte: " + [s[1]])
    else match HexDecode(s[2..])
      case Err(e) => Err(e)
      case Ok(rest) => Ok([(HexValue(s[0]) * 16 + HexValue(s[1])) as byte] + rest)
  }

  /** Decoding succeeds exactly on even-length strings of hexadecimal digits. */
  lemma {:induction false} HexDecodeAccepts(s: string)
    ensures HexDecode(s).Ok? <==> |s| % 2 == 0 && AllHex(s)
  {
    if |s| >= 2 && IsHexChar(s[0]) && IsHexChar(s[1]) {
      HexDecodeAccepts(s[2..]);
      if !AllHex(s[2..]) {
        var i :| 0 <= i < |s[2..]| && !IsHexChar(s[2..][i]);
        assert !IsHexChar(s[i + 2]);
      }
    }
  }

  /** A successful decode holds one byte per pair of input characters, in order. */
  lemma {:induction false} HexDecodePairs(s: string)
    requires HexDecode(s).Ok?
    ensures |HexDecode(s).value| * 2 == |s|
    ensures forall k :: 0 <= k < |HexDecode(s).value| ==>
      IsHexChar(s[2 * k]) && IsHexChar(s[2 * k + 1]) &&
      HexDecode(s).value[k] as int == HexValue(s[2 * k]) * 16 + HexValue(s[2 * k + 1])
  {
    if |s| > 0 {
      HexDecodePairs(s[2..]);
      var bs := HexDecode(s).value;
      forall k | 0 <= k < |bs|
        ensures IsHexChar(s[2 * k]) && IsHexChar(s[2 * k + 1]) &&
          bs[k] as int == HexValue(s[2 * k]) * 16 + HexValue(s[2 * k + 1])
      {
        if k > 0 {
          assert bs[k] == HexDecode(s[2..]).value[k - 1];
          assert s[2 * k] == s[2..][2 * (k - 1)];
        }
      }
    }
  }

  lemma HexAlphabetValue(k: int)
    requires 0 <= k < 16
    ensures IsHexChar(HexAlphabet[k]) && HexValue(HexAlphabet[k]) == k
  {
  }

  /** The two digits of a byte denote the byte. */
  lemma ByteHexValue(b: byte)
    ensures var h := ByteHex(b);
      IsHexChar(h[0]) && IsHexChar(h[1]) && HexValue(h[0]) * 16 + HexValue(h[1]) == b as int &&
      (HexValue(h[0]) * 16 + HexValue(h[1])) as byte == b
  {
    HexAlphabetValue(b as int / 16);
    HexAlphabetValue(b as int % 16);
  }

  /** The encoding starts with the first byte's two digits. */
  lemma HexFirst(bs: seq<byte>)
    requires bs != []
    ensures Hex(bs)[0] == ByteHex(bs[0])[0] && Hex(bs)[1] == ByteHex(bs[0])[1] && Hex(bs)[2..] == Hex(bs[1..])
  {
    assert Hex(bs) == ByteHex(bs[0]) + Hex(bs[1..]);
  }

  /** A decode that gets past its first pair starts with that pair's byte. */
  lemma DecodeFirstByte(s: string)
    requires |s| >= 2 && IsHexChar(s[0]) && IsHexChar(s[1]) && HexDecode(s[2..]).Ok?
    ensures HexDecode(s) == Ok([(HexValue(s[0]) * 16 + HexValue(s[1])) as byte] + HexDecode(s[2..]).value)
  {
  }

  /** Decoding undoes encoding. */
  lemma {:induction false} HexRoundTrip(bs: seq<byte>)
    ensures HexDecode(Hex(bs)) == Ok(bs)
  {
    if bs != [] {
      var h, s := ByteHex(bs[0]), Hex(bs);
      HexFirst(bs);
      ByteHexValue(bs[0]);
      HexRoundTrip(bs[1..]);
      DecodeFirstByte(s);
      assert [bs[0]] + bs[1..] == bs;
    }
  }

  lemma HexInjective(a: seq<byte>, b: seq<byte>)
    requires Hex(a) == Hex(b)
    ensures a == b
  {
    HexRoundTrip(a);
    HexRoundTrip(b);
  }

  /** `uuid.UUID.String()`: xxxxxxxx-xxxx-xxxx-xxxx-xxxxxxxxxxxx in lower-case hexadecimal. */
  function UuidString(u: Uuid): (s: string)
    ensures |s| == 36
  {
    Hex(u[..4]) + "-" + Hex(u[4..6]) + "-" + Hex(u[6..8]) + "-" + Hex(u[8..10]) + "-" + Hex(u[10..])
  }

  lemma DashJoin(x: string, y: string)
    ensures RemoveChar(x + "-" + y, '-') == RemoveChar(x, '-') + RemoveChar(y, '-')
  {
    RemoveCharAppend(x + "-", y, '-');
    RemoveCharAppend(x, "-", '-');
  }

  lemma HexGroups(u: Uuid)
    ensures Hex(u) == Hex(u[..4]) + Hex(u[4..6]) + Hex(u[6..8]) + Hex(u[8..10]) + Hex(u[10..])
  {
    HexAppend(u[..4], u[4..6]);
    assert u[..4] + u[4..6] == u[..6];
    HexAppend(u[..6], u[6..8]);
    assert u[..6] + u[6..8] == u[..8];
    HexAppend(u[..8], u[8..10]);
    assert u[..8] + u[8..10] == u[..10];
    HexAppend(u[..10], u[10..]);
    assert u[..10] + u[10..] == u;
  }

  /** Removing the dashes from the canonical form leaves the 32 hexadecimal digits of the bytes. */
  lemma DashlessUuidString(u: Uuid)
    ensures RemoveChar(UuidString(u), '-') == Hex(u)
  {
    var a, b, c, d, e := Hex(u[..4]), Hex(u[4..6]), Hex(u[6..8]), Hex(u[8..10]), Hex(u[10..]);
    DashJoin(a, b);
    DashJoin(a + "-" + b, c);
    DashJoin(a + "-" + b + "-" + c, d);
    DashJoin(a + "-" + b + "-" + c + "-" + d, e);
    RemoveCharAbsent(a, '-');
    RemoveCharAbsent(b, '-');
    RemoveCharAbsent(c, '-');
    RemoveCharAbsent(d, '-');
    RemoveCharAbsent(e, '-');
    HexGroups(u);
  }

  lemma UuidStringInjective(u: Uuid, v: Uuid)
    requires UuidString(u) == UuidString(v)
    ensures u == v
  {
    DashlessUuidString(u);
    DashlessUuidString(v);
    HexInjective(u, v);
  }
}
