/** Compact encoding of trie keys (state/immutable-trie/encoding.go), the hex-prefix encoding
    of Appendix C of the Ethereum Yellow Paper. */
module HexPrefix {
  import opened Wrappers

  type byte = bv8

  const TERMINATOR: byte := 16

  predicate HasTerminator(hex: seq<byte>) {
    hex != [] && hex[|hex| - 1] == TERMINATOR
  }

  predicate AllNibbles(s: seq<byte>) {
    forall i :: 0 <= i < |s| ==> s[i] < 16
  }

  /** A key: nibbles, and perhaps a terminator at the end. */
  predicate IsKey(hex: seq<byte>) {
    AllNibbles(Body(hex))
  }

  function Body(hex: seq<byte>): seq<byte> {
    if HasTerminator(hex) then hex[..|hex| - 1] else hex
  }

  /** The key with its flag in front: always an even number of nibbles. */
  function Flagged(hex: seq<byte>): (r: seq<byte>)
    ensures |r| % 2 == 0 && |r| >= 2
  {
    var flag: byte := if HasTerminator(hex) then 2 else 0;
    var body := Body(hex);
    if |body| % 2 == 1 then [flag + 1] + body else [flag, 0] + body
  }

  /** Bytes wrap around: times sixteen is a shift by four bits. */
  function Pack(s: seq<byte>): (r: seq<byte>)
    requires |s| % 2 == 0
    ensures |r| == |s| / 2
  {
    seq(|s| / 2, i requires 0 <= i < |s| / 2 => (16 * s[2 * i]) | s[2 * i + 1])
  }

  function Encode(hex: seq<byte>): (r: seq<byte>)
    ensures r != []
  {
    Pack(Flagged(hex))
  }

  /** Two nibbles for each byte. */
  function Unpack(bytes: seq<byte>): (r: seq<byte>)
    ensures |r| == 2 * |bytes|
  {
    seq(2 * |bytes|, k requires 0 <= k < 2 * |bytes| => if k % 2 == 0 then bytes[k / 2] / 16 else bytes[k / 2] % 16)
  }

  function Nibbles(bytes: seq<byte>): seq<byte> {
    Unpack(bytes) + [TERMINATOR]
  }

  /** None where the code slices beyond its input: there is no flag to read. */
  function Decode(compact: seq<byte>): Option<seq<byte>> {
    if compact == [] then None else
      var nibbles := Nibbles(compact);
      var base := if nibbles[0] < 2 then nibbles[..|nibbles| - 1] else nibbles;
      Some(if base[0] & 1 == 1 then base[1..] else base[2..])
  }

  // ---------- Packing ----------

  lemma PackTwo(a: byte, b: byte)
    requires a < 16 && b < 16
    ensures ((16 * a) | b) / 16 == a && ((16 * a) | b) % 16 == b
  {
  }

  lemma UnpackTwo(c: byte)
    ensures c / 16 < 16 && c % 16 < 16 && (16 * (c / 16)) | (c % 16) == c
  {
  }

  lemma UnpackPackAt(s: seq<byte>, k: nat)
    requires |s| % 2 == 0 && AllNibbles(s) && k < |s|
    ensures Unpack(Pack(s))[k] == s[k]
  {
    var i := k / 2;
    assert Pack(s)[i] == (16 * s[2 * i]) | s[2 * i + 1];
    PackTwo(s[2 * i], s[2 * i + 1]);
  }

  lemma UnpackPack(s: seq<byte>)
    requires |s| % 2 == 0 && AllNibbles(s)
    ensures Unpack(Pack(s)) == s
  {
    hide Unpack, Pack;
    forall k | 0 <= k < |s| ensures Unpack(Pack(s))[k] == s[k] {
      UnpackPackAt(s, k);
    }
  }

  lemma PackUnpack(bytes: seq<byte>)
    ensures AllNibbles(Unpack(bytes)) && Pack(Unpack(bytes)) == bytes
  {
    var s := Unpack(bytes);
    forall k | 0 <= k < |s| ensures s[k] < 16 {
      UnpackTwo(bytes[k / 2]);
    }
    forall i | 0 <= i < |bytes| ensures Pack(s)[i] == bytes[i] {
      assert s[2 * i] == bytes[i] / 16 && s[2 * i + 1] == bytes[i] % 16;
      UnpackTwo(bytes[i]);
    }
  }

  // ---------- Round trips ----------

  lemma FlaggedNibbles(hex: seq<byte>)
    requires IsKey(hex)
    ensures AllNibbles(Flagged(hex))
  {
  }

  /** A key comes back from its encoding. */
  lemma DecodeEncode(hex: seq<byte>)
    requires IsKey(hex)
    ensures Decode(Encode(hex)) == Some(hex)
  {
    hide Pack, Unpack;
    FlaggedNibbles(hex);
    UnpackPack(Flagged(hex));
    var flagged := Flagged(hex);
    var nibbles := flagged + [TERMINATOR];
    var odd := |Body(hex)| % 2 == 1;
    assert nibbles[..|nibbles| - 1] == flagged;
    if HasTerminator(hex) {
      assert hex == Body(hex) + [TERMINATOR];
      assert (if odd then nibbles[1..] else nibbles[2..]) == hex;
    } else {
      assert (if odd then flagged[1..] else flagged[2..]) == hex;
    }
    FlagBits(nibbles[0]);
  }

  lemma FlagBits(flag: byte)
    ensures flag == 0 || flag == 2 ==> flag & 1 == 0
    ensures flag == 1 || flag == 3 ==> flag & 1 == 1
  {
  }

  lemma DecodedIsKey(compact: seq<byte>)
    requires compact != []
    ensures Decode(compact).Some? && IsKey(Decode(compact).value)
  {
    PackUnpack(compact);
  }

  /** And nothing but a key does. */
  lemma DecodeEncodeIff(hex: seq<byte>)
    ensures Decode(Encode(hex)) == Some(hex) <==> IsKey(hex)
  {
    hide Encode, Decode, IsKey;
    if IsKey(hex) {
      DecodeEncode(hex);
    }
    DecodedIsKey(Encode(hex));
  }

  /** Different keys have different encodings. */
  lemma EncodeInjective(g: seq<byte>, h: seq<byte>)
    requires IsKey(g) && IsKey(h) && Encode(g) == Encode(h)
    ensures g == h
  {
    DecodeEncode(g);
    DecodeEncode(h);
  }

  /** A known flag, and zero padding after an even one. */
  predicate WellFormed(compact: seq<byte>) {
    && compact != [] && compact[0] / 16 < 4
    && ((compact[0] / 16) & 1 == 0 ==> compact[0] % 16 == 0)
  }

  lemma FlagCases(c: byte)
    requires c / 16 < 4
    ensures c / 16 in {0, 1, 2, 3}
  {
  }

  function Rest(s: seq<byte>): seq<byte>
    requires |s| >= 2
  {
    if s[0] & 1 == 1 then s[1..] else s[2..]
  }

  lemma DecodedShape(compact: seq<byte>)
    requires compact != []
    ensures var s, key := Unpack(compact), Decode(compact).value;
            Body(key) == Rest(s) && (HasTerminator(key) <==> s[0] >= 2)
  {
    hide Pack, Unpack;
    PackUnpack(compact);
    var s := Unpack(compact);
    DecodedSlices(compact);
    assert Rest(s) != [] ==> Rest(s)[|Rest(s)| - 1] == s[|s| - 1];
    assert (Rest(s) + [TERMINATOR])[..|Rest(s)|] == Rest(s);
  }

  lemma DecodedSlices(compact: seq<byte>)
    requires compact != []
    ensures var s := Unpack(compact);
            Decode(compact).value == if s[0] < 2 then Rest(s) else Rest(s) + [TERMINATOR]
  {
    hide Unpack;
    var s := Unpack(compact);
    var nibbles := s + [TERMINATOR];
    assert nibbles[..|nibbles| - 1] == s && nibbles[0] == s[0];
    assert nibbles[1..] == s[1..] + [TERMINATOR] && nibbles[2..] == s[2..] + [TERMINATOR];
  }

  lemma FlaggedOfDecoded(compact: seq<byte>)
    requires WellFormed(compact)
    ensures Flagged(Decode(compact).value) == Unpack(compact)
  {
    hide Pack, Unpack, Decode, Body, HasTerminator;
    DecodedShape(compact);
    FlagCases(compact[0]);
    UnpackFirst(compact);
    var s := Unpack(compact);
    FlagBits(s[0]);
    assert s == if s[0] & 1 == 1 then [s[0]] + s[1..] else [s[0], s[1]] + s[2..];
  }

  lemma UnpackFirst(compact: seq<byte>)
    requires compact != []
    ensures Unpack(compact)[0] == compact[0] / 16 && Unpack(compact)[1] == compact[0] % 16
  {
  }

  /** An encoding comes back from its key exactly when it is well formed. */
  lemma EncodeDecodeIff(compact: seq<byte>)
    requires compact != []
    ensures Encode(Decode(compact).value) == compact <==> WellFormed(compact)
  {
    hide Decode, Flagged, Pack, Unpack;
    if WellFormed(compact) {
      FlaggedOfDecoded(compact);
      PackUnpack(compact);
    }
    DecodedIsKey(compact);
    EncodedWellFormed(Decode(compact).value);
  }

  lemma EncodedWellFormed(hex: seq<byte>)
    requires IsKey(hex)
    ensures WellFormed(Encode(hex))
  {
    FlaggedNibbles(hex);
    var s := Flagged(hex);
    assert Encode(hex)[0] == (16 * s[2 * 0]) | s[1];
    PackTwo(s[0], s[1]);
    FlagBits(s[0]);
  }

  // ---------- The definition of the Yellow Paper ----------

  /** HP(x, t): the flag f is 2 for a terminated key and 0 otherwise; with an odd number of
      nibbles the first shares its byte with f + 1. */
  function HP(x: seq<byte>, t: bool): seq<byte> {
    var f: byte := if t then 2 else 0;
    if |x| % 2 == 0 then [16 * f] + Pairs(x) else [16 * (f + 1) + x[0]] + Pairs(x[1..])
  }

  function Pairs(x: seq<byte>): seq<byte>
    requires |x| % 2 == 0
  {
    if x == [] then [] else [16 * x[0] + x[1]] + Pairs(x[2..])
  }

  lemma {:induction false} PackIsPairs(x: seq<byte>)
    requires |x| % 2 == 0 && AllNibbles(x)
    ensures Pack(x) == Pairs(x)
  {
    if x != [] {
      PackIsPairs(x[2..]);
      PackFirst(x);
      ShiftIsTimes(x[0], x[1]);
    }
  }

  lemma PackFirst(x: seq<byte>)
    requires |x| % 2 == 0 && x != []
    ensures Pack(x) == [(16 * x[0]) | x[1]] + Pack(x[2..])
  {
    forall i | 0 < i < |x| / 2 ensures Pack(x)[i] == Pack(x[2..])[i - 1] {
      assert x[2..][2 * (i - 1)] == x[2 * i];
    }
    assert Pack(x)[0] == (16 * x[2 * 0]) | x[1];
  }

  lemma ShiftIsTimes(a: byte, b: byte)
    requires a < 16 && b < 16
    ensures (16 * a) | b == 16 * a + b
  {
  }

  /** The code computes HP. */
  lemma EncodeIsHP(x: seq<byte>, t: bool)
    requires AllNibbles(x)
    ensures Encode(if t then x + [TERMINATOR] else x) == HP(x, t)
  {
    hide Pack;
    var hex := if t then x + [TERMINATOR] else x;
    assert x != [] ==> x[|x| - 1] < 16;
    assert HasTerminator(hex) == t && Body(hex) == x;
    var s := Flagged(hex);
    FlaggedNibbles(hex);
    PackIsPairs(s);
    if |x| % 2 == 0 {
      assert s[2..] == x;
      assert 16 * s[0] + 0 == 16 * s[0];
    } else {
      assert s[2..] == x[1..];
    }
  }

  // ---------- The loops ----------

  method InsertFlag(key: seq<byte>) returns (hex: seq<byte>)
    ensures hex == Flagged(key)
  {
    var flag;
    hex, flag := key, 0;
    if HasTerminator(hex) {
      hex, flag := hex[..|hex| - 1], 2;
    }
    if |hex| % 2 == 1 {
      hex := [flag + 1] + hex;
    } else {
      hex := [flag, 0] + hex;
    }
  }

  method EncodeCompact(key: seq<byte>) returns (result: array<byte>)
    ensures fresh(result) && result[..] == Encode(key)
  {
    var hex := InsertFlag(key);
    hide Flagged;
    result := new byte[|hex| / 2];
    for i := 0 to result.Length
      invariant forall k :: 0 <= k < i ==> result[k] == (16 * hex[2 * k]) | hex[2 * k + 1]
    {
      result[i] := (16 * hex[2 * i]) | hex[2 * i + 1];
    }
  }

  method BytesToHexNibbles(bytes: seq<byte>) returns (nibbles: array<byte>)
    ensures fresh(nibbles) && nibbles[..] == Nibbles(bytes)
  {
    nibbles := new byte[2 * |bytes| + 1];
    for i := 0 to |bytes|
      invariant forall k :: 0 <= k < 2 * i ==> nibbles[k] == Unpack(bytes)[k]
    {
      nibbles[2 * i] := bytes[i] / 16;
      nibbles[2 * i + 1] := bytes[i] % 16;
    }
    nibbles[nibbles.Length - 1] := TERMINATOR;
  }
}
