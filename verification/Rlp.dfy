/** Recursive Length Prefix, Appendix B of the Ethereum Yellow Paper: byte strings and lists
    of values, written as bytes. */
module Rlp {
  import opened Wrappers
  import opened Words

  type byte = x: int | 0 <= x < 256

  datatype Value = Bytes(bytes: seq<byte>) | List(items: seq<Value>)

  // ---------- Big-endian numbers ----------

  /** Without leading zeros; zero is the empty string. */
  function BigEndian(n: nat): (r: seq<byte>)
    ensures r != [] ==> r[0] != 0
    ensures r == [] <==> n == 0
  {
    if n == 0 then [] else BigEndian(n / 256) + [n % 256]
  }

  function FromBigEndian(s: seq<byte>): nat {
    if s == [] then 0 else 256 * FromBigEndian(s[..|s| - 1]) + s[|s| - 1]
  }

  lemma {:induction false} BigEndianRoundTrip(n: nat)
    ensures FromBigEndian(BigEndian(n)) == n
  {
    if n > 0 {
      BigEndianRoundTrip(n / 256);
      var s := BigEndian(n);
      assert s[..|s| - 1] == BigEndian(n / 256);
    }
  }

  function Power256(k: nat): nat {
    if k == 0 then 1 else 256 * Power256(k - 1)
  }

  lemma {:induction false} BigEndianLength(n: nat, k: nat)
    requires n < Power256(k)
    ensures |BigEndian(n)| <= k
  {
    if n > 0 && k > 0 {
      BigEndianLength(n / 256, k - 1);
    }
  }

  lemma {:induction false} FromBigEndianBound(s: seq<byte>)
    ensures FromBigEndian(s) < Power256(|s|)
  {
    if s != [] {
      FromBigEndianBound(s[..|s| - 1]);
    }
  }

  lemma EightBytes()
    ensures Power256(8) == TWO_64
  {
    assert Power256(4) == 0x1_0000_0000;
    assert Power256(8) == 256 * 256 * 256 * 256 * Power256(4);
  }

  /** A number of fixed width, as `binary.BigEndian.PutUint64` writes it. */
  function Padded(n: nat, width: nat): (r: seq<byte>)
    ensures |r| == width
  {
    if width == 0 then [] else Padded(n / 256, width - 1) + [n % 256]
  }

  lemma {:induction false} PaddedRoundTrip(s: seq<byte>)
    ensures Padded(FromBigEndian(s), |s|) == s
  {
    if s != [] {
      var n := |s| - 1;
      PaddedRoundTrip(s[..n]);
      assert FromBigEndian(s) / 256 == FromBigEndian(s[..n]);
      assert s == s[..n] + [s[n]];
    }
  }

  // ---------- Encoding ----------

  /** The head of a string (`short` 0x80) or a list (`short` 0xc0) of `n` bytes. */
  function Head(short: byte, n: nat): (r: seq<byte>)
    requires n < TWO_64 && short <= 0xc0
    ensures r != []
  {
    if n < 56 then [short + n] else
      LengthFits(n);
      [short + 55 + |BigEndian(n)|] + BigEndian(n)
  }

  lemma LengthFits(n: nat)
    requires 0 < n < TWO_64
    ensures 1 <= |BigEndian(n)| <= 8
  {
    EightBytes();
    BigEndianLength(n, 8);
  }

  /** Every length occurring in the value can be written: it is below 2^64. */
  predicate Fits(v: Value) {
    match v
    case Bytes(b) => |b| < TWO_64
    case List(items) => FitAll(items) && PayloadSize(items) < TWO_64
  }

  predicate FitAll(items: seq<Value>) {
    forall i :: 0 <= i < |items| ==> Fits(items[i])
  }

  function Size(v: Value): nat {
    match v
    case Bytes(b) => if |b| == 1 && b[0] < 0x80 then 1 else HeadSize(|b|) + |b|
    case List(items) => HeadSize(PayloadSize(items)) + PayloadSize(items)
  }

  function HeadSize(n: nat): nat {
    if n < 56 then 1 else 1 + |BigEndian(n)|
  }

  function PayloadSize(items: seq<Value>): nat {
    if items == [] then 0 else Size(items[0]) + PayloadSize(items[1..])
  }

  function Encode(v: Value): (r: seq<byte>)
    requires Fits(v)
    ensures |r| == Size(v)
    decreases v, 0
  {
    match v
    case Bytes(b) => if |b| == 1 && b[0] < 0x80 then b else Head(0x80, |b|) + b
    case List(items) => Head(0xc0, PayloadSize(items)) + EncodeAll(items)
  }

  function EncodeAll(items: seq<Value>): (r: seq<byte>)
    requires FitAll(items)
    ensures |r| == PayloadSize(items)
    decreases items, 1
  {
    if items == [] then [] else Encode(items[0]) + EncodeAll(items[1..])
  }

  // ---------- Parsing ----------

  /** The kind of the first item, where its payload starts, and how long that is. */
  datatype Prefix = Prefix(list: bool, start: nat, size: nat)

  function LongHead(s: seq<byte>, list: bool, lengthSize: nat): Option<Prefix> {
    if |s| < 1 + lengthSize then None else
      Some(Prefix(list, 1 + lengthSize, FromBigEndian(s[1..1 + lengthSize])))
  }

  function ParseHead(s: seq<byte>): Option<Prefix> {
    if s == [] then None
    else if s[0] < 0x80 then Some(Prefix(false, 0, 1))
    else if s[0] < 0xb8 then Some(Prefix(false, 1, s[0] - 0x80))
    else if s[0] < 0xc0 then LongHead(s, false, s[0] - 0xb7)
    else if s[0] < 0xf8 then Some(Prefix(true, 1, s[0] - 0xc0))
    else LongHead(s, true, s[0] - 0xf7)
  }

  /** The first value and what follows it. */
  function Parse(s: seq<byte>): (r: Option<(Value, seq<byte>)>)
    ensures r.Some? ==> |r.value.1| < |s|
    decreases |s|, 0
  {
    var h :- ParseHead(s);
    if h.start + h.size > |s| then None else
      var payload := s[h.start..h.start + h.size];
      var rest := s[h.start + h.size..];
      if !h.list then Some((Bytes(payload), rest)) else
        var items :- ParseAll(payload);
        Some((List(items), rest))
  }

  function ParseAll(s: seq<byte>): Option<seq<Value>>
    decreases |s|, 1
  {
    if s == [] then Some([]) else
      var first :- Parse(s);
      var others :- ParseAll(first.1);
      Some([first.0] + others)
  }

  // ---------- Parsing undoes encoding ----------

  lemma ParseHeadOfHead(short: byte, n: nat, tail: seq<byte>)
    requires n < TWO_64 && (short == 0x80 || short == 0xc0)
    ensures ParseHead(Head(short, n) + tail) == Some(Prefix(short == 0xc0, |Head(short, n)|, n))
  {
    if n >= 56 {
      LengthFits(n);
      BigEndianRoundTrip(n);
      var l := BigEndian(n);
      var s := Head(short, n) + tail;
      assert s[1..1 + |l|] == l;
    }
  }

  lemma ParseSplits(head: seq<byte>, payload: seq<byte>, tail: seq<byte>)
    ensures var s := head + payload + tail;
            && s[|head|..|head| + |payload|] == payload
            && s[|head| + |payload|..] == tail
  {
  }

  /** Encodings are self-delimiting: a value is read back exactly, whatever follows it. */
  lemma {:induction false} ParseEncode(v: Value, tail: seq<byte>)
    requires Fits(v)
    ensures Parse(Encode(v) + tail) == Some((v, tail))
    decreases v, 0
  {
    match v
    case Bytes(b) =>
      if |b| == 1 && b[0] < 0x80 {
        ParseSplits([], b, tail);
        assert [] + b + tail == b + tail;
      } else {
        var h := Head(0x80, |b|);
        ParseHeadOfHead(0x80, |b|, b + tail);
        assert h + b + tail == h + (b + tail);
        ParseSplits(h, b, tail);
      }
    case List(items) =>
      var h, payload := Head(0xc0, PayloadSize(items)), EncodeAll(items);
      ParseAllEncodeAll(items);
      ParseHeadOfHead(0xc0, |payload|, payload + tail);
      assert h + payload + tail == h + (payload + tail);
      ParseSplits(h, payload, tail);
  }

  lemma {:induction false} ParseAllEncodeAll(items: seq<Value>)
    requires FitAll(items)
    ensures ParseAll(EncodeAll(items)) == Some(items)
    decreases items, 1
  {
    if items != [] {
      ParseEncode(items[0], EncodeAll(items[1..]));
      ParseAllEncodeAll(items[1..]);
      assert items == [items[0]] + items[1..];
    }
  }

  /** No encoding is a prefix of another value's. */
  lemma EncodePrefixFree(v: Value, w: Value, s: seq<byte>, t: seq<byte>)
    requires Fits(v) && Fits(w) && Encode(v) + s == Encode(w) + t
    ensures v == w && s == t
  {
    ParseEncode(v, s);
    ParseEncode(w, t);
  }

  /** A whole input, with nothing after the value. */
  function Decode(s: seq<byte>): Option<Value> {
    var r :- Parse(s);
    if r.1 == [] then Some(r.0) else None
  }

  lemma DecodeEncode(v: Value)
    requires Fits(v)
    ensures Decode(Encode(v)) == Some(v)
  {
    ParseEncode(v, []);
    assert Encode(v) + [] == Encode(v);
  }
}
