/** The records of the chain as RLP values: on the wire (types/rlp_marshal.go,
    types/rlp_unmarshal.go) and in the store (types/rlp_marshal_storage.go,
    types/rlp_unmarshal_storage.go). Decoders start from a zero record. */
module RlpTypes {
  import opened Wrappers
  import opened Words
  import opened Rlp

  function Zeros(n: nat): (r: seq<byte>)
    ensures |r| == n
  {
    seq(n, _ => 0)
  }

  type Hash = s: seq<byte> | |s| == 32 witness Zeros(32)
  type Address = s: seq<byte> | |s| == 20 witness Zeros(20)
  type Bloom = s: seq<byte> | |s| == 256 witness Zeros(256)
  type Nonce = s: seq<byte> | |s| == 8 witness Zeros(8)

  const ZERO_HASH: Hash := Zeros(32)
  const ZERO_ADDRESS: Address := Zeros(20)

  datatype Header = Header(
    parentHash: Hash, sha3Uncles: Hash, miner: seq<byte>, stateRoot: Hash, txRoot: Hash, receiptsRoot: Hash,
    logsBloom: Bloom, difficulty: uint64, number: uint64, gasLimit: uint64, gasUsed: uint64, timestamp: uint64,
    extraData: seq<byte>, mixHash: Hash, nonce: Nonce)

  /** Integers other than nonce and gas are signed and of any size. */
  datatype Transaction = Transaction(
    nonce: uint64, gasPrice: int, gas: uint64, to: Option<Address>, value: int, input: seq<byte>,
    v: int, r: int, s: int, from: Address)

  datatype Log = Log(address: Address, topics: seq<Hash>, data: seq<byte>)

  datatype Receipt = Receipt(
    root: Hash, cumulativeGasUsed: uint64, logsBloom: Bloom, logs: seq<Log>, status: Option<uint64>,
    gasUsed: uint64, contractAddress: Option<Address>, txHash: Hash)

  datatype Block = Block(header: Header, transactions: seq<Transaction>, uncles: seq<Header>)

  datatype Body = Body(transactions: seq<Transaction>, uncles: seq<Header>)

  /** What an archive starts with (archive/types.go). */
  datatype Metadata = Metadata(latest: uint64, latestHash: Hash)

  // ---------- Fields ----------

  function UintValue(x: uint64): Value {
    Bytes(BigEndian(x))
  }

  /** The sign of a big integer is not written. */
  function BigValue(x: int): Value {
    Bytes(BigEndian(Abs(x)))
  }

  function Abs(x: int): nat {
    if x < 0 then -x else x
  }

  function GetElems(v: Value): Option<seq<Value>> {
    if v.List? then Some(v.items) else None
  }

  function GetBytes(v: Value): Option<seq<byte>> {
    if v.Bytes? then Some(v.bytes) else None
  }

  function GetHash(v: Value): Option<Hash> {
    if v.Bytes? && |v.bytes| == 32 then Some(v.bytes) else None
  }

  function GetAddr(v: Value): Option<Address> {
    if v.Bytes? && |v.bytes| == 20 then Some(v.bytes) else None
  }

  function GetBloom(v: Value): Option<Bloom> {
    if v.Bytes? && |v.bytes| == 256 then Some(v.bytes) else None
  }

  function GetUint64(v: Value): Option<uint64> {
    if v.Bytes? && |v.bytes| <= 8 then (UintFits(v.bytes); Some(FromBigEndian(v.bytes))) else None
  }

  function GetBigInt(v: Value): Option<nat> {
    if v.Bytes? then Some(FromBigEndian(v.bytes)) else None
  }

  lemma UintFits(s: seq<byte>)
    requires |s| <= 8
    ensures FromBigEndian(s) < TWO_64
  {
    FromBigEndianBound(s);
    EightBytes();
    PowerGrows(|s|, 8);
  }

  lemma {:induction false} PowerGrows(k: nat, n: nat)
    requires k <= n
    ensures Power256(k) <= Power256(n)
  {
    if k < n {
      PowerGrows(k, n - 1);
    }
  }

  lemma UintRoundTrip(x: uint64)
    ensures GetUint64(UintValue(x)) == Some(x)
  {
    EightBytes();
    BigEndianLength(x, 8);
    BigEndianRoundTrip(x);
  }

  lemma BigRoundTrip(x: int)
    ensures GetBigInt(BigValue(x)) == Some(Abs(x))
  {
    BigEndianRoundTrip(Abs(x));
  }

  // ---------- Layouts ----------

  /** The shortest string of bytes that reads as `n`: a scalar of appendix B of the Yellow
      Paper. */
  predicate IsScalar(v: Value, n: nat) {
    v.Bytes? && FromBigEndian(v.bytes) == n && (v.bytes != [] ==> v.bytes[0] != 0)
  }

  lemma UintIsScalar(x: uint64)
    ensures IsScalar(UintValue(x), x)
  {
    BigEndianRoundTrip(x);
  }

  lemma BigIsScalar(x: int)
    ensures IsScalar(BigValue(x), Abs(x))
  {
    BigEndianRoundTrip(Abs(x));
  }

  predicate IsString(v: Value, s: seq<byte>) {
    v.Bytes? && v.bytes == s
  }

  predicate HashesFirst(e: seq<Value>, h: Header) {
    && |e| == 15 && IsString(e[0], h.parentHash) && IsString(e[1], h.sha3Uncles) && IsString(e[2], h.miner)
    && IsString(e[3], h.stateRoot) && IsString(e[4], h.txRoot) && IsString(e[5], h.receiptsRoot)
    && IsString(e[6], h.logsBloom)
  }

  predicate ScalarsNext(e: seq<Value>, h: Header) {
    && |e| == 15 && IsScalar(e[7], h.difficulty) && IsScalar(e[8], h.number) && IsScalar(e[9], h.gasLimit)
    && IsScalar(e[10], h.gasUsed) && IsScalar(e[11], h.timestamp)
  }

  predicate SealLast(e: seq<Value>, h: Header) {
    |e| == 15 && IsString(e[12], h.extraData) && IsString(e[13], h.mixHash) && IsString(e[14], h.nonce)
  }

  lemma HeaderScalars(h: Header)
    ensures HeaderValue(h).List? && ScalarsNext(HeaderValue(h).items, h)
  {
    hide BigEndian, FromBigEndian, IsScalar, UintValue;
    UintIsScalar(h.difficulty);
    UintIsScalar(h.number);
    UintIsScalar(h.gasLimit);
    UintIsScalar(h.gasUsed);
    UintIsScalar(h.timestamp);
  }

  lemma HeaderEnds(h: Header)
    ensures HeaderValue(h).List? && HashesFirst(HeaderValue(h).items, h) && SealLast(HeaderValue(h).items, h)
  {
    hide UintValue;
  }

  /** A header is laid out as section 4.3 of the Yellow Paper orders its fields. */
  lemma HeaderLayout(h: Header)
    ensures HeaderValue(h).List?
    ensures var e := HeaderValue(h).items; HashesFirst(e, h) && ScalarsNext(e, h) && SealLast(e, h)
  {
    hide HeaderValue, HashesFirst, ScalarsNext, SealLast;
    HeaderScalars(h);
    HeaderEnds(h);
  }

  /** A transaction as section 4.2 does; no recipient is the empty string. */
  lemma TransactionLayout(t: Transaction)
    ensures TransactionValue(t).List? && |TransactionValue(t).items| == 9
    ensures var e := TransactionValue(t).items;
            && IsScalar(e[0], t.nonce) && IsScalar(e[1], Abs(t.gasPrice)) && IsScalar(e[2], t.gas)
            && IsString(e[3], if t.to.Some? then t.to.value else []) && IsScalar(e[4], Abs(t.value))
            && IsString(e[5], t.input) && IsScalar(e[6], Abs(t.v)) && IsScalar(e[7], Abs(t.r))
            && IsScalar(e[8], Abs(t.s))
  {
    hide BigEndian, FromBigEndian, IsScalar, UintValue, BigValue;
    UintIsScalar(t.nonce);
    UintIsScalar(t.gas);
    BigIsScalar(t.gasPrice);
    BigIsScalar(t.value);
    BigIsScalar(t.v);
    BigIsScalar(t.r);
    BigIsScalar(t.s);
  }

  /** A receipt as section 4.3.1 does: the status, or the state root of a receipt without one,
      then the gas used so far, the bloom filter and the logs. */
  lemma ReceiptLayout(r: Receipt)
    ensures ReceiptValue(r).List? && |ReceiptValue(r).items| == 4
    ensures var e := ReceiptValue(r).items;
            && (if r.status.Some? then IsScalar(e[0], r.status.value) else IsString(e[0], r.root))
            && IsScalar(e[1], r.cumulativeGasUsed) && IsString(e[2], r.logsBloom)
            && e[3].List? && |e[3].items| == |r.logs|
            && forall i :: 0 <= i < |r.logs| ==> IsLog(e[3].items[i], r.logs[i])
  {
    hide BigEndian, FromBigEndian;
    UintIsScalar(r.cumulativeGasUsed);
    if r.status.Some? {
      UintIsScalar(r.status.value);
    }
    hide IsScalar, UintValue;
    forall i | 0 <= i < |r.logs| ensures IsLog(LogValue(r.logs[i]), r.logs[i]) {
      LogLayout(r.logs[i]);
    }
    hide IsLog, LogValue;
  }

  /** Address, topics and data. */
  ghost predicate IsLog(v: Value, l: Log) {
    && v.List? && |v.items| == 3 && IsString(v.items[0], l.address) && IsString(v.items[2], l.data)
    && v.items[1].List? && |v.items[1].items| == |l.topics|
    && forall i :: 0 <= i < |l.topics| ==> IsString(v.items[1].items[i], l.topics[i])
  }

  lemma LogLayout(l: Log)
    ensures IsLog(LogValue(l), l)
  {
  }

  // ---------- Lists ----------

  function Mapped<T, U>(xs: seq<T>, f: T -> U): (r: seq<U>)
    ensures |r| == |xs| && forall i :: 0 <= i < |xs| ==> r[i] == f(xs[i])
  {
    seq(|xs|, i requires 0 <= i < |xs| => f(xs[i]))
  }

  lemma MappedSameIff<T, U>(xs: seq<T>, f: T -> U, g: T -> U)
    ensures Mapped(xs, f) == Mapped(xs, g) <==> forall i :: 0 <= i < |xs| ==> f(xs[i]) == g(xs[i])
  {
    forall i | 0 <= i < |xs| ensures Mapped(xs, f)[i] == f(xs[i]) && Mapped(xs, g)[i] == g(xs[i]) {
    }
    assert Mapped(xs, f) == Mapped(xs, g) <==> forall i :: 0 <= i < |xs| ==> Mapped(xs, f)[i] == Mapped(xs, g)[i];
  }

  function Same<T>(x: T): T {
    x
  }

  lemma MappedSame<T>(xs: seq<T>)
    ensures Mapped(xs, Same) == xs
  {
  }

  function DecodeAll<T>(elems: seq<Value>, f: Value -> Option<T>): Option<seq<T>> {
    if elems == [] then Some([]) else
      var n := |elems| - 1;
      var init :- DecodeAll(elems[..n], f);
      var last :- f(elems[n]);
      Some(init + [last])
  }

  /** Elements are decoded one by one; the first failure ends the loop. */
  method UnmarshalAll<T>(elems: seq<Value>, f: Value -> Option<T>) returns (r: Option<seq<T>>)
    ensures r == DecodeAll(elems, f)
  {
    var done := [];
    for i := 0 to |elems|
      invariant DecodeAll(elems[..i], f) == Some(done)
    {
      assert elems[..i + 1][..i] == elems[..i];
      var x := f(elems[i]);
      if x.None? {
        FailureStays(elems, f, i + 1);
        return None;
      }
      done := done + [x.value];
    }
    assert elems[..|elems|] == elems;
    r := Some(done);
  }

  lemma {:induction false} FailureStays<T>(elems: seq<Value>, f: Value -> Option<T>, k: nat)
    requires k <= |elems| && DecodeAll(elems[..k], f) == None
    ensures DecodeAll(elems, f) == None
    decreases |elems| - k
  {
    if k == |elems| {
      assert elems[..k] == elems;
    } else {
      assert elems[..k + 1][..k] == elems[..k];
      FailureStays(elems, f, k + 1);
    }
  }

  /** Element by element, a list is read back as its elements are. */
  lemma {:induction false} DecodeAllOfMapped<T>(xs: seq<T>, f: T -> Value, g: Value -> Option<T>, carried: T -> T)
    requires forall i :: 0 <= i < |xs| ==> g(f(xs[i])) == Some(carried(xs[i]))
    ensures DecodeAll(Mapped(xs, f), g) == Some(Mapped(xs, carried))
  {
    if xs != [] {
      var n := |xs| - 1;
      var vs := Mapped(xs, f);
      DecodeAllOfMapped(xs[..n], f, g, carried);
      assert vs[..n] == Mapped(xs[..n], f);
      assert vs[n] == f(xs[n]);
      assert Mapped(xs, carried) == Mapped(xs[..n], carried) + [carried(xs[n])];
    }
  }

  lemma DecodeAllExactly<T>(xs: seq<T>, f: T -> Value, g: Value -> Option<T>)
    requires forall i :: 0 <= i < |xs| ==> g(f(xs[i])) == Some(xs[i])
    ensures DecodeAll(Mapped(xs, f), g) == Some(xs)
  {
    DecodeAllOfMapped(xs, f, g, Same);
    MappedSame(xs);
  }

  // ---------- Header ----------

  function HeaderValue(h: Header): Value {
    List([Bytes(h.parentHash), Bytes(h.sha3Uncles), Bytes(h.miner), Bytes(h.stateRoot), Bytes(h.txRoot),
          Bytes(h.receiptsRoot), Bytes(h.logsBloom), UintValue(h.difficulty), UintValue(h.number),
          UintValue(h.gasLimit), UintValue(h.gasUsed), UintValue(h.timestamp), Bytes(h.extraData),
          Bytes(h.mixHash), Bytes(h.nonce)])
  }

  function DecodeHeader(v: Value): Option<Header> {
    var e :- GetElems(v);
    if |e| < 15 then None else
      var parentHash :- GetHash(e[0]);
      var sha3Uncles :- GetHash(e[1]);
      var miner :- GetBytes(e[2]);
      var stateRoot :- GetHash(e[3]);
      var txRoot :- GetHash(e[4]);
      var receiptsRoot :- GetHash(e[5]);
      var logsBloom :- GetBloom(e[6]);
      var difficulty :- GetUint64(e[7]);
      var number :- GetUint64(e[8]);
      var gasLimit :- GetUint64(e[9]);
      var gasUsed :- GetUint64(e[10]);
      var timestamp :- GetUint64(e[11]);
      var extraData :- GetBytes(e[12]);
      var mixHash :- GetHash(e[13]);
      var nonce :- GetUint64(e[14]);
      Some(Header(parentHash, sha3Uncles, miner, stateRoot, txRoot, receiptsRoot, logsBloom, difficulty, number,
                  gasLimit, gasUsed, timestamp, extraData, mixHash, Padded(nonce, 8)))
  }

  lemma HeaderRoundTrip(h: Header)
    ensures DecodeHeader(HeaderValue(h)) == Some(h)
  {
    hide BigEndian, FromBigEndian, Padded;
    UintRoundTrip(h.difficulty);
    UintRoundTrip(h.number);
    UintRoundTrip(h.gasLimit);
    UintRoundTrip(h.gasUsed);
    UintRoundTrip(h.timestamp);
    PaddedRoundTrip(h.nonce);
  }

  // ---------- Transaction ----------

  function ToValue(to: Option<Address>): Value {
    Bytes(match to case Some(x) => x case None => [])
  }

  function TransactionValue(t: Transaction): Value {
    List([UintValue(t.nonce), BigValue(t.gasPrice), UintValue(t.gas), ToValue(t.to), BigValue(t.value),
          Bytes(t.input), BigValue(t.v), BigValue(t.r), BigValue(t.s)])
  }

  /** Anything but a string of twenty bytes reads as no address. */
  function GetTo(v: Value): Option<Address> {
    GetAddr(v)
  }

  function DecodeTransaction(v: Value): Option<Transaction> {
    var e :- GetElems(v);
    if |e| < 9 then None else
      var nonce :- GetUint64(e[0]);
      var gasPrice :- GetBigInt(e[1]);
      var gas :- GetUint64(e[2]);
      var value :- GetBigInt(e[4]);
      var input :- GetBytes(e[5]);
      var sigV :- GetBigInt(e[6]);
      var sigR :- GetBigInt(e[7]);
      var sigS :- GetBigInt(e[8]);
      Some(Transaction(nonce, gasPrice, gas, GetTo(e[3]), value, input, sigV, sigR, sigS, ZERO_ADDRESS))
  }

  /** What the wire carries of a transaction. */
  function Carried(t: Transaction): Transaction {
    t.(gasPrice := Abs(t.gasPrice), value := Abs(t.value), v := Abs(t.v), r := Abs(t.r), s := Abs(t.s),
       from := ZERO_ADDRESS)
  }

  predicate NonNegative(t: Transaction) {
    t.gasPrice >= 0 && t.value >= 0 && t.v >= 0 && t.r >= 0 && t.s >= 0
  }

  lemma TransactionCarried(t: Transaction)
    ensures DecodeTransaction(TransactionValue(t)) == Some(Carried(t))
  {
    hide BigEndian, FromBigEndian;
    UintRoundTrip(t.nonce);
    UintRoundTrip(t.gas);
    BigRoundTrip(t.gasPrice);
    BigRoundTrip(t.value);
    BigRoundTrip(t.v);
    BigRoundTrip(t.r);
    BigRoundTrip(t.s);
  }

  /** All but the sender comes back exactly when no integer is negative. */
  lemma TransactionRoundTripIff(t: Transaction)
    ensures DecodeTransaction(TransactionValue(t)) == Some(t.(from := ZERO_ADDRESS)) <==> NonNegative(t)
  {
    hide DecodeTransaction, TransactionValue;
    TransactionCarried(t);
  }

  /** In the store the sender is kept beside the transaction. */
  function StoreTransactionValue(t: Transaction): Value {
    List([TransactionValue(t), Bytes(t.from)])
  }

  function DecodeStoreTransaction(v: Value): Option<Transaction> {
    var e :- GetElems(v);
    if |e| < 2 then None else
      var t :- DecodeTransaction(e[0]);
      var from :- GetAddr(e[1]);
      Some(t.(from := from))
  }

  function Kept(t: Transaction): Transaction {
    Carried(t).(from := t.from)
  }

  lemma StoreTransactionKept(t: Transaction)
    ensures DecodeStoreTransaction(StoreTransactionValue(t)) == Some(Kept(t))
  {
    hide DecodeTransaction, TransactionValue;
    TransactionCarried(t);
  }

  lemma StoreTransactionRoundTripIff(t: Transaction)
    ensures DecodeStoreTransaction(StoreTransactionValue(t)) == Some(t) <==> NonNegative(t)
  {
    hide DecodeStoreTransaction, StoreTransactionValue;
    StoreTransactionKept(t);
  }

  // ---------- Logs and receipts ----------

  function HashValue(h: Hash): Value {
    Bytes(h)
  }

  function LogValue(l: Log): Value {
    List([Bytes(l.address), List(Mapped(l.topics, HashValue)), Bytes(l.data)])
  }

  function DecodeLog(v: Value): Option<Log> {
    var e :- GetElems(v);
    if |e| < 3 then None else
      var address :- GetAddr(e[0]);
      var topicElems :- GetElems(e[1]);
      var topics :- DecodeAll(topicElems, GetHash);
      var data :- GetBytes(e[2]);
      Some(Log(address, topics, data))
  }

  lemma LogRoundTrip(l: Log)
    ensures DecodeLog(LogValue(l)) == Some(l)
  {
    DecodeAllExactly(l.topics, HashValue, GetHash);
  }

  function StatusValue(r: Receipt): Value {
    match r.status
    case Some(s) => UintValue(s)
    case None => Bytes(r.root)
  }

  function ReceiptValue(r: Receipt): Value {
    List([StatusValue(r), UintValue(r.cumulativeGasUsed), Bytes(r.logsBloom), List(Mapped(r.logs, LogValue))])
  }

  /** Thirty-two bytes are a state root, one byte is a status, anything else status zero. */
  function DecodeStatus(b: seq<byte>): (Hash, Option<uint64>) {
    if |b| == 32 then (b, None)
    else if |b| == 1 then (ZERO_HASH, Some(b[0]))
    else (ZERO_HASH, Some(0))
  }

  function DecodeReceipt(v: Value): Option<Receipt> {
    var e :- GetElems(v);
    if |e| < 4 then None else
      var b :- GetBytes(e[0]);
      var cumulativeGasUsed :- GetUint64(e[1]);
      var logsBloom :- GetBloom(e[2]);
      var logElems :- GetElems(e[3]);
      var logs :- DecodeAll(logElems, DecodeLog);
      var (root, status) := DecodeStatus(b);
      Some(Receipt(root, cumulativeGasUsed, logsBloom, logs, status, 0, None, ZERO_HASH))
  }

  /** A receipt with a status has no root to carry. */
  function RootOrStatus(r: Receipt): Receipt {
    if r.status.Some? then r.(root := ZERO_HASH) else r
  }

  function WithoutContext(r: Receipt): Receipt {
    r.(gasUsed := 0, contractAddress := None, txHash := ZERO_HASH)
  }

  /** The status as it is read back: one that needs more than a byte turns into failure. */
  function CarriedStatus(r: Receipt): Receipt {
    if r.status.Some? && r.status.value >= 256 then r.(status := Some(0)) else r
  }

  predicate StatusFits(r: Receipt) {
    r.status.Some? ==> r.status.value < 256
  }

  lemma SmallUint(x: uint64)
    ensures x == 0 ==> BigEndian(x) == []
    ensures 0 < x < 256 ==> BigEndian(x) == [x]
    ensures x >= 256 ==> |BigEndian(x)| >= 2 && |BigEndian(x)| <= 8
  {
    EightBytes();
    BigEndianLength(x, 8);
    assert 0 < x < 256 ==> BigEndian(x / 256) == [];
    assert x >= 256 ==> BigEndian(x / 256) != [];
  }

  lemma StatusRoundTrip(r: Receipt)
    ensures StatusValue(r).Bytes?
    ensures DecodeStatus(StatusValue(r).bytes) ==
            (RootOrStatus(CarriedStatus(r)).root, RootOrStatus(CarriedStatus(r)).status)
  {
    if r.status.Some? {
      SmallUint(r.status.value);
    }
  }

  lemma ReceiptCarried(r: Receipt)
    ensures DecodeReceipt(ReceiptValue(r)) == Some(WithoutContext(RootOrStatus(CarriedStatus(r))))
  {
    hide DecodeLog, LogValue, DecodeStatus, StatusValue, BigEndian, FromBigEndian;
    StatusRoundTrip(r);
    UintRoundTrip(r.cumulativeGasUsed);
    forall i | 0 <= i < |r.logs| ensures DecodeLog(LogValue(r.logs[i])) == Some(r.logs[i]) {
      LogRoundTrip(r.logs[i]);
    }
    DecodeAllExactly(r.logs, LogValue, DecodeLog);
  }

  /** The consensus fields come back exactly when the status, if any, is a single byte. */
  lemma ReceiptRoundTripIff(r: Receipt)
    ensures DecodeReceipt(ReceiptValue(r)) == Some(WithoutContext(RootOrStatus(r))) <==> StatusFits(r)
  {
    hide DecodeReceipt, ReceiptValue;
    ReceiptCarried(r);
  }

  method UnmarshalReceipt(v: Value) returns (r: Option<Receipt>)
    ensures r == DecodeReceipt(v)
  {
    hide DecodeLog, DecodeAll, FromBigEndian, DecodeStatus;
    if !v.List? || |v.items| < 4 || !v.items[0].Bytes? {
      return None;
    }
    var gas, bloom := GetUint64(v.items[1]), GetBloom(v.items[2]);
    if gas.None? || bloom.None? || !v.items[3].List? {
      return None;
    }
    var logs := UnmarshalAll(v.items[3].items, DecodeLog);
    if logs.None? {
      return None;
    }
    var (root, status) := DecodeStatus(v.items[0].bytes);
    r := Some(Receipt(root, gas.value, bloom.value, logs.value, status, 0, None, ZERO_HASH));
  }

  function StoreReceiptValue(r: Receipt): Value {
    List([ReceiptValue(r), ToValue(r.contractAddress), UintValue(r.gasUsed), Bytes(r.txHash)])
  }

  /** Shorter strings are padded on the left, longer ones lose their front. */
  function BytesToHash(b: seq<byte>): Hash {
    if |b| >= 32 then b[|b| - 32..] else Zeros(32 - |b|) + b
  }

  /** Old receipts have no transaction hash. */
  function DecodeStoreReceipt(v: Value): Option<Receipt> {
    var e :- GetElems(v);
    if |e| < 3 then None else
      var r :- DecodeReceipt(e[0]);
      var contract :- GetBytes(e[1]);
      var gasUsed :- GetUint64(e[2]);
      var q := r.(contractAddress := if |contract| == 20 then Some(contract) else None, gasUsed := gasUsed);
      if |e| != 4 then Some(q) else
        var hash :- GetBytes(e[3]);
        Some(q.(txHash := BytesToHash(hash)))
  }

  function KeptReceipt(r: Receipt): Receipt {
    RootOrStatus(CarriedStatus(r))
  }

  lemma StoreReceiptKept(r: Receipt)
    ensures DecodeStoreReceipt(StoreReceiptValue(r)) == Some(KeptReceipt(r))
  {
    hide DecodeReceipt, ReceiptValue, BigEndian, FromBigEndian;
    ReceiptCarried(r);
    UintRoundTrip(r.gasUsed);
    assert BytesToHash(r.txHash) == r.txHash;
  }

  lemma StoreReceiptRoundTripIff(r: Receipt)
    ensures DecodeStoreReceipt(StoreReceiptValue(r)) == Some(RootOrStatus(r)) <==> StatusFits(r)
  {
    hide DecodeStoreReceipt, StoreReceiptValue;
    StoreReceiptKept(r);
  }

  /** A receipt of the previous store format: everything but the transaction hash. */
  lemma OldStoreReceiptRoundTrip(r: Receipt)
    requires StatusFits(r)
    ensures DecodeStoreReceipt(List(StoreReceiptValue(r).items[..3])) == Some(RootOrStatus(r).(txHash := ZERO_HASH))
  {
    hide DecodeReceipt, ReceiptValue, BigEndian, FromBigEndian;
    ReceiptCarried(r);
    UintRoundTrip(r.gasUsed);
  }

  function ReceiptsValue(rs: seq<Receipt>): Value {
    List(Mapped(rs, StoreReceiptValue))
  }

  function DecodeStoreReceipts(v: Value): Option<seq<Receipt>> {
    var e :- GetElems(v);
    DecodeAll(e, DecodeStoreReceipt)
  }

  /** All but unused roots come back exactly when every status is a single byte. */
  lemma StoreReceiptsRoundTripIff(rs: seq<Receipt>)
    ensures DecodeStoreReceipts(ReceiptsValue(rs)) == Some(Mapped(rs, KeptReceipt))
    ensures DecodeStoreReceipts(ReceiptsValue(rs)) == Some(Mapped(rs, RootOrStatus)) <==>
            forall i :: 0 <= i < |rs| ==> StatusFits(rs[i])
  {
    hide DecodeStoreReceipt, StoreReceiptValue;
    forall i | 0 <= i < |rs| ensures DecodeStoreReceipt(StoreReceiptValue(rs[i])) == Some(KeptReceipt(rs[i])) {
      StoreReceiptKept(rs[i]);
    }
    DecodeAllOfMapped(rs, StoreReceiptValue, DecodeStoreReceipt, KeptReceipt);
    MappedSameIff(rs, KeptReceipt, RootOrStatus);
  }

  // ---------- Blocks ----------

  function BlockValue(b: Block): Value {
    List([HeaderValue(b.header), List(Mapped(b.transactions, TransactionValue)),
          List(Mapped(b.uncles, HeaderValue))])
  }

  function DecodeBlock(v: Value): Option<Block> {
    var e :- GetElems(v);
    if |e| < 3 then None else
      var header :- DecodeHeader(e[0]);
      var txElems :- GetElems(e[1]);
      var txs :- DecodeAll(txElems, DecodeTransaction);
      var uncleElems :- GetElems(e[2]);
      var uncles :- DecodeAll(uncleElems, DecodeHeader);
      Some(Block(header, txs, uncles))
  }

  /** The block as its loops build it, on the first failure none at all. */
  method UnmarshalBlock(v: Value) returns (r: Option<Block>)
    ensures r == DecodeBlock(v)
  {
    hide DecodeHeader, DecodeTransaction, DecodeAll;
    if !v.List? || |v.items| < 3 {
      return None;
    }
    var header := DecodeHeader(v.items[0]);
    if header.None? || !v.items[1].List? {
      return None;
    }
    var txs := UnmarshalAll(v.items[1].items, DecodeTransaction);
    if txs.None? || !v.items[2].List? {
      return None;
    }
    var uncles := UnmarshalAll(v.items[2].items, DecodeHeader);
    if uncles.None? {
      return None;
    }
    r := Some(Block(header.value, txs.value, uncles.value));
  }

  function CarriedBlock(b: Block): Block {
    b.(transactions := Mapped(b.transactions, Carried))
  }

  lemma HeadersRoundTrip(hs: seq<Header>)
    ensures DecodeAll(Mapped(hs, HeaderValue), DecodeHeader) == Some(hs)
  {
    hide DecodeHeader, HeaderValue;
    forall i | 0 <= i < |hs| ensures DecodeHeader(HeaderValue(hs[i])) == Some(hs[i]) {
      HeaderRoundTrip(hs[i]);
    }
    DecodeAllExactly(hs, HeaderValue, DecodeHeader);
  }

  lemma BlockCarried(b: Block)
    ensures DecodeBlock(BlockValue(b)) == Some(CarriedBlock(b))
  {
    hide DecodeHeader, HeaderValue, DecodeTransaction, TransactionValue, Carried;
    HeaderRoundTrip(b.header);
    HeadersRoundTrip(b.uncles);
    forall i | 0 <= i < |b.transactions|
      ensures DecodeTransaction(TransactionValue(b.transactions[i])) == Some(Carried(b.transactions[i]))
    {
      TransactionCarried(b.transactions[i]);
    }
    DecodeAllOfMapped(b.transactions, TransactionValue, DecodeTransaction, Carried);
  }

  /** A block whose transactions hold nothing the wire drops. */
  predicate OnWire(b: Block) {
    forall i :: 0 <= i < |b.transactions| ==> NonNegative(b.transactions[i]) && b.transactions[i].from == ZERO_ADDRESS
  }

  lemma CarriedIff(b: Block)
    ensures CarriedBlock(b) == b <==> OnWire(b)
  {
    MappedSameIff(b.transactions, Carried, Same);
    MappedSame(b.transactions);
  }

  lemma BlockRoundTripIff(b: Block)
    ensures DecodeBlock(BlockValue(b)) == Some(b) <==> OnWire(b)
  {
    hide DecodeBlock, BlockValue, CarriedBlock, OnWire;
    BlockCarried(b);
    CarriedIff(b);
  }

  function BodyValue(b: Body): Value {
    List([List(Mapped(b.transactions, StoreTransactionValue)), List(Mapped(b.uncles, HeaderValue))])
  }

  function DecodeBody(v: Value): Option<Body> {
    var e :- GetElems(v);
    if |e| < 2 then None else
      var txElems :- GetElems(e[0]);
      var txs :- DecodeAll(txElems, DecodeStoreTransaction);
      var uncleElems :- GetElems(e[1]);
      var uncles :- DecodeAll(uncleElems, DecodeHeader);
      Some(Body(txs, uncles))
  }

  method UnmarshalBody(v: Value) returns (r: Option<Body>)
    ensures r == DecodeBody(v)
  {
    hide DecodeHeader, DecodeStoreTransaction, DecodeAll;
    if !v.List? || |v.items| < 2 || !v.items[0].List? {
      return None;
    }
    var txs := UnmarshalAll(v.items[0].items, DecodeStoreTransaction);
    if txs.None? || !v.items[1].List? {
      return None;
    }
    var uncles := UnmarshalAll(v.items[1].items, DecodeHeader);
    if uncles.None? {
      return None;
    }
    r := Some(Body(txs.value, uncles.value));
  }

  /** A stored body comes back, senders and all, exactly when no integer is negative. */
  lemma BodyRoundTripIff(b: Body)
    ensures DecodeBody(BodyValue(b)) == Some(b) <==>
            forall i :: 0 <= i < |b.transactions| ==> NonNegative(b.transactions[i])
  {
    hide DecodeHeader, HeaderValue, DecodeStoreTransaction, StoreTransactionValue;
    HeadersRoundTrip(b.uncles);
    forall i | 0 <= i < |b.transactions|
      ensures DecodeStoreTransaction(StoreTransactionValue(b.transactions[i])) == Some(Kept(b.transactions[i]))
    {
      StoreTransactionKept(b.transactions[i]);
    }
    DecodeAllOfMapped(b.transactions, StoreTransactionValue, DecodeStoreTransaction, Kept);
    MappedSameIff(b.transactions, Kept, Same);
    MappedSame(b.transactions);
  }

  function MetadataValue(m: Metadata): Value {
    List([UintValue(m.latest), Bytes(m.latestHash)])
  }

  function DecodeMetadata(v: Value): Option<Metadata> {
    var e :- GetElems(v);
    if |e| < 2 then None else
      var latest :- GetUint64(e[0]);
      var latestHash :- GetHash(e[1]);
      Some(Metadata(latest, latestHash))
  }

  lemma MetadataRoundTrip(m: Metadata)
    ensures DecodeMetadata(MetadataValue(m)) == Some(m)
  {
    UintRoundTrip(m.latest);
  }

  // ---------- Down to bytes ----------

  /** Any of the records: what the values carry, the bytes carry. */
  function Unmarshal<T>(s: seq<byte>, f: Value -> Option<T>): Option<T> {
    var v :- Decode(s);
    f(v)
  }

  lemma MarshalRoundTrip<T>(v: Value, f: Value -> Option<T>)
    requires Fits(v)
    ensures Unmarshal(Encode(v), f) == f(v)
  {
    DecodeEncode(v);
  }

  /** Headers, transactions and receipts come back from their bytes. */
  lemma RecordBytesRoundTrip(h: Header, t: Transaction, r: Receipt)
    requires Fits(HeaderValue(h)) && Fits(TransactionValue(t)) && Fits(ReceiptValue(r))
    ensures Unmarshal(Encode(HeaderValue(h)), DecodeHeader) == Some(h)
    ensures Unmarshal(Encode(TransactionValue(t)), DecodeTransaction) == Some(t.(from := ZERO_ADDRESS)) <==> NonNegative(t)
    ensures Unmarshal(Encode(ReceiptValue(r)), DecodeReceipt) == Some(WithoutContext(RootOrStatus(r))) <==> StatusFits(r)
  {
    hide DecodeHeader, HeaderValue, DecodeTransaction, TransactionValue, DecodeReceipt, ReceiptValue;
    MarshalRoundTrip(HeaderValue(h), DecodeHeader);
    MarshalRoundTrip(TransactionValue(t), DecodeTransaction);
    MarshalRoundTrip(ReceiptValue(r), DecodeReceipt);
    HeaderRoundTrip(h);
    TransactionRoundTripIff(t);
    ReceiptRoundTripIff(r);
  }

  /** A block comes back from its bytes. */
  lemma BlockBytesRoundTrip(b: Block)
    requires Fits(BlockValue(b))
    ensures Unmarshal(Encode(BlockValue(b)), DecodeBlock) == Some(CarriedBlock(b))
    ensures Unmarshal(Encode(BlockValue(b)), DecodeBlock) == Some(b) <==> OnWire(b)
  {
    hide DecodeBlock, BlockValue, CarriedBlock, OnWire;
    MarshalRoundTrip(BlockValue(b), DecodeBlock);
    BlockCarried(b);
    CarriedIff(b);
  }

  /** So do the bodies and receipts of the store. */
  lemma StoreBytesRoundTrip(b: Body, rs: seq<Receipt>)
    requires Fits(BodyValue(b)) && Fits(ReceiptsValue(rs))
    ensures Unmarshal(Encode(BodyValue(b)), DecodeBody) == Some(b) <==>
            forall i :: 0 <= i < |b.transactions| ==> NonNegative(b.transactions[i])
    ensures Unmarshal(Encode(ReceiptsValue(rs)), DecodeStoreReceipts) == Some(Mapped(rs, RootOrStatus)) <==>
            forall i :: 0 <= i < |rs| ==> StatusFits(rs[i])
  {
    hide DecodeBody, BodyValue, DecodeStoreReceipts, ReceiptsValue;
    MarshalRoundTrip(BodyValue(b), DecodeBody);
    MarshalRoundTrip(ReceiptsValue(rs), DecodeStoreReceipts);
    BodyRoundTripIff(b);
    StoreReceiptsRoundTripIff(rs);
  }
}
