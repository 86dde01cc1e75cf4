/**
 * The part of btcd's `wire` package the signing pipeline relies on: a
 * transaction's outpoints, inputs and outputs, the mutable `MsgTx` that
 * `AddTxIn` and `AddTxOut` grow in place, and the legacy (non-witness)
 * serialization `MsgTx.Serialize` writes for a transaction that carries no
 * witness data:
 *
 *   version (int32, LE) | CompactSize #inputs | inputs | CompactSize #outputs
 *   | outputs | lock time (uint32, LE)
 *
 * where an input is a 32-byte previous-transaction hash, a uint32 LE output
 * index, a CompactSize-prefixed unlocking script and a uint32 LE sequence
 * number, and an output is an int64 LE value and a CompactSize-prefixed
 * locking script. `ParseTx` is an independent reader of that format; the
 * round-trip lemma `ParseSerialize` ties the two together.
 */
module Wire {
  import opened Wrappers
  import opened Bytes

  const HASH_SIZE: nat := 32

  /** `wire.TxVersion`: the version `NewMsgTx` is given by the signing pipeline. */
  const TX_VERSION: Int32 := 1

  /** `wire.MaxTxInSequenceNum`: the sequence number `NewTxIn` assigns. */
  const MAX_TX_IN_SEQUENCE_NUM: Uint32 := 0xffff_ffff

  /** `chainhash.Hash`: exactly 32 bytes, kept in the order given. */
  type Hash = s: seq<Byte> | |s| == HASH_SIZE witness seq(32, _ => 0)

  datatype OutPoint = OutPoint(hash: Hash, index: Uint32)

  datatype TxIn = TxIn(previousOutPoint: OutPoint, signatureScript: seq<Byte>, sequence: Uint32)

  datatype TxOut = TxOut(value: Int64, pkScript: seq<Byte>)

  /** The value of a `MsgTx` at one moment. */
  datatype Tx = Tx(version: Int32, txIn: seq<TxIn>, txOut: seq<TxOut>, lockTime: Uint32)

  /** `chainhash.NewHash`: fails with the offending length unless given exactly 32 bytes. */
  function NewHash(b: seq<Byte>): (r: Result<Hash, nat>)
    ensures r.Ok? <==> |b| == HASH_SIZE
    ensures r.Ok? ==> r.value == b
    ensures r.Err? ==> r.error == |b|
  {
    if |b| == HASH_SIZE then Ok(b) else Err(|b|)
  }

  /** `wire.NewTxIn(prevOut, nil, nil)`: no unlocking script, final sequence number. */
  function NewTxIn(prevOut: OutPoint): (ti: TxIn)
    ensures ti.previousOutPoint == prevOut
    ensures ti.signatureScript == [] && ti.sequence == MAX_TX_IN_SEQUENCE_NUM
  {
    TxIn(prevOut, [], MAX_TX_IN_SEQUENCE_NUM)
  }

  /** A `wire.MsgTx`, updated in place by the pipeline. */
  class MsgTx {
    var version: Int32
    var txIn: seq<TxIn>
    var txOut: seq<TxOut>
    var lockTime: Uint32

    /** The transaction this object currently holds. */
    function Value(): Tx
      reads this
    {
      Tx(version, txIn, txOut, lockTime)
    }

    /** `wire.NewMsgTx`: no inputs, no outputs, lock time zero. */
    constructor (version: Int32)
      ensures Value() == Tx(version, [], [], 0)
    {
      this.version := version;
      txIn := [];
      txOut := [];
      lockTime := 0;
    }

    /** `MsgTx.AddTxIn`: appends one input and changes nothing else. */
    method AddTxIn(ti: TxIn)
      modifies this
      ensures Value() == old(Value()).(txIn := old(txIn) + [ti])
    {
      txIn := txIn + [ti];
    }

    /** `MsgTx.AddTxOut`: appends one output and changes nothing else. */
    method AddTxOut(to: TxOut)
      modifies this
      ensures Value() == old(Value()).(txOut := old(txOut) + [to])
    {
      txOut := txOut + [to];
    }
  }

  // ---------------------------------------------------------------------
  // Serialization
  // ---------------------------------------------------------------------

  /** `WriteVarInt`: the shortest of the four CompactSize forms that holds `n` (as a uint64). */
  function CompactSize(n: nat): (r: seq<Byte>)
    ensures 1 <= |r| <= 9
  {
    if n < 0xfd then [n]
    else if n <= 0xffff then [0xfd] + LE(n, 2)
    else if n <= 0xffff_ffff then [0xfe] + LE(n, 4)
    else [0xff] + LE(n, 8)
  }

  /** `WriteVarBytes`: a CompactSize length followed by the bytes. */
  function VarBytes(b: seq<Byte>): (r: seq<Byte>)
  {
    CompactSize(|b|) + b
  }

  function SerializeOutPoint(op: OutPoint): (r: seq<Byte>)
  {
    op.hash + LE(op.index, 4)
  }

  function SerializeTxIn(ti: TxIn): (r: seq<Byte>)
  {
    SerializeOutPoint(ti.previousOutPoint) + VarBytes(ti.signatureScript) + LE(ti.sequence, 4)
  }

  /** The encodings of a list's elements, one after another. */
  function SerializeList<T>(encode: T -> seq<Byte>, xs: seq<T>): (r: seq<Byte>)
  {
    if xs == [] then [] else encode(xs[0]) + SerializeList(encode, xs[1..])
  }

  function SerializeTxOut(to: TxOut): (r: seq<Byte>)
  {
    LE(Unsigned64(to.value), 8) + VarBytes(to.pkScript)
  }


  /** The input count followed by the inputs. */
  function SerializeInputs(ins: seq<TxIn>): (r: seq<Byte>)
  {
    CompactSize(|ins|) + SerializeList(SerializeTxIn, ins)
  }

  /** The output count followed by the outputs. */
  function SerializeOutputs(outs: seq<TxOut>): (r: seq<Byte>)
  {
    CompactSize(|outs|) + SerializeList(SerializeTxOut, outs)
  }

  /** `MsgTx.Serialize` for a transaction without witness data. */
  function Serialize(tx: Tx): (r: seq<Byte>)
  {
    LE(Unsigned32(tx.version), 4) + SerializeInputs(tx.txIn) + SerializeOutputs(tx.txOut) + LE(tx.lockTime, 4)
  }

  /** Every length the encoding writes fits the uint64 a CompactSize carries. */
  predicate Encodable(tx: Tx)
  {
    && |tx.txIn| < TWO_64
    && |tx.txOut| < TWO_64
    && InsEncodable(tx.txIn)
    && OutsEncodable(tx.txOut)
  }

  predicate InEncodable(ti: TxIn)
  {
    |ti.signatureScript| < TWO_64
  }

  predicate OutEncodable(to: TxOut)
  {
    |to.pkScript| < TWO_64
  }

  predicate InsEncodable(ins: seq<TxIn>)
  {
    forall i :: 0 <= i < |ins| ==> InEncodable(ins[i])
  }

  predicate OutsEncodable(outs: seq<TxOut>)
  {
    forall i :: 0 <= i < |outs| ==> OutEncodable(outs[i])
  }

  // ---------------------------------------------------------------------
  // A reader for the same format
  // ---------------------------------------------------------------------

  /** A parsed value and the bytes after it. */
  type Parsed<T> = Option<(T, seq<Byte>)>

  function ParseUint32(b: seq<Byte>): (r: Parsed<Uint32>)
  {
    if |b| < 4 then None
    else
      Pow256Widths();
      Some((FromLE(b[..4]), b[4..]))
  }

  function ParseUint64(b: seq<Byte>): (r: Parsed<Uint64>)
  {
    if |b| < 8 then None
    else
      Pow256Widths();
      Some((FromLE(b[..8]), b[8..]))
  }

  /** `ReadVarInt`, which also refuses a value written in a longer form than needed. */
  function ParseCompactSize(b: seq<Byte>): (r: Parsed<nat>)
  {
    if |b| == 0 then None
    else if b[0] < 0xfd then Some((b[0], b[1..]))
    else
      var width := if b[0] == 0xfd then 2 else if b[0] == 0xfe then 4 else 8;
      var least := if b[0] == 0xfd then 0xfd else if b[0] == 0xfe then 0x1_0000 else 0x1_0000_0000;
      if |b| < 1 + width then None
      else
        var n := FromLE(b[1..1 + width]);
        if n < least then None else Some((n, b[1 + width..]))
  }

  function ParseVarBytes(b: seq<Byte>): (r: Parsed<seq<Byte>>)
  {
    match ParseCompactSize(b)
    case None => None
    case Some((n, r)) => if |r| < n then None else Some((r[..n], r[n..]))
  }

  function ParseOutPoint(b: seq<Byte>): (r: Parsed<OutPoint>)
  {
    if |b| < HASH_SIZE then None
    else
      match ParseUint32(b[HASH_SIZE..])
      case None => None
      case Some((index, r)) => Some((OutPoint(b[..HASH_SIZE], index), r))
  }

  function ParseTxIn(b: seq<Byte>): (r: Parsed<TxIn>)
  {
    match ParseOutPoint(b)
    case None => None
    case Some((op, r1)) =>
      match ParseVarBytes(r1)
      case None => None
      case Some((script, r2)) =>
        match ParseUint32(r2)
        case None => None
        case Some((sequence, r3)) => Some((TxIn(op, script, sequence), r3))
  }

  /** Reads `count` elements one after another. */
  function ParseList<T>(parse: seq<Byte> -> Parsed<T>, b: seq<Byte>, count: nat): (r: Parsed<seq<T>>)
    decreases count
  {
    if count == 0 then Some(([], b))
    else
      match parse(b)
      case None => None
      case Some((x, r1)) =>
        match ParseList(parse, r1, count - 1)
        case None => None
        case Some((xs, r2)) => Some(([x] + xs, r2))
  }

  function ParseTxOut(b: seq<Byte>): (r: Parsed<TxOut>)
  {
    match ParseUint64(b)
    case None => None
    case Some((value, r1)) =>
      match ParseVarBytes(r1)
      case None => None
      case Some((script, r2)) => Some((TxOut(Signed64(value), script), r2))
  }

  function ParseInputs(b: seq<Byte>): (r: Parsed<seq<TxIn>>)
  {
    match ParseCompactSize(b)
    case None => None
    case Some((n, r)) => ParseList(ParseTxIn, r, n)
  }

  function ParseOutputs(b: seq<Byte>): (r: Parsed<seq<TxOut>>)
  {
    match ParseCompactSize(b)
    case None => None
    case Some((n, r)) => ParseList(ParseTxOut, r, n)
  }

  /** Reads one whole transaction; trailing bytes are refused. */
  function ParseTx(b: seq<Byte>): (r: Option<Tx>)
  {
    match ParseUint32(b)
    case None => None
    case Some((version, r1)) =>
      match ParseInputs(r1)
      case None => None
      case Some((ins, r2)) =>
        match ParseOutputs(r2)
        case None => None
        case Some((outs, r3)) =>
          match ParseUint32(r3)
          case None => None
          case Some((lockTime, r4)) =>
            if r4 == [] then Some(Tx(Signed32(version), ins, outs, lockTime)) else None
  }

  // ---------------------------------------------------------------------
  // Round trip
  // ---------------------------------------------------------------------

  lemma ParseUint32LE(x: Uint32, rest: seq<Byte>)
    ensures ParseUint32(LE(x, 4) + rest) == Some((x, rest))
  {
    Pow256Widths();
    FromLEOfLE(x, 4);
    assert (LE(x, 4) + rest)[..4] == LE(x, 4);
    assert (LE(x, 4) + rest)[4..] == rest;
  }

  lemma ParseUint64LE(x: Uint64, rest: seq<Byte>)
    ensures ParseUint64(LE(x, 8) + rest) == Some((x, rest))
  {
    Pow256Widths();
    FromLEOfLE(x, 8);
    assert (LE(x, 8) + rest)[..8] == LE(x, 8);
    assert (LE(x, 8) + rest)[8..] == rest;
  }

  lemma ParseCompactSizeOf(n: nat, rest: seq<Byte>)
    requires n < TWO_64
    ensures ParseCompactSize(CompactSize(n) + rest) == Some((n, rest))
  {
    Pow256Widths();
    var b := CompactSize(n) + rest;
    if n < 0xfd {
      assert b[1..] == rest;
    } else {
      var width := if n <= 0xffff then 2 else if n <= 0xffff_ffff then 4 else 8;
      assert CompactSize(n) == [b[0]] + LE(n, width);
      FromLEOfLE(n, width);
      assert b[1..1 + width] == LE(n, width);
      assert b[1 + width..] == rest;
    }
  }

  lemma ParseVarBytesOf(s: seq<Byte>, rest: seq<Byte>)
    requires |s| < TWO_64
    ensures ParseVarBytes(VarBytes(s) + rest) == Some((s, rest))
  {
    ParseCompactSizeOf(|s|, s + rest);
    assert VarBytes(s) + rest == CompactSize(|s|) + (s + rest);
    assert (s + rest)[..|s|] == s && (s + rest)[|s|..] == rest;
  }

  lemma ParseTxInOf(ti: TxIn, rest: seq<Byte>)
    requires InEncodable(ti)
    ensures ParseTxIn(SerializeTxIn(ti) + rest) == Some((ti, rest))
  {
    var op := ti.previousOutPoint;
    var tail := VarBytes(ti.signatureScript) + LE(ti.sequence, 4) + rest;
    var b := SerializeTxIn(ti) + rest;
    assert b == op.hash + (LE(op.index, 4) + tail);
    assert b[HASH_SIZE..] == LE(op.index, 4) + tail;
    ParseUint32LE(op.index, tail);
    assert ParseOutPoint(b) == Some((op, tail));
    assert tail == VarBytes(ti.signatureScript) + (LE(ti.sequence, 4) + rest);
    ParseVarBytesOf(ti.signatureScript, LE(ti.sequence, 4) + rest);
    ParseUint32LE(ti.sequence, rest);
  }

  /**
   * Reading back a list: if every element that satisfies `ok` is read back
   * from its encoding whatever follows it, then so is a list of them.
   */
  lemma {:induction false} ParseListOf<T>(parse: seq<Byte> -> Parsed<T>, encode: T -> seq<Byte>, ok: T -> bool,
                                          xs: seq<T>, rest: seq<Byte>)
    requires forall x, r :: ok(x) ==> parse(encode(x) + r) == Some((x, r))
    requires forall i :: 0 <= i < |xs| ==> ok(xs[i])
    ensures ParseList(parse, SerializeList(encode, xs) + rest, |xs|) == Some((xs, rest))
  {
    if xs == [] {
      assert SerializeList(encode, xs) + rest == rest;
    } else {
      var tail := SerializeList(encode, xs[1..]) + rest;
      assert SerializeList(encode, xs) + rest == encode(xs[0]) + tail;
      assert ok(xs[0]);
      assert parse(encode(xs[0]) + tail) == Some((xs[0], tail));
      assert forall i :: 0 <= i < |xs[1..]| ==> ok(xs[1..][i]) by {
        forall i | 0 <= i < |xs[1..]| ensures ok(xs[1..][i]) {
          assert xs[1..][i] == xs[i + 1];
        }
      }
      ParseListOf(parse, encode, ok, xs[1..], rest);
      assert [xs[0]] + xs[1..] == xs;
    }
  }

  lemma ParseTxOutOf(to: TxOut, rest: seq<Byte>)
    requires OutEncodable(to)
    ensures ParseTxOut(SerializeTxOut(to) + rest) == Some((to, rest))
  {
    var tail := VarBytes(to.pkScript) + rest;
    assert SerializeTxOut(to) + rest == LE(Unsigned64(to.value), 8) + tail;
    ParseUint64LE(Unsigned64(to.value), tail);
    SignedUnsigned64(to.value);
    ParseVarBytesOf(to.pkScript, rest);
  }

  lemma Regroup(a: seq<Byte>, b: seq<Byte>, c: seq<Byte>, d: seq<Byte>)
    ensures a + b + c + d == a + (b + (c + d))
  {
  }

  lemma ParseInputsOf(ins: seq<TxIn>, rest: seq<Byte>)
    requires |ins| < TWO_64 && InsEncodable(ins)
    ensures ParseInputs(SerializeInputs(ins) + rest) == Some((ins, rest))
  {
    var body := SerializeList(SerializeTxIn, ins);
    assert SerializeInputs(ins) + rest == CompactSize(|ins|) + (body + rest);
    ParseCompactSizeOf(|ins|, body + rest);
    forall ti: TxIn, r: seq<Byte> | InEncodable(ti) ensures ParseTxIn(SerializeTxIn(ti) + r) == Some((ti, r)) {
      ParseTxInOf(ti, r);
    }
    ParseListOf(ParseTxIn, SerializeTxIn, InEncodable, ins, rest);
  }

  lemma ParseOutputsOf(outs: seq<TxOut>, rest: seq<Byte>)
    requires |outs| < TWO_64 && OutsEncodable(outs)
    ensures ParseOutputs(SerializeOutputs(outs) + rest) == Some((outs, rest))
  {
    var body := SerializeList(SerializeTxOut, outs);
    assert SerializeOutputs(outs) + rest == CompactSize(|outs|) + (body + rest);
    ParseCompactSizeOf(|outs|, body + rest);
    forall to: TxOut, r: seq<Byte> | OutEncodable(to) ensures ParseTxOut(SerializeTxOut(to) + r) == Some((to, r)) {
      ParseTxOutOf(to, r);
    }
    ParseListOf(ParseTxOut, SerializeTxOut, OutEncodable, outs, rest);
  }

  /**
   * Reading back a serialized transaction gives the very same transaction,
   * so the serialization is injective: equal bytes (and therefore equal
   * digests of them) mean equal transactions.
   */
  lemma ParseSerialize(tx: Tx)
    requires Encodable(tx)
    ensures ParseTx(Serialize(tx)) == Some(tx)
  {
    var lt := LE(tx.lockTime, 4);
    var r3 := lt;
    var r2 := SerializeOutputs(tx.txOut) + r3;
    var r1 := SerializeInputs(tx.txIn) + r2;
    var b := Serialize(tx);
    assert ParseUint32(b) == Some((Unsigned32(tx.version), r1)) by {
      Regroup(LE(Unsigned32(tx.version), 4), SerializeInputs(tx.txIn), SerializeOutputs(tx.txOut), lt);
      ParseUint32LE(Unsigned32(tx.version), r1);
    }
    assert ParseInputs(r1) == Some((tx.txIn, r2)) by {
      ParseInputsOf(tx.txIn, r2);
    }
    assert ParseOutputs(r2) == Some((tx.txOut, r3)) by {
      ParseOutputsOf(tx.txOut, r3);
    }
    assert ParseUint32(r3) == Some((tx.lockTime, [])) by {
      assert lt + [] == lt;
      ParseUint32LE(tx.lockTime, []);
    }
    ParseTxStep(b, Unsigned32(tx.version), r1, tx.txIn, r2, tx.txOut, r3, tx.lockTime);
    SignedUnsigned32(tx.version);
  }

  /** The four fields of a transaction read one after the other, with nothing left over. */
  lemma ParseTxStep(b: seq<Byte>, version: Uint32, r1: seq<Byte>, ins: seq<TxIn>, r2: seq<Byte>,
                    outs: seq<TxOut>, r3: seq<Byte>, lockTime: Uint32)
    requires ParseUint32(b) == Some((version, r1))
    requires ParseInputs(r1) == Some((ins, r2))
    requires ParseOutputs(r2) == Some((outs, r3))
    requires ParseUint32(r3) == Some((lockTime, []))
    ensures ParseTx(b) == Some(Tx(Signed32(version), ins, outs, lockTime))
  {
  }

  /** Corollary: two encodable transactions with the same serialization are equal. */
  lemma SerializeInjective(t1: Tx, t2: Tx)
    requires Encodable(t1) && Encodable(t2)
    requires Serialize(t1) == Serialize(t2)
    ensures t1 == t2
  {
    ParseSerialize(t1);
    ParseSerialize(t2);
  }
}
