/**
 * The signing pipeline of `internal/transaction`: `Construct` builds the
 * one-input, one-output unsigned transaction and the digest to sign,
 * `Sign` forwards that digest to the hardware signer, `AttachSignature`
 * writes the unlocking script into the first input in place, and
 * `PrepareBroadcast` renders the transaction as lower-case hex.
 *
 * Foreign code is a parameter: address decoding and the pay-to-address
 * script (btcutil, txscript), SHA-256, PKIX marshalling of the RSA key and
 * PEM armouring are fields of the records below, and the model relies on
 * nothing about them beyond their types (a hash is 32 bytes; decoding,
 * script creation and marshalling may fail).
 */
module Transaction {
  import opened Wrappers
  import opened Bytes
  import Hex
  import Wire
  import Script

  /** One constructor per error the pipeline can return. */
  datatype Error =
    | InvalidUtxoHash(cause: Hex.DecodeError)
    | UtxoHashLength(length: nat)
    | FeeExceedsAmount
    | OutputOverflow
    | InvalidRecipient(reason: string)
    | ScriptCreationFailed(reason: string)
    | SigningFailed(reason: string)
    | KeyMarshalFailed(reason: string)
    | ScriptBuildFailed(reason: string)
    | NoInputs

  /**
   * The library calls `Construct` makes: `btcutil.DecodeAddress` for main
   * net, `txscript.PayToAddrScript` on the decoded address (of a type this
   * model does not look into), and `sha256.Sum256`.
   */
  datatype TxLibraries<!Address> = TxLibraries(
    decodeAddress: string -> Result<Address, string>,
    payToAddrScript: Address -> Result<seq<Byte>, string>,
    sha256: seq<Byte> -> Wire.Hash)

  /** An `rsa.PublicKey`: modulus and public exponent. */
  datatype RsaPublicKey = RsaPublicKey(modulus: nat, exponent: int)

  /**
   * The library calls `AttachSignature` makes: `x509.MarshalPKIXPublicKey`
   * and `pem.EncodeToMemory` of a block with the given type and no headers
   * (which cannot fail).
   */
  datatype KeyLibraries = KeyLibraries(
    marshalPKIX: RsaPublicKey -> Result<seq<Byte>, string>,
    pemEncode: (string, seq<Byte>) -> seq<Byte>)

  /** The PEM block type the public key is wrapped in. */
  const PEM_TYPE: string := "RSA PUBLIC KEY"

  // ---------------------------------------------------------------------
  // Construct
  // ---------------------------------------------------------------------

  /** The unsigned transaction and the digest to be signed. */
  datatype Unsigned = Unsigned(tx: Wire.Tx, digest: Wire.Hash)

  /** The UTXO hash is hex for exactly 32 bytes. */
  predicate ValidUtxoHash(utxoHash: string)
  {
    Hex.Decode(utxoHash).Ok? && |Hex.Decode(utxoHash).value| == Wire.HASH_SIZE
  }

  /**
   * The output value as the code computes it: refuse `amount <= fee`, then
   * subtract in 64-bit two's-complement arithmetic, which wraps around.
   */
  function OutputValueAsWritten(amount: Int64, fee: Int64): (r: Result<Int64, Error>)
    ensures r.Err? <==> amount <= fee
    ensures r.Ok? ==> r.value == Wrap64(amount - fee)
  {
    if amount <= fee then Err(FeeExceedsAmount) else Ok(Wrap64(amount - fee))
  }

  /** With `fee = -1`, an amount of 2^63 - 1 passes the check and the output value wraps to -2^63. */
  lemma OutputValueAsWrittenWraps()
    ensures MAX_INT64 > -1
    ensures OutputValueAsWritten(MAX_INT64, -1) == Ok(MIN_INT64)
  {
  }

  /** Every wrapped result comes from a negative fee: the as-written check fails exactly when the subtraction overflows. */
  lemma {:induction false} OutputValueAsWrittenNegative(amount: Int64, fee: Int64)
    requires amount > fee
    ensures OutputValueAsWritten(amount, fee).value <= 0 <==> amount - fee > MAX_INT64
    ensures amount - fee > MAX_INT64 ==> fee < 0
  {
    if amount - fee > MAX_INT64 {
      assert Wrap64(amount - fee) == amount - fee - TWO_64;
    } else {
      assert Wrap64(amount - fee) == amount - fee;
    }
  }

  /**
   * The output value as intended: the fee must be below the amount and the
   * difference must fit an int64, so the output is exactly `amount - fee`
   * and positive. A negative fee is accepted as long as the sum fits.
   */
  function OutputValue(amount: Int64, fee: Int64): (r: Result<Int64, Error>)
    ensures r.Ok? <==> fee < amount && amount - fee <= MAX_INT64
    ensures amount <= fee ==> r == Err(FeeExceedsAmount)
    ensures fee < amount && amount - fee > MAX_INT64 ==> r == Err(OutputOverflow)
    ensures r.Ok? ==> r.value == amount - fee && 0 < r.value
    ensures r.Ok? && fee >= 0 ==> r.value <= amount
  {
    if amount <= fee then Err(FeeExceedsAmount)
    else if amount - fee > MAX_INT64 then Err(OutputOverflow)
    else Ok(amount - fee)
  }

  /**
   * The intended step and the code agree on every input whose difference
   * fits an int64, which includes every non-negative fee.
   */
  lemma OutputValueAgrees(amount: Int64, fee: Int64)
    requires amount - fee <= MAX_INT64
    ensures OutputValue(amount, fee) == OutputValueAsWritten(amount, fee)
    ensures fee >= 0 ==> amount - fee <= MAX_INT64
  {
  }

  /** The locking script for the recipient: decode the address, then build its script. */
  function RecipientScript<A>(lib: TxLibraries<A>, recipient: string): (r: Result<seq<Byte>, Error>)
    ensures lib.decodeAddress(recipient).Err? ==> r == Err(InvalidRecipient(lib.decodeAddress(recipient).error))
    ensures r.Ok? <==>
              lib.decodeAddress(recipient).Ok? && lib.payToAddrScript(lib.decodeAddress(recipient).value).Ok?
    ensures lib.decodeAddress(recipient).Ok? && lib.payToAddrScript(lib.decodeAddress(recipient).value).Err? ==>
              r == Err(ScriptCreationFailed(lib.payToAddrScript(lib.decodeAddress(recipient).value).error))
    ensures r.Ok? ==> r.value == lib.payToAddrScript(lib.decodeAddress(recipient).value).value
  {
    match lib.decodeAddress(recipient)
    case Err(msg) => Err(InvalidRecipient(msg))
    case Ok(addr) =>
      match lib.payToAddrScript(addr)
      case Err(msg) => Err(ScriptCreationFailed(msg))
      case Ok(script) => Ok(script)
  }

  /** The transaction `Construct` builds: one input spending `prevOut`, one output. */
  predicate IsUnsignedSpend(tx: Wire.Tx, prevOut: Wire.OutPoint, value: Int64, pkScript: seq<Byte>)
  {
    && tx.version == Wire.TX_VERSION
    && tx.lockTime == 0
    && tx.txIn == [Wire.TxIn(prevOut, [], Wire.MAX_TX_IN_SEQUENCE_NUM)]
    && tx.txOut == [Wire.TxOut(value, pkScript)]
  }

  /**
   * What `Construct` returns. The UTXO hash is checked first, then the fee,
   * then the recipient: an invalid hash fails whatever the other arguments,
   * and a fee that is not below the amount (or an output that would not fit
   * an int64) fails whatever the recipient and the address decoder. A failed
   * address decode or script creation is reported last. On success the transaction spends output
   * `utxoIndex` of the decoded hash (bytes in the order given) with an empty
   * unlocking script, pays `amount - fee > 0` to the recipient's script, and
   * the digest is SHA-256 of that very transaction's serialization.
   */
  function ConstructSpec<A>(lib: TxLibraries<A>, utxoHash: string, utxoIndex: Uint32, recipient: string,
                            amount: Int64, fee: Int64): (r: Result<Unsigned, Error>)
    ensures Hex.Decode(utxoHash).Err? ==> r == Err(InvalidUtxoHash(Hex.Decode(utxoHash).error))
    ensures Hex.Decode(utxoHash).Ok? && |Hex.Decode(utxoHash).value| != Wire.HASH_SIZE ==>
              r == Err(UtxoHashLength(|Hex.Decode(utxoHash).value|))
    ensures ValidUtxoHash(utxoHash) && amount <= fee ==> r == Err(FeeExceedsAmount)
    ensures ValidUtxoHash(utxoHash) && fee < amount && amount - fee > MAX_INT64 ==> r == Err(OutputOverflow)
    ensures ValidUtxoHash(utxoHash) && fee < amount && amount - fee <= MAX_INT64 && RecipientScript(lib, recipient).Err? ==>
              r == Err(RecipientScript(lib, recipient).error)
    ensures r.Ok? <==>
              ValidUtxoHash(utxoHash) && fee < amount && amount - fee <= MAX_INT64 && RecipientScript(lib, recipient).Ok?
    ensures r.Ok? ==>
              && 0 < amount - fee
              && IsUnsignedSpend(r.value.tx, Wire.OutPoint(Hex.Decode(utxoHash).value, utxoIndex), amount - fee,
                                 RecipientScript(lib, recipient).value)
              && r.value.digest == lib.sha256(Wire.Serialize(r.value.tx))
  {
    match Hex.Decode(utxoHash)
    case Err(e) => Err(InvalidUtxoHash(e))
    case Ok(bytes) =>
      match Wire.NewHash(bytes)
      case Err(n) => Err(UtxoHashLength(n))
      case Ok(hash) =>
        match OutputValue(amount, fee)
        case Err(e) => Err(e)
        case Ok(value) =>
          match RecipientScript(lib, recipient)
          case Err(e) => Err(e)
          case Ok(pkScript) =>
            var tx := Wire.Tx(Wire.TX_VERSION, [Wire.NewTxIn(Wire.OutPoint(hash, utxoIndex))],
                              [Wire.TxOut(value, pkScript)], 0);
            Ok(Unsigned(tx, lib.sha256(Wire.Serialize(tx))))
  }

  /**
   * The digest commits to the whole transaction: the bytes it hashes read
   * back as exactly the transaction returned.
   */
  lemma ConstructDigestCommits<A>(lib: TxLibraries<A>, utxoHash: string, utxoIndex: Uint32, recipient: string,
                                  amount: Int64, fee: Int64)
    requires ConstructSpec(lib, utxoHash, utxoIndex, recipient, amount, fee).Ok?
    requires |RecipientScript(lib, recipient).value| < TWO_64
    ensures var u := ConstructSpec(lib, utxoHash, utxoIndex, recipient, amount, fee).value;
            exists b :: u.digest == lib.sha256(b) && Wire.ParseTx(b) == Some(u.tx)
  {
    var u := ConstructSpec(lib, utxoHash, utxoIndex, recipient, amount, fee).value;
    assert Wire.InsEncodable(u.tx.txIn) by {
      assert Wire.InEncodable(u.tx.txIn[0]);
    }
    assert Wire.OutsEncodable(u.tx.txOut) by {
      assert Wire.OutEncodable(u.tx.txOut[0]);
    }
    Wire.ParseSerialize(u.tx);
    var b := Wire.Serialize(u.tx);
    assert u.digest == lib.sha256(b) && Wire.ParseTx(b) == Some(u.tx);
  }

  /**
   * `Construct`: builds the transaction in a `MsgTx`, input first, then
   * output, and hashes its serialization. Every failure returns no
   * transaction and no digest.
   */
  method Construct<A>(lib: TxLibraries<A>, utxoHash: string, utxoIndex: Uint32, recipient: string,
                      amount: Int64, fee: Int64)
    returns (tx: Wire.MsgTx?, digest: Option<Wire.Hash>, err: Option<Error>)
    ensures var spec := ConstructSpec(lib, utxoHash, utxoIndex, recipient, amount, fee);
            && (err.Some? <==> spec.Err?)
            && (err.Some? ==> tx == null && digest == None && err.value == spec.error)
            && (err.None? ==> tx != null && fresh(tx) && tx.Value() == spec.value.tx
                              && digest == Some(spec.value.digest))
  {
    var t := new Wire.MsgTx(Wire.TX_VERSION);

    var utxoHashBytes := Hex.Decode(utxoHash);
    if utxoHashBytes.Err? {
      return null, None, Some(InvalidUtxoHash(utxoHashBytes.error));
    }

    var hashedUtxo := Wire.NewHash(utxoHashBytes.value);
    if hashedUtxo.Err? {
      return null, None, Some(UtxoHashLength(hashedUtxo.error));
    }

    var utxo := Wire.OutPoint(hashedUtxo.value, utxoIndex);
    t.AddTxIn(Wire.NewTxIn(utxo));

    var outputAmount := OutputValue(amount, fee);
    if outputAmount.Err? {
      return null, None, Some(outputAmount.error);
    }

    var addr := lib.decodeAddress(recipient);
    if addr.Err? {
      return null, None, Some(InvalidRecipient(addr.error));
    }

    var script := lib.payToAddrScript(addr.value);
    if script.Err? {
      return null, None, Some(ScriptCreationFailed(script.error));
    }

    t.AddTxOut(Wire.TxOut(outputAmount.value, script.value));

    var buf := Wire.Serialize(t.Value());
    tx, digest, err := t, Some(lib.sha256(buf)), None;
  }

  // ---------------------------------------------------------------------
  // Sign
  // ---------------------------------------------------------------------

  /**
   * `Sign`: hands the digest to the hardware signer and passes its answer
   * on, wrapping a failure.
   */
  function Sign(signer: seq<Byte> -> Result<seq<Byte>, string>, hash: seq<Byte>): (r: Result<seq<Byte>, Error>)
    ensures r.Ok? <==> signer(hash).Ok?
    ensures r.Ok? ==> r.value == signer(hash).value
    ensures r.Err? ==> r.error == SigningFailed(signer(hash).error)
  {
    match signer(hash)
    case Err(msg) => Err(SigningFailed(msg))
    case Ok(sig) => Ok(sig)
  }

  // ---------------------------------------------------------------------
  // AttachSignature
  // ---------------------------------------------------------------------

  /** The PEM armour of the key's PKIX encoding, when the key can be marshalled. */
  function PemPublicKey(lib: KeyLibraries, pubKey: RsaPublicKey): (r: Result<seq<Byte>, Error>)
    ensures r.Ok? <==> lib.marshalPKIX(pubKey).Ok?
    ensures r.Ok? ==> r.value == lib.pemEncode(PEM_TYPE, lib.marshalPKIX(pubKey).value)
    ensures r.Err? ==> r.error == KeyMarshalFailed(lib.marshalPKIX(pubKey).error)
  {
    match lib.marshalPKIX(pubKey)
    case Err(msg) => Err(KeyMarshalFailed(msg))
    case Ok(der) => Ok(lib.pemEncode(PEM_TYPE, der))
  }

  /**
   * The unlocking script: a push of the signature, then a push of the
   * PEM-wrapped key. The builder fails exactly when either is longer than
   * the 520-byte element limit; the script then reads back as the two
   * pushed values, in order.
   */
  function UnlockingScript(lib: KeyLibraries, sig: seq<Byte>, pubKey: RsaPublicKey): (r: Result<seq<Byte>, Error>)
    ensures PemPublicKey(lib, pubKey).Err? ==> r == Err(PemPublicKey(lib, pubKey).error)
    ensures r.Ok? <==>
              && PemPublicKey(lib, pubKey).Ok?
              && |sig| <= Script.MAX_SCRIPT_ELEMENT_SIZE
              && |PemPublicKey(lib, pubKey).value| <= Script.MAX_SCRIPT_ELEMENT_SIZE
    ensures r.Ok? ==>
              && r.value == Script.PushData(sig) + Script.PushData(PemPublicKey(lib, pubKey).value)
              && Script.ParsePushes(r.value)
                 == Some([Script.PushedValue(sig), Script.PushedValue(PemPublicKey(lib, pubKey).value)])
  {
    match PemPublicKey(lib, pubKey)
    case Err(e) => Err(e)
    case Ok(pem) =>
      var b := Script.AddData(Script.AddData(Script.NewBuilder(), sig), pem);
      Script.AddTwoData(sig, pem);
      if b.err.Some? then Err(ScriptBuildFailed(b.err.value))
      else
        Script.ParseTwoPushes(sig, pem);
        Ok(b.script)
  }

  /**
   * What `AttachSignature` does to a transaction: the key is encoded and the
   * script built before the inputs are looked at, so those errors come
   * first; a transaction without inputs is refused; otherwise only the first
   * input's unlocking script changes.
   */
  function AttachSpec(lib: KeyLibraries, tx: Wire.Tx, sig: seq<Byte>, pubKey: RsaPublicKey): (r: Result<Wire.Tx, Error>)
    ensures UnlockingScript(lib, sig, pubKey).Err? ==> r == Err(UnlockingScript(lib, sig, pubKey).error)
    ensures UnlockingScript(lib, sig, pubKey).Ok? && tx.txIn == [] ==> r == Err(NoInputs)
    ensures r.Ok? <==> UnlockingScript(lib, sig, pubKey).Ok? && tx.txIn != []
    ensures r.Ok? ==>
              && r.value.version == tx.version
              && r.value.lockTime == tx.lockTime
              && r.value.txOut == tx.txOut
              && |r.value.txIn| == |tx.txIn|
              && r.value.txIn[0].previousOutPoint == tx.txIn[0].previousOutPoint
              && r.value.txIn[0].sequence == tx.txIn[0].sequence
              && r.value.txIn[0].signatureScript == UnlockingScript(lib, sig, pubKey).value
              && r.value.txIn[1..] == tx.txIn[1..]
  {
    match UnlockingScript(lib, sig, pubKey)
    case Err(e) => Err(e)
    case Ok(script) =>
      if |tx.txIn| == 0 then Err(NoInputs)
      else Ok(tx.(txIn := tx.txIn[0 := tx.txIn[0].(signatureScript := script)]))
  }

  /**
   * `AttachSignature`: on success the caller's transaction becomes
   * `AttachSpec` of what it was; on failure it is left exactly as it was.
   */
  method AttachSignature(lib: KeyLibraries, tx: Wire.MsgTx, sig: seq<Byte>, pubKey: RsaPublicKey)
    returns (err: Option<Error>)
    modifies tx
    ensures var spec := AttachSpec(lib, old(tx.Value()), sig, pubKey);
            && (err.None? <==> spec.Ok?)
            && (err.None? ==> tx.Value() == spec.value)
            && (err.Some? ==> err.value == spec.error && tx.Value() == old(tx.Value()))
  {
    var pubKeyDer := lib.marshalPKIX(pubKey);
    if pubKeyDer.Err? {
      return Some(KeyMarshalFailed(pubKeyDer.error));
    }

    var pubKeyPem := lib.pemEncode(PEM_TYPE, pubKeyDer.value);

    var builder := Script.AddData(Script.AddData(Script.NewBuilder(), sig), pubKeyPem);
    if builder.err.Some? {
      return Some(ScriptBuildFailed(builder.err.value));
    }

    if |tx.txIn| == 0 {
      return Some(NoInputs);
    }
    tx.txIn := tx.txIn[0 := tx.txIn[0].(signatureScript := builder.script)];
    return None;
  }

  // ---------------------------------------------------------------------
  // PrepareBroadcast
  // ---------------------------------------------------------------------

  /**
   * `PrepareBroadcast`: the serialization as lower-case hex, two characters
   * per byte, which decodes back to exactly the serialized bytes.
   */
  function PrepareBroadcast(tx: Wire.MsgTx): (s: string)
    reads tx
    ensures |s| == 2 * |Wire.Serialize(tx.Value())|
    ensures Hex.IsLowerHex(s)
    ensures Hex.Decode(s) == Ok(Wire.Serialize(tx.Value()))
  {
    var buf := Wire.Serialize(tx.Value());
    Hex.DecodeEncode(buf);
    Hex.Encode(buf)
  }

  /**
   * The whole pipeline read back: once `Construct` has succeeded and
   * `AttachSignature` has turned the transaction into `signed`, the
   * broadcast hex decodes and parses to exactly `signed`, which still spends
   * the requested outpoint, still pays `amount - fee` to the recipient's
   * script, and carries an unlocking script that reads back as the
   * signature and the PEM-wrapped key.
   */
  lemma BroadcastRoundTrip<A>(txLib: TxLibraries<A>, keyLib: KeyLibraries, utxoHash: string, utxoIndex: Uint32,
                              recipient: string, amount: Int64, fee: Int64, sig: seq<Byte>, pubKey: RsaPublicKey,
                              tx: Wire.MsgTx)
    requires ConstructSpec(txLib, utxoHash, utxoIndex, recipient, amount, fee).Ok?
    requires |RecipientScript(txLib, recipient).value| < TWO_64
    requires AttachSpec(keyLib, ConstructSpec(txLib, utxoHash, utxoIndex, recipient, amount, fee).value.tx, sig, pubKey).Ok?
    requires tx.Value()
             == AttachSpec(keyLib, ConstructSpec(txLib, utxoHash, utxoIndex, recipient, amount, fee).value.tx, sig, pubKey).value
    ensures Hex.Decode(PrepareBroadcast(tx)).Ok?
    ensures Wire.ParseTx(Hex.Decode(PrepareBroadcast(tx)).value) == Some(tx.Value())
    ensures |tx.txIn| == 1 && |tx.txOut| == 1
    ensures tx.txIn[0].previousOutPoint == Wire.OutPoint(Hex.Decode(utxoHash).value, utxoIndex)
    ensures tx.txOut[0] == Wire.TxOut(amount - fee, RecipientScript(txLib, recipient).value)
    ensures Script.ParsePushes(tx.txIn[0].signatureScript)
            == Some([Script.PushedValue(sig), Script.PushedValue(PemPublicKey(keyLib, pubKey).value)])
  {
    var signed := tx.Value();
    assert |signed.txIn| == 1 && |signed.txOut| == 1;
    assert Wire.InsEncodable(signed.txIn) by {
      assert |signed.txIn[0].signatureScript| <= 2 * (Script.MAX_SCRIPT_ELEMENT_SIZE + 5);
      assert Wire.InEncodable(signed.txIn[0]);
    }
    assert Wire.OutsEncodable(signed.txOut) by {
      assert Wire.OutEncodable(signed.txOut[0]);
    }
    Wire.ParseSerialize(signed);
  }
}
