# YubiWallet transaction pipeline in Dafny

This project models the transaction half of YubiWallet, a command-line
Bitcoin wallet whose RSA key lives on a YubiKey. The package
`internal/transaction` has four steps:

- `Construct` builds an unsigned transaction and the digest to sign. The
  transaction has one input, which spends a given UTXO, and one output, which
  pays `amount - fee` to a recipient.
- `Sign` forwards the digest to the hardware signer.
- `AttachSignature` writes an unlocking script into the first input of the
  caller's transaction, in place. The script is a push of the signature
  followed by a push of the PEM-wrapped public key.
- `PrepareBroadcast` renders the transaction as lower-case hex.

The model is in six modules:

- `Wrappers`: `Option` and `Result`, the model's form of Go's
  `(value, error)` pairs.
- `Bytes`: bytes, the fixed-width integer types, little-endian encoding,
  two's-complement conversions and 64-bit wrap-around.
- `Hex`: `encoding/hex`, both encoding and decoding. The decoder reports
  Go's two error kinds, invalid byte and odd length, in Go's order.
- `Wire`: the btcd transaction types and their legacy (non-witness)
  serialization.
  - `MsgTx` is a class: `AddTxIn`, `AddTxOut` and `AttachSignature` update it
    in place.
  - The model includes a parser for the serialization, and the lemma
    `ParseSerialize` proves that the serialization is lossless.
- `Script`: the txscript `ScriptBuilder.AddData`.
  - It uses minimal (canonical) pushes.
  - It enforces the 520-byte element limit and the 10000-byte script limit.
  - Its error is sticky: once a push fails, later pushes change nothing.
  - A push parser shows that the pushed values read back.
- `Transaction`: the four operations.
  - `Construct` is an imperative method proved against `ConstructSpec`.
  - `AttachSignature` is a method that updates a `MsgTx`, proved against
    `AttachSpec`.
  - `Sign` and `PrepareBroadcast` are functions.

Foreign code enters as function-typed fields of two parameter records:
- `TxLibraries` holds address decoding, the pay-to-address script and
  SHA-256.
- `KeyLibraries` holds PKIX marshalling and PEM armouring.

Nothing is assumed about these functions beyond their types: a hash is 32
bytes, and decoding, script creation and marshalling may fail.

## Model

| member | source | states |
|---|---|---|
| Transaction.ConstructSpec | internal/transaction/transaction.go:23-67 | Checks run in a fixed order: UTXO hex first, then hash length, then fee, then recipient. A bad hex string gives `InvalidUtxoHash` with the decoder's error, whatever the other arguments are. A hash of the wrong length gives `UtxoHashLength` with that length. With a valid hash, `amount <= fee` gives `FeeExceedsAmount` whatever the recipient and the address decoder are, and an `amount - fee` beyond int64 gives `OutputOverflow`. After that, an address or script failure gives `RecipientScript`'s error (`InvalidRecipient` or `ScriptCreationFailed`). The result succeeds exactly when the hash is valid, `fee < amount`, `amount - fee` fits an int64, and the recipient's address and script both resolve. On success the tx has version 1 and lock time 0. It has one input: the outpoint is (decoded bytes in order, `utxoIndex`), the script is empty and the sequence is 0xffffffff. It has one output, worth `amount - fee > 0`, which pays to the recipient's script. The digest is SHA-256 of that tx's serialization. |
| Transaction.Construct | internal/transaction/transaction.go:23-67 | Builds a fresh `MsgTx`: version first, then the input, then the output. Succeeds exactly when `ConstructSpec` does. On success it returns a tx equal to the specified one and the specified digest. Every error returns a null tx, no digest, and the specified error. |
| Transaction.ConstructDigestCommits | internal/transaction/transaction.go:59-66 | The digest is SHA-256 of bytes that parse back to exactly the returned transaction, so it commits to every field of it. |
| Transaction.OutputValueAsWritten | internal/transaction/transaction.go:40-43 | The code's fee step: it fails exactly when `amount <= fee`, and otherwise yields `amount - fee` with 64-bit wrap-around. |
| Transaction.OutputValueAsWrittenWraps | internal/transaction/transaction.go:40-43 | Counterexample: with amount = 2^63-1 and fee = -1 the check passes, and the output value is -2^63. |
| Transaction.OutputValueAsWrittenNegative | internal/transaction/transaction.go:40-43 | After the check passes, the as-written output is non-positive exactly when `amount - fee` overflows int64, and that happens only for a negative fee. |
| Transaction.OutputValue | internal/transaction/transaction.go:40-43 | The corrected fee step. `amount <= fee` still gives `FeeExceedsAmount`, and a difference beyond int64 gives `OutputOverflow`. It succeeds exactly when `fee < amount` and `amount - fee` fits an int64, negative fees included. On success the value is exactly `amount - fee` and positive, and it is at most `amount` when the fee is non-negative. |
| Transaction.OutputValueAgrees | internal/transaction/transaction.go:40-43 | On every input where `amount - fee` does not overflow int64, which includes every non-negative fee, the corrected step and the code give the same result. |
| Transaction.RecipientScript | internal/transaction/transaction.go:45-54 | A failed address decode gives `InvalidRecipient`, and a failed pay-to-address script for a decoded address gives `ScriptCreationFailed`, each with the library's message. The step succeeds exactly when both succeed, and the result is that script. |
| Transaction.Sign | internal/transaction/transaction.go:69-76 | Succeeds exactly when the signer does. On success it returns the signer's signature unchanged; on failure it wraps the signer's error in `SigningFailed`. |
| Transaction.PemPublicKey | internal/transaction/transaction.go:80-88 | Succeeds exactly when PKIX marshalling does, and then returns the PEM block typed "RSA PUBLIC KEY" holding the DER bytes. A marshalling failure gives `KeyMarshalFailed`. |
| Transaction.UnlockingScript | internal/transaction/transaction.go:80-96 | A key error is passed on. The builder succeeds exactly when the key encodes and both the signature and the PEM block are at most 520 bytes. The script is then push(sig) followed by push(pem). It parses back to exactly those two values, in order. |
| Transaction.AttachSpec | internal/transaction/transaction.go:79-103 | Key and script errors come first, and only then "no inputs". The call succeeds exactly when the script builds and the tx has an input. On success only `txIn[0].signatureScript` changes, and it becomes the unlocking script. The version, lock time, outputs, number of inputs, input 0's outpoint and sequence, and all later inputs are unchanged. |
| Transaction.AttachSignature | internal/transaction/transaction.go:79-103 | Modifies only the caller's `MsgTx`. It succeeds exactly when `AttachSpec` does, and the new state is `AttachSpec` of the old one. On any error it returns that error and the tx is exactly as before. |
| Transaction.PrepareBroadcast | internal/transaction/transaction.go:105-111 | Returns lower-case hex, twice as long as the serialization, which hex-decodes to exactly the serialized bytes. |
| Transaction.BroadcastRoundTrip | internal/transaction/transaction.go:23-111 | Covers a successful `Construct` followed by a successful `AttachSignature`. The broadcast hex decodes and parses back to exactly the signed transaction. That transaction still has one input and one output. It spends the requested outpoint and pays `amount - fee` to the recipient's script. Its unlocking script parses as [signature, PEM key]. |
| Wire.NewHash | internal/transaction/transaction.go:31-34 | Succeeds exactly for 32 bytes and keeps them as given. Otherwise it reports the length. |
| Wire.NewTxIn | internal/transaction/transaction.go:36-37 | The input spends the given outpoint, has an empty unlocking script, and has sequence 0xffffffff. |
| Wire.MsgTx.constructor | internal/transaction/transaction.go:24 | The new tx has the given version, no inputs, no outputs, and lock time 0. |
| Wire.MsgTx.AddTxIn | internal/transaction/transaction.go:38 | Appends the input and changes nothing else. |
| Wire.MsgTx.AddTxOut | internal/transaction/transaction.go:57 | Appends the output and changes nothing else. |
| Wire.CompactSize | internal/transaction/transaction.go:60-61 | A count is encoded in 1 to 9 bytes. |
| Wire.ParseCompactSizeOf | internal/transaction/transaction.go:60-61 | Any count below 2^64 reads back from its CompactSize encoding, and the rest of the bytes are left over untouched. |
| Wire.ParseVarBytesOf | internal/transaction/transaction.go:60-61 | A length-prefixed script reads back exactly. |
| Wire.ParseTxInOf | internal/transaction/transaction.go:60-61 | A serialized input (outpoint, script, sequence) reads back exactly. |
| Wire.ParseTxOutOf | internal/transaction/transaction.go:60-61 | A serialized output (signed 64-bit value, script) reads back exactly. |
| Wire.ParseListOf | internal/transaction/transaction.go:60-61 | If an element codec round-trips, then a concatenated list of encodings reads back as the same list. |
| Wire.ParseInputsOf | internal/transaction/transaction.go:60-61 | The counted input list reads back exactly. |
| Wire.ParseOutputsOf | internal/transaction/transaction.go:60-61 | The counted output list reads back exactly. |
| Wire.ParseSerialize | internal/transaction/transaction.go:60-61 | The serialization is lossless: parsing it gives back the transaction. |
| Wire.SerializeInjective | internal/transaction/transaction.go:60-64 | Two transactions with the same serialization are equal, so the signed digest covers every field. |
| Wire.ParseUint32LE | internal/transaction/transaction.go:60-61 | A 4-byte little-endian field reads back. |
| Wire.ParseUint64LE | internal/transaction/transaction.go:60-61 | An 8-byte little-endian field reads back. |
| Bytes.FromLEOfLE | internal/transaction/transaction.go:60-61 | Little-endian encoding at a width that fits the value is inverted by decoding. |
| Bytes.SignedUnsigned32 | internal/transaction/transaction.go:24 | A signed 32-bit version survives the round trip through its unsigned wire form. |
| Bytes.SignedUnsigned64 | internal/transaction/transaction.go:56 | A signed 64-bit output value survives the round trip through its unsigned wire form. |
| Bytes.Wrap64 | internal/transaction/transaction.go:43 | Agrees with the exact result modulo 2^64, and equals it whenever it is in int64 range. |
| Hex.Encode | internal/transaction/transaction.go:110 | Output is lower-case hex of exactly twice the input length. |
| Hex.DecodeEncode | internal/transaction/transaction.go:110 | Decoding the encoding gives back the bytes. |
| Hex.DecodeOk | internal/transaction/transaction.go:26-29 | Decoding succeeds exactly on strings of hex digits of even length, and yields half as many bytes. |
| Hex.DecodeErrorKind | internal/transaction/transaction.go:26-29 | Decoding fails with invalid-byte exactly when some character is not a hex digit. It fails with odd-length exactly when all characters are hex digits and the length is odd. |
| Hex.EncodeDecode | internal/transaction/transaction.go:26-29 | Any decodable string re-encodes to its own lower-case form. |
| Script.PushData | internal/transaction/transaction.go:90-92 | A push is `CanonicalDataSize` bytes long and, unless it is a small-integer opcode, ends with the data. |
| Script.AddData | internal/transaction/transaction.go:90-93 | Fails exactly when the builder has already failed, the script would exceed 10000 bytes, or the data exceeds 520 bytes. On success it appends the canonical push. On failure the script is unchanged, and a failed builder stays as it is. |
| Script.AddTwoData | internal/transaction/transaction.go:90-93 | Two pushes on a fresh builder fail exactly when one of the elements exceeds 520 bytes. Otherwise the script is the two pushes in order. |
| Script.ParsePushData | internal/transaction/transaction.go:90-92 | Every canonical push reads back as its pushed value: `[0]` reads back as the empty value, since OP_0 pushes nothing. |
| Script.ParseTwoPushes | internal/transaction/transaction.go:90-93 | Two consecutive pushes read back as the two values, in order. |

## Left out

- `internal/yubi/yubi.go` is not part of this model. It covers PIV card discovery, key generation, PIN handling and randomized RSA-PSS signing on the device. `Sign` takes the signer as a function parameter, so the device's answer to the digest is an input.
- `main.go` is not part of this model. It only parses command-line flags and calls the four operations in sequence. `Transaction.BroadcastRoundTrip` states what that sequence yields.
- The library internals are function parameters with no properties beyond their types:
  - address decoding for main net (Base58Check, Bech32);
  - the pay-to-address script;
  - SHA-256;
  - PKIX marshalling of the RSA key;
  - PEM armouring.
- `pem.EncodeToMemory` is modelled as total. It can fail only on malformed headers, and this block has none.
- Serialization is the legacy form only. The transaction built here never has witness data, so the witness encoding is not modelled.
- Writes to a `bytes.Buffer` cannot fail, so the serialization error branches of `Construct` and `PrepareBroadcast` are not modelled. `PrepareBroadcast` returns only the string.
- `Wire.MsgTx` keeps its inputs as a sequence of values. Go holds `[]*TxIn`, so one input can be shared between transactions. That aliasing is not modelled: `AttachSignature` replaces element 0 of the sequence.
- Error messages are modelled as constructors of `Transaction.Error`; the text Go formats around them is left out. For a bad hex character, Go's error carries the offending byte; `Hex.DecodeError.InvalidByte` does not.
- `Wire.ParseSerialize` and the lemmas built on it require every count and script length to be below 2^64, the largest length CompactSize can write. A Go slice cannot be that long.
- `Transaction.ConstructSpec` states the hash bytes in the order given. chainhash never reverses them, even though block explorers display transaction ids byte-reversed.
- Transaction.ConstructSpec and Transaction.Construct: refuse an `amount - fee` beyond int64 with `OutputOverflow`, an error the code does not have; the code builds the wrapped, negative output instead (see Findings). Every other input, negative fees included, is treated as the code treats it.

## Findings

| source | as written | input that shows it | evidently intended | confidence | as-written member | corrected member |
|---|---|---|---|---|---|---|
| internal/transaction/transaction.go:40-43 | Only `amount <= fee` is refused; then `outputAmount := amount - fee` is computed in int64, which wraps around | amount = 9223372036854775807, fee = -1: the check passes and the output value is -9223372036854775808 | The output value is `amount - fee` and strictly positive, so an overflowing difference must be refused rather than wrapped | not executed | Transaction.OutputValueAsWritten (counterexample `Transaction.OutputValueAsWrittenWraps`, characterised by `Transaction.OutputValueAsWrittenNegative`) | Transaction.OutputValue (used by `ConstructSpec` and `Construct`; `Transaction.OutputValueAgrees` shows it matches the code on every input that does not overflow) |
