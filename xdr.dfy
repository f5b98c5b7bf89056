/** The parts of the Stellar XDR transaction types that `tx set v0` reads or
    writes. Encoding and decoding are not modelled: every value here is the
    decoded, in-memory form. Payloads the command never looks inside are kept
    as uninterpreted byte strings. */
module Xdr {
  import opened Wrappers

  const U32_MAX: int := 0xFFFF_FFFF
  const U64_MAX: int := 0xFFFF_FFFF_FFFF_FFFF
  const I64_MIN: int := -0x8000_0000_0000_0000
  const I64_MAX: int := 0x7FFF_FFFF_FFFF_FFFF

  type U8 = x: int | 0 <= x < 0x100
  type U32 = x: int | 0 <= x <= U32_MAX
  type U64 = x: int | 0 <= x <= U64_MAX
  type I64 = x: int | I64_MIN <= x <= I64_MAX

  /** `StringM<28>`: a byte string of at most 28 bytes. */
  type StringM28 = s: seq<U8> | |s| <= 28

  /** `Hash` and `Uint256`: exactly 32 bytes. */
  type Hash = s: seq<U8> | |s| == 32 witness seq(32, _ => 0)

  /** `SequenceNumber(i64)`; `i64::into()` is this constructor. */
  datatype SequenceNumber = SequenceNumber(value: I64)

  /** `TimePoint(u64)`; `u64::into()` is this constructor. */
  datatype TimePoint = TimePoint(value: U64)

  datatype TimeBounds = TimeBounds(minTime: TimePoint, maxTime: TimePoint)

  datatype Memo =
    | MemoNone
    | MemoText(text: StringM28)
    | MemoId(id: U64)
    | MemoHash(hash: Hash)
    | MemoReturn(retHash: Hash)

  /** An operation of the transaction; the command never inspects one. */
  datatype Operation = Operation(body: seq<U8>)

  datatype DecoratedSignature = DecoratedSignature(hint: seq<U8>, signature: seq<U8>)

  /** `TransactionV0`: the legacy transaction body. */
  datatype TransactionV0 = TransactionV0(
    sourceAccountEd25519: Hash,
    fee: U32,
    seqNum: SequenceNumber,
    timeBounds: Option<TimeBounds>,
    memo: Memo,
    operations: seq<Operation>,
    ext: seq<U8>)

  datatype TransactionV0Envelope = TransactionV0Envelope(
    tx: TransactionV0,
    signatures: seq<DecoratedSignature>)

  /** The current-format envelope, carried as its undecoded body. */
  datatype TransactionV1Envelope = TransactionV1Envelope(body: seq<U8>)

  /** The fee-bump wrapper envelope, carried as its undecoded body. */
  datatype FeeBumpTransactionEnvelope = FeeBumpTransactionEnvelope(body: seq<U8>)

  /** `TransactionEnvelope`: exactly one of the three formats. */
  datatype TransactionEnvelope =
    | TxV0(v0: TransactionV0Envelope)
    | Tx(v1: TransactionV1Envelope)
    | TxFeeBump(feeBump: FeeBumpTransactionEnvelope)
}
