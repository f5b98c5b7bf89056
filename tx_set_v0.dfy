/** `tx set v0`: overwrite the sequence number, fee, time bounds and memo of a
    legacy (v0) transaction envelope, and refuse every other envelope format. */
module TxSetV0 {
  import opened Wrappers
  import opened Xdr

  /** The command's single error: the envelope is not in the v0 format. */
  datatype Error = Unsupported

  /** The last value present in a run of overwrites applied in order to
      `current`: each `Some(v)` replaces what was there, each `None` keeps it. */
  function LastPresent<T>(writes: seq<Option<T>>, current: T): (r: T)
    ensures (forall i | 0 <= i < |writes| :: writes[i].None?) ==> r == current
    ensures forall i | 0 <= i < |writes| && writes[i].Some? ::
              (forall j | i < j < |writes| :: writes[j].None?) ==> r == writes[i].value
    decreases |writes|
  {
    if writes == [] then current
    else LastPresent(writes[1..], writes[0].UnwrapOr(current))
  }

  /** The eight optional inputs of the command, one field per flag. The memo
      flags are declared mutually exclusive to the argument parser, which the
      command itself does not re-check; see `MemoOptionsExclusive`. */
  datatype Cmd = Cmd(
    sequenceNumber: Option<I64>,
    fee: Option<U32>,
    maxTimeBound: Option<U64>,
    minTimeBound: Option<U64>,
    memoText: Option<StringM28>,
    memoId: Option<U64>,
    memoHash: Option<Hash>,
    memoReturn: Option<Hash>)
  {
    /** The `conflicts_with` declarations: at most one memo flag is given. */
    predicate MemoOptionsExclusive() {
      && (memoText.Some? ==> memoId.None? && memoHash.None? && memoReturn.None?)
      && (memoId.Some? ==> memoHash.None? && memoReturn.None?)
      && (memoHash.Some? ==> memoReturn.None?)
    }

    predicate HasMemoOption() {
      memoText.Some? || memoId.Some? || memoHash.Some? || memoReturn.Some?
    }

    /** The time bounds the command sets: absent when neither bound is given;
        otherwise the given bounds, a missing minimum read as 0 and a missing
        maximum as the largest u64. */
    function TimeBounds(): (r: Option<Xdr.TimeBounds>)
      ensures r.None? <==> minTimeBound.None? && maxTimeBound.None?
      ensures r.Some? && minTimeBound.Some? ==> r.value.minTime.value == minTimeBound.value
      ensures r.Some? && minTimeBound.None? ==> r.value.minTime.value == 0
      ensures r.Some? && maxTimeBound.Some? ==> r.value.maxTime.value == maxTimeBound.value
      ensures r.Some? && maxTimeBound.None? ==> r.value.maxTime.value == U64_MAX
    {
      match (minTimeBound, maxTimeBound)
      case (Some(minTime), Some(maxTime)) =>
        Some(Xdr.TimeBounds(TimePoint(minTime), TimePoint(maxTime)))
      case (min, Some(maxTime)) =>
        Some(Xdr.TimeBounds(TimePoint(min.UnwrapOr(0)), TimePoint(maxTime)))
      case (Some(minTime), max) =>
        Some(Xdr.TimeBounds(TimePoint(minTime), TimePoint(max.UnwrapOr(U64_MAX))))
      case _ => None
    }

    /** The memo writes of `Run`, in the order it performs them. */
    function MemoWrites(): seq<Option<Memo>> {
      [ if memoText.Some? then Some(MemoText(memoText.value)) else None,
        if memoId.Some? then Some(MemoId(memoId.value)) else None,
        if memoHash.Some? then Some(MemoHash(memoHash.value)) else None,
        if memoReturn.Some? then Some(MemoReturn(memoReturn.value)) else None ]
    }

    /** The memo after the command's memo writes, starting from `memo`: kept
        when no memo flag is given, otherwise the last flag given in the order
        text, id, hash, return. */
    function MemoAfter(memo: Memo): (r: Memo)
      ensures !HasMemoOption() ==> r == memo
      ensures memoReturn.Some? ==> r == MemoReturn(memoReturn.value)
      ensures memoHash.Some? && memoReturn.None? ==> r == MemoHash(memoHash.value)
      ensures memoId.Some? && memoHash.None? && memoReturn.None? ==> r == MemoId(memoId.value)
      ensures memoText.Some? && memoId.None? && memoHash.None? && memoReturn.None? ==>
                r == MemoText(memoText.value)
    {
      var w := MemoWrites();
      assert w[1].Some? <==> memoId.Some?;
      assert w[2].Some? <==> memoHash.Some?;
      assert w[3].Some? <==> memoReturn.Some?;
      LastPresent(w, memo)
    }

    /** The v0 transaction after the command: each given field replaced, every
        other field as it was. */
    function ApplyToV0(tx: TransactionV0): TransactionV0 {
      tx.(
        seqNum := if sequenceNumber.Some? then SequenceNumber(sequenceNumber.value) else tx.seqNum,
        fee := fee.UnwrapOr(tx.fee),
        timeBounds := if TimeBounds().Some? then TimeBounds() else tx.timeBounds,
        memo := MemoAfter(tx.memo))
    }

    /** The outcome of `Run` on `env`: the result and the envelope afterwards. */
    function Apply(env: TransactionEnvelope): (r: (Result<(), Error>, TransactionEnvelope))
      ensures r.0.Ok? <==> env.TxV0?
      ensures r.0.Err? ==> r.0.error == Unsupported && r.1 == env
      ensures r.1.TxV0? <==> env.TxV0?
      ensures env.TxV0? ==> r.1.v0.signatures == env.v0.signatures
    {
      match env
      case TxV0(txEnv) => (Ok(()), TxV0(txEnv.(tx := ApplyToV0(txEnv.tx))))
      case Tx(_) => (Err(Unsupported), env)
      case TxFeeBump(_) => (Err(Unsupported), env)
    }

    /** `Cmd::run`: on a v0 envelope, overwrite each field whose flag is given,
        in the source's order; on any other envelope, fail untouched. */
    method Run(target: EnvelopeCell) returns (r: Result<(), Error>)
      modifies target
      ensures (r, target.envelope) == Apply(old(target.envelope))
    {
      match target.envelope
      case TxV0(_) =>
        if sequenceNumber.Some? {
          var tx := target.envelope.v0.tx;
          target.SetV0Tx(tx.(seqNum := SequenceNumber(sequenceNumber.value)));
        }
        if fee.Some? {
          var tx := target.envelope.v0.tx;
          target.SetV0Tx(tx.(fee := fee.value));
        }
        var timeBounds := TimeBounds();
        if timeBounds.Some? {
          var tx := target.envelope.v0.tx;
          target.SetV0Tx(tx.(timeBounds := Some(timeBounds.value)));
        }
        if memoText.Some? {
          var tx := target.envelope.v0.tx;
          target.SetV0Tx(tx.(memo := MemoText(memoText.value)));
        }
        if memoId.Some? {
          var tx := target.envelope.v0.tx;
          target.SetV0Tx(tx.(memo := MemoId(memoId.value)));
        }
        if memoHash.Some? {
          var tx := target.envelope.v0.tx;
          target.SetV0Tx(tx.(memo := MemoHash(memoHash.value)));
        }
        if memoReturn.Some? {
          var tx := target.envelope.v0.tx;
          target.SetV0Tx(tx.(memo := MemoReturn(memoReturn.value)));
        }
        r := Ok(());
      case Tx(_) =>
        r := Err(Unsupported);
      case TxFeeBump(_) =>
        r := Err(Unsupported);
    }
  }

  /** Replaying the same overwrites gives what they gave the first time. */
  lemma {:induction false} LastPresentIdempotent<T>(writes: seq<Option<T>>, current: T)
    ensures LastPresent(writes, LastPresent(writes, current)) == LastPresent(writes, current)
    decreases |writes|
  {
    if writes != [] {
      var next := writes[0].UnwrapOr(current);
      var again := writes[0].UnwrapOr(LastPresent(writes, current));
      if writes[0].Some? {
        assert again == next;
      } else {
        assert again == LastPresent(writes[1..], next);
        LastPresentIdempotent(writes[1..], next);
      }
    }
  }

  /** On a v0 envelope each of the four writable fields ends up as its flag
      says (verbatim when given, as before when not), and the source account,
      operations, extension and signatures are never touched. */
  lemma ApplyV0Fields(cmd: Cmd, env: TransactionEnvelope)
    requires env.TxV0?
    ensures var after := cmd.Apply(env).1.v0.tx; var before := env.v0.tx;
      && (cmd.sequenceNumber.Some? ==> after.seqNum.value == cmd.sequenceNumber.value)
      && (cmd.sequenceNumber.None? ==> after.seqNum == before.seqNum)
      && (cmd.fee.Some? ==> after.fee == cmd.fee.value)
      && (cmd.fee.None? ==> after.fee == before.fee)
      && (cmd.TimeBounds().Some? ==> after.timeBounds == cmd.TimeBounds())
      && (cmd.TimeBounds().None? ==> after.timeBounds == before.timeBounds)
      && (!cmd.HasMemoOption() ==> after.memo == before.memo)
      && after.sourceAccountEd25519 == before.sourceAccountEd25519
      && after.operations == before.operations
      && after.ext == before.ext
      && cmd.Apply(env).1.v0.signatures == env.v0.signatures
  {
  }

  /** With at most one memo flag given, as the argument parser ensures, the
      memo becomes exactly that flag's memo. */
  lemma ApplyExclusiveMemo(cmd: Cmd, env: TransactionEnvelope)
    requires env.TxV0? && cmd.MemoOptionsExclusive()
    ensures var memo := cmd.Apply(env).1.v0.tx.memo;
      && (cmd.memoText.Some? ==> memo == MemoText(cmd.memoText.value))
      && (cmd.memoId.Some? ==> memo == MemoId(cmd.memoId.value))
      && (cmd.memoHash.Some? ==> memo == MemoHash(cmd.memoHash.value))
      && (cmd.memoReturn.Some? ==> memo == MemoReturn(cmd.memoReturn.value))
  {
  }

  /** Running the same command twice leaves the envelope as running it once,
      with the same result. */
  lemma ApplyIdempotent(cmd: Cmd, env: TransactionEnvelope)
    ensures cmd.Apply(cmd.Apply(env).1) == cmd.Apply(env)
  {
  }

  /** The caller's envelope, handed to `Run` by mutable reference. */
  class EnvelopeCell {
    var envelope: TransactionEnvelope

    constructor (envelope: TransactionEnvelope)
      ensures this.envelope == envelope
    {
      this.envelope := envelope;
    }

    /** Replace the inner transaction of a v0 envelope, keeping its signatures. */
    method SetV0Tx(tx: TransactionV0)
      requires envelope.TxV0?
      modifies this
      ensures envelope == TxV0(old(envelope).v0.(tx := tx))
    {
      envelope := TxV0(envelope.v0.(tx := tx));
    }
  }

  /** A caller of `Run`: what can be concluded from the contracts alone, on
      the time-bound combinations and on the two envelope scenarios of the
      command's documentation. */
  method Client(account: Hash, ops: seq<Operation>)
  {
    var none := Cmd(None, None, None, None, None, None, None, None);
    assert none.TimeBounds() == None;
    assert none.(minTimeBound := Some(5)).TimeBounds()
      == Some(Xdr.TimeBounds(TimePoint(5), TimePoint(U64_MAX)));
    assert none.(maxTimeBound := Some(100)).TimeBounds()
      == Some(Xdr.TimeBounds(TimePoint(0), TimePoint(100)));
    assert none.(minTimeBound := Some(5), maxTimeBound := Some(100)).TimeBounds()
      == Some(Xdr.TimeBounds(TimePoint(5), TimePoint(100)));

    var tx := TransactionV0(account, 10, SequenceNumber(7), None, MemoNone, ops, []);
    var cell := new EnvelopeCell(TxV0(TransactionV0Envelope(tx, [])));
    var cmd := none.(fee := Some(100), memoId := Some(42));
    var r := cmd.Run(cell);
    assert r == Ok(());
    assert cell.envelope == TxV0(TransactionV0Envelope(tx.(fee := 100, memo := MemoId(42)), []));

    var v1 := Tx(TransactionV1Envelope([1, 2, 3]));
    var other := new EnvelopeCell(v1);
    r := cmd.(sequenceNumber := Some(-1), minTimeBound := Some(5)).Run(other);
    assert r == Err(Unsupported) && other.envelope == v1;
  }
}
