# `tx set v0` — editing a legacy Stellar transaction envelope

This project models the `v0` sub-command of `stellar tx set` (the Soroban
CLI). The command takes a decoded `TransactionEnvelope` and a set of optional
flags: sequence number, fee, min and max time bound, and four memo kinds.

- A legacy (`TxV0`) envelope has its inner transaction's `seq_num`, `fee`,
  `time_bounds` and `memo` overwritten, each only when its flag is given.
- A current-format (`Tx`) or fee-bump (`TxFeeBump`) envelope is refused with
  `Error::Unsupported` and left as it was.

Modules:

- `Wrappers`: `Option` and `Result`.
- `Xdr`: the decoded XDR types the command touches, with the integer widths
  as subset types (`I64`, `U32`, `U64`). `StringM<28>` and `Hash` are bounded
  byte sequences. `SequenceNumber` and `TimePoint` are one-field wrappers, and
  the source's `.into()` conversions are their constructors. The v1 and
  fee-bump payloads are uninterpreted byte strings.
- `TxSetV0`: the command. `Cmd` is a datatype, since `run` takes `&self`.
  The mutable envelope reference is an `EnvelopeCell` object that `Cmd.Run`
  modifies. `Run` performs the source's conditional writes one at a time, in
  the source's order. Its postcondition ties the result and the new envelope
  to `Cmd.Apply`, a field-wise description of the same update. The memo block
  is four sequential overwrites. `LastPresent` specifies it: the last given
  write wins, and the memo is untouched when none is given.

The memo flags' `conflicts_with` declarations are enforced by the argument
parser, never by the command. So the model has no precondition on them.
`Cmd.MemoOptionsExclusive` states the declared constraint, and
`ApplyExclusiveMemo` proves what holds when it is met. Without it, the code
lets the last flag given in the order text, id, hash, return win. This
differs from a reading in which the first or "most specific" of them wins:
the model follows the code.

## Model

| member | source | states |
|---|---|---|
| TxSetV0.Cmd.TimeBounds | cmd/soroban-cli/src/commands/tx/set/v0.rs:62-78 | None exactly when both bounds are absent; otherwise the given bounds verbatim, with a missing minimum as 0 and a missing maximum as u64::MAX |
| TxSetV0.LastPresent | cmd/soroban-cli/src/commands/tx/set/v0.rs:92-103 | a run of conditional overwrites leaves the starting value when no write is present, and otherwise the value of the last present write |
| TxSetV0.LastPresentIdempotent | cmd/soroban-cli/src/commands/tx/set/v0.rs:92-103 | replaying the same run of overwrites on its own outcome changes nothing |
| TxSetV0.Cmd.MemoAfter | cmd/soroban-cli/src/commands/tx/set/v0.rs:92-103 | the memo is unchanged when no memo flag is given; otherwise return beats hash beats id beats text, each stored exactly |
| TxSetV0.Cmd.Apply | cmd/soroban-cli/src/commands/tx/set/v0.rs:80-110 | success exactly on a TxV0 envelope; Unsupported with the envelope unchanged on Tx and TxFeeBump; the variant never changes; v0 signatures are kept |
| TxSetV0.Cmd.Run | cmd/soroban-cli/src/commands/tx/set/v0.rs:80-110 | the in-place sequential writes yield exactly the result and envelope that Apply describes for the pre-call envelope |
| TxSetV0.ApplyV0Fields | cmd/soroban-cli/src/commands/tx/set/v0.rs:82-104 | on v0, a given sequence number, fee or time bounds is written verbatim and replaces the old value (time bounds are not merged); an absent one leaves the field as it was; no memo flag leaves the memo; source account, operations, ext and signatures never change |
| TxSetV0.ApplyExclusiveMemo | cmd/soroban-cli/src/commands/tx/set/v0.rs:28-103 | when at most one memo flag is given, as conflicts_with declares, the memo becomes exactly that flag's memo |
| TxSetV0.ApplyIdempotent | cmd/soroban-cli/src/commands/tx/set/v0.rs:82-104 | running the same command twice gives the same result and envelope as running it once |

## Left out

- Reading the envelope from standard input and the sub-command dispatch in `commands/tx/set.rs`: I/O and a wrapper with no logic of its own.
- `log/event.rs`: it only passes formatted host events to the tracing logger.
- XDR encoding and decoding of envelopes, `StringM<28>` and `Hash`: an external library. Only their decoded shapes and length bounds are modelled.
- Argument parsing and the runtime enforcement of `conflicts_with`: the argument parser's job. The memo exclusivity is a predicate here, not a precondition.
- The unused `global::Args` parameter of `run` and the error's display text.
- The fields of the v1 and fee-bump envelopes, which the command never reads.
