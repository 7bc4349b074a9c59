# Solana counter program, modelled in Dafny

This project models the on-chain counter program of `src/lib.rs`. The program keeps one
unsigned 64-bit counter in an account's data and understands three instructions:

- `InitializeCounter { initial_value }` creates the counter account and stores the value;
- `IncrementCounter { step }` adds `step` to the count, with 1 as the default;
- `DecrementCounter { step }` subtracts `step` from the count, with 1 as the default.

Instructions arrive as Borsh bytes: a one-byte variant index, then a little-endian `u64`,
or an `Option<u64>` written as a 0/1 flag byte followed by the value.

The model has six modules:

- `Wrappers` defines `Option` and `Result`.
- `Borsh` defines `u8` and `u64` as integer newtypes. It holds the little-endian `u64` codec and
  the `Option<u64>` codec, each with round-trip lemmas in both directions.
- `Instruction` defines `CounterInstruction`, `Serialize`, `Deserialize` and `TryFromSlice`.
  `TryFromSlice` is Borsh's strict decoder, which refuses bytes left over after the value.
- `Counter` describes one invocation as a function on account values (`AccountState`: key,
  owner, data bytes). It has one function per handler and one for the dispatcher, and each
  function's `ensures` states the source's rules:
  - the order of the checks;
  - that a failing call writes nothing;
  - that only the first entry of the account list, the counter account, changes;
  - the stored count after a success.

  Lemmas relate several calls: increment and decrement by the same step undo each other,
  every encoded instruction reaches its own handler, a second initialize fails, and invocations
  preserve the invariant that an account owned by the program holds a well-formed record.
- `Program` runs the same handlers on `AccountInfo` objects. Each object's `data` field is an
  `array<u8>` that the handlers overwrite in place. It walks the account list with
  `next_account_info` and has a `write_all` loop that copies the record into the buffer. Every
  handler method is proved to return the result, and to leave the counter account in the
  state, that the `Counter` function gives.
- `Scenario` replays the program's own test (initialize to 42, then 43, 48, 47, 44, 0, then
  a decrement below zero that fails) in two ways: as a lemma over values, and as a method that
  runs the in-place handlers on freshly built accounts.

Two things come from the host runtime, and the model takes them as inputs:

- The rent lookup and the system program's `create_account` call are one abstract step. When
  it succeeds, the account gets 8 zero bytes and the program as its owner. When it fails, the
  handler returns the error passed in as `hostFailure`.
- `next_account_info` fails with `NotEnoughAccountKeys` when the list is too short. Initialize
  takes three accounts before it looks at the data; increment and decrement take one.

The model follows the code where the code is more specific than a plain reading of the
program's contract:

- A stored record that is not exactly 8 bytes fails with `BorshIoError`. That is the error `?`
  makes from Borsh's I/O error; it is not `InvalidAccountData`. `InvalidAccountData` is
  returned only for overflow and underflow.
- Writing the record back goes through `write_all` on a `&mut [u8]`. That call copies the bytes
  that fit and then fails if some did not fit. The model includes this, and proves the
  failure cannot happen inside the handlers, because the buffer is always exactly 8 bytes
  there.

## Model

| member | source | states |
|---|---|---|
| `Borsh.DeserializeU64` | src/lib.rs:48-51 | reading a `u64` succeeds exactly when 8 bytes remain, and consumes exactly those 8 |
| `Borsh.DeserializeSerializeU64` | src/lib.rs:48-51 | a serialized `u64` followed by any bytes reads back as the same value, leaving those bytes |
| `Borsh.SerializeDeserializeU64` | src/lib.rs:48-51 | whatever `u64` is read equals the serialization of the 8 bytes it consumed |
| `Borsh.DeserializeOptionU64` | src/lib.rs:60-67 | an `Option<u64>` reads only with flag 0, or flag 1 and 8 more bytes; any other flag is an error |
| `Borsh.DeserializeSerializeOptionU64` | src/lib.rs:60-67 | `None` and every `Some(v)` read back unchanged from their serialization |
| `Borsh.SerializeDeserializeOptionU64` | src/lib.rs:60-67 | an accepted `Option<u64>` is exactly its own serialization followed by the rest |
| `Borsh.SerializeU64` | src/lib.rs:48-51 | a `u64` is written as exactly 8 bytes; `DeserializeSerializeU64` and `SerializeDeserializeU64` are its inverse pair |
| `Borsh.SerializeOptionU64` | src/lib.rs:60-67 | `None` is 1 byte and `Some(v)` is 9; `DeserializeSerializeOptionU64` and `SerializeDeserializeOptionU64` are its inverse pair |
| `Instruction.Serialize` | src/lib.rs:247-249 | `borsh::to_vec` of an instruction is at least 2 bytes (a variant index and its payload); `TryFromSliceSerialize` and `SerializeTryFromSlice` are its inverse pair |
| `Instruction.TryFromSlice` | src/lib.rs:28-29 | decoding succeeds exactly when the instruction reader succeeds and leaves no bytes over, and then gives the value it read |
| `Instruction.Deserialize` | src/lib.rs:53-68 | an empty buffer or a variant index above 2 never decodes |
| `Instruction.TryFromSliceSerialize` | src/lib.rs:28-29 | decoding a serialized instruction gives it back, for every variant and every step, `None` included |
| `Instruction.SerializeTryFromSlice` | src/lib.rs:28-29 | the only buffer that decodes to an instruction is that instruction's serialization |
| `Instruction.TrailingBytesRejected` | src/lib.rs:28-29 | any bytes after a complete instruction make decoding fail |
| `Instruction.TruncationRejected` | src/lib.rs:28-29 | every proper prefix of an instruction's bytes fails to decode |
| `Instruction.SerializeExamples` | src/lib.rs:247-249 | the test's instructions serialize to the expected bytes (`[0, 42, 0, …]`, `[1, 0]`, `[1, 1, 5, 0, …]`, …) |
| `Counter.SerializeCounterAccount` | src/lib.rs:121 | a `CounterAccount` is written as exactly `size_of::<CounterAccount>()` = 8 bytes; `CounterAccountRoundTrip` and `CounterAccountCanonical` are its inverse pair |
| `Counter.TryFromSliceCounterAccount` | src/lib.rs:154 | a stored record decodes exactly when the data is 8 bytes long |
| `Counter.CounterAccountRoundTrip` | src/lib.rs:279-282 | a serialized `CounterAccount` reads back with the same count |
| `Counter.CounterAccountCanonical` | src/lib.rs:153-163 | a decodable record is byte for byte the serialization of its count |
| `Counter.WriteAll` | src/lib.rs:121 | the write keeps the buffer's length and succeeds exactly when the bytes fit; on success they lead the buffer and the rest is kept |
| `Counter.CreateAccount` | src/lib.rs:99-112 | the created account keeps its key, gets the program as owner and `space` zero bytes |
| `Counter.CheckedAdd` | src/lib.rs:157-160 | the sum is returned exactly when it fits in a `u64` |
| `Counter.CheckedSub` | src/lib.rs:199-202 | the difference is returned exactly when the step does not exceed the count |
| `Counter.ProcessInitializeCounter` | src/lib.rs:71-125 | fewer than 3 accounts gives `NotEnoughAccountKeys`; non-empty data gives `AccountAlreadyInitialized`; a failing host step returns the host's own error unchanged; success holds exactly when the data is empty and the host step succeeds; success leaves 8 bytes, owned by the program, that decode to `initial_value`; a failure changes no account |
| `Counter.ProcessIncrementCounter` | src/lib.rs:128-167 | checks in order: a missing account, an owner that is not the program (`IncorrectProgramId`), empty data (`UninitializedAccount`), a bad record (`BorshIoError`), overflow (`InvalidAccountData`); success holds exactly when the count plus the step (default 1) fits; success keeps the owner and the buffer length and stores count plus step; a failure changes no account |
| `Counter.ProcessDecrementCounter` | src/lib.rs:170-209 | the same checks in the same order, with underflow when the step exceeds the count; success stores count minus step |
| `Counter.ProcessInstruction` | src/lib.rs:22-45 | bytes that do not decode give `InvalidInstructionData` and change nothing; no failure writes anything; only the first account can change |
| `Counter.ProcessSerialized` | src/lib.rs:32-42 | an encoded instruction is handled by exactly its own handler, whose effect is returned unchanged |
| `Counter.IncrementThenDecrement` | src/lib.rs:157-205 | after a successful increment, a decrement by the same step succeeds and restores the original account exactly |
| `Counter.DecrementThenIncrement` | src/lib.rs:157-205 | after a successful decrement, an increment by the same step succeeds and restores the original account exactly |
| `Counter.InitializeTwice` | src/lib.rs:89-91 | a second initialize fails with `AccountAlreadyInitialized`, and the first value stays |
| `Counter.ProcessKeepsRecords` | src/lib.rs:22-45 | an invocation never leaves an account owned by the program without a well-formed 8-byte record |
| `Program.AccountInfo.constructor` | src/lib.rs:24 | a host account starts with the given key, owner and data bytes, in a fresh buffer |
| `Program.NextAccountInfo` | src/lib.rs:84-86 | returns the account at the iterator's position and advances it, or `NotEnoughAccountKeys` past the end |
| `Program.WriteAll` | src/lib.rs:121 | the in-place copy into the buffer leaves exactly the bytes that `Counter.WriteAll` describes |
| `Program.CreateAccount` | src/lib.rs:99-112 | the account is left as `Counter.CreateAccount` describes, with a fresh buffer |
| `Program.ProcessInitializeCounter` | src/lib.rs:71-125 | the result, and the counter account's key, owner and data afterwards, are those of `Counter.ProcessInitializeCounter` |
| `Program.ProcessIncrementCounter` | src/lib.rs:128-167 | rewrites only the counter's buffer in place; the result and the account are those of `Counter.ProcessIncrementCounter` |
| `Program.ProcessDecrementCounter` | src/lib.rs:170-209 | rewrites only the counter's buffer in place; the result and the account are those of `Counter.ProcessDecrementCounter` |
| `Program.ProcessInstruction` | src/lib.rs:22-45 | the result and the counter account are those of `Counter.ProcessInstruction`; only an initialize gives the account a new buffer, every other call keeps the buffer it had |
| `Scenario.IncrementStep` | src/lib.rs:288-314 | an increment sent to a counter holding n gives n plus the step, default 1 |
| `Scenario.DecrementStep` | src/lib.rs:352-378 | a decrement sent to a counter holding n gives n minus the step, or fails with `InvalidAccountData` and changes nothing when the step exceeds n |
| `Scenario.TestCounterProgram` | src/lib.rs:225-457 | the test's sequence yields 42, 43, 48, 47, 44 and 0, then a failing decrement that leaves 0 |
| `Scenario.RunTestCounterProgram` | src/lib.rs:225-457 | the same sequence, run on accounts rewritten in place, reads back 42, 43, 48, 47, 44 and 0, and the last call fails with `InvalidAccountData` |

## Left out

- `examples/client.rs` is not part of this model. It is an RPC client (airdrop, signing,
  submission, confirmation polling) built on network calls.
- `Rent::get`, `minimum_balance` and the cross-program `invoke` of `create_account` are host
  calls. They are one abstract step: it either creates 8 zero bytes owned by the program, or
  fails with the error given as `hostFailure`. Lamport transfers and the payer's balance are
  not modelled.
- At account creation the host resizes the account's data in place. The model gives the
  account a fresh 8-byte array instead, because a Dafny array has a fixed length.
- `msg!` logging is left out. It is diagnostic output only.
- `RefCell` borrow bookkeeping, signer and writable flags, lamports and the `entrypoint!` macro
  are left out. They are runtime machinery the program does not branch on.
- Transaction rollback is left out. "A failure writes nothing" is proved from the code's early
  returns alone.
- `ProgramError` lists only the variants that arise here. `BorshIoError` carries no message
  string.
- Repeated accounts: an instruction may list the same account twice. The host then hands the
  program two `AccountInfo` entries that share one data buffer. The value-level `Counter` model
  treats every list entry as an account of its own, so its functions do not show a repeated
  counter entry changing along with entry 0. The `Program` methods do not promise anything
  about such an entry either.
- Program.ProcessInstruction: the contract speaks of the first account only. It says nothing
  about a later entry that is the same object as the first, or that shares its buffer.
- Program.ProcessInitializeCounter: speaks of the first account only, as above.
- Program.ProcessIncrementCounter: speaks of the first account only, as above.
- Program.ProcessDecrementCounter: speaks of the first account only, as above.
