/**
 * What one invocation of the counter program does, as a function of the
 * instruction bytes and the accounts it is given (src/lib.rs:22-209).
 * An account is a value here; the module Program runs the same steps on
 * accounts whose data buffers are arrays updated in place, and proves that
 * it ends in exactly the state these functions describe.
 */
module Counter {
  import opened Wrappers
  import opened Borsh
  import opened Instruction

  /** A 32-byte account address or program identity. */
  type Pubkey = k: seq<u8> | |k| == 32 witness seq(32, _ => 0)

  /** The `ProgramError` variants this program can return or is handed back by the host. */
  datatype ProgramError =
    | InvalidInstructionData
    | InvalidAccountData
    | IncorrectProgramId
    | AccountAlreadyInitialized
    | UninitializedAccount
    | NotEnoughAccountKeys
    | InsufficientFunds
    | BorshIoError
    | Custom(code: nat)

  type ProgramResult = Result<(), ProgramError>

  /** The record stored in a counter account (src/lib.rs:47-51). */
  datatype CounterAccount = CounterAccount(count: u64)

  /** `size_of::<CounterAccount>()`: one `u64` and no padding. */
  const CounterAccountSpace: nat := 8

  /** The increment when the instruction carries no step (src/lib.rs:134, 176). */
  const DefaultStep: u64 := 1

  function SerializeCounterAccount(c: CounterAccount): (r: seq<u8>)
    ensures |r| == CounterAccountSpace
  {
    SerializeU64(c.count)
  }

  /** `CounterAccount::try_from_slice`: exactly 8 bytes, or a Borsh I/O error. */
  function TryFromSliceCounterAccount(data: seq<u8>): (r: Option<CounterAccount>)
    ensures r.Some? <==> |data| == CounterAccountSpace
  {
    match DeserializeU64(data)
    case Some((v, rest)) => if rest == [] then Some(CounterAccount(v)) else None
    case None => None
  }

  lemma CounterAccountRoundTrip(c: CounterAccount)
    ensures TryFromSliceCounterAccount(SerializeCounterAccount(c)) == Some(c)
  {
    DeserializeSerializeU64(c.count, []);
    assert SerializeCounterAccount(c) + [] == SerializeCounterAccount(c);
  }

  /** A decodable record is its own count's serialization. */
  lemma CounterAccountCanonical(data: seq<u8>)
    requires TryFromSliceCounterAccount(data).Some?
    ensures SerializeCounterAccount(TryFromSliceCounterAccount(data).value) == data
  {
    SerializeDeserializeU64(data);
    assert data == SerializeU64(TryFromSliceCounterAccount(data).value.count) + [];
  }

  /** What an account looks like to the program: its key, its owner and its data. */
  datatype AccountState = AccountState(key: Pubkey, owner: Pubkey, data: seq<u8>)

  /** The count an account holds, when its data is a well-formed record. */
  function StoredCount(a: AccountState): Option<u64> {
    match TryFromSliceCounterAccount(a.data)
    case Some(c) => Some(c.count)
    case None => None
  }

  /** The result of an invocation and the accounts as it leaves them. */
  datatype Effect = Effect(result: ProgramResult, accounts: seq<AccountState>)

  /**
   * Writing `bytes` through a `&mut [u8]` writer over `buffer` with
   * `write_all`: as many bytes as fit are copied to the front, and it is
   * an error when not all of them fit.
   */
  function WriteAll(buffer: seq<u8>, bytes: seq<u8>): (r: (bool, seq<u8>))
    ensures |r.1| == |buffer|
    ensures r.0 <==> |bytes| <= |buffer|
    ensures r.0 ==> r.1[..|bytes|] == bytes && r.1[|bytes|..] == buffer[|bytes|..]
  {
    var k := if |bytes| <= |buffer| then |bytes| else |buffer|;
    (k == |bytes|, bytes[..k] + buffer[k..])
  }

  /**
   * The system program's `create_account` as the host performs it: the
   * account gets `space` zero bytes and the new owner. Whether the host
   * refuses (rent sysvar unavailable, payer short of lamports, address in
   * use) is not decided here but passed in as `hostFailure`.
   */
  function CreateAccount(a: AccountState, space: nat, owner: Pubkey): (r: AccountState)
    ensures r.key == a.key && r.owner == owner
    ensures |r.data| == space && forall i :: 0 <= i < space ==> r.data[i] == 0
  {
    a.(owner := owner, data := seq(space, _ => 0))
  }

  /** `u64::checked_add`. */
  function CheckedAdd(a: u64, b: u64): (r: Option<u64>)
    ensures r.Some? <==> a as int + b as int <= U64_MAX as int
    ensures r.Some? ==> r.value as int == a as int + b as int
  {
    if a as int + b as int <= U64_MAX as int then Some(a + b) else None
  }

  /** `u64::checked_sub`. */
  function CheckedSub(a: u64, b: u64): (r: Option<u64>)
    ensures r.Some? <==> b <= a
    ensures r.Some? ==> r.value as int == a as int - b as int
  {
    if b <= a then Some(a - b) else None
  }

  /** `process_initialize_counter` (src/lib.rs:71-125). */
  function ProcessInitializeCounter(programId: Pubkey, accounts: seq<AccountState>,
                                    initialValue: u64, hostFailure: Option<ProgramError>): (e: Effect)
    ensures |e.accounts| == |accounts|
    // a failing call writes nothing, and only the counter account is ever written
    ensures e.result.Err? ==> e.accounts == accounts
    ensures forall i :: 1 <= i < |accounts| ==> e.accounts[i] == accounts[i]
    // the checks, in the order the source makes them
    ensures |accounts| < 3 ==> e.result == Err(NotEnoughAccountKeys)
    ensures |accounts| >= 3 && |accounts[0].data| > 0 ==> e.result == Err(AccountAlreadyInitialized)
    ensures |accounts| >= 3 && accounts[0].data == [] && hostFailure.Some? ==> e.result == Err(hostFailure.value)
    ensures e.result.Ok? <==> |accounts| >= 3 && accounts[0].data == [] && hostFailure.None?
    // success: an 8-byte record holding the initial value, owned by the program
    ensures e.result.Ok? ==>
              && e.accounts[0].key == accounts[0].key
              && e.accounts[0].owner == programId
              && |e.accounts[0].data| == CounterAccountSpace
              && StoredCount(e.accounts[0]) == Some(initialValue)
  {
    if |accounts| < 3 then Effect(Err(NotEnoughAccountKeys), accounts)
    else if |accounts[0].data| > 0 then Effect(Err(AccountAlreadyInitialized), accounts)
    else if hostFailure.Some? then Effect(Err(hostFailure.value), accounts)
    else
      var created := CreateAccount(accounts[0], CounterAccountSpace, programId);
      var record := SerializeCounterAccount(CounterAccount(initialValue));
      var (complete, data) := WriteAll(created.data, record);
      // the record always fits: the buffer was just created with exactly its size
      if !complete then assert false; Effect(Err(BorshIoError), accounts)
      else
        assert data == record;
        CounterAccountRoundTrip(CounterAccount(initialValue));
        Effect(Ok(()), accounts[0 := created.(data := data)])
  }

  /** `process_increment_counter` (src/lib.rs:128-167). */
  function ProcessIncrementCounter(programId: Pubkey, accounts: seq<AccountState>,
                                   step: Option<u64>): (e: Effect)
    ensures |e.accounts| == |accounts|
    ensures e.result.Err? ==> e.accounts == accounts
    ensures forall i :: 1 <= i < |accounts| ==> e.accounts[i] == accounts[i]
    // owner first, then emptiness, then the stored record, then overflow
    ensures |accounts| == 0 ==> e.result == Err(NotEnoughAccountKeys)
    ensures |accounts| > 0 && accounts[0].owner != programId ==> e.result == Err(IncorrectProgramId)
    ensures |accounts| > 0 && accounts[0].owner == programId && accounts[0].data == [] ==>
              e.result == Err(UninitializedAccount)
    ensures (|accounts| > 0 && accounts[0].owner == programId && accounts[0].data != []
             && StoredCount(accounts[0]).None?) ==> e.result == Err(BorshIoError)
    ensures (|accounts| > 0 && accounts[0].owner == programId && StoredCount(accounts[0]).Some?
             && StoredCount(accounts[0]).value as int + step.UnwrapOr(DefaultStep) as int > U64_MAX as int) ==>
              e.result == Err(InvalidAccountData)
    ensures e.result.Ok? <==>
              && |accounts| > 0 && accounts[0].owner == programId && StoredCount(accounts[0]).Some?
              && StoredCount(accounts[0]).value as int + step.UnwrapOr(DefaultStep) as int <= U64_MAX as int
    // success: the same 8-byte buffer and owner, holding the old count plus the step
    ensures e.result.Ok? ==>
              && e.accounts[0].key == accounts[0].key
              && e.accounts[0].owner == accounts[0].owner
              && |e.accounts[0].data| == |accounts[0].data|
              && StoredCount(e.accounts[0]).Some?
              && StoredCount(e.accounts[0]).value as int
                 == StoredCount(accounts[0]).value as int + step.UnwrapOr(DefaultStep) as int
  {
    var stepValue := step.UnwrapOr(DefaultStep);
    if |accounts| == 0 then Effect(Err(NotEnoughAccountKeys), accounts)
    else if accounts[0].owner != programId then Effect(Err(IncorrectProgramId), accounts)
    else if |accounts[0].data| == 0 then Effect(Err(UninitializedAccount), accounts)
    else match TryFromSliceCounterAccount(accounts[0].data)
      case None => Effect(Err(BorshIoError), accounts)
      case Some(counter) =>
        match CheckedAdd(counter.count, stepValue)
        case None => Effect(Err(InvalidAccountData), accounts)
        case Some(count) =>
          var record := SerializeCounterAccount(CounterAccount(count));
          var (complete, data) := WriteAll(accounts[0].data, record);
          // the record always fits: it was just read from this very buffer
          if !complete then assert false; Effect(Err(BorshIoError), accounts)
          else
            assert data == record;
            CounterAccountRoundTrip(CounterAccount(count));
            Effect(Ok(()), accounts[0 := accounts[0].(data := data)])
  }

  /** `process_decrement_counter` (src/lib.rs:170-209). */
  function ProcessDecrementCounter(programId: Pubkey, accounts: seq<AccountState>,
                                   step: Option<u64>): (e: Effect)
    ensures |e.accounts| == |accounts|
    ensures e.result.Err? ==> e.accounts == accounts
    ensures forall i :: 1 <= i < |accounts| ==> e.accounts[i] == accounts[i]
    // owner first, then emptiness, then the stored record, then underflow
    ensures |accounts| == 0 ==> e.result == Err(NotEnoughAccountKeys)
    ensures |accounts| > 0 && accounts[0].owner != programId ==> e.result == Err(IncorrectProgramId)
    ensures |accounts| > 0 && accounts[0].owner == programId && accounts[0].data == [] ==>
              e.result == Err(UninitializedAccount)
    ensures (|accounts| > 0 && accounts[0].owner == programId && accounts[0].data != []
             && StoredCount(accounts[0]).None?) ==> e.result == Err(BorshIoError)
    ensures (|accounts| > 0 && accounts[0].owner == programId && StoredCount(accounts[0]).Some?
             && step.UnwrapOr(DefaultStep) > StoredCount(accounts[0]).value) ==>
              e.result == Err(InvalidAccountData)
    ensures e.result.Ok? <==>
              && |accounts| > 0 && accounts[0].owner == programId && StoredCount(accounts[0]).Some?
              && step.UnwrapOr(DefaultStep) <= StoredCount(accounts[0]).value
    // success: the same 8-byte buffer and owner, holding the old count minus the step
    ensures e.result.Ok? ==>
              && e.accounts[0].key == accounts[0].key
              && e.accounts[0].owner == accounts[0].owner
              && |e.accounts[0].data| == |accounts[0].data|
              && StoredCount(e.accounts[0]).Some?
              && StoredCount(e.accounts[0]).value as int
                 == StoredCount(accounts[0]).value as int - step.UnwrapOr(DefaultStep) as int
  {
    var stepValue := step.UnwrapOr(DefaultStep);
    if |accounts| == 0 then Effect(Err(NotEnoughAccountKeys), accounts)
    else if accounts[0].owner != programId then Effect(Err(IncorrectProgramId), accounts)
    else if |accounts[0].data| == 0 then Effect(Err(UninitializedAccount), accounts)
    else match TryFromSliceCounterAccount(accounts[0].data)
      case None => Effect(Err(BorshIoError), accounts)
      case Some(counter) =>
        match CheckedSub(counter.count, stepValue)
        case None => Effect(Err(InvalidAccountData), accounts)
        case Some(count) =>
          var record := SerializeCounterAccount(CounterAccount(count));
          var (complete, data) := WriteAll(accounts[0].data, record);
          // the record always fits: it was just read from this very buffer
          if !complete then assert false; Effect(Err(BorshIoError), accounts)
          else
            assert data == record;
            CounterAccountRoundTrip(CounterAccount(count));
            Effect(Ok(()), accounts[0 := accounts[0].(data := data)])
  }

  /** `process_instruction` (src/lib.rs:22-45): decode, then hand over to the variant's handler. */
  function ProcessInstruction(programId: Pubkey, accounts: seq<AccountState>, instructionData: seq<u8>,
                              hostFailure: Option<ProgramError>): (e: Effect)
    ensures |e.accounts| == |accounts|
    ensures e.result.Err? ==> e.accounts == accounts
    ensures forall i :: 1 <= i < |accounts| ==> e.accounts[i] == accounts[i]
    ensures TryFromSlice(instructionData).None? ==> e == Effect(Err(InvalidInstructionData), accounts)
  {
    match TryFromSlice(instructionData)
    case None => Effect(Err(InvalidInstructionData), accounts)
    case Some(InitializeCounter(initialValue)) =>
      ProcessInitializeCounter(programId, accounts, initialValue, hostFailure)
    case Some(IncrementCounter(step)) => ProcessIncrementCounter(programId, accounts, step)
    case Some(DecrementCounter(step)) => ProcessDecrementCounter(programId, accounts, step)
  }

  /** Every serialized instruction reaches exactly its own handler, whose effect is the call's. */
  lemma ProcessSerialized(programId: Pubkey, accounts: seq<AccountState>, ins: CounterInstruction,
                          hostFailure: Option<ProgramError>)
    ensures ProcessInstruction(programId, accounts, Serialize(ins), hostFailure) ==
              match ins
              case InitializeCounter(v) => ProcessInitializeCounter(programId, accounts, v, hostFailure)
              case IncrementCounter(step) => ProcessIncrementCounter(programId, accounts, step)
              case DecrementCounter(step) => ProcessDecrementCounter(programId, accounts, step)
  {
    TryFromSliceSerialize(ins);
  }

  /** A decrement by the step of a successful increment restores the account byte for byte. */
  lemma IncrementThenDecrement(programId: Pubkey, accounts: seq<AccountState>, step: Option<u64>)
    requires ProcessIncrementCounter(programId, accounts, step).result.Ok?
    ensures ProcessDecrementCounter(programId, ProcessIncrementCounter(programId, accounts, step).accounts, step)
            == Effect(Ok(()), accounts)
  {
    var after := ProcessIncrementCounter(programId, accounts, step).accounts;
    var back := ProcessDecrementCounter(programId, after, step).accounts;
    CounterAccountCanonical(accounts[0].data);
    CounterAccountCanonical(back[0].data);
    assert back[0].data == accounts[0].data;
    assert back == accounts;
  }

  /** An increment by the step of a successful decrement restores the account byte for byte. */
  lemma DecrementThenIncrement(programId: Pubkey, accounts: seq<AccountState>, step: Option<u64>)
    requires ProcessDecrementCounter(programId, accounts, step).result.Ok?
    ensures ProcessIncrementCounter(programId, ProcessDecrementCounter(programId, accounts, step).accounts, step)
            == Effect(Ok(()), accounts)
  {
    var after := ProcessDecrementCounter(programId, accounts, step).accounts;
    var back := ProcessIncrementCounter(programId, after, step).accounts;
    CounterAccountCanonical(accounts[0].data);
    CounterAccountCanonical(back[0].data);
    assert back[0].data == accounts[0].data;
    assert back == accounts;
  }

  /** Initializing an account a second time fails and keeps the first value. */
  lemma InitializeTwice(programId: Pubkey, accounts: seq<AccountState>, first: u64, second: u64,
                        hostFailure: Option<ProgramError>)
    requires ProcessInitializeCounter(programId, accounts, first, None).result.Ok?
    ensures var after := ProcessInitializeCounter(programId, accounts, first, None).accounts;
            && ProcessInitializeCounter(programId, after, second, hostFailure) == Effect(Err(AccountAlreadyInitialized), after)
            && StoredCount(after[0]) == Some(first)
  {
  }

  /** An account the program owns always holds a well-formed record. */
  predicate HoldsRecord(programId: Pubkey, a: AccountState) {
    a.owner == programId ==> StoredCount(a).Some?
  }

  /** Every invocation keeps `HoldsRecord` for every account it is given. */
  lemma ProcessKeepsRecords(programId: Pubkey, accounts: seq<AccountState>, instructionData: seq<u8>,
                            hostFailure: Option<ProgramError>)
    requires forall i :: 0 <= i < |accounts| ==> HoldsRecord(programId, accounts[i])
    ensures var after := ProcessInstruction(programId, accounts, instructionData, hostFailure).accounts;
            forall i :: 0 <= i < |after| ==> HoldsRecord(programId, after[i])
  {
  }
}
