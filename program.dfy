/**
 * The program's handlers as they run on the host's accounts
 * (src/lib.rs:22-209): each one walks the account list with
 * `next_account_info`, checks the counter account and rewrites its data
 * buffer in place. Every method is proved to return the result, and to
 * leave the counter account in the state, that module Counter gives.
 */
module Program {
  import opened Wrappers
  import opened Borsh
  import Instruction
  import Counter

  /** The host's view of one account: its key, its owner and its data buffer. */
  class AccountInfo {
    const key: Counter.Pubkey
    var owner: Counter.Pubkey
    var data: array<u8>

    constructor (key: Counter.Pubkey, owner: Counter.Pubkey, contents: seq<u8>)
      ensures State() == Counter.AccountState(key, owner, contents)
      ensures fresh(data)
    {
      this.key := key;
      this.owner := owner;
      data := new u8[|contents|](i requires 0 <= i < |contents| => contents[i]);
    }

    function State(): Counter.AccountState
      reads this, data
    {
      Counter.AccountState(key, owner, data[..])
    }
  }

  /** The states of all the accounts of one invocation. */
  function States(accounts: seq<AccountInfo>): (r: seq<Counter.AccountState>)
    reads accounts, set i | 0 <= i < |accounts| :: accounts[i].data
    ensures |r| == |accounts|
    ensures forall i :: 0 <= i < |accounts| ==> r[i] == accounts[i].State()
  {
    if accounts == [] then [] else [accounts[0].State()] + States(accounts[1..])
  }

  /** What a handler may change: the counter account, the first one given, and its buffer. */
  function CounterFrame(accounts: seq<AccountInfo>): set<object>
    reads accounts
  {
    if accounts == [] then {} else {accounts[0], accounts[0].data}
  }

  /** `next_account_info`: the account at the iterator's position, which then advances. */
  method NextAccountInfo(accounts: seq<AccountInfo>, position: nat)
    returns (r: Result<AccountInfo, Counter.ProgramError>, next: nat)
    ensures position < |accounts| ==> r == Ok(accounts[position]) && next == position + 1
    ensures position >= |accounts| ==> r == Err(Counter.NotEnoughAccountKeys) && next == position
  {
    if position < |accounts| {
      r, next := Ok(accounts[position]), position + 1;
    } else {
      r, next := Err(Counter.NotEnoughAccountKeys), position;
    }
  }

  /** `serialize` into `&mut data[..]`: copies what fits, then reports whether all of it did. */
  method WriteAll(buffer: array<u8>, bytes: seq<u8>) returns (complete: bool)
    modifies buffer
    ensures (complete, buffer[..]) == Counter.WriteAll(old(buffer[..]), bytes)
  {
    var n := if |bytes| <= buffer.Length then |bytes| else buffer.Length;
    for i := 0 to n
      invariant forall k :: 0 <= k < i ==> buffer[k] == bytes[k]
      invariant forall k :: i <= k < buffer.Length ==> buffer[k] == old(buffer[k])
    {
      buffer[i] := bytes[i];
    }
    complete := n == |bytes|;
    assert buffer[..] == bytes[..n] + old(buffer[..])[n..];
  }

  /**
   * The system program's `create_account`, invoked across programs: the
   * account receives a fresh zeroed buffer of `space` bytes and the new owner.
   */
  method CreateAccount(account: AccountInfo, space: nat, owner: Counter.Pubkey)
    modifies account
    ensures account.State() == Counter.CreateAccount(old(account.State()), space, owner)
    ensures fresh(account.data)
  {
    account.owner := owner;
    account.data := new u8[space](_ => 0);
  }

  /** `process_initialize_counter` (src/lib.rs:71-125). */
  method ProcessInitializeCounter(programId: Counter.Pubkey, accounts: seq<AccountInfo>, initialValue: u64,
                                  hostFailure: Option<Counter.ProgramError>)
    returns (r: Counter.ProgramResult)
    modifies CounterFrame(accounts)
    ensures var e := Counter.ProcessInitializeCounter(programId, old(States(accounts)), initialValue, hostFailure);
            r == e.result && (|accounts| > 0 ==> accounts[0].State() == e.accounts[0])
    ensures |accounts| > 0 ==> accounts[0].data == old(accounts[0].data) || fresh(accounts[0].data)
  {
    var position := 0;
    var counterAccount, payerAccount, systemProgram;
    counterAccount, position := NextAccountInfo(accounts, position);
    if counterAccount.Err? { return Err(counterAccount.error); }
    payerAccount, position := NextAccountInfo(accounts, position);
    if payerAccount.Err? { return Err(payerAccount.error); }
    systemProgram, position := NextAccountInfo(accounts, position);
    if systemProgram.Err? { return Err(systemProgram.error); }
    var counter := counterAccount.value;

    if counter.data.Length > 0 {
      return Err(Counter.AccountAlreadyInitialized);
    }

    // rent and the system program's account creation, decided by the host
    if hostFailure.Some? {
      return Err(hostFailure.value);
    }
    CreateAccount(counter, Counter.CounterAccountSpace, programId);

    var record := Counter.SerializeCounterAccount(Counter.CounterAccount(initialValue));
    var complete := WriteAll(counter.data, record);
    if !complete {
      assert false;
      return Err(Counter.BorshIoError);
    }
    r := Ok(());
  }

  /** `process_increment_counter` (src/lib.rs:128-167). */
  method ProcessIncrementCounter(programId: Counter.Pubkey, accounts: seq<AccountInfo>, step: Option<u64>)
    returns (r: Counter.ProgramResult)
    modifies if accounts == [] then {} else {accounts[0].data}
    ensures var e := Counter.ProcessIncrementCounter(programId, old(States(accounts)), step);
            r == e.result && (|accounts| > 0 ==> accounts[0].State() == e.accounts[0])
  {
    var stepValue := step.UnwrapOr(Counter.DefaultStep);
    var position := 0;
    var counterAccount;
    counterAccount, position := NextAccountInfo(accounts, position);
    if counterAccount.Err? { return Err(counterAccount.error); }
    var counter := counterAccount.value;

    if counter.owner != programId {
      return Err(Counter.IncorrectProgramId);
    }
    if counter.data.Length == 0 {
      return Err(Counter.UninitializedAccount);
    }

    var counterData := Counter.TryFromSliceCounterAccount(counter.data[..]);
    if counterData.None? {
      return Err(Counter.BorshIoError);
    }
    var count := Counter.CheckedAdd(counterData.value.count, stepValue);
    if count.None? {
      return Err(Counter.InvalidAccountData);
    }

    var record := Counter.SerializeCounterAccount(Counter.CounterAccount(count.value));
    var complete := WriteAll(counter.data, record);
    if !complete {
      assert false;
      return Err(Counter.BorshIoError);
    }
    r := Ok(());
  }

  /** `process_decrement_counter` (src/lib.rs:170-209). */
  method ProcessDecrementCounter(programId: Counter.Pubkey, accounts: seq<AccountInfo>, step: Option<u64>)
    returns (r: Counter.ProgramResult)
    modifies if accounts == [] then {} else {accounts[0].data}
    ensures var e := Counter.ProcessDecrementCounter(programId, old(States(accounts)), step);
            r == e.result && (|accounts| > 0 ==> accounts[0].State() == e.accounts[0])
  {
    var stepValue := step.UnwrapOr(Counter.DefaultStep);
    var position := 0;
    var counterAccount;
    counterAccount, position := NextAccountInfo(accounts, position);
    if counterAccount.Err? { return Err(counterAccount.error); }
    var counter := counterAccount.value;

    if counter.owner != programId {
      return Err(Counter.IncorrectProgramId);
    }
    if counter.data.Length == 0 {
      return Err(Counter.UninitializedAccount);
    }

    var counterData := Counter.TryFromSliceCounterAccount(counter.data[..]);
    if counterData.None? {
      return Err(Counter.BorshIoError);
    }
    var count := Counter.CheckedSub(counterData.value.count, stepValue);
    if count.None? {
      return Err(Counter.InvalidAccountData);
    }

    var record := Counter.SerializeCounterAccount(Counter.CounterAccount(count.value));
    var complete := WriteAll(counter.data, record);
    if !complete {
      assert false;
      return Err(Counter.BorshIoError);
    }
    r := Ok(());
  }

  /** `process_instruction` (src/lib.rs:22-45), the program's entry point. */
  method ProcessInstruction(programId: Counter.Pubkey, accounts: seq<AccountInfo>, instructionData: seq<u8>,
                            hostFailure: Option<Counter.ProgramError>)
    returns (r: Counter.ProgramResult)
    modifies CounterFrame(accounts)
    ensures var e := Counter.ProcessInstruction(programId, old(States(accounts)), instructionData, hostFailure);
            r == e.result && (|accounts| > 0 ==> accounts[0].State() == e.accounts[0])
    ensures |accounts| > 0 ==> accounts[0].data == old(accounts[0].data) || fresh(accounts[0].data)
    // only initialize replaces the buffer; the other handlers rewrite it in place
    ensures |accounts| > 0 && (Instruction.TryFromSlice(instructionData).None?
                               || !Instruction.TryFromSlice(instructionData).value.InitializeCounter?) ==>
              accounts[0].data == old(accounts[0].data)
  {
    var instruction := Instruction.TryFromSlice(instructionData);
    if instruction.None? {
      return Err(Counter.InvalidInstructionData);
    }
    match instruction.value
    case InitializeCounter(initialValue) =>
      r := ProcessInitializeCounter(programId, accounts, initialValue, hostFailure);
    case IncrementCounter(step) =>
      r := ProcessIncrementCounter(programId, accounts, step);
    case DecrementCounter(step) =>
      r := ProcessDecrementCounter(programId, accounts, step);
  }
}
