/**
 * The program's own test (src/lib.rs:225-457), replayed on the model:
 * initialize with 42, increment by the default step and by 5, decrement
 * by the default step, by 3 and by 44, then one decrement below zero.
 * Each instruction is handed over as the bytes `borsh::to_vec` gives.
 */
module Scenario {
  import opened Wrappers
  import opened Borsh
  import opened Instruction
  import opened Counter
  import Program

  /** The system program's address: 32 zero bytes. It owns every account not yet created. */
  const SystemProgramId: Pubkey := seq(32, _ => 0)

  /** One invocation on the counter account alone, as the test's increments and decrements are sent. */
  function Invoke(programId: Pubkey, counter: AccountState, ins: CounterInstruction): Effect {
    ProcessInstruction(programId, [counter], Serialize(ins), None)
  }

  /** An increment sent alone to a counter the program owns that holds n, when n + step fits. */
  lemma IncrementStep(programId: Pubkey, counter: AccountState, step: Option<u64>, n: u64)
    requires counter.owner == programId && StoredCount(counter) == Some(n)
    requires n as int + step.UnwrapOr(DefaultStep) as int <= U64_MAX as int
    ensures var e := Invoke(programId, counter, IncrementCounter(step));
            && e.result == Ok(()) && e.accounts[0].owner == programId
            && StoredCount(e.accounts[0]) == Some(n + step.UnwrapOr(DefaultStep))
  {
    ProcessSerialized(programId, [counter], IncrementCounter(step), None);
  }

  /** A decrement sent alone to a counter the program owns that holds n. */
  lemma DecrementStep(programId: Pubkey, counter: AccountState, step: Option<u64>, n: u64)
    requires counter.owner == programId && StoredCount(counter) == Some(n)
    ensures var e := Invoke(programId, counter, DecrementCounter(step));
            if step.UnwrapOr(DefaultStep) <= n then
              && e.result == Ok(()) && e.accounts[0].owner == programId
              && StoredCount(e.accounts[0]) == Some(n - step.UnwrapOr(DefaultStep))
            else
              e.result == Err(InvalidAccountData) && e.accounts[0] == counter
  {
    ProcessSerialized(programId, [counter], DecrementCounter(step), None);
  }

  lemma TestCounterProgram(programId: Pubkey, counterKey: Pubkey, payer: AccountState, systemProgram: AccountState)
    ensures
      var e1 := ProcessInstruction(programId, [AccountState(counterKey, SystemProgramId, []), payer, systemProgram],
                                   Serialize(InitializeCounter(42)), None);
      var e2 := Invoke(programId, e1.accounts[0], IncrementCounter(None));
      var e3 := Invoke(programId, e2.accounts[0], IncrementCounter(Some(5)));
      var e4 := Invoke(programId, e3.accounts[0], DecrementCounter(None));
      var e5 := Invoke(programId, e4.accounts[0], DecrementCounter(Some(3)));
      var e6 := Invoke(programId, e5.accounts[0], DecrementCounter(Some(44)));
      var e7 := Invoke(programId, e6.accounts[0], DecrementCounter(Some(1)));
      && e1.result == Ok(()) && StoredCount(e1.accounts[0]) == Some(42)
      && e1.accounts[0].owner == programId && |e1.accounts[0].data| == 8
      && e2.result == Ok(()) && StoredCount(e2.accounts[0]) == Some(43)
      && e3.result == Ok(()) && StoredCount(e3.accounts[0]) == Some(48)
      && e4.result == Ok(()) && StoredCount(e4.accounts[0]) == Some(47)
      && e5.result == Ok(()) && StoredCount(e5.accounts[0]) == Some(44)
      && e6.result == Ok(()) && StoredCount(e6.accounts[0]) == Some(0)
      && e7.result == Err(InvalidAccountData) && e7.accounts[0] == e6.accounts[0]
  {
    var accounts := [AccountState(counterKey, SystemProgramId, []), payer, systemProgram];
    ProcessSerialized(programId, accounts, InitializeCounter(42), None);
    var c1 := ProcessInstruction(programId, accounts, Serialize(InitializeCounter(42)), None).accounts[0];
    IncrementStep(programId, c1, None, 42);
    var c2 := Invoke(programId, c1, IncrementCounter(None)).accounts[0];
    IncrementStep(programId, c2, Some(5), 43);
    var c3 := Invoke(programId, c2, IncrementCounter(Some(5))).accounts[0];
    DecrementStep(programId, c3, None, 48);
    var c4 := Invoke(programId, c3, DecrementCounter(None)).accounts[0];
    DecrementStep(programId, c4, Some(3), 47);
    var c5 := Invoke(programId, c4, DecrementCounter(Some(3))).accounts[0];
    DecrementStep(programId, c5, Some(44), 44);
    var c6 := Invoke(programId, c5, DecrementCounter(Some(44))).accounts[0];
    DecrementStep(programId, c6, Some(1), 0);
  }

  /** The stored count of a host account, read back as the test does with `try_from_slice`. */
  function ReadCount(account: Program.AccountInfo): Option<u64>
    reads account, account.data
  {
    StoredCount(account.State())
  }

  /** Sends one instruction to the program with the counter account as its only account. */
  method Send(programId: Pubkey, counter: Program.AccountInfo, ins: CounterInstruction)
    returns (r: ProgramResult)
    modifies counter, counter.data
    ensures var e := Invoke(programId, old(counter.State()), ins);
            r == e.result && counter.State() == e.accounts[0]
    ensures counter.data == old(counter.data) || fresh(counter.data)
    ensures !ins.InitializeCounter? ==> counter.data == old(counter.data)
  {
    assert Program.States([counter]) == [counter.State()];
    TryFromSliceSerialize(ins);
    r := Program.ProcessInstruction(programId, [counter], Serialize(ins), None);
  }

  /** Sends an increment to a counter the program owns that holds n, and reads the count back. */
  method SendIncrement(programId: Pubkey, counter: Program.AccountInfo, step: Option<u64>, n: u64)
    returns (r: ProgramResult, count: Option<u64>)
    requires counter.owner == programId && ReadCount(counter) == Some(n)
    requires n as int + step.UnwrapOr(DefaultStep) as int <= U64_MAX as int
    modifies counter, counter.data
    ensures counter.data == old(counter.data)
    ensures counter.owner == programId && count == ReadCount(counter)
    ensures r == Ok(()) && count == Some(n + step.UnwrapOr(DefaultStep))
  {
    ghost var before := counter.State();
    r := Send(programId, counter, IncrementCounter(step));
    IncrementStep(programId, before, step, n);
    count := ReadCount(counter);
  }

  /** Sends a decrement to a counter the program owns that holds n, and reads the count back. */
  method SendDecrement(programId: Pubkey, counter: Program.AccountInfo, step: Option<u64>, n: u64)
    returns (r: ProgramResult, count: Option<u64>)
    requires counter.owner == programId && ReadCount(counter) == Some(n)
    modifies counter, counter.data
    ensures counter.data == old(counter.data)
    ensures counter.owner == programId && count == ReadCount(counter)
    ensures step.UnwrapOr(DefaultStep) <= n ==> r == Ok(()) && count == Some(n - step.UnwrapOr(DefaultStep))
    ensures step.UnwrapOr(DefaultStep) > n ==> r == Err(InvalidAccountData) && count == Some(n)
  {
    ghost var before := counter.State();
    r := Send(programId, counter, DecrementCounter(step));
    DecrementStep(programId, before, step, n);
    count := ReadCount(counter);
  }

  /** Sends `InitializeCounter` to an account not yet created, with a payer and the system program. */
  method SendInitialize(programId: Pubkey, counter: Program.AccountInfo, payer: Program.AccountInfo,
                        systemProgram: Program.AccountInfo, initialValue: u64)
    returns (r: ProgramResult, count: Option<u64>)
    requires counter.data.Length == 0
    requires counter != payer && counter != systemProgram
    modifies counter, counter.data
    ensures fresh(counter.data)
    ensures r == Ok(()) && counter.owner == programId && count == ReadCount(counter) && count == Some(initialValue)
  {
    var accounts := [counter, payer, systemProgram];
    ghost var before := [counter.State(), payer.State(), systemProgram.State()];
    assert Program.States(accounts) == before;
    ProcessSerialized(programId, before, InitializeCounter(initialValue), None);
    r := Program.ProcessInstruction(programId, accounts, Serialize(InitializeCounter(initialValue)), None);
    count := ReadCount(counter);
  }

  /**
   * The same test on host accounts whose buffers the handlers rewrite in
   * place; it returns the count read back after each successful step and
   * the result of the final decrement.
   */
  method RunTestCounterProgram(programId: Pubkey, counterKey: Pubkey, payerKey: Pubkey)
    returns (counts: seq<Option<u64>>, last: ProgramResult)
    ensures counts == [Some(42), Some(43), Some(48), Some(47), Some(44), Some(0)]
    ensures last == Err(InvalidAccountData)
  {
    var counter := new Program.AccountInfo(counterKey, SystemProgramId, []);
    var payer := new Program.AccountInfo(payerKey, SystemProgramId, []);
    var systemProgram := new Program.AccountInfo(SystemProgramId, SystemProgramId, []);
    var r, n1, n2, n3, n4, n5, n6, final;
    r, n1 := SendInitialize(programId, counter, payer, systemProgram, 42);
    r, n2 := SendIncrement(programId, counter, None, 42);
    r, n3 := SendIncrement(programId, counter, Some(5), 43);
    r, n4 := SendDecrement(programId, counter, None, 48);
    r, n5 := SendDecrement(programId, counter, Some(3), 47);
    r, n6 := SendDecrement(programId, counter, Some(44), 44);
    last, final := SendDecrement(programId, counter, Some(1), 0);
    counts := [n1, n2, n3, n4, n5, n6];
  }
}
