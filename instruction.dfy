/**
 * `CounterInstruction` and its Borsh encoding (src/lib.rs:53-68): a one-byte
 * variant index, 0, 1 or 2 in declaration order, followed by the variant's
 * fields. `TryFromSlice` is Borsh's `try_from_slice`, which deserializes
 * and then refuses any bytes left over.
 */
module Instruction {
  import opened Wrappers
  import opened Borsh

  datatype CounterInstruction =
    | InitializeCounter(initialValue: u64)
    | IncrementCounter(step: Option<u64>)
    | DecrementCounter(step: Option<u64>)

  /** `borsh::to_vec`. */
  function Serialize(ins: CounterInstruction): (r: seq<u8>)
    ensures |r| >= 2
  {
    match ins
    case InitializeCounter(v) => [0] + SerializeU64(v)
    case IncrementCounter(step) => [1] + SerializeOptionU64(step)
    case DecrementCounter(step) => [2] + SerializeOptionU64(step)
  }

  /** The derived `deserialize_reader`: an unknown variant index is an error. */
  function Deserialize(input: seq<u8>): (r: Option<(CounterInstruction, seq<u8>)>)
    ensures r.Some? ==> |input| >= 2 && input[0] <= 2
    ensures |input| == 0 || input[0] > 2 ==> r.None?
  {
    if |input| == 0 then None
    else if input[0] == 0 then
      match DeserializeU64(input[1..])
      case None => None
      case Some((v, rest)) => Some((InitializeCounter(v), rest))
    else if input[0] == 1 then
      match DeserializeOptionU64(input[1..])
      case None => None
      case Some((step, rest)) => Some((IncrementCounter(step), rest))
    else if input[0] == 2 then
      match DeserializeOptionU64(input[1..])
      case None => None
      case Some((step, rest)) => Some((DecrementCounter(step), rest))
    else None
  }

  /** `CounterInstruction::try_from_slice`: the whole input must be consumed. */
  function TryFromSlice(input: seq<u8>): (r: Option<CounterInstruction>)
    ensures r.Some? <==> Deserialize(input).Some? && Deserialize(input).value.1 == []
    ensures r.Some? ==> r.value == Deserialize(input).value.0
  {
    match Deserialize(input)
    case Some((ins, rest)) => if rest == [] then Some(ins) else None
    case None => None
  }

  lemma DeserializeSerialize(ins: CounterInstruction, rest: seq<u8>)
    ensures Deserialize(Serialize(ins) + rest) == Some((ins, rest))
  {
    match ins
    case InitializeCounter(v) =>
      DeserializeInitialize(v, rest);
    case IncrementCounter(step) =>
      DeserializeStep(1, step, rest);
    case DecrementCounter(step) =>
      DeserializeStep(2, step, rest);
  }

  lemma DeserializeInitialize(v: u64, rest: seq<u8>)
    ensures Deserialize([0] + SerializeU64(v) + rest) == Some((InitializeCounter(v), rest))
  {
    var input := [0] + SerializeU64(v) + rest;
    assert input[1..] == SerializeU64(v) + rest;
    DeserializeSerializeU64(v, rest);
  }

  lemma DeserializeStep(tag: u8, step: Option<u64>, rest: seq<u8>)
    requires tag == 1 || tag == 2
    ensures Deserialize([tag] + SerializeOptionU64(step) + rest)
         == Some((if tag == 1 then IncrementCounter(step) else DecrementCounter(step), rest))
  {
    var input := [tag] + SerializeOptionU64(step) + rest;
    assert input[1..] == SerializeOptionU64(step) + rest;
    DeserializeSerializeOptionU64(step, rest);
  }

  /** Serializing an instruction and decoding it gives the instruction back. */
  lemma TryFromSliceSerialize(ins: CounterInstruction)
    ensures TryFromSlice(Serialize(ins)) == Some(ins)
  {
    DeserializeSerialize(ins, []);
    assert Serialize(ins) + [] == Serialize(ins);
  }

  /**
   * The decoder is strict: the only buffer it accepts for an instruction is
   * that instruction's serialization, so no two buffers decode alike.
   */
  lemma SerializeTryFromSlice(input: seq<u8>)
    requires TryFromSlice(input).Some?
    ensures Serialize(TryFromSlice(input).value) == input
  {
    assert input == [input[0]] + input[1..];
    if input[0] == 0 {
      SerializeDeserializeU64(input[1..]);
    } else {
      SerializeDeserializeOptionU64(input[1..]);
    }
  }

  /** Bytes after a complete instruction make the whole buffer invalid. */
  lemma TrailingBytesRejected(ins: CounterInstruction, extra: seq<u8>)
    requires extra != []
    ensures TryFromSlice(Serialize(ins) + extra) == None
  {
    DeserializeSerialize(ins, extra);
  }

  /** A buffer cut short anywhere inside an instruction does not decode. */
  lemma TruncationRejected(ins: CounterInstruction, k: nat)
    requires k < |Serialize(ins)|
    ensures TryFromSlice(Serialize(ins)[..k]) == None
  {
    var prefix := Serialize(ins)[..k];
    if k > 0 {
      assert prefix[0] == Serialize(ins)[0];
      match ins
      case InitializeCounter(_) =>
        assert |prefix[1..]| < 8;
      case IncrementCounter(step) =>
        OptionTruncated(step, prefix[1..]);
      case DecrementCounter(step) =>
        OptionTruncated(step, prefix[1..]);
    }
  }

  lemma OptionTruncated(o: Option<u64>, partial: seq<u8>)
    requires |partial| < |SerializeOptionU64(o)|
    requires partial == SerializeOptionU64(o)[..|partial|]
    ensures DeserializeOptionU64(partial).None?
  {
    if |partial| > 0 {
      assert partial[0] == SerializeOptionU64(o)[0];
    }
  }

  /** The buffers the program's test builds with `borsh::to_vec`. */
  lemma SerializeExamples()
    ensures Serialize(InitializeCounter(42)) == [0, 42, 0, 0, 0, 0, 0, 0, 0]
    ensures Serialize(IncrementCounter(None)) == [1, 0]
    ensures Serialize(DecrementCounter(None)) == [2, 0]
    ensures Serialize(IncrementCounter(Some(5))) == [1, 1, 5, 0, 0, 0, 0, 0, 0, 0]
    ensures Serialize(DecrementCounter(Some(3))) == [2, 1, 3, 0, 0, 0, 0, 0, 0, 0]
    ensures Serialize(DecrementCounter(Some(44))) == [2, 1, 44, 0, 0, 0, 0, 0, 0, 0]
    ensures Serialize(DecrementCounter(Some(1))) == [2, 1, 1, 0, 0, 0, 0, 0, 0, 0]
  {
    SerializeSmall(0, InitializeCounter(42));
    SerializeSmall(1, IncrementCounter(Some(5)));
    SerializeSmall(2, DecrementCounter(Some(3)));
    SerializeSmall(2, DecrementCounter(Some(44)));
    SerializeSmall(2, DecrementCounter(Some(1)));
  }

  lemma SerializeSmall(tag: u8, ins: CounterInstruction)
    requires tag == 0 ==> ins.InitializeCounter? && ins.initialValue < 256
    requires tag == 1 ==> ins.IncrementCounter? && ins.step.Some? && ins.step.value < 256
    requires tag == 2 ==> ins.DecrementCounter? && ins.step.Some? && ins.step.value < 256
    requires tag <= 2
    ensures tag == 0 ==> Serialize(ins) == [0, ins.initialValue as u8, 0, 0, 0, 0, 0, 0, 0]
    ensures tag != 0 ==> Serialize(ins) == [tag, 1, ins.step.value as u8, 0, 0, 0, 0, 0, 0, 0]
  {
    if tag == 0 {
      SerializeSmallU64(ins.initialValue);
    } else {
      SerializeSmallU64(ins.step.value);
    }
  }

  /** A value below 256 is its own lowest byte followed by seven zero bytes. */
  lemma SerializeSmallU64(v: u64)
    requires v < 256
    ensures SerializeU64(v) == [v as u8, 0, 0, 0, 0, 0, 0, 0]
  {
    ZeroesLe(7);
    assert ToLe(v as nat, 8) == [v as u8] + ToLe(0, 7);
  }

  lemma {:induction false} ZeroesLe(n: nat)
    ensures ToLe(0, n) == seq(n, _ => 0)
  {
    if n > 0 {
      ZeroesLe(n - 1);
    }
  }
}
