/**
 * The part of the Borsh binary format the counter program relies on:
 * unsigned 64-bit integers as 8 little-endian bytes, and `Option<u64>`
 * as a presence byte (0 or 1) followed by the value when it is 1.
 * Each deserializer reads from the front of its input and hands back
 * what it did not consume, as Borsh's readers do.
 */
module Borsh {
  import opened Wrappers

  /** Rust's `u8`: one byte. */
  newtype u8 = x: int | 0 <= x < 256

  /** Rust's `u64`. */
  newtype u64 = x: int | 0 <= x <= 0xFFFF_FFFF_FFFF_FFFF

  const U64_MAX: u64 := 0xFFFF_FFFF_FFFF_FFFF

  /** 256^n: how many distinct values n bytes can hold. */
  function Pow256(n: nat): (r: nat)
    ensures r >= 1
  {
    if n == 0 then 1 else 256 * Pow256(n - 1)
  }

  lemma Pow256Eight()
    ensures Pow256(8) == U64_MAX as int + 1
  {
    assert Pow256(1) == 256;
    assert Pow256(2) == 0x1_0000;
    assert Pow256(4) == 0x1_0000_0000 by {
      assert Pow256(3) == 0x100_0000;
    }
    assert Pow256(6) == 0x1_0000_0000_0000 by {
      assert Pow256(5) == 0x100_0000_0000;
    }
    assert Pow256(7) == 0x100_0000_0000_0000;
  }

  /** The n lowest-order bytes of v, least significant first. */
  function ToLe(v: nat, n: nat): (r: seq<u8>)
    ensures |r| == n
  {
    if n == 0 then [] else [(v % 256) as u8] + ToLe(v / 256, n - 1)
  }

  /** The number whose little-endian bytes are s. */
  function FromLe(s: seq<u8>): (r: nat)
    ensures r < Pow256(|s|)
  {
    if s == [] then 0 else s[0] as nat + 256 * FromLe(s[1..])
  }

  lemma {:induction false} FromToLe(v: nat, n: nat)
    requires v < Pow256(n)
    ensures FromLe(ToLe(v, n)) == v
  {
    if n > 0 {
      var q, m := v / 256, v % 256;
      assert q < Pow256(n - 1) by {
        QuotientBound(v, Pow256(n - 1));
      }
      FromToLe(q, n - 1);
      var s := ToLe(v, n);
      assert s == [m as u8] + ToLe(q, n - 1);
      assert s[1..] == ToLe(q, n - 1);
      assert s[0] as nat == m;
      var w := FromLe(s[1..]);
      assert w == q;
      assert FromLe(s) == s[0] as nat + 256 * w;
    }
  }

  lemma QuotientBound(v: nat, p: nat)
    requires v < 256 * p
    ensures v / 256 < p
  {
  }

  lemma {:induction false} ToFromLe(s: seq<u8>)
    ensures ToLe(FromLe(s), |s|) == s
  {
    if s != [] {
      var v := FromLe(s);
      var b, w := s[0] as nat, FromLe(s[1..]);
      assert v == b + 256 * w;
      assert v % 256 == b && v / 256 == w by {
        DivModUnique(v, b, w);
      }
      ToFromLe(s[1..]);
      assert ToLe(v, |s|) == [(b as u8)] + ToLe(w, |s| - 1);
    }
  }

  lemma DivModUnique(v: nat, b: nat, w: nat)
    requires b < 256 && v == b + 256 * w
    ensures v % 256 == b && v / 256 == w
  {
  }

  /** `u64::serialize`: `to_le_bytes`. */
  function SerializeU64(v: u64): (r: seq<u8>)
    ensures |r| == 8
  {
    ToLe(v as nat, 8)
  }

  /** `u64::deserialize_reader`: fails when fewer than 8 bytes remain. */
  function DeserializeU64(input: seq<u8>): (r: Option<(u64, seq<u8>)>)
    ensures r.Some? <==> |input| >= 8
    ensures r.Some? ==> r.value.1 == input[8..]
  {
    if |input| < 8 then None
    else
      Pow256Eight();
      Some((FromLe(input[..8]) as u64, input[8..]))
  }

  lemma DeserializeSerializeU64(v: u64, rest: seq<u8>)
    ensures DeserializeU64(SerializeU64(v) + rest) == Some((v, rest))
  {
    var input := SerializeU64(v) + rest;
    assert input[..8] == SerializeU64(v);
    assert input[8..] == rest;
    Pow256Eight();
    FromToLe(v as nat, 8);
  }

  /** Deserializing consumes exactly the bytes that serializing the value gives. */
  lemma SerializeDeserializeU64(input: seq<u8>)
    requires DeserializeU64(input).Some?
    ensures var (v, rest) := DeserializeU64(input).value; input == SerializeU64(v) + rest
  {
    ToFromLe(input[..8]);
    assert input == input[..8] + input[8..];
  }

  /** `Option<u64>::serialize`: flag 0 alone, or flag 1 and the value. */
  function SerializeOptionU64(o: Option<u64>): (r: seq<u8>)
    ensures |r| == if o.Some? then 9 else 1
  {
    match o
    case None => [0]
    case Some(v) => [1] + SerializeU64(v)
  }

  /** `Option<u64>::deserialize_reader`: a flag other than 0 or 1 is an error. */
  function DeserializeOptionU64(input: seq<u8>): (r: Option<(Option<u64>, seq<u8>)>)
    ensures r.Some? <==> |input| >= 1 && (input[0] == 0 || (input[0] == 1 && |input| >= 9))
  {
    if |input| == 0 then None
    else if input[0] == 0 then Some((None, input[1..]))
    else if input[0] == 1 then
      match DeserializeU64(input[1..])
      case None => None
      case Some((v, rest)) => Some((Some(v), rest))
    else None
  }

  lemma DeserializeSerializeOptionU64(o: Option<u64>, rest: seq<u8>)
    ensures DeserializeOptionU64(SerializeOptionU64(o) + rest) == Some((o, rest))
  {
    var input := SerializeOptionU64(o) + rest;
    match o
    case None =>
      assert input[1..] == rest;
    case Some(v) =>
      assert input[1..] == SerializeU64(v) + rest;
      DeserializeSerializeU64(v, rest);
  }

  lemma SerializeDeserializeOptionU64(input: seq<u8>)
    requires DeserializeOptionU64(input).Some?
    ensures var (o, rest) := DeserializeOptionU64(input).value; input == SerializeOptionU64(o) + rest
  {
    assert input == [input[0]] + input[1..];
    if input[0] == 1 {
      SerializeDeserializeU64(input[1..]);
    }
  }
}
