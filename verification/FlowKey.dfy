/** The five-tuple that identifies a connection, and the two hashes that route it. */
module FlowKey {
  import opened Common

  /** Addresses and ports are ordered, so that both directions of a connection agree. */
  datatype Key = Key(protocol: Byte, upperIp: Word32, lowerIp: Word32, upperPort: Word32, lowerPort: Word32)

  /** The shift-and-xor mix that the parsers and the managers share. */
  function Mix(v1: bv32, v2: bv32): bv32 {
    var h1 := v1 << 8;
    var h1 := h1 ^ (v1 >> 4);
    var h1 := h1 ^ (v1 >> 12);
    var h1 := h1 ^ (v1 >> 16);
    var h1 := h1 ^ (v2 << 6);
    var h1 := h1 ^ (v2 << 10);
    var h1 := h1 ^ (v2 << 14);
    h1 ^ (v2 >> 7)
  }

  function MixHash(f1: Word32, f2: Word32, f3: Word32, f4: Word32): bv32 {
    Mix(f1 as bv32 ^ f2 as bv32, f3 as bv32 ^ f4 as bv32)
  }

  /** Which manager a parser hands the flow to. */
  function ManagerIndex(k: Key, managers: nat): (r: nat)
    requires managers > 0
    ensures r < managers
  {
    MixHash(k.lowerIp, k.upperIp, k.lowerPort, k.upperPort) as int % managers
  }

  /** Which bucket of its table a manager files the flow under. */
  function BucketIndex(k: Key, buckets: nat): (r: nat)
    requires buckets > 0
    ensures r < buckets
  {
    MixHash(k.lowerPort, k.upperIp, k.upperPort, k.lowerIp) as int % buckets
  }

  /** Bit k of the mix is the xor of bits k - 8, k + 4, k + 12 and k + 16 of the first word and
      of bits k - 6, k - 10, k - 14 and k + 7 of the second, as far as a word has them: here for
      all bits k that have the same ones. */
  lemma MixBits(v1: bv32, v2: bv32)
    ensures var h := Mix(v1, v2);
      && h & 0x3F == ((v1 >> 4) ^ (v1 >> 12) ^ (v1 >> 16) ^ (v2 >> 7)) & 0x3F
      && (h >> 6) & 0x3 == ((v1 >> 10) ^ (v1 >> 18) ^ (v1 >> 22) ^ v2 ^ (v2 >> 13)) & 0x3
      && (h >> 8) & 0x3 == (v1 ^ (v1 >> 12) ^ (v1 >> 20) ^ (v1 >> 24) ^ (v2 >> 2) ^ (v2 >> 15)) & 0x3
      && (h >> 10) & 0xF == ((v1 >> 2) ^ (v1 >> 14) ^ (v1 >> 22) ^ (v1 >> 26) ^ (v2 >> 4) ^ v2 ^ (v2 >> 17)) & 0xF
      && (h >> 14) & 0x3 == ((v1 >> 6) ^ (v1 >> 18) ^ (v1 >> 26) ^ (v1 >> 30) ^ (v2 >> 8) ^ (v2 >> 4) ^ v2 ^ (v2 >> 21)) & 0x3
      && (h >> 16) & 0xF == ((v1 >> 8) ^ (v1 >> 20) ^ (v1 >> 28) ^ (v2 >> 10) ^ (v2 >> 6) ^ (v2 >> 2) ^ (v2 >> 23)) & 0xF
      && (h >> 20) & 0x1F == ((v1 >> 12) ^ (v1 >> 24) ^ (v2 >> 14) ^ (v2 >> 10) ^ (v2 >> 6) ^ (v2 >> 27)) & 0x1F
      && (h >> 25) & 0x7 == ((v1 >> 17) ^ (v1 >> 29) ^ (v2 >> 19) ^ (v2 >> 15) ^ (v2 >> 11)) & 0x7
      && (h >> 28) & 0xF == ((v1 >> 20) ^ (v2 >> 22) ^ (v2 >> 18) ^ (v2 >> 14)) & 0xF
  {
    ShiftedBits(Mix(v1, v2), v1, v2);
  }

  /** The same of a word given as a sum of shifted words. */
  lemma ShiftedBits(h: bv32, v1: bv32, v2: bv32)
    requires h == (v1 << 8) ^ (v1 >> 4) ^ (v1 >> 12) ^ (v1 >> 16) ^ (v2 << 6) ^ (v2 << 10) ^ (v2 << 14) ^ (v2 >> 7)
    ensures
      && h & 0x3F == ((v1 >> 4) ^ (v1 >> 12) ^ (v1 >> 16) ^ (v2 >> 7)) & 0x3F
      && (h >> 6) & 0x3 == ((v1 >> 10) ^ (v1 >> 18) ^ (v1 >> 22) ^ v2 ^ (v2 >> 13)) & 0x3
      && (h >> 8) & 0x3 == (v1 ^ (v1 >> 12) ^ (v1 >> 20) ^ (v1 >> 24) ^ (v2 >> 2) ^ (v2 >> 15)) & 0x3
      && (h >> 10) & 0xF == ((v1 >> 2) ^ (v1 >> 14) ^ (v1 >> 22) ^ (v1 >> 26) ^ (v2 >> 4) ^ v2 ^ (v2 >> 17)) & 0xF
      && (h >> 14) & 0x3 == ((v1 >> 6) ^ (v1 >> 18) ^ (v1 >> 26) ^ (v1 >> 30) ^ (v2 >> 8) ^ (v2 >> 4) ^ v2 ^ (v2 >> 21)) & 0x3
      && (h >> 16) & 0xF == ((v1 >> 8) ^ (v1 >> 20) ^ (v1 >> 28) ^ (v2 >> 10) ^ (v2 >> 6) ^ (v2 >> 2) ^ (v2 >> 23)) & 0xF
      && (h >> 20) & 0x1F == ((v1 >> 12) ^ (v1 >> 24) ^ (v2 >> 14) ^ (v2 >> 10) ^ (v2 >> 6) ^ (v2 >> 27)) & 0x1F
      && (h >> 25) & 0x7 == ((v1 >> 17) ^ (v1 >> 29) ^ (v2 >> 19) ^ (v2 >> 15) ^ (v2 >> 11)) & 0x7
      && (h >> 28) & 0xF == ((v1 >> 20) ^ (v2 >> 22) ^ (v2 >> 18) ^ (v2 >> 14)) & 0xF
  {
  }

  /** The manager depends on the addresses through their xor and on the ports through theirs;
      the bucket mixes each port with the address of the other rank. */
  lemma IndexWords(k: Key, managers: nat, buckets: nat)
    requires managers > 0 && buckets > 0
    ensures ManagerIndex(k, managers) ==
      Mix(k.lowerIp as bv32 ^ k.upperIp as bv32, k.lowerPort as bv32 ^ k.upperPort as bv32) as int % managers
    ensures BucketIndex(k, buckets) ==
      Mix(k.lowerPort as bv32 ^ k.upperIp as bv32, k.upperPort as bv32 ^ k.lowerIp as bv32) as int % buckets
  {
  }

  /** Two keys and where they go. */
  lemma IndexExamples()
    ensures ManagerIndex(Key(6, 2, 0, 1, 0), 5) == 17984 % 5
    ensures BucketIndex(Key(6, 5, 2, 1, 0), 1000003) == 51648
  {
  }
}
