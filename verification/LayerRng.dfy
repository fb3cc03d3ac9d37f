/** The seed pipeline of the biome layers (rng.h, "MC Seed Helpers") and the 32-bit
    generator that the zoom layers inline. */
module LayerRng {
  import opened Words

  /** What `setLayerSeed` leaves in a layer. */
  datatype Seed = Seed(startSalt: nat, startSeed: nat)

  function McStepSeed(s: int, salt: int): nat {
    U64(s * (s * 6364136223846793005 + 1442695040888963407) + salt)
  }

  function GetChunkSeed(ss: int, x: int, z: int): nat {
    var cs0 := U64(ss + x);
    var cs1 := McStepSeed(cs0, z);
    var cs2 := McStepSeed(cs1, x);
    McStepSeed(cs2, z)
  }

  /** `((int64_t) s >> 24) % mod == 0`; the sign of the remainder does not matter here. */
  predicate McFirstIsZero(s: int, mod: int)
    requires mod > 0
  {
    (Signed64(s) / 0x100_0000) % mod == 0
  }

  /** `(int64_t) s >> 24` modulo `mod`, made non-negative. */
  function McFirstInt(s: int, mod: int): (r: int)
    requires mod > 0
    ensures 0 <= r < mod
  {
    (Signed64(s) / 0x100_0000) % mod
  }

  /** Bit 24 of the chunk seed, as mapSmooth reads it. */
  predicate Bit24(s: int) {
    (s / 0x100_0000) % 2 == 1
  }

  /** One step `cs *= cs * 1284865837 + 4150755663; cs += add` on `uint32_t`. */
  function ZoomStep(cs: int, add: int): nat {
    U32(cs * (cs * 1284865837 + 4150755663) + add)
  }

  function ZoomSeed(seed: Seed, chunkX: int, chunkZ: int): nat {
    var cs0 := U32(seed.startSeed + chunkX);
    var cs1 := ZoomStep(cs0, chunkZ);
    var cs2 := ZoomStep(cs1, chunkX);
    ZoomStep(cs2, chunkZ)
  }

  function Draw2(cs: int): nat {
    (cs / 0x100_0000) % 2
  }

  function Draw4(cs: int): nat {
    (cs / 0x100_0000) % 4
  }
}
