/** The two hashes on published values of FNV-1a: the hash of "a" in 32 bits and those of "f" and
    "fo" in 64. The 64-bit digest takes two bytes from each code unit, low byte first, so "fo"
    is one unit. */
module HashVectors {
  import opened Bits
  import opened Text
  import Rendezvous
  import Digest

  lemma XorOfA()
    ensures Xor(0xc5, 0x61) == 0xa4
  {
    assert Xor(0, 0) == 0;
    assert Xor(1, 0) == 1;
    assert Xor(3, 1) == 2;
    assert Xor(6, 3) == 5;
    assert Xor(12, 6) == 10;
    assert Xor(24, 12) == 20;
    assert Xor(49, 24) == 41;
    assert Xor(98, 48) == 82;
  }

  lemma XorOfF()
    ensures Xor(0x25, 0x66) == 0x43
  {
    assert Xor(0, 0) == 0;
    assert Xor(0, 0) == 0;
    assert Xor(0, 1) == 1;
    assert Xor(1, 3) == 2;
    assert Xor(2, 6) == 4;
    assert Xor(4, 12) == 8;
    assert Xor(9, 25) == 16;
    assert Xor(18, 51) == 33;
  }

  lemma XorOfO()
    ensures Xor(0xd9, 0x6f) == 0xb6
  {
    assert Xor(0, 0) == 0;
    assert Xor(1, 0) == 1;
    assert Xor(3, 1) == 2;
    assert Xor(6, 3) == 5;
    assert Xor(13, 6) == 11;
    assert Xor(27, 13) == 22;
    assert Xor(54, 27) == 45;
    assert Xor(108, 55) == 91;
  }

  /** A byte meets only the low eight bits. */
  lemma XorWithByte(high: nat, low: nat, byte: nat)
    requires low < 0x100 && byte < 0x100
    ensures Xor(0x100 * high + low, byte) == 0x100 * high + Xor(low, byte)
  {
    Pow2Eight();
    XorLow(high, low, byte, 8);
    ShiftIsTimes(high, 8);
  }

  lemma ScoresStartAsPublished()
    ensures Rendezvous.Fnv32(Rendezvous.FNV32_OFFSET, [0x61]) == 0xe40c292c
  {
    XorOfA();
    hide Xor;
    XorWithByte(0x811c9d, 0xc5, 0x61);
    assert Rendezvous.Mix(0x811c9dc5, 0x61) == 0xe40c292c;
    assert [0x61 as Unit][1..] == [];
  }

  lemma FirstRounds()
    ensures Digest.Mix(Digest.FNV64_OFFSET, 0x66) == 0xaf63db4c8601ead9
    ensures Digest.Mix(0xaf63db4c8601ead9, 0x6f) == 0x8985907b541d342
  {
    XorOfF();
    XorOfO();
    hide Xor;
    XorWithByte(0xcbf29ce4842223, 0x25, 0x66);
    XorWithByte(0xaf63db4c8601ea, 0xd9, 0x6f);
  }

  lemma DigestsStartAsPublished()
    ensures Digest.Fnv64(Digest.FNV64_OFFSET, [0x6f66]) == 0x8985907b541d342
  {
    FirstRounds();
    hide Digest.Mix;
    assert [0x6f66 as Unit][1..] == [];
  }
}
