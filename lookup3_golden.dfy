/** The golden values of the tests in sdjournal/src/hash.rs, derived from
    the spec functions of `Lookup3`. Each test key is described byte by
    byte by a predicate, and each golden is obtained one traversal step at a
    time: the word sums of a block, one `mix`, and `final_`. */
module Lookup3Goldens {
  import opened Lookup3

  /** key is the 30 bytes of "Four score and seven years ago". */
  predicate IsFourScore(key: seq<bv8>)
  {
    |key| == 30 && key[0] == 0x46 && key[1] == 0x6f && key[2] == 0x75 && key[3] == 0x72 && key[4] == 0x20 &&
    key[5] == 0x73 && key[6] == 0x63 && key[7] == 0x6f && key[8] == 0x72 && key[9] == 0x65 && key[10] == 0x20 &&
    key[11] == 0x61 && key[12] == 0x6e && key[13] == 0x64 && key[14] == 0x20 && key[15] == 0x73 && key[16] == 0x65 &&
    key[17] == 0x76 && key[18] == 0x65 && key[19] == 0x6e && key[20] == 0x20 && key[21] == 0x79 && key[22] == 0x65 &&
    key[23] == 0x61 && key[24] == 0x72 && key[25] == 0x73 && key[26] == 0x20 && key[27] == 0x61 && key[28] == 0x67 &&
    key[29] == 0x6f
  }

  /** key is the 27 bytes of "_SOURCE_MONOTONIC_TIMESTAMP", a journal field name. */
  predicate IsMonotonicField(key: seq<bv8>)
  {
    |key| == 27 && key[0] == 0x5f && key[1] == 0x53 && key[2] == 0x4f && key[3] == 0x55 && key[4] == 0x52 &&
    key[5] == 0x43 && key[6] == 0x45 && key[7] == 0x5f && key[8] == 0x4d && key[9] == 0x4f && key[10] == 0x4e &&
    key[11] == 0x4f && key[12] == 0x54 && key[13] == 0x4f && key[14] == 0x4e && key[15] == 0x49 && key[16] == 0x43 &&
    key[17] == 0x5f && key[18] == 0x54 && key[19] == 0x49 && key[20] == 0x4d && key[21] == 0x45 && key[22] == 0x53 &&
    key[23] == 0x54 && key[24] == 0x41 && key[25] == 0x4d && key[26] == 0x50
  }

  /** One round of the traversal loop, given the word sums and the mixed state. */
  lemma BlocksRound(s: State, k: seq<bv8>, a: State, s': State)
    requires |k| > 12
    requires AddBlock(s, k) == a && Mix(a) == s'
    ensures Blocks(s, k) == Blocks(s', k[12..])
  {
  }

  /** The tail step of a non-empty key, given the traversal's state. */
  lemma RunLast(s0: State, key: seq<bv8>, s: State, a: State, f: State)
    requires |key| > 0
    requires Blocks(s0, key) == s && AddBlock(s, Tail(key)) == a && Final(a) == f
    ensures Run(s0, key) == f
  {
  }

  /** The traversal of a key of 25 to 36 bytes, given the state after each
      step: two rounds and the tail. */
  lemma RunTwoRounds(s0: State, key: seq<bv8>, a0: State, s1: State, a1: State, s2: State, a2: State, f: State)
    requires 24 < |key| <= 36
    requires AddBlock(s0, key) == a0 && Mix(a0) == s1
    requires AddBlock(s1, key[12..]) == a1 && Mix(a1) == s2
    requires AddBlock(s2, key[24..]) == a2 && Final(a2) == f
    ensures Run(s0, key) == f
  {
    BlocksRound(s0, key, a0, s1);
    BlocksRound(s1, key[12..], a1, s2);
    assert key[12..][12..] == key[24..];
    assert Tail(key) == key[24..];
    RunLast(s0, key, s2, a2, f);
  }

  /** A key shorter than 2^32 bytes is read whole. */
  lemma VisibleShort<T>(key: seq<T>)
    requires |key| < Two32
    ensures Visible(key) == key
  {
  }

  lemma FourScore00Add0(key: seq<bv8>)
    requires IsFourScore(key)
    ensures AddBlock(State(0xdeadbf0d, 0xdeadbf0d, 0xdeadbf0d), key) == State(0x51232e53, 0x4e11322d, 0x3fce247f)
  {
  }

  lemma FourScore00Add1(key: seq<bv8>)
    requires IsFourScore(key)
    ensures AddBlock(State(0xf859ad7a, 0x04bc57ae, 0x40dddd7e), key[12..]) == State(0x6b7a11e8, 0x7321ce13, 0xa243569e)
  {
  }

  lemma FourScore00Add2(key: seq<bv8>)
    requires IsFourScore(key)
    ensures AddBlock(State(0x336aded2, 0x059f2642, 0xbd02ebd5), key[24..]) == State(0x948b5244, 0x059f95a9, 0xbd02ebd5)
  {
  }

  lemma FourScore00Mix0()
    ensures Mix(State(0x51232e53, 0x4e11322d, 0x3fce247f)) == State(0xf859ad7a, 0x04bc57ae, 0x40dddd7e)
  {
  }

  lemma FourScore00Mix1()
    ensures Mix(State(0x6b7a11e8, 0x7321ce13, 0xa243569e)) == State(0x336aded2, 0x059f2642, 0xbd02ebd5)
  {
  }

  lemma FourScore00Final()
    ensures Final(State(0x948b5244, 0x059f95a9, 0xbd02ebd5)) == State(0x9a837816, 0xce7226e6, 0x17770551)
  {
  }

  /** `hashlittle2("Four score and seven years ago", 0, 0)`. */
  lemma FourScore00Golden(key: seq<bv8>)
    requires IsFourScore(key)
    ensures HashLittle2Of(key, 0, 0) == (0x17770551, 0xce7226e6)
  {
    VisibleShort(key);
    assert Init2(key, 0, 0) == State(0xdeadbf0d, 0xdeadbf0d, 0xdeadbf0d);
    FourScore00Add0(key);
    FourScore00Mix0();
    FourScore00Add1(key);
    FourScore00Mix1();
    FourScore00Add2(key);
    FourScore00Final();
    RunTwoRounds(State(0xdeadbf0d, 0xdeadbf0d, 0xdeadbf0d), key,
      State(0x51232e53, 0x4e11322d, 0x3fce247f),
      State(0xf859ad7a, 0x04bc57ae, 0x40dddd7e),
      State(0x6b7a11e8, 0x7321ce13, 0xa243569e),
      State(0x336aded2, 0x059f2642, 0xbd02ebd5),
      State(0x948b5244, 0x059f95a9, 0xbd02ebd5),
      State(0x9a837816, 0xce7226e6, 0x17770551));
  }

  lemma FourScore01Add0(key: seq<bv8>)
    requires IsFourScore(key)
    ensures AddBlock(State(0xdeadbf0d, 0xdeadbf0d, 0xdeadbf0e), key) == State(0x51232e53, 0x4e11322d, 0x3fce2480)
  {
  }

  lemma FourScore01Add1(key: seq<bv8>)
    requires IsFourScore(key)
    ensures AddBlock(State(0x5880bf0f, 0x0507c285, 0x2e1afadd), key[12..]) == State(0xcba1237d, 0x736d38ea, 0x8f8073fd)
  {
  }

  lemma FourScore01Add2(key: seq<bv8>)
    requires IsFourScore(key)
    ensures AddBlock(State(0xf0a95c6c, 0x6ea72b3e, 0x327297d5), key[24..]) == State(0x51c9cfde, 0x6ea79aa5, 0x327297d5)
  {
  }

  lemma FourScore01Mix0()
    ensures Mix(State(0x51232e53, 0x4e11322d, 0x3fce2480)) == State(0x5880bf0f, 0x0507c285, 0x2e1afadd)
  {
  }

  lemma FourScore01Mix1()
    ensures Mix(State(0xcba1237d, 0x736d38ea, 0x8f8073fd)) == State(0xf0a95c6c, 0x6ea72b3e, 0x327297d5)
  {
  }

  lemma FourScore01Final()
    ensures Final(State(0x51c9cfde, 0x6ea79aa5, 0x327297d5)) == State(0x6cd40950, 0xbd371de4, 0xe3607cae)
  {
  }

  /** `hashlittle2("Four score and seven years ago", 0, 1)`. */
  lemma FourScore01Golden(key: seq<bv8>)
    requires IsFourScore(key)
    ensures HashLittle2Of(key, 0, 1) == (0xe3607cae, 0xbd371de4)
  {
    VisibleShort(key);
    assert Init2(key, 0, 1) == State(0xdeadbf0d, 0xdeadbf0d, 0xdeadbf0e);
    FourScore01Add0(key);
    FourScore01Mix0();
    FourScore01Add1(key);
    FourScore01Mix1();
    FourScore01Add2(key);
    FourScore01Final();
    RunTwoRounds(State(0xdeadbf0d, 0xdeadbf0d, 0xdeadbf0e), key,
      State(0x51232e53, 0x4e11322d, 0x3fce2480),
      State(0x5880bf0f, 0x0507c285, 0x2e1afadd),
      State(0xcba1237d, 0x736d38ea, 0x8f8073fd),
      State(0xf0a95c6c, 0x6ea72b3e, 0x327297d5),
      State(0x51c9cfde, 0x6ea79aa5, 0x327297d5),
      State(0x6cd40950, 0xbd371de4, 0xe3607cae));
  }

  lemma FourScore10Add0(key: seq<bv8>)
    requires IsFourScore(key)
    ensures AddBlock(State(0xdeadbf0e, 0xdeadbf0e, 0xdeadbf0e), key) == State(0x51232e54, 0x4e11322e, 0x3fce2480)
  {
  }

  lemma FourScore10Add1(key: seq<bv8>)
    requires IsFourScore(key)
    ensures AddBlock(State(0x9fb9ade6, 0x89211ba9, 0x3ffff143), key[12..]) == State(0x12da1254, 0xf786920e, 0xa1656a63)
  {
  }

  lemma FourScore10Add2(key: seq<bv8>)
    requires IsFourScore(key)
    ensures AddBlock(State(0xd68042ad, 0x488e0a5d, 0xab16e7b2), key[24..]) == State(0x37a0b61f, 0x488e79c4, 0xab16e7b2)
  {
  }

  lemma FourScore10Mix0()
    ensures Mix(State(0x51232e54, 0x4e11322e, 0x3fce2480)) == State(0x9fb9ade6, 0x89211ba9, 0x3ffff143)
  {
  }

  lemma FourScore10Mix1()
    ensures Mix(State(0x12da1254, 0xf786920e, 0xa1656a63)) == State(0xd68042ad, 0x488e0a5d, 0xab16e7b2)
  {
  }

  lemma FourScore10Final()
    ensures Final(State(0x37a0b61f, 0x488e79c4, 0xab16e7b2)) == State(0x1336f927, 0x6cbea4b3, 0xcd628161)
  {
  }

  /** `hashlittle2("Four score and seven years ago", 1, 0)`. */
  lemma FourScore10Golden(key: seq<bv8>)
    requires IsFourScore(key)
    ensures HashLittle2Of(key, 1, 0) == (0xcd628161, 0x6cbea4b3)
  {
    VisibleShort(key);
    assert Init2(key, 1, 0) == State(0xdeadbf0e, 0xdeadbf0e, 0xdeadbf0e);
    FourScore10Add0(key);
    FourScore10Mix0();
    FourScore10Add1(key);
    FourScore10Mix1();
    FourScore10Add2(key);
    FourScore10Final();
    RunTwoRounds(State(0xdeadbf0e, 0xdeadbf0e, 0xdeadbf0e), key,
      State(0x51232e54, 0x4e11322e, 0x3fce2480),
      State(0x9fb9ade6, 0x89211ba9, 0x3ffff143),
      State(0x12da1254, 0xf786920e, 0xa1656a63),
      State(0xd68042ad, 0x488e0a5d, 0xab16e7b2),
      State(0x37a0b61f, 0x488e79c4, 0xab16e7b2),
      State(0x1336f927, 0x6cbea4b3, 0xcd628161));
  }

  lemma MonotonicFieldAdd0(key: seq<bv8>)
    requires IsMonotonicField(key)
    ensures AddBlock(State(0xdeadbf0a, 0xdeadbf0a, 0xdeadbf0a), key) == State(0x33fd1269, 0x3df3025c, 0x2dfc0e57)
  {
  }

  lemma MonotonicFieldAdd1(key: seq<bv8>)
    requires IsMonotonicField(key)
    ensures AddBlock(State(0xf40653a5, 0x7c968d0b, 0x7944191c), key[12..]) == State(0x3d54a2f9, 0xc5eaec4e, 0xcd975e69)
  {
  }

  lemma MonotonicFieldAdd2(key: seq<bv8>)
    requires IsMonotonicField(key)
    ensures AddBlock(State(0x6792c697, 0xefe655ca, 0xdef9e6cc), key[24..]) == State(0x67e313d8, 0xefe655ca, 0xdef9e6cc)
  {
  }

  lemma MonotonicFieldMix0()
    ensures Mix(State(0x33fd1269, 0x3df3025c, 0x2dfc0e57)) == State(0xf40653a5, 0x7c968d0b, 0x7944191c)
  {
  }

  lemma MonotonicFieldMix1()
    ensures Mix(State(0x3d54a2f9, 0xc5eaec4e, 0xcd975e69)) == State(0x6792c697, 0xefe655ca, 0xdef9e6cc)
  {
  }

  lemma MonotonicFieldFinal()
    ensures Final(State(0x67e313d8, 0xefe655ca, 0xdef9e6cc)) == State(0x9fb86d8e, 0xfa9bf6df, 0x0441f0e2)
  {
  }

  /** `hashlittle2` of the field name with zero seeds. */
  lemma MonotonicFieldHash(key: seq<bv8>)
    requires IsMonotonicField(key)
    ensures HashLittle2Of(key, 0, 0) == (0x0441f0e2, 0xfa9bf6df)
  {
    VisibleShort(key);
    assert Init2(key, 0, 0) == State(0xdeadbf0a, 0xdeadbf0a, 0xdeadbf0a);
    MonotonicFieldAdd0(key);
    MonotonicFieldMix0();
    MonotonicFieldAdd1(key);
    MonotonicFieldMix1();
    MonotonicFieldAdd2(key);
    MonotonicFieldFinal();
    RunTwoRounds(State(0xdeadbf0a, 0xdeadbf0a, 0xdeadbf0a), key,
      State(0x33fd1269, 0x3df3025c, 0x2dfc0e57),
      State(0xf40653a5, 0x7c968d0b, 0x7944191c),
      State(0x3d54a2f9, 0xc5eaec4e, 0xcd975e69),
      State(0x6792c697, 0xefe655ca, 0xdef9e6cc),
      State(0x67e313d8, 0xefe655ca, 0xdef9e6cc),
      State(0x9fb86d8e, 0xfa9bf6df, 0x0441f0e2));
  }

  /** `test_hashlittle` on "Four score and seven years ago". */
  lemma FourScoreHashLittle(key: seq<bv8>)
    requires IsFourScore(key)
    ensures HashLittleOf(key, 0) == 0x17770551
    ensures HashLittleOf(key, 1) == 0xcd628161
  {
    HashLittleIsHashLittle2(key, 0);
    HashLittleIsHashLittle2(key, 1);
    FourScore00Golden(key);
    FourScore10Golden(key);
  }

  /** `test_hash_field_obj_payload`: the 64-bit hash of the field name. */
  lemma MonotonicFieldRhash64(key: seq<bv8>)
    requires IsMonotonicField(key)
    ensures Rhash64(key) == 306791107295704799
  {
    MonotonicFieldHash(key);
  }

  /** The empty-key goldens of `test_hashlittle2` and `test_hashlittle`. */
  lemma EmptyKeyGoldens()
    ensures HashLittle2Of([], 0, 0) == (0xdeadbeef, 0xdeadbeef)
    ensures HashLittle2Of([], 0, 0xdeadbeef) == (0xbd5b7dde, 0xdeadbeef)
    ensures HashLittle2Of([], 0xdeadbeef, 0xdeadbeef) == (0x9c093ccd, 0xbd5b7dde)
    ensures HashLittleOf([], 0) == 0xdeadbeef
    ensures HashLittleOf([], 0xdeadbeef) == 0xbd5b7dde
  {
    HashLittle2Empty([], 0, 0);
    HashLittle2Empty([], 0, 0xdeadbeef);
    HashLittle2Empty([], 0xdeadbeef, 0xdeadbeef);
    HashLittleEmpty([], 0);
    HashLittleEmpty([], 0xdeadbeef);
  }

  /** `test_hashing_repeatedly`: feeding each hash of the empty key back in
      as the seed walks through these eight values. */
  lemma RepeatedEmptyHashes()
    ensures HashLittleOf([], 0x00000000) == 0xdeadbeef
    ensures HashLittleOf([], 0xdeadbeef) == 0xbd5b7dde
    ensures HashLittleOf([], 0xbd5b7dde) == 0x9c093ccd
    ensures HashLittleOf([], 0x9c093ccd) == 0x7ab6fbbc
    ensures HashLittleOf([], 0x7ab6fbbc) == 0x5964baab
    ensures HashLittleOf([], 0x5964baab) == 0x3812799a
    ensures HashLittleOf([], 0x3812799a) == 0x16c03889
    ensures HashLittleOf([], 0x16c03889) == 0xf56df778
  {
    HashLittleEmpty([], 0x00000000);
    HashLittleEmpty([], 0xdeadbeef);
    HashLittleEmpty([], 0xbd5b7dde);
    HashLittleEmpty([], 0x9c093ccd);
    HashLittleEmpty([], 0x7ab6fbbc);
    HashLittleEmpty([], 0x5964baab);
    HashLittleEmpty([], 0x3812799a);
    HashLittleEmpty([], 0x16c03889);
  }
}
