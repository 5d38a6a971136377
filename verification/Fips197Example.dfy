// The worked example of the standard (FIPS 197, appendices A.1 and B): the expansion of one key, and one block
// through the ten rounds. It ties the definitions to known numbers.

module Fips197Example {
  import opened Aes
  import opened Fips197

  function WordOf(x: bv32): Word {
    Word((x >> 24) as bv8, ((x >> 16) & 0xff) as bv8, ((x >> 8) & 0xff) as bv8, (x & 0xff) as bv8)
  }

  /** Sixteen bytes written as one number. */
  function BlockOf(x: bv128): Block {
    Block(WordOf((x >> 96) as bv32), WordOf(((x >> 64) & 0xffff_ffff) as bv32),
          WordOf(((x >> 32) & 0xffff_ffff) as bv32), WordOf((x & 0xffff_ffff) as bv32))
  }

  // ----- the key expansion

  lemma KeyWords(key: Block, round: nat)
    requires round > 0
    ensures KeyWord(key, 4 * round) == XorWord(KeyWord(key, 4 * round - 4),
      XorWord(SubWord(RotWord(KeyWord(key, 4 * round - 1))), Word(RconByte(round), 0, 0, 0)))
    ensures KeyWord(key, 4 * round + 1) == XorWord(KeyWord(key, 4 * round - 3), KeyWord(key, 4 * round))
    ensures KeyWord(key, 4 * round + 2) == XorWord(KeyWord(key, 4 * round - 2), KeyWord(key, 4 * round + 1))
    ensures KeyWord(key, 4 * round + 3) == XorWord(KeyWord(key, 4 * round - 1), KeyWord(key, 4 * round + 2))
  {
    hide RconByte, SubWord, XorWord, RotWord;
    assert 4 * round % 4 == 0 && 4 * round / 4 == round;
  }

  /** The constant of the next round is twice that of the last one. */
  predicate Rcon(round: nat, rcon: bv8) {
    round > 0 && RconByte(round) == rcon
  }

  predicate IsRoundKey(key: Block, round: nat, k: bv128) {
    RoundKey(key, round) == BlockOf(k)
  }

  /** A round key from the one before, when the substituted word and the constant are known. */
  lemma NextRoundKey(key: Block, round: nat, rcon: bv8, t: bv32, k: bv128, k': bv128)
    requires Rcon(round, rcon)
    requires IsRoundKey(key, round - 1, k) && SubRow(RotWord(BlockOf(k).w3), true) == WordOf(t)
    requires XorWord(BlockOf(k).w0, XorWord(WordOf(t), Word(rcon, 0, 0, 0))) == BlockOf(k').w0
    requires XorWord(BlockOf(k).w1, BlockOf(k').w0) == BlockOf(k').w1
    requires XorWord(BlockOf(k).w2, BlockOf(k').w1) == BlockOf(k').w2
    requires XorWord(BlockOf(k).w3, BlockOf(k').w2) == BlockOf(k').w3
    ensures IsRoundKey(key, round, k')
    ensures Rcon(round + 1, XTime(rcon))
  {
    hide SubWord, SubRow, XorWord, RotWord, KeyWord, BlockOf, WordOf, XTime;
    KeyWords(key, round);
    RowSubstituted(RotWord(BlockOf(k).w3));
  }

  lemma Keys4(key: Block)
    requires IsRoundKey(key, 0, 0x2b7e151628aed2a6abf7158809cf4f3c)
    requires Rcon(1, 0x01)
    ensures IsRoundKey(key, 1, 0xa0fafe1788542cb123a339392a6c7605)
    ensures IsRoundKey(key, 2, 0xf2c295f27a96b9435935807a7359f67f)
    ensures IsRoundKey(key, 3, 0x3d80477d4716fe3e1e237e446d7a883b)
    ensures IsRoundKey(key, 4, 0xef44a541a8525b7fb671253bdb0bad00)
    ensures Rcon(5, 0x10)
  {
    hide IsRoundKey, Rcon;
    NextRoundKey(key, 1, 0x01, 0x8a84eb01, 0x2b7e151628aed2a6abf7158809cf4f3c, 0xa0fafe1788542cb123a339392a6c7605);
    NextRoundKey(key, 2, 0x02, 0x50386be5, 0xa0fafe1788542cb123a339392a6c7605, 0xf2c295f27a96b9435935807a7359f67f);
    NextRoundKey(key, 3, 0x04, 0xcb42d28f, 0xf2c295f27a96b9435935807a7359f67f, 0x3d80477d4716fe3e1e237e446d7a883b);
    NextRoundKey(key, 4, 0x08, 0xdac4e23c, 0x3d80477d4716fe3e1e237e446d7a883b, 0xef44a541a8525b7fb671253bdb0bad00);
  }

  lemma Keys8(key: Block)
    requires IsRoundKey(key, 4, 0xef44a541a8525b7fb671253bdb0bad00)
    requires Rcon(5, 0x10)
    ensures IsRoundKey(key, 5, 0xd4d1c6f87c839d87caf2b8bc11f915bc)
    ensures IsRoundKey(key, 6, 0x6d88a37a110b3efddbf98641ca0093fd)
    ensures IsRoundKey(key, 7, 0x4e54f70e5f5fc9f384a64fb24ea6dc4f)
    ensures IsRoundKey(key, 8, 0xead27321b58dbad2312bf5607f8d292f)
    ensures Rcon(9, 0x1b)
  {
    hide IsRoundKey, Rcon;
    NextRoundKey(key, 5, 0x10, 0x2b9563b9, 0xef44a541a8525b7fb671253bdb0bad00, 0xd4d1c6f87c839d87caf2b8bc11f915bc);
    NextRoundKey(key, 6, 0x20, 0x99596582, 0xd4d1c6f87c839d87caf2b8bc11f915bc, 0x6d88a37a110b3efddbf98641ca0093fd);
    NextRoundKey(key, 7, 0x40, 0x63dc5474, 0x6d88a37a110b3efddbf98641ca0093fd, 0x4e54f70e5f5fc9f384a64fb24ea6dc4f);
    NextRoundKey(key, 8, 0x80, 0x2486842f, 0x4e54f70e5f5fc9f384a64fb24ea6dc4f, 0xead27321b58dbad2312bf5607f8d292f);
  }

  lemma Keys10(key: Block)
    requires IsRoundKey(key, 8, 0xead27321b58dbad2312bf5607f8d292f)
    requires Rcon(9, 0x1b)
    ensures IsRoundKey(key, 9, 0xac7766f319fadc2128d12941575c006e)
    ensures IsRoundKey(key, 10, 0xd014f9a8c9ee2589e13f0cc8b6630ca6)
  {
    hide IsRoundKey, Rcon;
    NextRoundKey(key, 9, 0x1b, 0x5da515d2, 0xead27321b58dbad2312bf5607f8d292f, 0xac7766f319fadc2128d12941575c006e);
    NextRoundKey(key, 10, 0x36, 0x4a639f5b, 0xac7766f319fadc2128d12941575c006e, 0xd014f9a8c9ee2589e13f0cc8b6630ca6);
  }

  // ----- the rounds

  lemma SubstitutedBlock(s: Block)
    ensures SubMatrix(s, true) == SubBytes(s)
  {
    hide SubRow, SubWord;
    RowSubstituted(s.w0);
    RowSubstituted(s.w1);
    RowSubstituted(s.w2);
    RowSubstituted(s.w3);
  }

  lemma NextState(input: Block, keys: seq<Block>, n: nat, s: bv128, substituted: bv128, shifted: bv128, mixed: bv128,
                  k: bv128, next: bv128)
    requires 0 < n < |keys| && FullRounds(input, keys, n - 1) == BlockOf(s)
    requires SubMatrix(BlockOf(s), true) == BlockOf(substituted) && ShiftRows(BlockOf(substituted)) == BlockOf(shifted)
    requires MixColumns(BlockOf(shifted)) == BlockOf(mixed)
    requires keys[n] == BlockOf(k) && AddRoundKey(BlockOf(mixed), BlockOf(k)) == BlockOf(next)
    ensures FullRounds(input, keys, n) == BlockOf(next)
  {
    hide SubMatrix, SubBytes, ShiftRows, MixColumns, AddRoundKey, BlockOf;
    SubstitutedBlock(BlockOf(s));
  }

  lemma Rounds1(input: Block, keys: seq<Block>)
    requires |keys| == 11 && keys[1] == BlockOf(0xa0fafe1788542cb123a339392a6c7605)
    requires FullRounds(input, keys, 0) == BlockOf(0x193de3bea0f4e22b9ac68d2ae9f84808)
    ensures FullRounds(input, keys, 1) == BlockOf(0xa49c7ff2689f352b6b5bea43026a5049)
  {
    hide FullRounds;
    NextState(input, keys, 1, 0x193de3bea0f4e22b9ac68d2ae9f84808,
      0xd42711aee0bf98f1b8b45de51e415230, 0xd4bf5d30e0b452aeb84111f11e2798e5,
      0x046681e5e0cb199a48f8d37a2806264c, 0xa0fafe1788542cb123a339392a6c7605,
      0xa49c7ff2689f352b6b5bea43026a5049);
  }

  lemma Rounds2(input: Block, keys: seq<Block>)
    requires |keys| == 11 && keys[2] == BlockOf(0xf2c295f27a96b9435935807a7359f67f)
    requires FullRounds(input, keys, 1) == BlockOf(0xa49c7ff2689f352b6b5bea43026a5049)
    ensures FullRounds(input, keys, 2) == BlockOf(0xaa8f5f0361dde3ef82d24ad26832469a)
  {
    hide FullRounds;
    NextState(input, keys, 2, 0xa49c7ff2689f352b6b5bea43026a5049,
      0x49ded28945db96f17f39871a7702533b, 0x49db873b453953897f02d2f177de961a,
      0x584dcaf11b4b5aacdbe7caa81b6bb0e5, 0xf2c295f27a96b9435935807a7359f67f,
      0xaa8f5f0361dde3ef82d24ad26832469a);
  }

  lemma Rounds3(input: Block, keys: seq<Block>)
    requires |keys| == 11 && keys[3] == BlockOf(0x3d80477d4716fe3e1e237e446d7a883b)
    requires FullRounds(input, keys, 2) == BlockOf(0xaa8f5f0361dde3ef82d24ad26832469a)
    ensures FullRounds(input, keys, 3) == BlockOf(0x486c4eee671d9d0d4de3b138d65f58e7)
  {
    hide FullRounds;
    NextState(input, keys, 3, 0xaa8f5f0361dde3ef82d24ad26832469a,
      0xac73cf7befc111df13b5d6b545235ab8, 0xacc1d6b8efb55a7b1323cfdf457311b5,
      0x75ec0993200b633353c0cf7cbb25d0dc, 0x3d80477d4716fe3e1e237e446d7a883b,
      0x486c4eee671d9d0d4de3b138d65f58e7);
  }

  lemma Rounds4(input: Block, keys: seq<Block>)
    requires |keys| == 11 && keys[4] == BlockOf(0xef44a541a8525b7fb671253bdb0bad00)
    requires FullRounds(input, keys, 3) == BlockOf(0x486c4eee671d9d0d4de3b138d65f58e7)
    ensures FullRounds(input, keys, 4) == BlockOf(0xe0927fe8c86363c0d9b1355085b8be01)
  {
    hide FullRounds;
    NextState(input, keys, 4, 0x486c4eee671d9d0d4de3b138d65f58e7,
      0x52502f2885a45ed7e311c807f6cf6a94, 0x52a4c89485116a28e3cf2fd7f6505e07,
      0x0fd6daa9603138bf6fc0106b5eb31301, 0xef44a541a8525b7fb671253bdb0bad00,
      0xe0927fe8c86363c0d9b1355085b8be01);
  }

  lemma Rounds5(input: Block, keys: seq<Block>)
    requires |keys| == 11 && keys[5] == BlockOf(0xd4d1c6f87c839d87caf2b8bc11f915bc)
    requires FullRounds(input, keys, 4) == BlockOf(0xe0927fe8c86363c0d9b1355085b8be01)
    ensures FullRounds(input, keys, 5) == BlockOf(0xf1006f55c1924cef7cc88b325db5d50c)
  {
    hide FullRounds;
    NextState(input, keys, 5, 0xe0927fe8c86363c0d9b1355085b8be01,
      0xe14fd29be8fbfbba35c89653976cae7c, 0xe1fb967ce8c8ae9b356cd2ba974ffb53,
      0x25d1a9adbd11d168b63a338e4c4cc0b0, 0xd4d1c6f87c839d87caf2b8bc11f915bc,
      0xf1006f55c1924cef7cc88b325db5d50c);
  }

  lemma Rounds6(input: Block, keys: seq<Block>)
    requires |keys| == 11 && keys[6] == BlockOf(0x6d88a37a110b3efddbf98641ca0093fd)
    requires FullRounds(input, keys, 5) == BlockOf(0xf1006f55c1924cef7cc88b325db5d50c)
    ensures FullRounds(input, keys, 6) == BlockOf(0x260e2e173d41b77de86472a9fdd28b25)
  {
    hide FullRounds;
    NextState(input, keys, 6, 0xf1006f55c1924cef7cc88b325db5d50c,
      0xa163a8fc784f29df10e83d234cd503fe, 0xa14f3dfe78e803fc10d5a8df4c632923,
      0x4b868d6d2c4a8980339df4e837d218d8, 0x6d88a37a110b3efddbf98641ca0093fd,
      0x260e2e173d41b77de86472a9fdd28b25);
  }

  lemma Rounds7(input: Block, keys: seq<Block>)
    requires |keys| == 11 && keys[7] == BlockOf(0x4e54f70e5f5fc9f384a64fb24ea6dc4f)
    requires FullRounds(input, keys, 6) == BlockOf(0x260e2e173d41b77de86472a9fdd28b25)
    ensures FullRounds(input, keys, 7) == BlockOf(0x5a4142b11949dc1fa3e019657a8c040c)
  {
    hide FullRounds;
    NextState(input, keys, 7, 0x260e2e173d41b77de86472a9fdd28b25,
      0xf7ab31f02783a9ff9b4340d354b53d3f, 0xf783403f27433df09bb531ff54aba9d3,
      0x1415b5bf461615ec274656d7342ad843, 0x4e54f70e5f5fc9f384a64fb24ea6dc4f,
      0x5a4142b11949dc1fa3e019657a8c040c);
  }

  lemma Rounds8(input: Block, keys: seq<Block>)
    requires |keys| == 11 && keys[8] == BlockOf(0xead27321b58dbad2312bf5607f8d292f)
    requires FullRounds(input, keys, 7) == BlockOf(0x5a4142b11949dc1fa3e019657a8c040c)
    ensures FullRounds(input, keys, 8) == BlockOf(0xea835cf00445332d655d98ad8596b0c5)
  {
    hide FullRounds;
    NextState(input, keys, 8, 0x5a4142b11949dc1fa3e019657a8c040c,
      0xbe832cc8d43b86c00ae1d44dda64f2fe, 0xbe3bd4fed4e1f2c80a642cc0da83864d,
      0x00512fd1b1c889ff54766dcdfa1b99ea, 0xead27321b58dbad2312bf5607f8d292f,
      0xea835cf00445332d655d98ad8596b0c5);
  }

  lemma Rounds9(input: Block, keys: seq<Block>)
    requires |keys| == 11 && keys[9] == BlockOf(0xac7766f319fadc2128d12941575c006e)
    requires FullRounds(input, keys, 8) == BlockOf(0xea835cf00445332d655d98ad8596b0c5)
    ensures FullRounds(input, keys, 9) == BlockOf(0xeb40f21e592e38848ba113e71bc342d2)
  {
    hide FullRounds;
    NextState(input, keys, 9, 0xea835cf00445332d655d98ad8596b0c5,
      0x87ec4a8cf26ec3d84d4c46959790e7a6, 0x876e46a6f24ce78c4d904ad897ecc395,
      0x473794ed40d4e4a5a3703aa64c9f42bc, 0xac7766f319fadc2128d12941575c006e,
      0xeb40f21e592e38848ba113e71bc342d2);
  }

  lemma LastRound(input: Block, keys: seq<Block>)
    requires |keys| == 11 && keys[10] == BlockOf(0xd014f9a8c9ee2589e13f0cc8b6630ca6)
    requires FullRounds(input, keys, 9) == BlockOf(0xeb40f21e592e38848ba113e71bc342d2)
    ensures Cipher(input, keys) == BlockOf(0x3925841d02dc09fbdc118597196a0b32)
  {
    hide FullRounds, SubRow, SubWord;
    SubstitutedBlock(BlockOf(0xeb40f21e592e38848ba113e71bc342d2));
    LastSubstituted();
    assert ShiftRows(BlockOf(0xe9098972cb31075f3d327d94af2e2cb5)) == BlockOf(0xe9317db5cb322c723d2e895faf090794);
    assert AddRoundKey(BlockOf(0xe9317db5cb322c723d2e895faf090794), BlockOf(0xd014f9a8c9ee2589e13f0cc8b6630ca6))
      == BlockOf(0x3925841d02dc09fbdc118597196a0b32);
  }

  lemma LastSubstituted()
    ensures SubMatrix(BlockOf(0xeb40f21e592e38848ba113e71bc342d2), true) == BlockOf(0xe9098972cb31075f3d327d94af2e2cb5)
  {
  }

  lemma FirstState(input: Block, keys: seq<Block>)
    requires |keys| == 11 && keys[0] == BlockOf(0x2b7e151628aed2a6abf7158809cf4f3c)
    requires input == BlockOf(0x3243f6a8885a308d313198a2e0370734)
    ensures FullRounds(input, keys, 0) == BlockOf(0x193de3bea0f4e22b9ac68d2ae9f84808)
  {
    assert AddRoundKey(BlockOf(0x3243f6a8885a308d313198a2e0370734), BlockOf(0x2b7e151628aed2a6abf7158809cf4f3c))
      == BlockOf(0x193de3bea0f4e22b9ac68d2ae9f84808);
    hide AddRoundKey, BlockOf;
  }

  /** The ciphertext of the example. */
  lemma CipherOfExample(input: Block, key: Block)
    requires input == BlockOf(0x3243f6a8885a308d313198a2e0370734)
    requires key == BlockOf(0x2b7e151628aed2a6abf7158809cf4f3c)
    ensures Cipher(input, Expansion(key)) == BlockOf(0x3925841d02dc09fbdc118597196a0b32)
  {
    hide IsRoundKey, Rcon, FullRounds, Cipher, BlockOf, RoundKey;
    var keys := Expansion(key);
    FirstKey(key);
    Keys4(key);
    Keys8(key);
    Keys10(key);
    forall r | 0 <= r < 11
      ensures keys[r] == RoundKey(key, r)
    {
    }
    KeyIn(keys, key, 0, 0x2b7e151628aed2a6abf7158809cf4f3c);
    KeyIn(keys, key, 1, 0xa0fafe1788542cb123a339392a6c7605);
    KeyIn(keys, key, 2, 0xf2c295f27a96b9435935807a7359f67f);
    KeyIn(keys, key, 3, 0x3d80477d4716fe3e1e237e446d7a883b);
    KeyIn(keys, key, 4, 0xef44a541a8525b7fb671253bdb0bad00);
    KeyIn(keys, key, 5, 0xd4d1c6f87c839d87caf2b8bc11f915bc);
    KeyIn(keys, key, 6, 0x6d88a37a110b3efddbf98641ca0093fd);
    KeyIn(keys, key, 7, 0x4e54f70e5f5fc9f384a64fb24ea6dc4f);
    KeyIn(keys, key, 8, 0xead27321b58dbad2312bf5607f8d292f);
    KeyIn(keys, key, 9, 0xac7766f319fadc2128d12941575c006e);
    KeyIn(keys, key, 10, 0xd014f9a8c9ee2589e13f0cc8b6630ca6);
    FirstState(input, keys);
    Rounds1(input, keys);
    Rounds2(input, keys);
    Rounds3(input, keys);
    Rounds4(input, keys);
    Rounds5(input, keys);
    Rounds6(input, keys);
    Rounds7(input, keys);
    Rounds8(input, keys);
    Rounds9(input, keys);
    LastRound(input, keys);
  }

  lemma FirstKey(key: Block)
    requires key == BlockOf(0x2b7e151628aed2a6abf7158809cf4f3c)
    ensures IsRoundKey(key, 0, 0x2b7e151628aed2a6abf7158809cf4f3c) && Rcon(1, 1)
  {
    hide BlockOf;
  }

  lemma KeyIn(keys: seq<Block>, key: Block, r: nat, k: bv128)
    requires r < |keys| && keys[r] == RoundKey(key, r) && IsRoundKey(key, r, k)
    ensures keys[r] == BlockOf(k)
  {
    hide RoundKey, BlockOf;
  }
}
