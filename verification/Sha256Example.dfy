// The worked example of the standard (FIPS 180-2, appendix B.1): the three bytes "abc", with the message schedule
// and the working variables after each round. It ties the definitions to known numbers.

module Sha256Example {
  import opened Fips180

  const MESSAGE: seq<bv8> := [0x61, 0x62, 0x63]

  /** Eight words written as one number. */
  function VarsOf(x: bv256): Vars {
    Vars((x >> 224) as bv32, ((x >> 192) & 0xffff_ffff) as bv32, ((x >> 160) & 0xffff_ffff) as bv32,
         ((x >> 128) & 0xffff_ffff) as bv32, ((x >> 96) & 0xffff_ffff) as bv32, ((x >> 64) & 0xffff_ffff) as bv32,
         ((x >> 32) & 0xffff_ffff) as bv32, (x & 0xffff_ffff) as bv32)
  }

  // ----- the only block

  lemma LengthOfMessage()
    ensures LengthField(3) == [0, 0, 0, 0, 0, 0, 0, 24]
  {
    Bytes.Powers();
    assert Digit(24, 7) == Digit(24, 6) == Digit(24, 5) == Digit(24, 4) == 0;
    assert Digit(24, 3) == Digit(24, 2) == Digit(24, 1) == 0 && Digit(24, 0) == 24;
  }

  lemma PaddedMessage()
    ensures |Pad(MESSAGE)| == 64
    ensures Pad(MESSAGE)[0] == 0x61 && Pad(MESSAGE)[1] == 0x62 && Pad(MESSAGE)[2] == 0x63 && Pad(MESSAGE)[3] == 0x80
    ensures forall i :: 4 <= i < 63 ==> Pad(MESSAGE)[i] == 0
    ensures Pad(MESSAGE)[63] == 24
  {
    LengthOfMessage();
    assert ZeroCount(3) == 52;
    hide ZeroCount, LengthField;
  }

  /** Eight words of the schedule in a row. */
  predicate Words(block: seq<bv8>, t: nat, words: bv256)
    requires |block| == 64 && t <= 56
  {
    Vars(W(block, t), W(block, t + 1), W(block, t + 2), W(block, t + 3),
         W(block, t + 4), W(block, t + 5), W(block, t + 6), W(block, t + 7)) == VarsOf(words)
  }

  lemma ZeroWord(block: seq<bv8>, t: nat)
    requires |block| == 64 && t < 16
    requires forall i :: 4 * t <= i < 4 * t + 4 ==> block[i] == 0
    ensures W(block, t) == 0
  {
    assert block[4 * t] == 0 && block[4 * t + 1] == 0 && block[4 * t + 2] == 0 && block[4 * t + 3] == 0;
  }

  lemma FirstWord(block: seq<bv8>)
    requires |block| == 64 && block[0] == 0x61 && block[1] == 0x62 && block[2] == 0x63 && block[3] == 0x80
    ensures W(block, 0) == 0x61626380
  {
  }

  lemma LastWord(block: seq<bv8>)
    requires |block| == 64 && block[60] == 0 && block[61] == 0 && block[62] == 0 && block[63] == 24
    ensures W(block, 15) == 0x18
  {
  }

  lemma Words0(block: seq<bv8>)
    requires block == Pad(MESSAGE)
    ensures |block| == 64
    ensures Words(block, 0, 0x6162638000000000000000000000000000000000000000000000000000000000)
    ensures Words(block, 8, 0x0000000000000000000000000000000000000000000000000000000000000018)
  {
    PaddedMessage();
    hide Pad, W;
    FirstWord(block);
    LastWord(block);
    forall t | 1 <= t < 15
      ensures W(block, t) == 0
    {
      ZeroWord(block, t);
    }
  }

  // ----- the schedule

  lemma Next(block: seq<bv8>, t: nat, w2: word, w7: word, w15: word, w16: word, w: word)
    requires |block| == 64 && 16 <= t < 64
    requires W(block, t - 2) == w2 && W(block, t - 7) == w7 && W(block, t - 15) == w15 && W(block, t - 16) == w16
    requires NextWord(w2, w7, w15, w16) == w
    ensures W(block, t) == w
  {
    hide NextWord;
  }

  lemma Words16(block: seq<bv8>)
    requires |block| == 64
    requires Words(block, 0, 0x6162638000000000000000000000000000000000000000000000000000000000)
    requires Words(block, 8, 0x0000000000000000000000000000000000000000000000000000000000000018)
    ensures Words(block, 16, 0x61626380000f00007da86405600003c63e9d7b780183fc0012dcbfdbe2e2c38e)
  {
    hide W;
    Next(block, 16, 0x00000000, 0x00000000, 0x00000000, 0x61626380, 0x61626380);
    Next(block, 17, 0x00000018, 0x00000000, 0x00000000, 0x00000000, 0x000f0000);
    Next(block, 18, 0x61626380, 0x00000000, 0x00000000, 0x00000000, 0x7da86405);
    Next(block, 19, 0x000f0000, 0x00000000, 0x00000000, 0x00000000, 0x600003c6);
    Next(block, 20, 0x7da86405, 0x00000000, 0x00000000, 0x00000000, 0x3e9d7b78);
    Next(block, 21, 0x600003c6, 0x00000000, 0x00000000, 0x00000000, 0x0183fc00);
    Next(block, 22, 0x3e9d7b78, 0x00000018, 0x00000000, 0x00000000, 0x12dcbfdb);
    Next(block, 23, 0x0183fc00, 0x61626380, 0x00000000, 0x00000000, 0xe2e2c38e);
  }

  lemma Words24(block: seq<bv8>)
    requires |block| == 64
    requires Words(block, 8, 0x0000000000000000000000000000000000000000000000000000000000000018)
    requires Words(block, 16, 0x61626380000f00007da86405600003c63e9d7b780183fc0012dcbfdbe2e2c38e)
    ensures Words(block, 24, 0xc8215c1ab73679a2e5bc390932663c5b9d209d67ec8726cb702138a4d3b7973b)
  {
    hide W;
    Next(block, 24, 0x12dcbfdb, 0x000f0000, 0x00000000, 0x00000000, 0xc8215c1a);
    Next(block, 25, 0xe2e2c38e, 0x7da86405, 0x00000000, 0x00000000, 0xb73679a2);
    Next(block, 26, 0xc8215c1a, 0x600003c6, 0x00000000, 0x00000000, 0xe5bc3909);
    Next(block, 27, 0xb73679a2, 0x3e9d7b78, 0x00000000, 0x00000000, 0x32663c5b);
    Next(block, 28, 0xe5bc3909, 0x0183fc00, 0x00000000, 0x00000000, 0x9d209d67);
    Next(block, 29, 0x32663c5b, 0x12dcbfdb, 0x00000000, 0x00000000, 0xec8726cb);
    Next(block, 30, 0x9d209d67, 0xe2e2c38e, 0x00000018, 0x00000000, 0x702138a4);
    Next(block, 31, 0xec8726cb, 0xc8215c1a, 0x61626380, 0x00000018, 0xd3b7973b);
  }

  lemma Words32(block: seq<bv8>)
    requires |block| == 64
    requires Words(block, 16, 0x61626380000f00007da86405600003c63e9d7b780183fc0012dcbfdbe2e2c38e)
    requires Words(block, 24, 0xc8215c1ab73679a2e5bc390932663c5b9d209d67ec8726cb702138a4d3b7973b)
    ensures Words(block, 32, 0x93f5997f3b68ba73aff4ffc1f10a5c620a8b399672af830a9409e33e24641522)
  {
    hide W;
    Next(block, 32, 0x702138a4, 0xb73679a2, 0x000f0000, 0x61626380, 0x93f5997f);
    Next(block, 33, 0xd3b7973b, 0xe5bc3909, 0x7da86405, 0x000f0000, 0x3b68ba73);
    Next(block, 34, 0x93f5997f, 0x32663c5b, 0x600003c6, 0x7da86405, 0xaff4ffc1);
    Next(block, 35, 0x3b68ba73, 0x9d209d67, 0x3e9d7b78, 0x600003c6, 0xf10a5c62);
    Next(block, 36, 0xaff4ffc1, 0xec8726cb, 0x0183fc00, 0x3e9d7b78, 0x0a8b3996);
    Next(block, 37, 0xf10a5c62, 0x702138a4, 0x12dcbfdb, 0x0183fc00, 0x72af830a);
    Next(block, 38, 0x0a8b3996, 0xd3b7973b, 0xe2e2c38e, 0x12dcbfdb, 0x9409e33e);
    Next(block, 39, 0x72af830a, 0x93f5997f, 0xc8215c1a, 0xe2e2c38e, 0x24641522);
  }

  lemma Words40(block: seq<bv8>)
    requires |block| == 64
    requires Words(block, 24, 0xc8215c1ab73679a2e5bc390932663c5b9d209d67ec8726cb702138a4d3b7973b)
    requires Words(block, 32, 0x93f5997f3b68ba73aff4ffc1f10a5c620a8b399672af830a9409e33e24641522)
    ensures Words(block, 40, 0x9f47bf94f0a64f5a3e246a7927333ba30c4763f2840abf277a290d5d065c43da)
  {
    hide W;
    Next(block, 40, 0x9409e33e, 0x3b68ba73, 0xb73679a2, 0xc8215c1a, 0x9f47bf94);
    Next(block, 41, 0x24641522, 0xaff4ffc1, 0xe5bc3909, 0xb73679a2, 0xf0a64f5a);
    Next(block, 42, 0x9f47bf94, 0xf10a5c62, 0x32663c5b, 0xe5bc3909, 0x3e246a79);
    Next(block, 43, 0xf0a64f5a, 0x0a8b3996, 0x9d209d67, 0x32663c5b, 0x27333ba3);
    Next(block, 44, 0x3e246a79, 0x72af830a, 0xec8726cb, 0x9d209d67, 0x0c4763f2);
    Next(block, 45, 0x27333ba3, 0x9409e33e, 0x702138a4, 0xec8726cb, 0x840abf27);
    Next(block, 46, 0x0c4763f2, 0x24641522, 0xd3b7973b, 0x702138a4, 0x7a290d5d);
    Next(block, 47, 0x840abf27, 0x9f47bf94, 0x93f5997f, 0xd3b7973b, 0x065c43da);
  }

  lemma Words48(block: seq<bv8>)
    requires |block| == 64
    requires Words(block, 32, 0x93f5997f3b68ba73aff4ffc1f10a5c620a8b399672af830a9409e33e24641522)
    requires Words(block, 40, 0x9f47bf94f0a64f5a3e246a7927333ba30c4763f2840abf277a290d5d065c43da)
    ensures Words(block, 48, 0xfb3e89cbcc7617dbb9e66c34a999366784badeddc21462bc1487472cb20f7a99)
  {
    hide W;
    Next(block, 48, 0x7a290d5d, 0xf0a64f5a, 0x3b68ba73, 0x93f5997f, 0xfb3e89cb);
    Next(block, 49, 0x065c43da, 0x3e246a79, 0xaff4ffc1, 0x3b68ba73, 0xcc7617db);
    Next(block, 50, 0xfb3e89cb, 0x27333ba3, 0xf10a5c62, 0xaff4ffc1, 0xb9e66c34);
    Next(block, 51, 0xcc7617db, 0x0c4763f2, 0x0a8b3996, 0xf10a5c62, 0xa9993667);
    Next(block, 52, 0xb9e66c34, 0x840abf27, 0x72af830a, 0x0a8b3996, 0x84badedd);
    Next(block, 53, 0xa9993667, 0x7a290d5d, 0x9409e33e, 0x72af830a, 0xc21462bc);
    Next(block, 54, 0x84badedd, 0x065c43da, 0x24641522, 0x9409e33e, 0x1487472c);
    Next(block, 55, 0xc21462bc, 0xfb3e89cb, 0x9f47bf94, 0x24641522, 0xb20f7a99);
  }

  lemma Words56(block: seq<bv8>)
    requires |block| == 64
    requires Words(block, 40, 0x9f47bf94f0a64f5a3e246a7927333ba30c4763f2840abf277a290d5d065c43da)
    requires Words(block, 48, 0xfb3e89cbcc7617dbb9e66c34a999366784badeddc21462bc1487472cb20f7a99)
    ensures Words(block, 56, 0xef57b9cdebe6b2389fe3095e78bc8d4ba43fcf15668b2ff8eeaba2cc12b1edeb)
  {
    hide W;
    Next(block, 56, 0x1487472c, 0xcc7617db, 0xf0a64f5a, 0x9f47bf94, 0xef57b9cd);
    Next(block, 57, 0xb20f7a99, 0xb9e66c34, 0x3e246a79, 0xf0a64f5a, 0xebe6b238);
    Next(block, 58, 0xef57b9cd, 0xa9993667, 0x27333ba3, 0x3e246a79, 0x9fe3095e);
    Next(block, 59, 0xebe6b238, 0x84badedd, 0x0c4763f2, 0x27333ba3, 0x78bc8d4b);
    Next(block, 60, 0x9fe3095e, 0xc21462bc, 0x840abf27, 0x0c4763f2, 0xa43fcf15);
    Next(block, 61, 0x78bc8d4b, 0x1487472c, 0x7a290d5d, 0x840abf27, 0x668b2ff8);
    Next(block, 62, 0xa43fcf15, 0xb20f7a99, 0x065c43da, 0x7a290d5d, 0xeeaba2cc);
    Next(block, 63, 0x668b2ff8, 0xef57b9cd, 0xfb3e89cb, 0x065c43da, 0x12b1edeb);
  }

  // ----- the rounds

  predicate State(block: seq<bv8>, n: nat, vars: bv256)
    requires |block| == 64 && n <= 64
  {
    Rounds(H0, block, n) == VarsOf(vars)
  }

  lemma Turn(block: seq<bv8>, n: nat, k: word, w: word, before: bv256, after: bv256)
    requires |block| == 64 && n < 64 && K(n) == k && W(block, n) == w && State(block, n, before)
    requires Round(VarsOf(before), k, w) == VarsOf(after)
    ensures State(block, n + 1, after)
  {
    hide Round, K, W, VarsOf;
  }

  lemma Rounds0(block: seq<bv8>)
    requires |block| == 64
    ensures State(block, 0, 0x6a09e667bb67ae853c6ef372a54ff53a510e527f9b05688c1f83d9ab5be0cd19)
  {
  }

  lemma Rounds8(block: seq<bv8>)
    requires |block| == 64 && Words(block, 0, 0x6162638000000000000000000000000000000000000000000000000000000000)
    requires State(block, 0, 0x6a09e667bb67ae853c6ef372a54ff53a510e527f9b05688c1f83d9ab5be0cd19)
    ensures State(block, 8, 0x85a07b5fe50303802b4209f504409a6a0c657a799b27a401714260ad43ada245)
  {
    hide W, State;
    Turn(block, 0, 0x428a2f98, 0x61626380, 0x6a09e667bb67ae853c6ef372a54ff53a510e527f9b05688c1f83d9ab5be0cd19,
         0x5d6aebcd6a09e667bb67ae853c6ef372fa2a4622510e527f9b05688c1f83d9ab);
    Turn(block, 1, 0x71374491, 0x00000000, 0x5d6aebcd6a09e667bb67ae853c6ef372fa2a4622510e527f9b05688c1f83d9ab,
         0x5a6ad9ad5d6aebcd6a09e667bb67ae8578ce7989fa2a4622510e527f9b05688c);
    Turn(block, 2, 0xb5c0fbcf, 0x00000000, 0x5a6ad9ad5d6aebcd6a09e667bb67ae8578ce7989fa2a4622510e527f9b05688c,
         0xc8c347a75a6ad9ad5d6aebcd6a09e667f92939eb78ce7989fa2a4622510e527f);
    Turn(block, 3, 0xe9b5dba5, 0x00000000, 0xc8c347a75a6ad9ad5d6aebcd6a09e667f92939eb78ce7989fa2a4622510e527f,
         0xd550f666c8c347a75a6ad9ad5d6aebcd24e00850f92939eb78ce7989fa2a4622);
    Turn(block, 4, 0x3956c25b, 0x00000000, 0xd550f666c8c347a75a6ad9ad5d6aebcd24e00850f92939eb78ce7989fa2a4622,
         0x04409a6ad550f666c8c347a75a6ad9ad43ada24524e00850f92939eb78ce7989);
    Turn(block, 5, 0x59f111f1, 0x00000000, 0x04409a6ad550f666c8c347a75a6ad9ad43ada24524e00850f92939eb78ce7989,
         0x2b4209f504409a6ad550f666c8c347a7714260ad43ada24524e00850f92939eb);
    Turn(block, 6, 0x923f82a4, 0x00000000, 0x2b4209f504409a6ad550f666c8c347a7714260ad43ada24524e00850f92939eb,
         0xe50303802b4209f504409a6ad550f6669b27a401714260ad43ada24524e00850);
    Turn(block, 7, 0xab1c5ed5, 0x00000000, 0xe50303802b4209f504409a6ad550f6669b27a401714260ad43ada24524e00850,
         0x85a07b5fe50303802b4209f504409a6a0c657a799b27a401714260ad43ada245);
  }

  lemma Rounds16(block: seq<bv8>)
    requires |block| == 64 && Words(block, 8, 0x0000000000000000000000000000000000000000000000000000000000000018)
    requires State(block, 8, 0x85a07b5fe50303802b4209f504409a6a0c657a799b27a401714260ad43ada245)
    ensures State(block, 16, 0xb0fa238ec0645fded932eb168791299007590dcd0b92f20c745a48de1e578218)
  {
    hide W, State;
    Turn(block, 8, 0xd807aa98, 0x00000000, 0x85a07b5fe50303802b4209f504409a6a0c657a799b27a401714260ad43ada245,
         0x8e04ecb985a07b5fe50303802b4209f532ca2d8c0c657a799b27a401714260ad);
    Turn(block, 9, 0x12835b01, 0x00000000, 0x8e04ecb985a07b5fe50303802b4209f532ca2d8c0c657a799b27a401714260ad,
         0x8c87346b8e04ecb985a07b5fe50303801cc9259632ca2d8c0c657a799b27a401);
    Turn(block, 10, 0x243185be, 0x00000000, 0x8c87346b8e04ecb985a07b5fe50303801cc9259632ca2d8c0c657a799b27a401,
         0x4798a3f48c87346b8e04ecb985a07b5f436b23e81cc9259632ca2d8c0c657a79);
    Turn(block, 11, 0x550c7dc3, 0x00000000, 0x4798a3f48c87346b8e04ecb985a07b5f436b23e81cc9259632ca2d8c0c657a79,
         0xf71fc5a94798a3f48c87346b8e04ecb9816fd6e9436b23e81cc9259632ca2d8c);
    Turn(block, 12, 0x72be5d74, 0x00000000, 0xf71fc5a94798a3f48c87346b8e04ecb9816fd6e9436b23e81cc9259632ca2d8c,
         0x87912990f71fc5a94798a3f48c87346b1e578218816fd6e9436b23e81cc92596);
    Turn(block, 13, 0x80deb1fe, 0x00000000, 0x87912990f71fc5a94798a3f48c87346b1e578218816fd6e9436b23e81cc92596,
         0xd932eb1687912990f71fc5a94798a3f4745a48de1e578218816fd6e9436b23e8);
    Turn(block, 14, 0x9bdc06a7, 0x00000000, 0xd932eb1687912990f71fc5a94798a3f4745a48de1e578218816fd6e9436b23e8,
         0xc0645fded932eb1687912990f71fc5a90b92f20c745a48de1e578218816fd6e9);
    Turn(block, 15, 0xc19bf174, 0x00000018, 0xc0645fded932eb1687912990f71fc5a90b92f20c745a48de1e578218816fd6e9,
         0xb0fa238ec0645fded932eb168791299007590dcd0b92f20c745a48de1e578218);
  }

  lemma Rounds24(block: seq<bv8>)
    requires |block| == 64 && Words(block, 16, 0x61626380000f00007da86405600003c63e9d7b780183fc0012dcbfdbe2e2c38e)
    requires State(block, 16, 0xb0fa238ec0645fded932eb168791299007590dcd0b92f20c745a48de1e578218)
    ensures State(block, 24, 0xc5d53d8da7a3623fc2606d6d9dc68b63aa47c34749f5114ae12579708ada8930)
  {
    hide W, State;
    Turn(block, 16, 0xe49b69c1, 0x61626380, 0xb0fa238ec0645fded932eb168791299007590dcd0b92f20c745a48de1e578218,
         0x21da9a9bb0fa238ec0645fded932eb168034229c07590dcd0b92f20c745a48de);
    Turn(block, 17, 0xefbe4786, 0x000f0000, 0x21da9a9bb0fa238ec0645fded932eb168034229c07590dcd0b92f20c745a48de,
         0xc2fbd9d121da9a9bb0fa238ec0645fde846ee4548034229c07590dcd0b92f20c);
    Turn(block, 18, 0x0fc19dc6, 0x7da86405, 0xc2fbd9d121da9a9bb0fa238ec0645fde846ee4548034229c07590dcd0b92f20c,
         0xfe777bbfc2fbd9d121da9a9bb0fa238ecc899961846ee4548034229c07590dcd);
    Turn(block, 19, 0x240ca1cc, 0x600003c6, 0xfe777bbfc2fbd9d121da9a9bb0fa238ecc899961846ee4548034229c07590dcd,
         0xe1f20c33fe777bbfc2fbd9d121da9a9bb0638179cc899961846ee4548034229c);
    Turn(block, 20, 0x2de92c6f, 0x3e9d7b78, 0xe1f20c33fe777bbfc2fbd9d121da9a9bb0638179cc899961846ee4548034229c,
         0x9dc68b63e1f20c33fe777bbfc2fbd9d18ada8930b0638179cc899961846ee454);
    Turn(block, 21, 0x4a7484aa, 0x0183fc00, 0x9dc68b63e1f20c33fe777bbfc2fbd9d18ada8930b0638179cc899961846ee454,
         0xc2606d6d9dc68b63e1f20c33fe777bbfe12579708ada8930b0638179cc899961);
    Turn(block, 22, 0x5cb0a9dc, 0x12dcbfdb, 0xc2606d6d9dc68b63e1f20c33fe777bbfe12579708ada8930b0638179cc899961,
         0xa7a3623fc2606d6d9dc68b63e1f20c3349f5114ae12579708ada8930b0638179);
    Turn(block, 23, 0x76f988da, 0xe2e2c38e, 0xa7a3623fc2606d6d9dc68b63e1f20c3349f5114ae12579708ada8930b0638179,
         0xc5d53d8da7a3623fc2606d6d9dc68b63aa47c34749f5114ae12579708ada8930);
  }

  lemma Rounds32(block: seq<bv8>)
    requires |block| == 64 && Words(block, 24, 0xc8215c1ab73679a2e5bc390932663c5b9d209d67ec8726cb702138a4d3b7973b)
    requires State(block, 24, 0xc5d53d8da7a3623fc2606d6d9dc68b63aa47c34749f5114ae12579708ada8930)
    ensures State(block, 32, 0x73b33bf5ea992a22a0060b30363482c9ba5911120109ab3aade794376112a3b7)
  {
    hide W, State;
    Turn(block, 24, 0x983e5152, 0xc8215c1a, 0xc5d53d8da7a3623fc2606d6d9dc68b63aa47c34749f5114ae12579708ada8930,
         0x1c2c2838c5d53d8da7a3623fc2606d6d2823ef91aa47c34749f5114ae1257970);
    Turn(block, 25, 0xa831c66d, 0xb73679a2, 0x1c2c2838c5d53d8da7a3623fc2606d6d2823ef91aa47c34749f5114ae1257970,
         0xcde8037d1c2c2838c5d53d8da7a3623f14383d8e2823ef91aa47c34749f5114a);
    Turn(block, 26, 0xb00327c8, 0xe5bc3909, 0xcde8037d1c2c2838c5d53d8da7a3623f14383d8e2823ef91aa47c34749f5114a,
         0xb62ec4bccde8037d1c2c2838c5d53d8dc74c651614383d8e2823ef91aa47c347);
    Turn(block, 27, 0xbf597fc7, 0x32663c5b, 0xb62ec4bccde8037d1c2c2838c5d53d8dc74c651614383d8e2823ef91aa47c347,
         0x77d37528b62ec4bccde8037d1c2c2838edffbff8c74c651614383d8e2823ef91);
    Turn(block, 28, 0xc6e00bf3, 0x9d209d67, 0x77d37528b62ec4bccde8037d1c2c2838edffbff8c74c651614383d8e2823ef91,
         0x363482c977d37528b62ec4bccde8037d6112a3b7edffbff8c74c651614383d8e);
    Turn(block, 29, 0xd5a79147, 0xec8726cb, 0x363482c977d37528b62ec4bccde8037d6112a3b7edffbff8c74c651614383d8e,
         0xa0060b30363482c977d37528b62ec4bcade794376112a3b7edffbff8c74c6516);
    Turn(block, 30, 0x06ca6351, 0x702138a4, 0xa0060b30363482c977d37528b62ec4bcade794376112a3b7edffbff8c74c6516,
         0xea992a22a0060b30363482c977d375280109ab3aade794376112a3b7edffbff8);
    Turn(block, 31, 0x14292967, 0xd3b7973b, 0xea992a22a0060b30363482c977d375280109ab3aade794376112a3b7edffbff8,
         0x73b33bf5ea992a22a0060b30363482c9ba5911120109ab3aade794376112a3b7);
  }

  lemma Rounds40(block: seq<bv8>)
    requires |block| == 64 && Words(block, 32, 0x93f5997f3b68ba73aff4ffc1f10a5c620a8b399672af830a9409e33e24641522)
    requires State(block, 32, 0x73b33bf5ea992a22a0060b30363482c9ba5911120109ab3aade794376112a3b7)
    ensures State(block, 40, 0x79ea687a6dc57a8a34df160441a65cb11efbc0a0f0781bc8a507a53d0772a26b)
  {
    hide W, State;
    Turn(block, 32, 0x27b70a85, 0x93f5997f, 0x73b33bf5ea992a22a0060b30363482c9ba5911120109ab3aade794376112a3b7,
         0x98e1250773b33bf5ea992a22a0060b309cd9f5f6ba5911120109ab3aade79437);
    Turn(block, 33, 0x2e1b2138, 0x3b68ba73, 0x98e1250773b33bf5ea992a22a0060b309cd9f5f6ba5911120109ab3aade79437,
         0xfe604df598e1250773b33bf5ea992a2259249dd39cd9f5f6ba5911120109ab3a);
    Turn(block, 34, 0x4d2c6dfc, 0xaff4ffc1, 0xfe604df598e1250773b33bf5ea992a2259249dd39cd9f5f6ba5911120109ab3a,
         0xa9a7738cfe604df598e1250773b33bf5085f383359249dd39cd9f5f6ba591112);
    Turn(block, 35, 0x53380d13, 0xf10a5c62, 0xa9a7738cfe604df598e1250773b33bf5085f383359249dd39cd9f5f6ba591112,
         0x65a0cfe4a9a7738cfe604df598e12507f4b002d6085f383359249dd39cd9f5f6);
    Turn(block, 36, 0x650a7354, 0x0a8b3996, 0x65a0cfe4a9a7738cfe604df598e12507f4b002d6085f383359249dd39cd9f5f6,
         0x41a65cb165a0cfe4a9a7738cfe604df50772a26bf4b002d6085f383359249dd3);
    Turn(block, 37, 0x766a0abb, 0x72af830a, 0x41a65cb165a0cfe4a9a7738cfe604df50772a26bf4b002d6085f383359249dd3,
         0x34df160441a65cb165a0cfe4a9a7738ca507a53d0772a26bf4b002d6085f3833);
    Turn(block, 38, 0x81c2c92e, 0x9409e33e, 0x34df160441a65cb165a0cfe4a9a7738ca507a53d0772a26bf4b002d6085f3833,
         0x6dc57a8a34df160441a65cb165a0cfe4f0781bc8a507a53d0772a26bf4b002d6);
    Turn(block, 39, 0x92722c85, 0x24641522, 0x6dc57a8a34df160441a65cb165a0cfe4f0781bc8a507a53d0772a26bf4b002d6,
         0x79ea687a6dc57a8a34df160441a65cb11efbc0a0f0781bc8a507a53d0772a26b);
  }

  lemma Rounds48(block: seq<bv8>)
    requires |block| == 64 && Words(block, 40, 0x9f47bf94f0a64f5a3e246a7927333ba30c4763f2840abf277a290d5d065c43da)
    requires State(block, 40, 0x79ea687a6dc57a8a34df160441a65cb11efbc0a0f0781bc8a507a53d0772a26b)
    ensures State(block, 48, 0x4172328da14c14b072ab4b9126628815fecf0bc6d57b94a9b7755da1a80f11f0)
  {
    hide W, State;
    Turn(block, 40, 0xa2bfe8a1, 0x9f47bf94, 0x79ea687a6dc57a8a34df160441a65cb11efbc0a0f0781bc8a507a53d0772a26b,
         0xd667076679ea687a6dc57a8a34df160426352d631efbc0a0f0781bc8a507a53d);
    Turn(block, 41, 0xa81a664b, 0xf0a64f5a, 0xd667076679ea687a6dc57a8a34df160426352d631efbc0a0f0781bc8a507a53d,
         0xdf46652fd667076679ea687a6dc57a8a838b271126352d631efbc0a0f0781bc8);
    Turn(block, 42, 0xc24b8b70, 0x3e246a79, 0xdf46652fd667076679ea687a6dc57a8a838b271126352d631efbc0a0f0781bc8,
         0x17aa0dfedf46652fd667076679ea687adecd4715838b271126352d631efbc0a0);
    Turn(block, 43, 0xc76c51a3, 0x27333ba3, 0x17aa0dfedf46652fd667076679ea687adecd4715838b271126352d631efbc0a0,
         0x9d4baf9317aa0dfedf46652fd6670766fda24c2edecd4715838b271126352d63);
    Turn(block, 44, 0xd192e819, 0x0c4763f2, 0x9d4baf9317aa0dfedf46652fd6670766fda24c2edecd4715838b271126352d63,
         0x266288159d4baf9317aa0dfedf46652fa80f11f0fda24c2edecd4715838b2711);
    Turn(block, 45, 0xd6990624, 0x840abf27, 0x266288159d4baf9317aa0dfedf46652fa80f11f0fda24c2edecd4715838b2711,
         0x72ab4b91266288159d4baf9317aa0dfeb7755da1a80f11f0fda24c2edecd4715);
    Turn(block, 46, 0xf40e3585, 0x7a290d5d, 0x72ab4b91266288159d4baf9317aa0dfeb7755da1a80f11f0fda24c2edecd4715,
         0xa14c14b072ab4b91266288159d4baf93d57b94a9b7755da1a80f11f0fda24c2e);
    Turn(block, 47, 0x106aa070, 0x065c43da, 0xa14c14b072ab4b91266288159d4baf93d57b94a9b7755da1a80f11f0fda24c2e,
         0x4172328da14c14b072ab4b9126628815fecf0bc6d57b94a9b7755da1a80f11f0);
  }

  lemma Rounds56(block: seq<bv8>)
    requires |block| == 64 && Words(block, 48, 0xfb3e89cbcc7617dbb9e66c34a999366784badeddc21462bc1487472cb20f7a99)
    requires State(block, 48, 0x4172328da14c14b072ab4b9126628815fecf0bc6d57b94a9b7755da1a80f11f0)
    ensures State(block, 56, 0x38cc99133ec45cdbf5702fdb101fd28f54cb266be50e1b4f9f4787c3529e7d00)
  {
    hide W, State;
    Turn(block, 48, 0x19a4c116, 0xfb3e89cb, 0x4172328da14c14b072ab4b9126628815fecf0bc6d57b94a9b7755da1a80f11f0,
         0x05757ceb4172328da14c14b072ab4b91bd714038fecf0bc6d57b94a9b7755da1);
    Turn(block, 49, 0x1e376c08, 0xcc7617db, 0x05757ceb4172328da14c14b072ab4b91bd714038fecf0bc6d57b94a9b7755da1,
         0xf11bfaa805757ceb4172328da14c14b06e5c390cbd714038fecf0bc6d57b94a9);
    Turn(block, 50, 0x2748774c, 0xb9e66c34, 0xf11bfaa805757ceb4172328da14c14b06e5c390cbd714038fecf0bc6d57b94a9,
         0x7a0508a1f11bfaa805757ceb4172328d52f1ccf76e5c390cbd714038fecf0bc6);
    Turn(block, 51, 0x34b0bcb5, 0xa9993667, 0x7a0508a1f11bfaa805757ceb4172328d52f1ccf76e5c390cbd714038fecf0bc6,
         0x886e7a227a0508a1f11bfaa805757ceb49231c1e52f1ccf76e5c390cbd714038);
    Turn(block, 52, 0x391c0cb3, 0x84badedd, 0x886e7a227a0508a1f11bfaa805757ceb49231c1e52f1ccf76e5c390cbd714038,
         0x101fd28f886e7a227a0508a1f11bfaa8529e7d0049231c1e52f1ccf76e5c390c);
    Turn(block, 53, 0x4ed8aa4a, 0xc21462bc, 0x101fd28f886e7a227a0508a1f11bfaa8529e7d0049231c1e52f1ccf76e5c390c,
         0xf5702fdb101fd28f886e7a227a0508a19f4787c3529e7d0049231c1e52f1ccf7);
    Turn(block, 54, 0x5b9cca4f, 0x1487472c, 0xf5702fdb101fd28f886e7a227a0508a19f4787c3529e7d0049231c1e52f1ccf7,
         0x3ec45cdbf5702fdb101fd28f886e7a22e50e1b4f9f4787c3529e7d0049231c1e);
    Turn(block, 55, 0x682e6ff3, 0xb20f7a99, 0x3ec45cdbf5702fdb101fd28f886e7a22e50e1b4f9f4787c3529e7d0049231c1e,
         0x38cc99133ec45cdbf5702fdb101fd28f54cb266be50e1b4f9f4787c3529e7d00);
  }

  lemma Rounds64(block: seq<bv8>)
    requires |block| == 64 && Words(block, 56, 0xef57b9cdebe6b2389fe3095e78bc8d4ba43fcf15668b2ff8eeaba2cc12b1edeb)
    requires State(block, 56, 0x38cc99133ec45cdbf5702fdb101fd28f54cb266be50e1b4f9f4787c3529e7d00)
    ensures State(block, 64, 0x506e3058d39a216504d24d6cb85e2ce95ef50f24fb121210948d25b6961f4894)
  {
    hide W, State;
    Turn(block, 56, 0x748f82ee, 0xef57b9cd, 0x38cc99133ec45cdbf5702fdb101fd28f54cb266be50e1b4f9f4787c3529e7d00,
         0xfcd1887b38cc99133ec45cdbf5702fdb9b5e906c54cb266be50e1b4f9f4787c3);
    Turn(block, 57, 0x78a5636f, 0xebe6b238, 0xfcd1887b38cc99133ec45cdbf5702fdb9b5e906c54cb266be50e1b4f9f4787c3,
         0xc062d46ffcd1887b38cc99133ec45cdb7e44008e9b5e906c54cb266be50e1b4f);
    Turn(block, 58, 0x84c87814, 0x9fe3095e, 0xc062d46ffcd1887b38cc99133ec45cdb7e44008e9b5e906c54cb266be50e1b4f,
         0xffb70472c062d46ffcd1887b38cc99136d83bfc67e44008e9b5e906c54cb266b);
    Turn(block, 59, 0x8cc70208, 0x78bc8d4b, 0xffb70472c062d46ffcd1887b38cc99136d83bfc67e44008e9b5e906c54cb266b,
         0xb6ae8fffffb70472c062d46ffcd1887bb21bad3d6d83bfc67e44008e9b5e906c);
    Turn(block, 60, 0x90befffa, 0xa43fcf15, 0xb6ae8fffffb70472c062d46ffcd1887bb21bad3d6d83bfc67e44008e9b5e906c,
         0xb85e2ce9b6ae8fffffb70472c062d46f961f4894b21bad3d6d83bfc67e44008e);
    Turn(block, 61, 0xa4506ceb, 0x668b2ff8, 0xb85e2ce9b6ae8fffffb70472c062d46f961f4894b21bad3d6d83bfc67e44008e,
         0x04d24d6cb85e2ce9b6ae8fffffb70472948d25b6961f4894b21bad3d6d83bfc6);
    Turn(block, 62, 0xbef9a3f7, 0xeeaba2cc, 0x04d24d6cb85e2ce9b6ae8fffffb70472948d25b6961f4894b21bad3d6d83bfc6,
         0xd39a216504d24d6cb85e2ce9b6ae8ffffb121210948d25b6961f4894b21bad3d);
    Turn(block, 63, 0xc67178f2, 0x12b1edeb, 0xd39a216504d24d6cb85e2ce9b6ae8ffffb121210948d25b6961f4894b21bad3d,
         0x506e3058d39a216504d24d6cb85e2ce95ef50f24fb121210948d25b6961f4894);
  }

  lemma LastSum(v: Vars)
    requires v == VarsOf(0x506e3058d39a216504d24d6cb85e2ce95ef50f24fb121210948d25b6961f4894)
    ensures Add(H0, v) == VarsOf(0xba7816bf8f01cfea414140de5dae2223b00361a396177a9cb410ff61f20015ad)
  {
  }

  lemma DigestOfLast()
    ensures DigestBytes(VarsOf(0xba7816bf8f01cfea414140de5dae2223b00361a396177a9cb410ff61f20015ad)) == [
      0xba, 0x78, 0x16, 0xbf, 0x8f, 0x01, 0xcf, 0xea, 0x41, 0x41, 0x40, 0xde, 0x5d, 0xae, 0x22, 0x23,
      0xb0, 0x03, 0x61, 0xa3, 0x96, 0x17, 0x7a, 0x9c, 0xb4, 0x10, 0xff, 0x61, 0xf2, 0x00, 0x15, 0xad]
  {
  }

  lemma OneBlock(padded: seq<bv8>)
    requires |padded| == 64
    ensures HashBlocks(H0, padded, 1) == Add(H0, Rounds(H0, padded, 64))
  {
    hide Rounds, Add;
    assert padded[64 * 0..64 * 1] == padded;
    assert HashBlocks(H0, padded, 0) == H0;
  }

  /** The digest of "abc". */
  lemma DigestOfExample()
    ensures Sha256([0x61, 0x62, 0x63]) == [
      0xba, 0x78, 0x16, 0xbf, 0x8f, 0x01, 0xcf, 0xea, 0x41, 0x41, 0x40, 0xde, 0x5d, 0xae, 0x22, 0x23,
      0xb0, 0x03, 0x61, 0xa3, 0x96, 0x17, 0x7a, 0x9c, 0xb4, 0x10, 0xff, 0x61, 0xf2, 0x00, 0x15, 0xad]
  {
    hide Words, Rounds, Pad, HashBlocks, Add, DigestBytes, VarsOf;
    var block := Pad(MESSAGE);
    Words0(block);
    Words16(block);
    Words24(block);
    Words32(block);
    Words40(block);
    Words48(block);
    Words56(block);
    Rounds0(block);
    Rounds8(block);
    Rounds16(block);
    Rounds24(block);
    Rounds32(block);
    Rounds40(block);
    Rounds48(block);
    Rounds56(block);
    Rounds64(block);
    OneBlock(block);
    LastSum(Rounds(H0, block, 64));
    DigestOfLast();
  }
}
