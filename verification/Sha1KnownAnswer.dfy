/** A known answer that fixes the constants and operations of SHA-1: the digest of "abc", by the
    words of its message schedule and the working variables after every round. */
module Sha1KnownAnswer {
  import opened Bytes
  import opened BlockStream
  import opened Sha1Spec
  import Streaming = Sha1

  // ---- one word of the schedule, one round ----

  function Mix(p: word, q: word, r: word, s: word): word {
    Rotl1(p ^ q ^ r ^ s)
  }

  ghost predicate Follows(w: seq<word>, n: nat)
    requires 16 <= n < |w|
  {
    w[n] == Mix(w[n - 3], w[n - 8], w[n - 14], w[n - 16])
  }

  ghost predicate Schedule(w: seq<word>) {
    |w| == 80 && forall n | 16 <= n < 80 :: Follows(w, n)
  }

  lemma NextWord(m: Block, n: nat, w: seq<word>)
    requires 16 <= n < 80 && w == W(m, n)
    ensures W(m, n + 1)[n] == Mix(w[n - 3], w[n - 8], w[n - 14], w[n - 16])
  {
    MixIs(w[n - 3], w[n - 8], w[n - 14], w[n - 16]);
    Streaming.ExpandStep(m, n, w);
  }

  lemma MixIs(p: word, q: word, r: word, s: word)
    ensures Mix(p, q, r, s) == Rotl1(p ^ q ^ r ^ s)
  {
  }

  lemma {:induction false} WordsStay(m: Block, n: nat, k: nat)
    requires n <= k <= 80
    ensures W(m, k)[..n] == W(m, n)
    decreases k
  {
    if n < k {
      WordsStay(m, n, k - 1);
      assert W(m, k)[..n] == W(m, k)[..k - 1][..n];
    }
  }

  lemma WIsSchedule(m: Block)
    ensures Schedule(W(m, 80))
  {
    var w := W(m, 80);
    forall n | 16 <= n < 80
      ensures Follows(w, n)
    {
      WordsStay(m, n, 80);
      WordsStay(m, n + 1, 80);
      var v := w[..n];
      NextWord(m, n, v);
      assert w[n] == w[..n + 1][n];
      assert v[n - 3] == w[n - 3] && v[n - 8] == w[n - 8] && v[n - 14] == w[n - 14] && v[n - 16] == w[n - 16];
    }
  }

  lemma Word(w: seq<word>, n: nat, p: word, q: word, r: word, s: word, x: word)
    requires Schedule(w) && 16 <= n < 80 && w[n - 3] == p && w[n - 8] == q && w[n - 14] == r && w[n - 16] == s
    requires x == Rotl1(p ^ q ^ r ^ s)
    ensures w[n] == x
  {
    assert Follows(w, n);
  }

  ghost predicate Reached(w: seq<word>, t: nat, a: word, b: word, c: word, d: word, e: word) {
    t <= 80 == |w| && Rounds(H0, w, t) == Hash(a, b, c, d, e)
  }

  lemma Ch(w: seq<word>, t: nat, a: word, b: word, c: word, d: word, e: word, x: word, next: word, turned: word)
    requires Reached(w, t, a, b, c, d, e) && t < 20 && w[t] == x && turned == (b << 30) | (b >> 2)
    requires next == Add(Add(Add(Add((a << 5) | (a >> 27), (b & c) ^ (!b & d)), e), 0x5a827999), x)
    ensures Reached(w, t + 1, next, a, turned, c, d)
  {
    Streaming.RoundCh(a, b, c, d, e, t, x);
  }

  lemma Parity(w: seq<word>, t: nat, a: word, b: word, c: word, d: word, e: word, x: word, next: word, turned: word)
    requires Reached(w, t, a, b, c, d, e) && (20 <= t < 40 || 60 <= t < 80) && w[t] == x && turned == (b << 30) | (b >> 2)
    requires next == Add(Add(Add(Add((a << 5) | (a >> 27), b ^ c ^ d), e), if t < 40 then 0x6ed9eba1 else 0xca62c1d6), x)
    ensures Reached(w, t + 1, next, a, turned, c, d)
  {
    Streaming.RoundParity(a, b, c, d, e, t, x);
  }

  lemma Maj(w: seq<word>, t: nat, a: word, b: word, c: word, d: word, e: word, x: word, next: word, turned: word)
    requires Reached(w, t, a, b, c, d, e) && 40 <= t < 60 && w[t] == x && turned == (b << 30) | (b >> 2)
    requires next == Add(Add(Add(Add((a << 5) | (a >> 27), (b & c) ^ (b & d) ^ (c & d)), e), 0x8f1bbcdc), x)
    ensures Reached(w, t + 1, next, a, turned, c, d)
  {
    Streaming.RoundMaj(a, b, c, d, e, t, x);
  }

  // ---- the words of "abc" ----

  ghost predicate Words0(w: seq<word>) {
    && |w| == 80
    && w[0] == 0x61626380 && w[1] == 0x00000000 && w[2] == 0x00000000 && w[3] == 0x00000000
    && w[4] == 0x00000000 && w[5] == 0x00000000 && w[6] == 0x00000000 && w[7] == 0x00000000
    && w[8] == 0x00000000 && w[9] == 0x00000000 && w[10] == 0x00000000 && w[11] == 0x00000000
    && w[12] == 0x00000000 && w[13] == 0x00000000 && w[14] == 0x00000000 && w[15] == 0x00000018
  }

  ghost predicate Words1(w: seq<word>) {
    && |w| == 80
    && w[16] == 0xc2c4c700 && w[17] == 0x00000000 && w[18] == 0x00000030 && w[19] == 0x85898e01
    && w[20] == 0x00000000 && w[21] == 0x00000060 && w[22] == 0x0b131c03 && w[23] == 0x00000030
    && w[24] == 0x85898ec1 && w[25] == 0x16263806 && w[26] == 0x00000000 && w[27] == 0x00000180
    && w[28] == 0x2c4c700c && w[29] == 0x000000f0 && w[30] == 0x93afb507 && w[31] == 0x5898e048
  }

  ghost predicate Words2(w: seq<word>) {
    && |w| == 80
    && w[32] == 0x8e9a9202 && w[33] == 0x00000600 && w[34] == 0xb131c0f0 && w[35] == 0x16263bc6
    && w[36] == 0x4ebed41e && w[37] == 0x626380a1 && w[38] == 0x16263806 && w[39] == 0x000018c0
    && w[40] == 0xd2e138c4 && w[41] == 0x00000f00 && w[42] == 0x3afb5079 && w[43] == 0x898e04e5
    && w[44] == 0xe2ba3c2b && w[45] == 0x000060c0 && w[46] == 0x053a37cd && w[47] == 0x74458547
  }

  ghost predicate Words3(w: seq<word>) {
    && |w| == 80
    && w[48] == 0xda9415ed && w[49] == 0x26380a16 && w[50] == 0x626383a1 && w[51] == 0x4ebf54de
    && w[52] == 0x3835b44b && w[53] == 0x0000f600 && w[54] == 0x1e84c7a3 && w[55] == 0x98e04d98
    && w[56] == 0x651d16a0 && w[57] == 0x62658ca1 && w[58] == 0x458544d6 && w[59] == 0x44584cb7
    && w[60] == 0x7ba06619 && w[61] == 0x6380aea2 && w[62] == 0x0ae55269 && w[63] == 0x627b49a1
  }

  ghost predicate Words4(w: seq<word>) {
    && |w| == 80
    && w[64] == 0x7cd45c9d && w[65] == 0x000f0000 && w[66] == 0xfb50753a && w[67] == 0xec6765e8
    && w[68] == 0xba3c2be2 && w[69] == 0x0060c000 && w[70] == 0x3a37cd05 && w[71] == 0x458546f4
    && w[72] == 0xb8599dd6 && w[73] == 0x380a1a26 && w[74] == 0x01e02203 && w[75] == 0xe7cc3456
    && w[76] == 0xe6e60b69 && w[77] == 0x00f60a00 && w[78] == 0x5795ef4f && w[79] == 0x822e0879
  }

  lemma Expand1(w: seq<word>)
    requires Schedule(w) && Words0(w)
    ensures Words1(w)
  {
    Word(w, 16, 0x00000000, 0x00000000, 0x00000000, 0x61626380, 0xc2c4c700);
    Word(w, 17, 0x00000000, 0x00000000, 0x00000000, 0x00000000, 0x00000000);
    Word(w, 18, 0x00000018, 0x00000000, 0x00000000, 0x00000000, 0x00000030);
    Word(w, 19, 0xc2c4c700, 0x00000000, 0x00000000, 0x00000000, 0x85898e01);
    Word(w, 20, 0x00000000, 0x00000000, 0x00000000, 0x00000000, 0x00000000);
    Word(w, 21, 0x00000030, 0x00000000, 0x00000000, 0x00000000, 0x00000060);
    Word(w, 22, 0x85898e01, 0x00000000, 0x00000000, 0x00000000, 0x0b131c03);
    Word(w, 23, 0x00000000, 0x00000018, 0x00000000, 0x00000000, 0x00000030);
    Word(w, 24, 0x00000060, 0xc2c4c700, 0x00000000, 0x00000000, 0x85898ec1);
    Word(w, 25, 0x0b131c03, 0x00000000, 0x00000000, 0x00000000, 0x16263806);
    Word(w, 26, 0x00000030, 0x00000030, 0x00000000, 0x00000000, 0x00000000);
    Word(w, 27, 0x85898ec1, 0x85898e01, 0x00000000, 0x00000000, 0x00000180);
    Word(w, 28, 0x16263806, 0x00000000, 0x00000000, 0x00000000, 0x2c4c700c);
    Word(w, 29, 0x00000000, 0x00000060, 0x00000018, 0x00000000, 0x000000f0);
    Word(w, 30, 0x00000180, 0x0b131c03, 0xc2c4c700, 0x00000000, 0x93afb507);
    Word(w, 31, 0x2c4c700c, 0x00000030, 0x00000000, 0x00000018, 0x5898e048);
  }

  lemma Expand2(w: seq<word>)
    requires Schedule(w) && Words1(w)
    ensures Words2(w)
  {
    Word(w, 32, 0x000000f0, 0x85898ec1, 0x00000030, 0xc2c4c700, 0x8e9a9202);
    Word(w, 33, 0x93afb507, 0x16263806, 0x85898e01, 0x00000000, 0x00000600);
    Word(w, 34, 0x5898e048, 0x00000000, 0x00000000, 0x00000030, 0xb131c0f0);
    Word(w, 35, 0x8e9a9202, 0x00000180, 0x00000060, 0x85898e01, 0x16263bc6);
    Word(w, 36, 0x00000600, 0x2c4c700c, 0x0b131c03, 0x00000000, 0x4ebed41e);
    Word(w, 37, 0xb131c0f0, 0x000000f0, 0x00000030, 0x00000060, 0x626380a1);
    Word(w, 38, 0x16263bc6, 0x93afb507, 0x85898ec1, 0x0b131c03, 0x16263806);
    Word(w, 39, 0x4ebed41e, 0x5898e048, 0x16263806, 0x00000030, 0x000018c0);
    Word(w, 40, 0x626380a1, 0x8e9a9202, 0x00000000, 0x85898ec1, 0xd2e138c4);
    Word(w, 41, 0x16263806, 0x00000600, 0x00000180, 0x16263806, 0x00000f00);
    Word(w, 42, 0x000018c0, 0xb131c0f0, 0x2c4c700c, 0x00000000, 0x3afb5079);
    Word(w, 43, 0xd2e138c4, 0x16263bc6, 0x000000f0, 0x00000180, 0x898e04e5);
    Word(w, 44, 0x00000f00, 0x4ebed41e, 0x93afb507, 0x2c4c700c, 0xe2ba3c2b);
    Word(w, 45, 0x3afb5079, 0x626380a1, 0x5898e048, 0x000000f0, 0x000060c0);
    Word(w, 46, 0x898e04e5, 0x16263806, 0x8e9a9202, 0x93afb507, 0x053a37cd);
    Word(w, 47, 0xe2ba3c2b, 0x000018c0, 0x00000600, 0x5898e048, 0x74458547);
  }

  lemma Expand3(w: seq<word>)
    requires Schedule(w) && Words2(w)
    ensures Words3(w)
  {
    Word(w, 48, 0x000060c0, 0xd2e138c4, 0xb131c0f0, 0x8e9a9202, 0xda9415ed);
    Word(w, 49, 0x053a37cd, 0x00000f00, 0x16263bc6, 0x00000600, 0x26380a16);
    Word(w, 50, 0x74458547, 0x3afb5079, 0x4ebed41e, 0xb131c0f0, 0x626383a1);
    Word(w, 51, 0xda9415ed, 0x898e04e5, 0x626380a1, 0x16263bc6, 0x4ebf54de);
    Word(w, 52, 0x26380a16, 0xe2ba3c2b, 0x16263806, 0x4ebed41e, 0x3835b44b);
    Word(w, 53, 0x626383a1, 0x000060c0, 0x000018c0, 0x626380a1, 0x0000f600);
    Word(w, 54, 0x4ebf54de, 0x053a37cd, 0xd2e138c4, 0x16263806, 0x1e84c7a3);
    Word(w, 55, 0x3835b44b, 0x74458547, 0x00000f00, 0x000018c0, 0x98e04d98);
    Word(w, 56, 0x0000f600, 0xda9415ed, 0x3afb5079, 0xd2e138c4, 0x651d16a0);
    Word(w, 57, 0x1e84c7a3, 0x26380a16, 0x898e04e5, 0x00000f00, 0x62658ca1);
    Word(w, 58, 0x98e04d98, 0x626383a1, 0xe2ba3c2b, 0x3afb5079, 0x458544d6);
    Word(w, 59, 0x651d16a0, 0x4ebf54de, 0x000060c0, 0x898e04e5, 0x44584cb7);
    Word(w, 60, 0x62658ca1, 0x3835b44b, 0x053a37cd, 0xe2ba3c2b, 0x7ba06619);
    Word(w, 61, 0x458544d6, 0x0000f600, 0x74458547, 0x000060c0, 0x6380aea2);
    Word(w, 62, 0x44584cb7, 0x1e84c7a3, 0xda9415ed, 0x053a37cd, 0x0ae55269);
    Word(w, 63, 0x7ba06619, 0x98e04d98, 0x26380a16, 0x74458547, 0x627b49a1);
  }

  lemma Expand4(w: seq<word>)
    requires Schedule(w) && Words3(w)
    ensures Words4(w)
  {
    Word(w, 64, 0x6380aea2, 0x651d16a0, 0x626383a1, 0xda9415ed, 0x7cd45c9d);
    Word(w, 65, 0x0ae55269, 0x62658ca1, 0x4ebf54de, 0x26380a16, 0x000f0000);
    Word(w, 66, 0x627b49a1, 0x458544d6, 0x3835b44b, 0x626383a1, 0xfb50753a);
    Word(w, 67, 0x7cd45c9d, 0x44584cb7, 0x0000f600, 0x4ebf54de, 0xec6765e8);
    Word(w, 68, 0x000f0000, 0x7ba06619, 0x1e84c7a3, 0x3835b44b, 0xba3c2be2);
    Word(w, 69, 0xfb50753a, 0x6380aea2, 0x98e04d98, 0x0000f600, 0x0060c000);
    Word(w, 70, 0xec6765e8, 0x0ae55269, 0x651d16a0, 0x1e84c7a3, 0x3a37cd05);
    Word(w, 71, 0xba3c2be2, 0x627b49a1, 0x62658ca1, 0x98e04d98, 0x458546f4);
    Word(w, 72, 0x0060c000, 0x7cd45c9d, 0x458544d6, 0x651d16a0, 0xb8599dd6);
    Word(w, 73, 0x3a37cd05, 0x000f0000, 0x44584cb7, 0x62658ca1, 0x380a1a26);
    Word(w, 74, 0x458546f4, 0xfb50753a, 0x7ba06619, 0x458544d6, 0x01e02203);
    Word(w, 75, 0xb8599dd6, 0xec6765e8, 0x6380aea2, 0x44584cb7, 0xe7cc3456);
    Word(w, 76, 0x380a1a26, 0xba3c2be2, 0x0ae55269, 0x7ba06619, 0xe6e60b69);
    Word(w, 77, 0x01e02203, 0x0060c000, 0x627b49a1, 0x6380aea2, 0x00f60a00);
    Word(w, 78, 0xe7cc3456, 0x3a37cd05, 0x7cd45c9d, 0x0ae55269, 0x5795ef4f);
    Word(w, 79, 0xe6e60b69, 0x458546f4, 0x000f0000, 0x627b49a1, 0x822e0879);
  }

  // ---- the rounds ----

  lemma Rounds0(w: seq<word>)
    requires Words0(w) && Reached(w, 0, 0x67452301, 0xefcdab89, 0x98badcfe, 0x10325476, 0xc3d2e1f0)
    ensures Reached(w, 16, 0x20bdd62f, 0x196bee77, 0x644a3da5, 0x1181ed99, 0x18c623f9)
  {
    Ch(w, 0, 0x67452301, 0xefcdab89, 0x98badcfe, 0x10325476, 0xc3d2e1f0, 0x61626380, 0x0116fc33, 0x7bf36ae2);
    Ch(w, 1, 0x0116fc33, 0x67452301, 0x7bf36ae2, 0x98badcfe, 0x10325476, 0x00000000, 0x8990536d, 0x59d148c0);
    Ch(w, 2, 0x8990536d, 0x0116fc33, 0x59d148c0, 0x7bf36ae2, 0x98badcfe, 0x00000000, 0xa1390f08, 0xc045bf0c);
    Ch(w, 3, 0xa1390f08, 0x8990536d, 0xc045bf0c, 0x59d148c0, 0x7bf36ae2, 0x00000000, 0xcdd8e11b, 0x626414db);
    Ch(w, 4, 0xcdd8e11b, 0xa1390f08, 0x626414db, 0xc045bf0c, 0x59d148c0, 0x00000000, 0xcfd499de, 0x284e43c2);
    Ch(w, 5, 0xcfd499de, 0xcdd8e11b, 0x284e43c2, 0x626414db, 0xc045bf0c, 0x00000000, 0x3fc7ca40, 0xf3763846);
    Ch(w, 6, 0x3fc7ca40, 0xcfd499de, 0xf3763846, 0x284e43c2, 0x626414db, 0x00000000, 0x993e30c1, 0xb3f52677);
    Ch(w, 7, 0x993e30c1, 0x3fc7ca40, 0xb3f52677, 0xf3763846, 0x284e43c2, 0x00000000, 0x9e8c07d4, 0x0ff1f290);
    Ch(w, 8, 0x9e8c07d4, 0x993e30c1, 0x0ff1f290, 0xb3f52677, 0xf3763846, 0x00000000, 0x4b6ae328, 0x664f8c30);
    Ch(w, 9, 0x4b6ae328, 0x9e8c07d4, 0x664f8c30, 0x0ff1f290, 0xb3f52677, 0x00000000, 0x8351f929, 0x27a301f5);
    Ch(w, 10, 0x8351f929, 0x4b6ae328, 0x27a301f5, 0x664f8c30, 0x0ff1f290, 0x00000000, 0xfbda9e89, 0x12dab8ca);
    Ch(w, 11, 0xfbda9e89, 0x8351f929, 0x12dab8ca, 0x27a301f5, 0x664f8c30, 0x00000000, 0x63188fe4, 0x60d47e4a);
    Ch(w, 12, 0x63188fe4, 0xfbda9e89, 0x60d47e4a, 0x12dab8ca, 0x27a301f5, 0x00000000, 0x4607b664, 0x7ef6a7a2);
    Ch(w, 13, 0x4607b664, 0x63188fe4, 0x7ef6a7a2, 0x60d47e4a, 0x12dab8ca, 0x00000000, 0x9128f695, 0x18c623f9);
    Ch(w, 14, 0x9128f695, 0x4607b664, 0x18c623f9, 0x7ef6a7a2, 0x60d47e4a, 0x00000000, 0x196bee77, 0x1181ed99);
    Ch(w, 15, 0x196bee77, 0x9128f695, 0x1181ed99, 0x18c623f9, 0x7ef6a7a2, 0x00000018, 0x20bdd62f, 0x644a3da5);
  }

  lemma Rounds1(w: seq<word>)
    requires Words1(w) && Reached(w, 16, 0x20bdd62f, 0x196bee77, 0x644a3da5, 0x1181ed99, 0x18c623f9)
    ensures Reached(w, 32, 0x3b845d33, 0x1267b407, 0x717eebd7, 0xa0dc2d4b, 0xd2aa1365)
  {
    Ch(w, 16, 0x20bdd62f, 0x196bee77, 0x644a3da5, 0x1181ed99, 0x18c623f9, 0xc2c4c700, 0x4e925823, 0xc65afb9d);
    Ch(w, 17, 0x4e925823, 0x20bdd62f, 0xc65afb9d, 0x644a3da5, 0x1181ed99, 0x00000000, 0x82aa6728, 0xc82f758b);
    Ch(w, 18, 0x82aa6728, 0x4e925823, 0xc82f758b, 0xc65afb9d, 0x644a3da5, 0x00000030, 0xdc64901d, 0xd3a49608);
    Ch(w, 19, 0xdc64901d, 0x82aa6728, 0xd3a49608, 0xc82f758b, 0xc65afb9d, 0x85898e01, 0xfd9e1d7d, 0x20aa99ca);
    Parity(w, 20, 0xfd9e1d7d, 0xdc64901d, 0x20aa99ca, 0xd3a49608, 0xc82f758b, 0x00000000, 0x1a37b0ca, 0x77192407);
    Parity(w, 21, 0x1a37b0ca, 0xfd9e1d7d, 0x77192407, 0x20aa99ca, 0xd3a49608, 0x00000060, 0x33a23bfc, 0x7f67875f);
    Parity(w, 22, 0x33a23bfc, 0x1a37b0ca, 0x7f67875f, 0x77192407, 0x20aa99ca, 0x0b131c03, 0x21283486, 0x868dec32);
    Parity(w, 23, 0x21283486, 0x33a23bfc, 0x868dec32, 0x7f67875f, 0x77192407, 0x00000030, 0xd541f12d, 0x0ce88eff);
    Parity(w, 24, 0xd541f12d, 0x21283486, 0x0ce88eff, 0x868dec32, 0x7f67875f, 0x85898ec1, 0xc7567dc6, 0x884a0d21);
    Parity(w, 25, 0xc7567dc6, 0xd541f12d, 0x884a0d21, 0x0ce88eff, 0x868dec32, 0x16263806, 0x48413ba4, 0x75507c4b);
    Parity(w, 26, 0x48413ba4, 0xc7567dc6, 0x75507c4b, 0x884a0d21, 0x0ce88eff, 0x00000000, 0xbe35fbd5, 0xb1d59f71);
    Parity(w, 27, 0xbe35fbd5, 0x48413ba4, 0xb1d59f71, 0x75507c4b, 0x884a0d21, 0x00000180, 0x4aa84d97, 0x12104ee9);
    Parity(w, 28, 0x4aa84d97, 0xbe35fbd5, 0x12104ee9, 0xb1d59f71, 0x75507c4b, 0x2c4c700c, 0x8370b52e, 0x6f8d7ef5);
    Parity(w, 29, 0x8370b52e, 0x4aa84d97, 0x6f8d7ef5, 0x12104ee9, 0xb1d59f71, 0x000000f0, 0xc5fbaf5d, 0xd2aa1365);
    Parity(w, 30, 0xc5fbaf5d, 0x8370b52e, 0xd2aa1365, 0x6f8d7ef5, 0x12104ee9, 0x93afb507, 0x1267b407, 0xa0dc2d4b);
    Parity(w, 31, 0x1267b407, 0xc5fbaf5d, 0xa0dc2d4b, 0xd2aa1365, 0x6f8d7ef5, 0x5898e048, 0x3b845d33, 0x717eebd7);
  }

  lemma Rounds2(w: seq<word>)
    requires Words2(w) && Reached(w, 32, 0x3b845d33, 0x1267b407, 0x717eebd7, 0xa0dc2d4b, 0xd2aa1365)
    ensures Reached(w, 48, 0xbead02ca, 0xa01b846c, 0x8714787c, 0x503ca382, 0xfb86c6ab)
  {
    Parity(w, 32, 0x3b845d33, 0x1267b407, 0x717eebd7, 0xa0dc2d4b, 0xd2aa1365, 0x8e9a9202, 0x046faa0a, 0xc499ed01);
    Parity(w, 33, 0x046faa0a, 0x3b845d33, 0xc499ed01, 0x717eebd7, 0xa0dc2d4b, 0x00000600, 0x2c0ebc11, 0xcee1174c);
    Parity(w, 34, 0x2c0ebc11, 0x046faa0a, 0xcee1174c, 0xc499ed01, 0x717eebd7, 0xb131c0f0, 0x21796ad4, 0x811bea82);
    Parity(w, 35, 0x21796ad4, 0x2c0ebc11, 0x811bea82, 0xcee1174c, 0xc499ed01, 0x16263bc6, 0xdcbbb0cb, 0x4b03af04);
    Parity(w, 36, 0xdcbbb0cb, 0x21796ad4, 0x4b03af04, 0x811bea82, 0xcee1174c, 0x4ebed41e, 0x0f511fd8, 0x085e5ab5);
    Parity(w, 37, 0x0f511fd8, 0xdcbbb0cb, 0x085e5ab5, 0x4b03af04, 0x811bea82, 0x626380a1, 0xdc63973f, 0xf72eec32);
    Parity(w, 38, 0xdc63973f, 0x0f511fd8, 0xf72eec32, 0x085e5ab5, 0x4b03af04, 0x16263806, 0x4c986405, 0x03d447f6);
    Parity(w, 39, 0x4c986405, 0xdc63973f, 0x03d447f6, 0xf72eec32, 0x085e5ab5, 0x000018c0, 0x32de1cba, 0xf718e5cf);
    Maj(w, 40, 0x32de1cba, 0x4c986405, 0xf718e5cf, 0x03d447f6, 0xf72eec32, 0xd2e138c4, 0xfc87dedf, 0x53261901);
    Maj(w, 41, 0xfc87dedf, 0x32de1cba, 0x53261901, 0xf718e5cf, 0x03d447f6, 0x00000f00, 0x970a0d5c, 0x8cb7872e);
    Maj(w, 42, 0x970a0d5c, 0xfc87dedf, 0x8cb7872e, 0x53261901, 0xf718e5cf, 0x3afb5079, 0x7f193dc5, 0xff21f7b7);
    Maj(w, 43, 0x7f193dc5, 0x970a0d5c, 0xff21f7b7, 0x8cb7872e, 0x53261901, 0x898e04e5, 0xee1b1aaf, 0x25c28357);
    Maj(w, 44, 0xee1b1aaf, 0x7f193dc5, 0x25c28357, 0xff21f7b7, 0x8cb7872e, 0xe2ba3c2b, 0x40f28e09, 0x5fc64f71);
    Maj(w, 45, 0x40f28e09, 0xee1b1aaf, 0x5fc64f71, 0x25c28357, 0xff21f7b7, 0x000060c0, 0x1c51e1f2, 0xfb86c6ab);
    Maj(w, 46, 0x1c51e1f2, 0x40f28e09, 0xfb86c6ab, 0x5fc64f71, 0x25c28357, 0x053a37cd, 0xa01b846c, 0x503ca382);
    Maj(w, 47, 0xa01b846c, 0x1c51e1f2, 0x503ca382, 0xfb86c6ab, 0x5fc64f71, 0x74458547, 0xbead02ca, 0x8714787c);
  }

  lemma Rounds3(w: seq<word>)
    requires Words3(w) && Reached(w, 48, 0xbead02ca, 0xa01b846c, 0x8714787c, 0x503ca382, 0xfb86c6ab)
    ensures Reached(w, 64, 0x6b61c9e1, 0xb66c020b, 0x9523272c, 0xf5d5b051, 0x8fd4b796)
  {
    Maj(w, 48, 0xbead02ca, 0xa01b846c, 0x8714787c, 0x503ca382, 0xfb86c6ab, 0xda9415ed, 0xbaf39337, 0x2806e11b);
    Maj(w, 49, 0xbaf39337, 0xbead02ca, 0x2806e11b, 0x8714787c, 0x503ca382, 0x26380a16, 0x120731c5, 0xafab40b2);
    Maj(w, 50, 0x120731c5, 0xbaf39337, 0xafab40b2, 0x2806e11b, 0x8714787c, 0x626383a1, 0x641db2ce, 0xeebce4cd);
    Maj(w, 51, 0x641db2ce, 0x120731c5, 0xeebce4cd, 0xafab40b2, 0x2806e11b, 0x4ebf54de, 0x3847ad66, 0x4481cc71);
    Maj(w, 52, 0x3847ad66, 0x641db2ce, 0x4481cc71, 0xeebce4cd, 0xafab40b2, 0x3835b44b, 0xe490436d, 0x99076cb3);
    Maj(w, 53, 0xe490436d, 0x3847ad66, 0x99076cb3, 0x4481cc71, 0xeebce4cd, 0x0000f600, 0x27e9f1d8, 0x8e11eb59);
    Maj(w, 54, 0x27e9f1d8, 0xe490436d, 0x8e11eb59, 0x99076cb3, 0x4481cc71, 0x1e84c7a3, 0x7b71f76d, 0x792410db);
    Maj(w, 55, 0x7b71f76d, 0x27e9f1d8, 0x792410db, 0x8e11eb59, 0x99076cb3, 0x98e04d98, 0x5e6456af, 0x09fa7c76);
    Maj(w, 56, 0x5e6456af, 0x7b71f76d, 0x09fa7c76, 0x792410db, 0x8e11eb59, 0x651d16a0, 0xc846093f, 0x5edc7ddb);
    Maj(w, 57, 0xc846093f, 0x5e6456af, 0x5edc7ddb, 0x09fa7c76, 0x792410db, 0x62658ca1, 0xd262ff50, 0xd79915ab);
    Maj(w, 58, 0xd262ff50, 0xc846093f, 0xd79915ab, 0x5edc7ddb, 0x09fa7c76, 0x458544d6, 0x09d785fd, 0xf211824f);
    Maj(w, 59, 0x09d785fd, 0xd262ff50, 0xf211824f, 0xd79915ab, 0x5edc7ddb, 0x44584cb7, 0x3f52de5a, 0x3498bfd4);
    Parity(w, 60, 0x3f52de5a, 0x09d785fd, 0x3498bfd4, 0xf211824f, 0xd79915ab, 0x7ba06619, 0xd756c147, 0x4275e17f);
    Parity(w, 61, 0xd756c147, 0x3f52de5a, 0x4275e17f, 0x3498bfd4, 0xf211824f, 0x6380aea2, 0x548c9cb2, 0x8fd4b796);
    Parity(w, 62, 0x548c9cb2, 0xd756c147, 0x8fd4b796, 0x4275e17f, 0x3498bfd4, 0x0ae55269, 0xb66c020b, 0xf5d5b051);
    Parity(w, 63, 0xb66c020b, 0x548c9cb2, 0xf5d5b051, 0x8fd4b796, 0x4275e17f, 0x627b49a1, 0x6b61c9e1, 0x9523272c);
  }

  lemma Rounds4(w: seq<word>)
    requires Words4(w) && Reached(w, 64, 0x6b61c9e1, 0xb66c020b, 0x9523272c, 0xf5d5b051, 0x8fd4b796)
    ensures Reached(w, 80, 0x42541b35, 0x5738d5e1, 0x21834873, 0x681e6df6, 0xd8fdf6ad)
  {
    Parity(w, 64, 0x6b61c9e1, 0xb66c020b, 0x9523272c, 0xf5d5b051, 0x8fd4b796, 0x7cd45c9d, 0x19dfa7ac, 0xed9b0082);
    Parity(w, 65, 0x19dfa7ac, 0x6b61c9e1, 0xed9b0082, 0x9523272c, 0xf5d5b051, 0x000f0000, 0x101655f9, 0x5ad87278);
    Parity(w, 66, 0x101655f9, 0x19dfa7ac, 0x5ad87278, 0xed9b0082, 0x9523272c, 0xfb50753a, 0x0c3df2b4, 0x0677e9eb);
    Parity(w, 67, 0x0c3df2b4, 0x101655f9, 0x0677e9eb, 0x5ad87278, 0xed9b0082, 0xec6765e8, 0x78dd4d2b, 0x4405957e);
    Parity(w, 68, 0x78dd4d2b, 0x0c3df2b4, 0x4405957e, 0x0677e9eb, 0x5ad87278, 0xba3c2be2, 0x497093c0, 0x030f7cad);
    Parity(w, 69, 0x497093c0, 0x78dd4d2b, 0x030f7cad, 0x4405957e, 0x0677e9eb, 0x0060c000, 0x3f2588c2, 0xde37534a);
    Parity(w, 70, 0x3f2588c2, 0x497093c0, 0xde37534a, 0x030f7cad, 0x4405957e, 0x3a37cd05, 0xc199f8c7, 0x125c24f0);
    Parity(w, 71, 0xc199f8c7, 0x3f2588c2, 0x125c24f0, 0xde37534a, 0x030f7cad, 0x458546f4, 0x39859de7, 0x8fc96230);
    Parity(w, 72, 0x39859de7, 0xc199f8c7, 0x8fc96230, 0x125c24f0, 0xde37534a, 0xb8599dd6, 0xedb42de4, 0xf0667e31);
    Parity(w, 73, 0xedb42de4, 0x39859de7, 0xf0667e31, 0x8fc96230, 0x125c24f0, 0x380a1a26, 0x11793f6f, 0xce616779);
    Parity(w, 74, 0x11793f6f, 0xedb42de4, 0xce616779, 0xf0667e31, 0x8fc96230, 0x01e02203, 0x5ee76897, 0x3b6d0b79);
    Parity(w, 75, 0x5ee76897, 0x11793f6f, 0x3b6d0b79, 0xce616779, 0xf0667e31, 0xe7cc3456, 0x63f7dab7, 0xc45e4fdb);
    Parity(w, 76, 0x63f7dab7, 0x5ee76897, 0xc45e4fdb, 0x3b6d0b79, 0xce616779, 0xe6e60b69, 0xa079b7d9, 0xd7b9da25);
    Parity(w, 77, 0xa079b7d9, 0x63f7dab7, 0xd7b9da25, 0xc45e4fdb, 0x3b6d0b79, 0x00f60a00, 0x860d21cc, 0xd8fdf6ad);
    Parity(w, 78, 0x860d21cc, 0xa079b7d9, 0xd8fdf6ad, 0xd7b9da25, 0xc45e4fdb, 0x5795ef4f, 0x5738d5e1, 0x681e6df6);
    Parity(w, 79, 0x5738d5e1, 0x860d21cc, 0x681e6df6, 0xd8fdf6ad, 0xd7b9da25, 0x822e0879, 0x42541b35, 0x21834873);
  }

  lemma AllRounds(w: seq<word>)
    requires Schedule(w) && Words0(w)
    ensures Reached(w, 80, 0x42541b35, 0x5738d5e1, 0x21834873, 0x681e6df6, 0xd8fdf6ad)
  {
    Expand1(w);
    Expand2(w);
    Expand3(w);
    Expand4(w);
    Rounds0(w);
    Rounds1(w);
    Rounds2(w);
    Rounds3(w);
    Rounds4(w);
  }

  // ---- the digest ----

  const ABC: seq<byte> := [97, 98, 99]
  const BLOCK: Block := ABC + [0x80] + Zeros(52) + [0, 0, 0, 0, 0, 0, 0, 24]

  lemma PadAbc()
    ensures Pad(ABC) == BLOCK
  {
    Streaming.EightBytes(24);
    ZerosNeeded(0, 3);
    assert Pad(ABC) == ABC + [0x80] + Zeros(52) + LengthBytes(24, 8);
  }

  ghost predicate IsLoaded(m: Block, w: seq<word>, j: nat)
    requires j < 16 <= |w|
  {
    w[j] == BlockWord(m, j)
  }

  ghost predicate Loaded(m: Block, w: seq<word>) {
    |w| == 80 && forall j | 0 <= j < 16 :: IsLoaded(m, w, j)
  }

  lemma WIsLoaded(m: Block)
    ensures Loaded(m, W(m, 80))
  {
    forall j | 0 <= j < 16
      ensures IsLoaded(m, W(m, 80), j)
    {
      WordsStay(m, j + 1, 80);
      Streaming.LoadStep(m, j);
      assert W(m, 80)[j] == W(m, 80)[..j + 1][j];
    }
  }

  lemma FirstWord(m: Block, w: seq<word>, j: nat, a: byte, b: byte, c: byte, d: byte, x: word)
    requires j < 16 && m[4 * j] == a && m[4 * j + 1] == b && m[4 * j + 2] == c && m[4 * j + 3] == d
    requires Loaded(m, w) && x == Concat(a as word, b as word, c as word, d as word)
    ensures w[j] == x
  {
    assert IsLoaded(m, w, j);
  }

  lemma ZeroWord(m: Block, w: seq<word>, j: nat)
    requires j < 16 && m[4 * j] == m[4 * j + 1] == m[4 * j + 2] == m[4 * j + 3] == 0 && Loaded(m, w)
    ensures w[j] == 0
  {
    FirstWord(m, w, j, 0, 0, 0, 0, 0);
  }

  lemma OuterWords(m: Block, w: seq<word>)
    requires m == BLOCK && Loaded(m, w)
    ensures w[0] == 0x61626380 && w[15] == 0x18
  {
    FirstWord(m, w, 0, 97, 98, 99, 128, 0x61626380);
    FirstWord(m, w, 15, 0, 0, 0, 24, 0x18);
  }

  lemma FirstWords(m: Block, w: seq<word>)
    requires m == BLOCK && Loaded(m, w)
    ensures Words0(w)
  {
    OuterWords(m, w);
    forall j | 0 < j < 15
      ensures w[j] == 0
    {
      ZeroWord(m, w, j);
    }
  }

  const DIGEST := Hash(0xa9993e36, 0x4706816a, 0xba3e2571, 0x7850c26c, 0x9cd0d89d)

  lemma CompressAbc(m: Block)
    requires m == BLOCK
    ensures Compress(H0, m) == DIGEST
  {
    WIsLoaded(m);
    FirstWords(m, W(m, 80));
    WIsSchedule(m);
    AllRounds(W(m, 80));
    Streaming.Finish(H0, m, Rounds(H0, W(m, 80), 80));
  }

  ghost predicate Bytes4(w: word, a: byte, b: byte, c: byte, d: byte) {
    WordByte(w, 0) == a && WordByte(w, 1) == b && WordByte(w, 2) == c && WordByte(w, 3) == d
  }

  lemma DigestWords()
    ensures Bytes4(0xa9993e36, 0xa9, 0x99, 0x3e, 0x36)
    ensures Bytes4(0x4706816a, 0x47, 0x06, 0x81, 0x6a)
    ensures Bytes4(0xba3e2571, 0xba, 0x3e, 0x25, 0x71)
    ensures Bytes4(0x7850c26c, 0x78, 0x50, 0xc2, 0x6c)
    ensures Bytes4(0x9cd0d89d, 0x9c, 0xd0, 0xd8, 0x9d)
  {
  }

  ghost predicate Column(h: Hash, d: seq<byte>, x: nat)
    requires |d| == 20 && x < 5
  {
    Bytes4(WordOf(h, x), d[4 * x], d[4 * x + 1], d[4 * x + 2], d[4 * x + 3])
  }

  lemma ByteOfFour(w: word, a: byte, b: byte, c: byte, d: byte, i: nat)
    requires Bytes4(w, a, b, c, d) && i < 4
    ensures WordByte(w, i) == if i == 0 then a else if i == 1 then b else if i == 2 then c else d
  {
  }

  lemma ColumnByte(h: Hash, d: seq<byte>, x: nat, i: nat)
    requires |d| == 20 && x < 5 && i < 4 && Column(h, d, x)
    ensures HashBytes(h, 20)[4 * x + i] == d[4 * x + i]
  {
    var k := 4 * x + i;
    assert k / 4 == x && k % 4 == i;
    Streaming.HashByteAt(h, 20, k);
    ByteOfFour(WordOf(h, x), d[4 * x], d[4 * x + 1], d[4 * x + 2], d[4 * x + 3], i);
  }

  lemma DigestBytes(h: Hash, d: seq<byte>)
    requires |d| == 20 && forall x: nat | x < 5 :: Column(h, d, x)
    ensures HashBytes(h, 20) == d
  {
    forall k: nat | k < 20
      ensures HashBytes(h, 20)[k] == d[k]
    {
      ColumnByte(h, d, k / 4, k % 4);
    }
  }

  lemma BytesOfDigest()
    ensures HashBytes(DIGEST, 20) ==
      [0xa9, 0x99, 0x3e, 0x36, 0x47, 0x06, 0x81, 0x6a, 0xba, 0x3e, 0x25, 0x71, 0x78, 0x50, 0xc2, 0x6c, 0x9c, 0xd0, 0xd8, 0x9d]
  {
    DigestWords();
    DigestBytes(DIGEST, [0xa9, 0x99, 0x3e, 0x36, 0x47, 0x06, 0x81, 0x6a, 0xba, 0x3e, 0x25, 0x71, 0x78, 0x50, 0xc2, 0x6c,
      0x9c, 0xd0, 0xd8, 0x9d]);
  }

  lemma AbcCompressed(f: (Hash, Block) -> Hash, m: Block)
    requires Streaming.IsCompress(f) && m == BLOCK
    ensures f(H0, m) == DIGEST
  {
    CompressAbc(m);
  }

  lemma DigestOfBlock(f: (Hash, Block) -> Hash, b: Block)
    requires Pad(ABC) == b
    ensures Digest(f, H0, ABC) == f(H0, b)
  {
    AbsorbBlock(f, H0, [], b);
    assert [] + b == b;
  }

  lemma HashOfAbc(f: (Hash, Block) -> Hash)
    requires Streaming.IsCompress(f)
    ensures Sha1(ABC) == HashBytes(DIGEST, 20)
  {
    PadAbc();
    DigestOfBlock(f, BLOCK);
    AbcCompressed(f, BLOCK);
    Streaming.DigestIsSha1(f, ABC);
  }

  /** SHA-1 of "abc", as FIPS 180 gives it: a9993e36 4706816a ba3e2571 7850c26c 9cd0d89d. */
  lemma DigestOfAbc()
    ensures Sha1([97, 98, 99]) ==
      [0xa9, 0x99, 0x3e, 0x36, 0x47, 0x06, 0x81, 0x6a, 0xba, 0x3e, 0x25, 0x71, 0x78, 0x50, 0xc2, 0x6c, 0x9c, 0xd0, 0xd8, 0x9d]
  {
    HashOfAbc(Compress);
    BytesOfDigest();
  }
}
