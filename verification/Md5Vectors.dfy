/**
 Test values of RFC 1321, appendix A.5: the digests of the empty message and of "abc", worked out
 step by step. They fix every function the definition is made of.
 */
module Md5Vectors {

  import opened Md5Block
  import opened Md5

  /** One step, given what it computes. */
  lemma NextState(s: State, x: seq<bv32>, lo: nat, i: nat, t: State, r: bv32)
    requires |x| == 16 && lo <= i && t == Steps(s, x, lo, i)
    requires r == Turn(if i < 16 then F(t.b, t.c, t.d) else if i < 32 then G(t.b, t.c, t.d)
                       else if i < 48 then H(t.b, t.c, t.d) else I(t.b, t.c, t.d),
                       t.a, t.b, x[Word(i)], Sine(i), Shift(i))
    ensures Steps(s, x, lo, i + 1) == State(t.d, r, t.b, t.c)
  {
    hide *;
    StepsNext(s, x, lo, i, t);
  }

  // ---------- The empty message ----------

  const EMPTY_WORDS: seq<bv32> := [0x80, 0x0, 0x0, 0x0, 0x0, 0x0, 0x0, 0x0, 0x0, 0x0, 0x0, 0x0, 0x0, 0x0, 0x0, 0x0]

  lemma EmptyWordsAre()
    ensures |EMPTY_WORDS| == 16 && EMPTY_WORDS[0] == 0x80
    ensures forall k :: 0 <= k < 16 && k != 0 ==> EMPTY_WORDS[k] == 0
  {
  }

  lemma EmptyTurns1()
    ensures Turn(F(0xefcdab89, 0x98badcfe, 0x10325476), 0x67452301, 0xefcdab89, 0x80, 0xd76aa478, 7) == 0xa5202774
    ensures Turn(F(0xa5202774, 0xefcdab89, 0x98badcfe), 0x10325476, 0xa5202774, 0x0, 0xe8c7b756, 12) == 0xf59592dd
    ensures Turn(F(0xf59592dd, 0xa5202774, 0xefcdab89), 0x98badcfe, 0xf59592dd, 0x0, 0x242070db, 17) == 0xe7f06b23
    ensures Turn(F(0xe7f06b23, 0xf59592dd, 0xa5202774), 0xefcdab89, 0xe7f06b23, 0x0, 0xc1bdceee, 22) == 0x1b163203
    ensures Turn(F(0x1b163203, 0xe7f06b23, 0xf59592dd), 0xa5202774, 0x1b163203, 0x0, 0xf57c0faf, 7) == 0x32033344
    ensures Turn(F(0x32033344, 0x1b163203, 0xe7f06b23), 0xf59592dd, 0x32033344, 0x0, 0x4787c62a, 12) == 0x2f35d494
    ensures Turn(F(0x2f35d494, 0x32033344, 0x1b163203), 0xe7f06b23, 0x2f35d494, 0x0, 0xa8304613, 17) == 0xf5b158db
    ensures Turn(F(0xf5b158db, 0x2f35d494, 0x32033344), 0x1b163203, 0xf5b158db, 0x0, 0xfd469501, 22) == 0x9bc13ce9
    ensures Turn(F(0x9bc13ce9, 0xf5b158db, 0x2f35d494), 0x32033344, 0x9bc13ce9, 0x0, 0x698098d8, 7) == 0x3893b991
    ensures Turn(F(0x3893b991, 0x9bc13ce9, 0xf5b158db), 0x2f35d494, 0x3893b991, 0x0, 0x8b44f7af, 12) == 0xfce4a312
    ensures Turn(F(0xfce4a312, 0x3893b991, 0x9bc13ce9), 0xf5b158db, 0xfce4a312, 0x0, 0xffff5bb1, 17) == 0xe1ef0576
    ensures Turn(F(0xe1ef0576, 0xfce4a312, 0x3893b991), 0x9bc13ce9, 0xe1ef0576, 0x0, 0x895cd7be, 22) == 0x70768a29
    ensures Turn(F(0x70768a29, 0xe1ef0576, 0xfce4a312), 0x3893b991, 0x70768a29, 0x0, 0x6b901122, 7) == 0xf56c7cf1
    ensures Turn(F(0xf56c7cf1, 0x70768a29, 0xe1ef0576), 0xfce4a312, 0xf56c7cf1, 0x0, 0xfd987193, 12) == 0x374943a7
    ensures Turn(F(0x374943a7, 0xf56c7cf1, 0x70768a29), 0xe1ef0576, 0x374943a7, 0x0, 0xa679438e, 17) == 0x5aa53f75
    ensures Turn(F(0x5aa53f75, 0x374943a7, 0xf56c7cf1), 0x70768a29, 0x5aa53f75, 0x0, 0x49b40821, 22) == 0xd6819c6a
  {
  }

  lemma EmptyRound1()
    ensures |EMPTY_WORDS| == 16 && Steps(State(0x67452301, 0xefcdab89, 0x98badcfe, 0x10325476), EMPTY_WORDS, 0, 16) ==
            State(0xf56c7cf1, 0xd6819c6a, 0x5aa53f75, 0x374943a7)
  {
    hide *;
    var s, x := State(0x67452301, 0xefcdab89, 0x98badcfe, 0x10325476), EMPTY_WORDS;
    EmptyWordsAre();
    Table1();
    Constants1();
    EmptyTurns1();
    StepsNone(s, x, 0);
    NextState(s, x, 0, 0, State(0x67452301, 0xefcdab89, 0x98badcfe, 0x10325476), 0xa5202774);
    NextState(s, x, 0, 1, State(0x10325476, 0xa5202774, 0xefcdab89, 0x98badcfe), 0xf59592dd);
    NextState(s, x, 0, 2, State(0x98badcfe, 0xf59592dd, 0xa5202774, 0xefcdab89), 0xe7f06b23);
    NextState(s, x, 0, 3, State(0xefcdab89, 0xe7f06b23, 0xf59592dd, 0xa5202774), 0x1b163203);
    NextState(s, x, 0, 4, State(0xa5202774, 0x1b163203, 0xe7f06b23, 0xf59592dd), 0x32033344);
    NextState(s, x, 0, 5, State(0xf59592dd, 0x32033344, 0x1b163203, 0xe7f06b23), 0x2f35d494);
    NextState(s, x, 0, 6, State(0xe7f06b23, 0x2f35d494, 0x32033344, 0x1b163203), 0xf5b158db);
    NextState(s, x, 0, 7, State(0x1b163203, 0xf5b158db, 0x2f35d494, 0x32033344), 0x9bc13ce9);
    NextState(s, x, 0, 8, State(0x32033344, 0x9bc13ce9, 0xf5b158db, 0x2f35d494), 0x3893b991);
    NextState(s, x, 0, 9, State(0x2f35d494, 0x3893b991, 0x9bc13ce9, 0xf5b158db), 0xfce4a312);
    NextState(s, x, 0, 10, State(0xf5b158db, 0xfce4a312, 0x3893b991, 0x9bc13ce9), 0xe1ef0576);
    NextState(s, x, 0, 11, State(0x9bc13ce9, 0xe1ef0576, 0xfce4a312, 0x3893b991), 0x70768a29);
    NextState(s, x, 0, 12, State(0x3893b991, 0x70768a29, 0xe1ef0576, 0xfce4a312), 0xf56c7cf1);
    NextState(s, x, 0, 13, State(0xfce4a312, 0xf56c7cf1, 0x70768a29, 0xe1ef0576), 0x374943a7);
    NextState(s, x, 0, 14, State(0xe1ef0576, 0x374943a7, 0xf56c7cf1, 0x70768a29), 0x5aa53f75);
    NextState(s, x, 0, 15, State(0x70768a29, 0x5aa53f75, 0x374943a7, 0xf56c7cf1), 0xd6819c6a);
  }

  lemma EmptyTurns2()
    ensures Turn(G(0xd6819c6a, 0x5aa53f75, 0x374943a7), 0xf56c7cf1, 0xd6819c6a, 0x0, 0xf61e2562, 5) == 0x1c7d7513
    ensures Turn(G(0x1c7d7513, 0xd6819c6a, 0x5aa53f75), 0x374943a7, 0x1c7d7513, 0x0, 0xc040b340, 9) == 0x7bd57a3a
    ensures Turn(G(0x7bd57a3a, 0x1c7d7513, 0xd6819c6a), 0x5aa53f75, 0x7bd57a3a, 0x0, 0x265e5a51, 14) == 0xc095f13a
    ensures Turn(G(0xc095f13a, 0x7bd57a3a, 0x1c7d7513), 0xd6819c6a, 0xc095f13a, 0x80, 0xe9b6c7aa, 20) == 0xbd782e17
    ensures Turn(G(0xbd782e17, 0xc095f13a, 0x7bd57a3a), 0x1c7d7513, 0xbd782e17, 0x0, 0xd62f105d, 5) == 0x3d1e3e6c
    ensures Turn(G(0x3d1e3e6c, 0xbd782e17, 0xc095f13a), 0x7bd57a3a, 0x3d1e3e6c, 0x0, 0x02441453, 9) == 0x68b7b3e3
    ensures Turn(G(0x68b7b3e3, 0x3d1e3e6c, 0xbd782e17), 0xc095f13a, 0x68b7b3e3, 0x0, 0xd8a1e681, 14) == 0xeb41643e
    ensures Turn(G(0xeb41643e, 0x68b7b3e3, 0x3d1e3e6c), 0xbd782e17, 0xeb41643e, 0x0, 0xe7d3fbc8, 20) == 0xe422531a
    ensures Turn(G(0xe422531a, 0xeb41643e, 0x68b7b3e3), 0x3d1e3e6c, 0xe422531a, 0x0, 0x21e1cde6, 5) == 0x306ec122
    ensures Turn(G(0x306ec122, 0xe422531a, 0xeb41643e), 0x68b7b3e3, 0x306ec122, 0x0, 0xc33707d6, 9) == 0xd28c77c2
    ensures Turn(G(0xd28c77c2, 0x306ec122, 0xe422531a), 0xeb41643e, 0xd28c77c2, 0x0, 0xf4d50d87, 14) == 0xa3c663da
    ensures Turn(G(0xa3c663da, 0xd28c77c2, 0x306ec122), 0xe422531a, 0xa3c663da, 0x0, 0x455a14ed, 20) == 0xa0572807
    ensures Turn(G(0xa0572807, 0xa3c663da, 0xd28c77c2), 0x306ec122, 0xa0572807, 0x0, 0xa9e3e905, 5) == 0x13707036
    ensures Turn(G(0x13707036, 0xa0572807, 0xa3c663da), 0xd28c77c2, 0x13707036, 0x0, 0xfcefa3f8, 9) == 0xae7813db
    ensures Turn(G(0xae7813db, 0x13707036, 0xa0572807), 0xa3c663da, 0xae7813db, 0x0, 0x676f02d9, 14) == 0x1c31c384
    ensures Turn(G(0x1c31c384, 0xae7813db, 0x13707036), 0xa0572807, 0x1c31c384, 0x0, 0x8d2a4c8a, 20) == 0xa2205f1f
  {
  }

  lemma EmptyRound2()
    ensures |EMPTY_WORDS| == 16 && Steps(State(0xf56c7cf1, 0xd6819c6a, 0x5aa53f75, 0x374943a7), EMPTY_WORDS, 16, 32) ==
            State(0x13707036, 0xa2205f1f, 0x1c31c384, 0xae7813db)
  {
    hide *;
    var s, x := State(0xf56c7cf1, 0xd6819c6a, 0x5aa53f75, 0x374943a7), EMPTY_WORDS;
    EmptyWordsAre();
    Table2();
    Constants2();
    EmptyTurns2();
    StepsNone(s, x, 16);
    NextState(s, x, 16, 16, State(0xf56c7cf1, 0xd6819c6a, 0x5aa53f75, 0x374943a7), 0x1c7d7513);
    NextState(s, x, 16, 17, State(0x374943a7, 0x1c7d7513, 0xd6819c6a, 0x5aa53f75), 0x7bd57a3a);
    NextState(s, x, 16, 18, State(0x5aa53f75, 0x7bd57a3a, 0x1c7d7513, 0xd6819c6a), 0xc095f13a);
    NextState(s, x, 16, 19, State(0xd6819c6a, 0xc095f13a, 0x7bd57a3a, 0x1c7d7513), 0xbd782e17);
    NextState(s, x, 16, 20, State(0x1c7d7513, 0xbd782e17, 0xc095f13a, 0x7bd57a3a), 0x3d1e3e6c);
    NextState(s, x, 16, 21, State(0x7bd57a3a, 0x3d1e3e6c, 0xbd782e17, 0xc095f13a), 0x68b7b3e3);
    NextState(s, x, 16, 22, State(0xc095f13a, 0x68b7b3e3, 0x3d1e3e6c, 0xbd782e17), 0xeb41643e);
    NextState(s, x, 16, 23, State(0xbd782e17, 0xeb41643e, 0x68b7b3e3, 0x3d1e3e6c), 0xe422531a);
    NextState(s, x, 16, 24, State(0x3d1e3e6c, 0xe422531a, 0xeb41643e, 0x68b7b3e3), 0x306ec122);
    NextState(s, x, 16, 25, State(0x68b7b3e3, 0x306ec122, 0xe422531a, 0xeb41643e), 0xd28c77c2);
    NextState(s, x, 16, 26, State(0xeb41643e, 0xd28c77c2, 0x306ec122, 0xe422531a), 0xa3c663da);
    NextState(s, x, 16, 27, State(0xe422531a, 0xa3c663da, 0xd28c77c2, 0x306ec122), 0xa0572807);
    NextState(s, x, 16, 28, State(0x306ec122, 0xa0572807, 0xa3c663da, 0xd28c77c2), 0x13707036);
    NextState(s, x, 16, 29, State(0xd28c77c2, 0x13707036, 0xa0572807, 0xa3c663da), 0xae7813db);
    NextState(s, x, 16, 30, State(0xa3c663da, 0xae7813db, 0x13707036, 0xa0572807), 0x1c31c384);
    NextState(s, x, 16, 31, State(0xa0572807, 0x1c31c384, 0xae7813db, 0x13707036), 0xa2205f1f);
  }

  lemma EmptyTurns3()
    ensures Turn(H(0xa2205f1f, 0x1c31c384, 0xae7813db), 0x13707036, 0xa2205f1f, 0x0, 0xfffa3942, 4) == 0xdf63eaa1
    ensures Turn(H(0xdf63eaa1, 0xa2205f1f, 0x1c31c384), 0xae7813db, 0xdf63eaa1, 0x0, 0x8771f681, 11) == 0xc3689f5b
    ensures Turn(H(0xc3689f5b, 0xdf63eaa1, 0xa2205f1f), 0x1c31c384, 0xc3689f5b, 0x0, 0x6d9d6122, 16) == 0x12f3e755
    ensures Turn(H(0x12f3e755, 0xc3689f5b, 0xdf63eaa1), 0xa2205f1f, 0x12f3e755, 0x0, 0xfde5380c, 23) == 0x004b6669
    ensures Turn(H(0x004b6669, 0x12f3e755, 0xc3689f5b), 0xdf63eaa1, 0x004b6669, 0x0, 0xa4beea44, 4) == 0x5f7a9b2e
    ensures Turn(H(0x5f7a9b2e, 0x004b6669, 0x12f3e755), 0xc3689f5b, 0x5f7a9b2e, 0x0, 0x4bdecfa9, 11) == 0xabc34e16
    ensures Turn(H(0xabc34e16, 0x5f7a9b2e, 0x004b6669), 0x12f3e755, 0xabc34e16, 0x0, 0xf6bb4b60, 16) == 0x91ca4cb7
    ensures Turn(H(0x91ca4cb7, 0xabc34e16, 0x5f7a9b2e), 0x004b6669, 0x91ca4cb7, 0x0, 0xbebfbc70, 23) == 0xc5dc8c15
    ensures Turn(H(0xc5dc8c15, 0x91ca4cb7, 0xabc34e16), 0x5f7a9b2e, 0xc5dc8c15, 0x0, 0x289b7ec6, 4) == 0x4497169d
    ensures Turn(H(0x4497169d, 0xc5dc8c15, 0x91ca4cb7), 0xabc34e16, 0x4497169d, 0x80, 0xeaa127fa, 11) == 0x76fd93d4
    ensures Turn(H(0x76fd93d4, 0x4497169d, 0xc5dc8c15), 0x91ca4cb7, 0x76fd93d4, 0x0, 0xd4ef3085, 16) == 0xfd95f243
    ensures Turn(H(0xfd95f243, 0x76fd93d4, 0x4497169d), 0xc5dc8c15, 0xfd95f243, 0x0, 0x04881d05, 23) == 0x0fe32453
    ensures Turn(H(0x0fe32453, 0xfd95f243, 0x76fd93d4), 0x4497169d, 0x0fe32453, 0x0, 0xd9d4d039, 4) == 0x3f55edfd
    ensures Turn(H(0x3f55edfd, 0x0fe32453, 0xfd95f243), 0x76fd93d4, 0x3f55edfd, 0x0, 0xe6db99e5, 11) == 0x22a31f54
    ensures Turn(H(0x22a31f54, 0x3f55edfd, 0x0fe32453), 0xfd95f243, 0x22a31f54, 0x0, 0x1fa27cf8, 16) == 0x68d84ea2
    ensures Turn(H(0x68d84ea2, 0x22a31f54, 0x3f55edfd), 0x0fe32453, 0x68d84ea2, 0x0, 0xc4ac5665, 23) == 0xca7d2dbd
  {
  }

  lemma EmptyRound3()
    ensures |EMPTY_WORDS| == 16 && Steps(State(0x13707036, 0xa2205f1f, 0x1c31c384, 0xae7813db), EMPTY_WORDS, 32, 48) ==
            State(0x3f55edfd, 0xca7d2dbd, 0x68d84ea2, 0x22a31f54)
  {
    hide *;
    var s, x := State(0x13707036, 0xa2205f1f, 0x1c31c384, 0xae7813db), EMPTY_WORDS;
    EmptyWordsAre();
    Table3();
    Constants3();
    EmptyTurns3();
    StepsNone(s, x, 32);
    NextState(s, x, 32, 32, State(0x13707036, 0xa2205f1f, 0x1c31c384, 0xae7813db), 0xdf63eaa1);
    NextState(s, x, 32, 33, State(0xae7813db, 0xdf63eaa1, 0xa2205f1f, 0x1c31c384), 0xc3689f5b);
    NextState(s, x, 32, 34, State(0x1c31c384, 0xc3689f5b, 0xdf63eaa1, 0xa2205f1f), 0x12f3e755);
    NextState(s, x, 32, 35, State(0xa2205f1f, 0x12f3e755, 0xc3689f5b, 0xdf63eaa1), 0x004b6669);
    NextState(s, x, 32, 36, State(0xdf63eaa1, 0x004b6669, 0x12f3e755, 0xc3689f5b), 0x5f7a9b2e);
    NextState(s, x, 32, 37, State(0xc3689f5b, 0x5f7a9b2e, 0x004b6669, 0x12f3e755), 0xabc34e16);
    NextState(s, x, 32, 38, State(0x12f3e755, 0xabc34e16, 0x5f7a9b2e, 0x004b6669), 0x91ca4cb7);
    NextState(s, x, 32, 39, State(0x004b6669, 0x91ca4cb7, 0xabc34e16, 0x5f7a9b2e), 0xc5dc8c15);
    NextState(s, x, 32, 40, State(0x5f7a9b2e, 0xc5dc8c15, 0x91ca4cb7, 0xabc34e16), 0x4497169d);
    NextState(s, x, 32, 41, State(0xabc34e16, 0x4497169d, 0xc5dc8c15, 0x91ca4cb7), 0x76fd93d4);
    NextState(s, x, 32, 42, State(0x91ca4cb7, 0x76fd93d4, 0x4497169d, 0xc5dc8c15), 0xfd95f243);
    NextState(s, x, 32, 43, State(0xc5dc8c15, 0xfd95f243, 0x76fd93d4, 0x4497169d), 0x0fe32453);
    NextState(s, x, 32, 44, State(0x4497169d, 0x0fe32453, 0xfd95f243, 0x76fd93d4), 0x3f55edfd);
    NextState(s, x, 32, 45, State(0x76fd93d4, 0x3f55edfd, 0x0fe32453, 0xfd95f243), 0x22a31f54);
    NextState(s, x, 32, 46, State(0xfd95f243, 0x22a31f54, 0x3f55edfd, 0x0fe32453), 0x68d84ea2);
    NextState(s, x, 32, 47, State(0x0fe32453, 0x68d84ea2, 0x22a31f54, 0x3f55edfd), 0xca7d2dbd);
  }

  lemma EmptyTurns4()
    ensures Turn(I(0xca7d2dbd, 0x68d84ea2, 0x22a31f54), 0x3f55edfd, 0xca7d2dbd, 0x80, 0xf4292244, 6) == 0x93aa2577
    ensures Turn(I(0x93aa2577, 0xca7d2dbd, 0x68d84ea2), 0x22a31f54, 0x93aa2577, 0x0, 0x432aff97, 10) == 0x1688dc85
    ensures Turn(I(0x1688dc85, 0x93aa2577, 0xca7d2dbd), 0x68d84ea2, 0x1688dc85, 0x0, 0xab9423a7, 15) == 0xcd85b8cb
    ensures Turn(I(0xcd85b8cb, 0x1688dc85, 0x93aa2577), 0xca7d2dbd, 0xcd85b8cb, 0x0, 0xfc93a039, 21) == 0x561e0689
    ensures Turn(I(0x561e0689, 0xcd85b8cb, 0x1688dc85), 0x93aa2577, 0x561e0689, 0x0, 0x655b59c3, 6) == 0x5625a114
    ensures Turn(I(0x5625a114, 0x561e0689, 0xcd85b8cb), 0x1688dc85, 0x5625a114, 0x0, 0x8f0ccc92, 10) == 0x3450f42b
    ensures Turn(I(0x3450f42b, 0x5625a114, 0x561e0689), 0xcd85b8cb, 0x3450f42b, 0x0, 0xffeff47d, 15) == 0x392ad0d0
    ensures Turn(I(0x392ad0d0, 0x3450f42b, 0x5625a114), 0x561e0689, 0x392ad0d0, 0x0, 0x85845dd1, 21) == 0x1e77fa61
    ensures Turn(I(0x1e77fa61, 0x392ad0d0, 0x3450f42b), 0x5625a114, 0x1e77fa61, 0x0, 0x6fa87e4f, 6) == 0x474a9c8c
    ensures Turn(I(0x474a9c8c, 0x1e77fa61, 0x392ad0d0), 0x3450f42b, 0x474a9c8c, 0x0, 0xfe2ce6e0, 10) == 0xdfce00bc
    ensures Turn(I(0xdfce00bc, 0x474a9c8c, 0x1e77fa61), 0x392ad0d0, 0xdfce00bc, 0x0, 0xa3014314, 15) == 0x36594b14
    ensures Turn(I(0x36594b14, 0xdfce00bc, 0x474a9c8c), 0x1e77fa61, 0x36594b14, 0x0, 0x4e0811a1, 21) == 0x30130182
    ensures Turn(I(0x30130182, 0x36594b14, 0xdfce00bc), 0x474a9c8c, 0x30130182, 0x0, 0xf7537e82, 6) == 0x7246fad3
    ensures Turn(I(0x7246fad3, 0x30130182, 0x36594b14), 0xdfce00bc, 0x7246fad3, 0x0, 0xbd3af235, 10) == 0x6e10a476
    ensures Turn(I(0x6e10a476, 0x7246fad3, 0x30130182), 0x36594b14, 0x6e10a476, 0x0, 0x2ad7d2bb, 15) == 0xff4ea3eb
    ensures Turn(I(0xff4ea3eb, 0x6e10a476, 0x7246fad3), 0x30130182, 0xff4ea3eb, 0x0, 0xeb86d391, 21) == 0x14e45506
  {
  }

  lemma EmptyRound4()
    ensures |EMPTY_WORDS| == 16 && Steps(State(0x3f55edfd, 0xca7d2dbd, 0x68d84ea2, 0x22a31f54), EMPTY_WORDS, 48, 64) ==
            State(0x7246fad3, 0x14e45506, 0xff4ea3eb, 0x6e10a476)
  {
    hide *;
    var s, x := State(0x3f55edfd, 0xca7d2dbd, 0x68d84ea2, 0x22a31f54), EMPTY_WORDS;
    EmptyWordsAre();
    Table4();
    Constants4();
    EmptyTurns4();
    StepsNone(s, x, 48);
    NextState(s, x, 48, 48, State(0x3f55edfd, 0xca7d2dbd, 0x68d84ea2, 0x22a31f54), 0x93aa2577);
    NextState(s, x, 48, 49, State(0x22a31f54, 0x93aa2577, 0xca7d2dbd, 0x68d84ea2), 0x1688dc85);
    NextState(s, x, 48, 50, State(0x68d84ea2, 0x1688dc85, 0x93aa2577, 0xca7d2dbd), 0xcd85b8cb);
    NextState(s, x, 48, 51, State(0xca7d2dbd, 0xcd85b8cb, 0x1688dc85, 0x93aa2577), 0x561e0689);
    NextState(s, x, 48, 52, State(0x93aa2577, 0x561e0689, 0xcd85b8cb, 0x1688dc85), 0x5625a114);
    NextState(s, x, 48, 53, State(0x1688dc85, 0x5625a114, 0x561e0689, 0xcd85b8cb), 0x3450f42b);
    NextState(s, x, 48, 54, State(0xcd85b8cb, 0x3450f42b, 0x5625a114, 0x561e0689), 0x392ad0d0);
    NextState(s, x, 48, 55, State(0x561e0689, 0x392ad0d0, 0x3450f42b, 0x5625a114), 0x1e77fa61);
    NextState(s, x, 48, 56, State(0x5625a114, 0x1e77fa61, 0x392ad0d0, 0x3450f42b), 0x474a9c8c);
    NextState(s, x, 48, 57, State(0x3450f42b, 0x474a9c8c, 0x1e77fa61, 0x392ad0d0), 0xdfce00bc);
    NextState(s, x, 48, 58, State(0x392ad0d0, 0xdfce00bc, 0x474a9c8c, 0x1e77fa61), 0x36594b14);
    NextState(s, x, 48, 59, State(0x1e77fa61, 0x36594b14, 0xdfce00bc, 0x474a9c8c), 0x30130182);
    NextState(s, x, 48, 60, State(0x474a9c8c, 0x30130182, 0x36594b14, 0xdfce00bc), 0x7246fad3);
    NextState(s, x, 48, 61, State(0xdfce00bc, 0x7246fad3, 0x30130182, 0x36594b14), 0x6e10a476);
    NextState(s, x, 48, 62, State(0x36594b14, 0x6e10a476, 0x7246fad3, 0x30130182), 0xff4ea3eb);
    NextState(s, x, 48, 63, State(0x30130182, 0xff4ea3eb, 0x6e10a476, 0x7246fad3), 0x14e45506);
  }

  lemma EmptySteps()
    ensures |EMPTY_WORDS| == 16
    ensures Steps(INIT, EMPTY_WORDS, 0, 64) == State(0x7246fad3, 0x14e45506, 0xff4ea3eb, 0x6e10a476)
  {
    hide *;
    var x := EMPTY_WORDS;
    InitIs();
    EmptyWordsAre();
    EmptyRound1();
    EmptyRound2();
    EmptyRound3();
    EmptyRound4();
    StepsJoin(INIT, x, 16, 32);
    StepsJoin(INIT, x, 32, 48);
    StepsJoin(INIT, x, 48, 64);
  }

  /** The only block: its bytes, and its words. */
  lemma EmptyBlock() returns (q: seq<byte>)
    ensures var message: seq<byte> := []; q == message + Padding(|message|)
    ensures |q| == 64 && q[0] == 0x80
    ensures forall i :: 0 <= i < 64 && i != 0 ==> q[i] == 0
  {
    var message: seq<byte> := [];
    LengthBytes();
    PaddingBytes(0, Little(0, 8));
    hide *;
    var p, len := Padding(0), Little(0, 8);
    q := message + p;
    forall i | 0 <= i < 8 ensures q[56 + i] == len[i] {
      assert p[56..][i] == len[i];
    }
  }

  lemma EmptyWords(q: seq<byte>)
    requires |q| == 64 && q[0] == 0x80
    requires forall i :: 0 <= i < 64 && i != 0 ==> q[i] == 0
    ensures Words(q) == EMPTY_WORDS
  {
    hide WordAt;
    WordOf(q, 0, 0x80, 0x00, 0x00, 0x00, 0x80);
    forall k | 0 <= k < 16 && k != 0 ensures WordAt(q, k) == 0 {
      ZeroWord(q, k);
    }
  }

  lemma EmptyAdd()
    ensures Add(State(0x7246fad3, 0x14e45506, 0xff4ea3eb, 0x6e10a476), INIT) ==
            State(0xd98c1dd4, 0x04b2008f, 0x980980e9, 0x7e42f8ec)
    ensures Output(State(0xd98c1dd4, 0x04b2008f, 0x980980e9, 0x7e42f8ec)) ==
            [0xd4, 0x1d, 0x8c, 0xd9, 0x8f, 0x00, 0xb2, 0x04, 0xe9, 0x80, 0x09, 0x98, 0xec, 0xf8, 0x42, 0x7e]
  {
  }

  /** MD5 ("") = d41d8cd98f00b204e9800998ecf8427e */
  lemma EmptyDigest()
    ensures Sum([]) ==
            [0xd4, 0x1d, 0x8c, 0xd9, 0x8f, 0x00, 0xb2, 0x04, 0xe9, 0x80, 0x09, 0x98, 0xec, 0xf8, 0x42, 0x7e]
  {
    hide *;
    var message: seq<byte> := [];
    var block := EmptyBlock();
    EmptyWords(block);
    EmptySteps();
    EmptyAdd();
    OneBlock(message, block);
  }

  // ---------- "abc" ----------

  const ABC_WORDS: seq<bv32> := [0x80636261, 0x0, 0x0, 0x0, 0x0, 0x0, 0x0, 0x0, 0x0, 0x0, 0x0, 0x0, 0x0, 0x0, 0x18, 0x0]

  lemma AbcWordsAre()
    ensures |ABC_WORDS| == 16 && ABC_WORDS[0] == 0x80636261 && ABC_WORDS[14] == 0x18
    ensures forall k :: 0 <= k < 16 && k != 0 && k != 14 ==> ABC_WORDS[k] == 0
  {
  }

  lemma AbcTurns1()
    ensures Turn(F(0xefcdab89, 0x98badcfe, 0x10325476), 0x67452301, 0xefcdab89, 0x80636261, 0xd76aa478, 7) == 0xd6d117b4
    ensures Turn(F(0xd6d117b4, 0xefcdab89, 0x98badcfe), 0x10325476, 0xd6d117b4, 0x0, 0xe8c7b756, 12) == 0x344a8432
    ensures Turn(F(0x344a8432, 0xd6d117b4, 0xefcdab89), 0x98badcfe, 0x344a8432, 0x0, 0x242070db, 17) == 0x2f6fbd72
    ensures Turn(F(0x2f6fbd72, 0x344a8432, 0xd6d117b4), 0xefcdab89, 0x2f6fbd72, 0x0, 0xc1bdceee, 22) == 0x7ad956f2
    ensures Turn(F(0x7ad956f2, 0x2f6fbd72, 0x344a8432), 0xd6d117b4, 0x7ad956f2, 0x0, 0xf57c0faf, 7) == 0xc73741ef
    ensures Turn(F(0xc73741ef, 0x7ad956f2, 0x2f6fbd72), 0x344a8432, 0xc73741ef, 0x0, 0x4787c62a, 12) == 0x8bac3051
    ensures Turn(F(0x8bac3051, 0xc73741ef, 0x7ad956f2), 0x2f6fbd72, 0x8bac3051, 0x0, 0xa8304613, 17) == 0x207dc67b
    ensures Turn(F(0x207dc67b, 0x8bac3051, 0xc73741ef), 0x7ad956f2, 0x207dc67b, 0x0, 0xfd469501, 22) == 0x928d99f6
    ensures Turn(F(0x928d99f6, 0x207dc67b, 0x8bac3051), 0xc73741ef, 0x928d99f6, 0x0, 0x698098d8, 7) == 0x854b3712
    ensures Turn(F(0x854b3712, 0x928d99f6, 0x207dc67b), 0x8bac3051, 0x854b3712, 0x0, 0x8b44f7af, 12) == 0x74e2f284
    ensures Turn(F(0x74e2f284, 0x854b3712, 0x928d99f6), 0x207dc67b, 0x74e2f284, 0x0, 0xffff5bb1, 17) == 0x3020401c
    ensures Turn(F(0x3020401c, 0x74e2f284, 0x854b3712), 0x928d99f6, 0x3020401c, 0x0, 0x895cd7be, 22) == 0x5ed49596
    ensures Turn(F(0x5ed49596, 0x3020401c, 0x74e2f284), 0x854b3712, 0x5ed49596, 0x0, 0x6b901122, 7) == 0xdda9b9a6
    ensures Turn(F(0xdda9b9a6, 0x5ed49596, 0x3020401c), 0x74e2f284, 0xdda9b9a6, 0x0, 0xfd987193, 12) == 0xa1051895
    ensures Turn(F(0xa1051895, 0xdda9b9a6, 0x5ed49596), 0x3020401c, 0xa1051895, 0x18, 0xa679438e, 17) == 0xe396856b
    ensures Turn(F(0xe396856b, 0xa1051895, 0xdda9b9a6), 0x5ed49596, 0xe396856b, 0x0, 0x49b40821, 22) == 0x72aff2e0
  {
  }

  lemma AbcRound1()
    ensures |ABC_WORDS| == 16 && Steps(State(0x67452301, 0xefcdab89, 0x98badcfe, 0x10325476), ABC_WORDS, 0, 16) ==
            State(0xdda9b9a6, 0x72aff2e0, 0xe396856b, 0xa1051895)
  {
    hide *;
    var s, x := State(0x67452301, 0xefcdab89, 0x98badcfe, 0x10325476), ABC_WORDS;
    AbcWordsAre();
    Table1();
    Constants1();
    AbcTurns1();
    StepsNone(s, x, 0);
    NextState(s, x, 0, 0, State(0x67452301, 0xefcdab89, 0x98badcfe, 0x10325476), 0xd6d117b4);
    NextState(s, x, 0, 1, State(0x10325476, 0xd6d117b4, 0xefcdab89, 0x98badcfe), 0x344a8432);
    NextState(s, x, 0, 2, State(0x98badcfe, 0x344a8432, 0xd6d117b4, 0xefcdab89), 0x2f6fbd72);
    NextState(s, x, 0, 3, State(0xefcdab89, 0x2f6fbd72, 0x344a8432, 0xd6d117b4), 0x7ad956f2);
    NextState(s, x, 0, 4, State(0xd6d117b4, 0x7ad956f2, 0x2f6fbd72, 0x344a8432), 0xc73741ef);
    NextState(s, x, 0, 5, State(0x344a8432, 0xc73741ef, 0x7ad956f2, 0x2f6fbd72), 0x8bac3051);
    NextState(s, x, 0, 6, State(0x2f6fbd72, 0x8bac3051, 0xc73741ef, 0x7ad956f2), 0x207dc67b);
    NextState(s, x, 0, 7, State(0x7ad956f2, 0x207dc67b, 0x8bac3051, 0xc73741ef), 0x928d99f6);
    NextState(s, x, 0, 8, State(0xc73741ef, 0x928d99f6, 0x207dc67b, 0x8bac3051), 0x854b3712);
    NextState(s, x, 0, 9, State(0x8bac3051, 0x854b3712, 0x928d99f6, 0x207dc67b), 0x74e2f284);
    NextState(s, x, 0, 10, State(0x207dc67b, 0x74e2f284, 0x854b3712, 0x928d99f6), 0x3020401c);
    NextState(s, x, 0, 11, State(0x928d99f6, 0x3020401c, 0x74e2f284, 0x854b3712), 0x5ed49596);
    NextState(s, x, 0, 12, State(0x854b3712, 0x5ed49596, 0x3020401c, 0x74e2f284), 0xdda9b9a6);
    NextState(s, x, 0, 13, State(0x74e2f284, 0xdda9b9a6, 0x5ed49596, 0x3020401c), 0xa1051895);
    NextState(s, x, 0, 14, State(0x3020401c, 0xa1051895, 0xdda9b9a6, 0x5ed49596), 0xe396856b);
    NextState(s, x, 0, 15, State(0x5ed49596, 0xe396856b, 0xa1051895, 0xdda9b9a6), 0x72aff2e0);
  }

  lemma AbcTurns2()
    ensures Turn(G(0x72aff2e0, 0xe396856b, 0xa1051895), 0xdda9b9a6, 0x72aff2e0, 0x0, 0xf61e2562, 5) == 0x3e9e9126
    ensures Turn(G(0x3e9e9126, 0x72aff2e0, 0xe396856b), 0xa1051895, 0x3e9e9126, 0x0, 0xc040b340, 9) == 0x4a1d804e
    ensures Turn(G(0x4a1d804e, 0x3e9e9126, 0x72aff2e0), 0xe396856b, 0x4a1d804e, 0x0, 0x265e5a51, 14) == 0xe25e1652
    ensures Turn(G(0xe25e1652, 0x4a1d804e, 0x3e9e9126), 0x72aff2e0, 0xe25e1652, 0x80636261, 0xe9b6c7aa, 20) == 0xb5b204e4
    ensures Turn(G(0xb5b204e4, 0xe25e1652, 0x4a1d804e), 0x3e9e9126, 0xb5b204e4, 0x0, 0xd62f105d, 5) == 0x59a8ffda
    ensures Turn(G(0x59a8ffda, 0xb5b204e4, 0xe25e1652), 0x4a1d804e, 0x59a8ffda, 0x0, 0x02441453, 9) == 0x6d002f1e
    ensures Turn(G(0x6d002f1e, 0x59a8ffda, 0xb5b204e4), 0xe25e1652, 0x6d002f1e, 0x0, 0xd8a1e681, 14) == 0xabfc7920
    ensures Turn(G(0xabfc7920, 0x6d002f1e, 0x59a8ffda), 0xb5b204e4, 0xabfc7920, 0x0, 0xe7d3fbc8, 20) == 0x47092c07
    ensures Turn(G(0x47092c07, 0xabfc7920, 0x6d002f1e), 0x59a8ffda, 0x47092c07, 0x0, 0x21e1cde6, 5) == 0xb7f268cf
    ensures Turn(G(0xb7f268cf, 0x47092c07, 0xabfc7920), 0x6d002f1e, 0xb7f268cf, 0x18, 0xc33707d6, 9) == 0x09388eff
    ensures Turn(G(0x09388eff, 0xb7f268cf, 0x47092c07), 0xabfc7920, 0x09388eff, 0x0, 0xf4d50d87, 14) == 0xfe1623b1
    ensures Turn(G(0xfe1623b1, 0x09388eff, 0xb7f268cf), 0x47092c07, 0xfe1623b1, 0x0, 0x455a14ed, 20) == 0x786acb8f
    ensures Turn(G(0x786acb8f, 0xfe1623b1, 0x09388eff), 0xb7f268cf, 0x786acb8f, 0x0, 0xa9e3e905, 5) == 0x790a77fb
    ensures Turn(G(0x790a77fb, 0x786acb8f, 0xfe1623b1), 0x09388eff, 0x790a77fb, 0x0, 0xfcefa3f8, 9) == 0x9f47e4f8
    ensures Turn(G(0x9f47e4f8, 0x790a77fb, 0x786acb8f), 0xfe1623b1, 0x9f47e4f8, 0x0, 0x676f02d9, 14) == 0xa62884aa
    ensures Turn(G(0xa62884aa, 0x9f47e4f8, 0x790a77fb), 0x786acb8f, 0xa62884aa, 0x0, 0x8d2a4c8a, 20) == 0x726342d3
  {
  }

  lemma AbcRound2()
    ensures |ABC_WORDS| == 16 && Steps(State(0xdda9b9a6, 0x72aff2e0, 0xe396856b, 0xa1051895), ABC_WORDS, 16, 32) ==
            State(0x790a77fb, 0x726342d3, 0xa62884aa, 0x9f47e4f8)
  {
    hide *;
    var s, x := State(0xdda9b9a6, 0x72aff2e0, 0xe396856b, 0xa1051895), ABC_WORDS;
    AbcWordsAre();
    Table2();
    Constants2();
    AbcTurns2();
    StepsNone(s, x, 16);
    NextState(s, x, 16, 16, State(0xdda9b9a6, 0x72aff2e0, 0xe396856b, 0xa1051895), 0x3e9e9126);
    NextState(s, x, 16, 17, State(0xa1051895, 0x3e9e9126, 0x72aff2e0, 0xe396856b), 0x4a1d804e);
    NextState(s, x, 16, 18, State(0xe396856b, 0x4a1d804e, 0x3e9e9126, 0x72aff2e0), 0xe25e1652);
    NextState(s, x, 16, 19, State(0x72aff2e0, 0xe25e1652, 0x4a1d804e, 0x3e9e9126), 0xb5b204e4);
    NextState(s, x, 16, 20, State(0x3e9e9126, 0xb5b204e4, 0xe25e1652, 0x4a1d804e), 0x59a8ffda);
    NextState(s, x, 16, 21, State(0x4a1d804e, 0x59a8ffda, 0xb5b204e4, 0xe25e1652), 0x6d002f1e);
    NextState(s, x, 16, 22, State(0xe25e1652, 0x6d002f1e, 0x59a8ffda, 0xb5b204e4), 0xabfc7920);
    NextState(s, x, 16, 23, State(0xb5b204e4, 0xabfc7920, 0x6d002f1e, 0x59a8ffda), 0x47092c07);
    NextState(s, x, 16, 24, State(0x59a8ffda, 0x47092c07, 0xabfc7920, 0x6d002f1e), 0xb7f268cf);
    NextState(s, x, 16, 25, State(0x6d002f1e, 0xb7f268cf, 0x47092c07, 0xabfc7920), 0x09388eff);
    NextState(s, x, 16, 26, State(0xabfc7920, 0x09388eff, 0xb7f268cf, 0x47092c07), 0xfe1623b1);
    NextState(s, x, 16, 27, State(0x47092c07, 0xfe1623b1, 0x09388eff, 0xb7f268cf), 0x786acb8f);
    NextState(s, x, 16, 28, State(0xb7f268cf, 0x786acb8f, 0xfe1623b1, 0x09388eff), 0x790a77fb);
    NextState(s, x, 16, 29, State(0x09388eff, 0x790a77fb, 0x786acb8f, 0xfe1623b1), 0x9f47e4f8);
    NextState(s, x, 16, 30, State(0xfe1623b1, 0x9f47e4f8, 0x790a77fb, 0x786acb8f), 0xa62884aa);
    NextState(s, x, 16, 31, State(0x786acb8f, 0xa62884aa, 0x9f47e4f8, 0x790a77fb), 0x726342d3);
  }

  lemma AbcTurns3()
    ensures Turn(H(0x726342d3, 0xa62884aa, 0x9f47e4f8), 0x790a77fb, 0x726342d3, 0x0, 0xfffa3942, 4) == 0xb3707ebf
    ensures Turn(H(0xb3707ebf, 0x726342d3, 0xa62884aa), 0x9f47e4f8, 0xb3707ebf, 0x0, 0x8771f681, 11) == 0x60127b2e
    ensures Turn(H(0x60127b2e, 0xb3707ebf, 0x726342d3), 0xa62884aa, 0x60127b2e, 0x0, 0x6d9d6122, 16) == 0x8d212ff5
    ensures Turn(H(0x8d212ff5, 0x60127b2e, 0xb3707ebf), 0x726342d3, 0x8d212ff5, 0x18, 0xfde5380c, 23) == 0x3b0875c7
    ensures Turn(H(0x3b0875c7, 0x8d212ff5, 0x60127b2e), 0xb3707ebf, 0x3b0875c7, 0x0, 0xa4beea44, 4) == 0x21b117b9
    ensures Turn(H(0x21b117b9, 0x3b0875c7, 0x8d212ff5), 0x60127b2e, 0x21b117b9, 0x0, 0x4bdecfa9, 11) == 0x6e7429d5
    ensures Turn(H(0x6e7429d5, 0x21b117b9, 0x3b0875c7), 0x8d212ff5, 0x6e7429d5, 0x0, 0xf6bb4b60, 16) == 0x3575227e
    ensures Turn(H(0x3575227e, 0x6e7429d5, 0x21b117b9), 0x3b0875c7, 0x3575227e, 0x0, 0xbebfbc70, 23) == 0x5a2f5ea5
    ensures Turn(H(0x5a2f5ea5, 0x3575227e, 0x6e7429d5), 0x21b117b9, 0x5a2f5ea5, 0x0, 0x289b7ec6, 4) == 0x11de1779
    ensures Turn(H(0x11de1779, 0x5a2f5ea5, 0x3575227e), 0x6e7429d5, 0x11de1779, 0x80636261, 0xeaa127fa, 11) == 0xfadcaa38
    ensures Turn(H(0xfadcaa38, 0x11de1779, 0x5a2f5ea5), 0x3575227e, 0xfadcaa38, 0x0, 0xd4ef3085, 16) == 0x31c465ca
    ensures Turn(H(0x31c465ca, 0xfadcaa38, 0x11de1779), 0x5a2f5ea5, 0x31c465ca, 0x0, 0x04881d05, 23) == 0x4c6124f4
    ensures Turn(H(0x4c6124f4, 0x31c465ca, 0xfadcaa38), 0x11de1779, 0x4c6124f4, 0x0, 0xd9d4d039, 4) == 0x7f2e507b
    ensures Turn(H(0x7f2e507b, 0x4c6124f4, 0x31c465ca), 0xfadcaa38, 0x7f2e507b, 0x0, 0xe6db99e5, 11) == 0x99d9679d
    ensures Turn(H(0x99d9679d, 0x7f2e507b, 0x4c6124f4), 0x31c465ca, 0x99d9679d, 0x0, 0x1fa27cf8, 16) == 0x8fae6399
    ensures Turn(H(0x8fae6399, 0x99d9679d, 0x7f2e507b), 0x4c6124f4, 0x8fae6399, 0x0, 0xc4ac5665, 23) == 0x7beb9700
  {
  }

  lemma AbcRound3()
    ensures |ABC_WORDS| == 16 && Steps(State(0x790a77fb, 0x726342d3, 0xa62884aa, 0x9f47e4f8), ABC_WORDS, 32, 48) ==
            State(0x7f2e507b, 0x7beb9700, 0x8fae6399, 0x99d9679d)
  {
    hide *;
    var s, x := State(0x790a77fb, 0x726342d3, 0xa62884aa, 0x9f47e4f8), ABC_WORDS;
    AbcWordsAre();
    Table3();
    Constants3();
    AbcTurns3();
    StepsNone(s, x, 32);
    NextState(s, x, 32, 32, State(0x790a77fb, 0x726342d3, 0xa62884aa, 0x9f47e4f8), 0xb3707ebf);
    NextState(s, x, 32, 33, State(0x9f47e4f8, 0xb3707ebf, 0x726342d3, 0xa62884aa), 0x60127b2e);
    NextState(s, x, 32, 34, State(0xa62884aa, 0x60127b2e, 0xb3707ebf, 0x726342d3), 0x8d212ff5);
    NextState(s, x, 32, 35, State(0x726342d3, 0x8d212ff5, 0x60127b2e, 0xb3707ebf), 0x3b0875c7);
    NextState(s, x, 32, 36, State(0xb3707ebf, 0x3b0875c7, 0x8d212ff5, 0x60127b2e), 0x21b117b9);
    NextState(s, x, 32, 37, State(0x60127b2e, 0x21b117b9, 0x3b0875c7, 0x8d212ff5), 0x6e7429d5);
    NextState(s, x, 32, 38, State(0x8d212ff5, 0x6e7429d5, 0x21b117b9, 0x3b0875c7), 0x3575227e);
    NextState(s, x, 32, 39, State(0x3b0875c7, 0x3575227e, 0x6e7429d5, 0x21b117b9), 0x5a2f5ea5);
    NextState(s, x, 32, 40, State(0x21b117b9, 0x5a2f5ea5, 0x3575227e, 0x6e7429d5), 0x11de1779);
    NextState(s, x, 32, 41, State(0x6e7429d5, 0x11de1779, 0x5a2f5ea5, 0x3575227e), 0xfadcaa38);
    NextState(s, x, 32, 42, State(0x3575227e, 0xfadcaa38, 0x11de1779, 0x5a2f5ea5), 0x31c465ca);
    NextState(s, x, 32, 43, State(0x5a2f5ea5, 0x31c465ca, 0xfadcaa38, 0x11de1779), 0x4c6124f4);
    NextState(s, x, 32, 44, State(0x11de1779, 0x4c6124f4, 0x31c465ca, 0xfadcaa38), 0x7f2e507b);
    NextState(s, x, 32, 45, State(0xfadcaa38, 0x7f2e507b, 0x4c6124f4, 0x31c465ca), 0x99d9679d);
    NextState(s, x, 32, 46, State(0x31c465ca, 0x99d9679d, 0x7f2e507b, 0x4c6124f4), 0x8fae6399);
    NextState(s, x, 32, 47, State(0x4c6124f4, 0x8fae6399, 0x99d9679d, 0x7f2e507b), 0x7beb9700);
  }

  lemma AbcTurns4()
    ensures Turn(I(0x7beb9700, 0x8fae6399, 0x99d9679d), 0x7f2e507b, 0x7beb9700, 0x80636261, 0xf4292244, 6) == 0x7b201df8
    ensures Turn(I(0x7b201df8, 0x7beb9700, 0x8fae6399), 0x99d9679d, 0x7b201df8, 0x0, 0x432aff97, 10) == 0xf4e8e96e
    ensures Turn(I(0xf4e8e96e, 0x7b201df8, 0x7beb9700), 0x8fae6399, 0xf4e8e96e, 0x18, 0xab9423a7, 15) == 0xb298cefd
    ensures Turn(I(0xb298cefd, 0xf4e8e96e, 0x7b201df8), 0x7beb9700, 0xb298cefd, 0x0, 0xfc93a039, 21) == 0x8bf025c4
    ensures Turn(I(0x8bf025c4, 0xb298cefd, 0xf4e8e96e), 0x7b201df8, 0x8bf025c4, 0x0, 0x655b59c3, 6) == 0x06cc5e8a
    ensures Turn(I(0x06cc5e8a, 0x8bf025c4, 0xb298cefd), 0xf4e8e96e, 0x06cc5e8a, 0x0, 0x8f0ccc92, 10) == 0x5b0d97aa
    ensures Turn(I(0x5b0d97aa, 0x06cc5e8a, 0x8bf025c4), 0xb298cefd, 0x5b0d97aa, 0x0, 0xffeff47d, 15) == 0x7d632dd0
    ensures Turn(I(0x7d632dd0, 0x5b0d97aa, 0x06cc5e8a), 0x8bf025c4, 0x7d632dd0, 0x0, 0x85845dd1, 21) == 0x3bfa2c27
    ensures Turn(I(0x3bfa2c27, 0x7d632dd0, 0x5b0d97aa), 0x06cc5e8a, 0x3bfa2c27, 0x0, 0x6fa87e4f, 6) == 0x7f81cc35
    ensures Turn(I(0x7f81cc35, 0x3bfa2c27, 0x7d632dd0), 0x5b0d97aa, 0x7f81cc35, 0x0, 0xfe2ce6e0, 10) == 0x094454ab
    ensures Turn(I(0x094454ab, 0x7f81cc35, 0x3bfa2c27), 0x7d632dd0, 0x094454ab, 0x0, 0xa3014314, 15) == 0x4f9dbe3f
    ensures Turn(I(0x4f9dbe3f, 0x094454ab, 0x7f81cc35), 0x3bfa2c27, 0x4f9dbe3f, 0x0, 0x4e0811a1, 21) == 0x7327d604
    ensures Turn(I(0x7327d604, 0x4f9dbe3f, 0x094454ab), 0x7f81cc35, 0x7327d604, 0x0, 0xf7537e82, 6) == 0x310ade8f
    ensures Turn(I(0x310ade8f, 0x7327d604, 0x4f9dbe3f), 0x094454ab, 0x310ade8f, 0x0, 0xbd3af235, 10) == 0x624d8cb2
    ensures Turn(I(0x624d8cb2, 0x310ade8f, 0x7327d604), 0x4f9dbe3f, 0x624d8cb2, 0x0, 0x2ad7d2bb, 15) == 0xe484b9d8
    ensures Turn(I(0xe484b9d8, 0x624d8cb2, 0x310ade8f), 0x7327d604, 0xe484b9d8, 0x0, 0xeb86d391, 21) == 0xc08226b3
  {
  }

  lemma AbcRound4()
    ensures |ABC_WORDS| == 16 && Steps(State(0x7f2e507b, 0x7beb9700, 0x8fae6399, 0x99d9679d), ABC_WORDS, 48, 64) ==
            State(0x310ade8f, 0xc08226b3, 0xe484b9d8, 0x624d8cb2)
  {
    hide *;
    var s, x := State(0x7f2e507b, 0x7beb9700, 0x8fae6399, 0x99d9679d), ABC_WORDS;
    AbcWordsAre();
    Table4();
    Constants4();
    AbcTurns4();
    StepsNone(s, x, 48);
    NextState(s, x, 48, 48, State(0x7f2e507b, 0x7beb9700, 0x8fae6399, 0x99d9679d), 0x7b201df8);
    NextState(s, x, 48, 49, State(0x99d9679d, 0x7b201df8, 0x7beb9700, 0x8fae6399), 0xf4e8e96e);
    NextState(s, x, 48, 50, State(0x8fae6399, 0xf4e8e96e, 0x7b201df8, 0x7beb9700), 0xb298cefd);
    NextState(s, x, 48, 51, State(0x7beb9700, 0xb298cefd, 0xf4e8e96e, 0x7b201df8), 0x8bf025c4);
    NextState(s, x, 48, 52, State(0x7b201df8, 0x8bf025c4, 0xb298cefd, 0xf4e8e96e), 0x06cc5e8a);
    NextState(s, x, 48, 53, State(0xf4e8e96e, 0x06cc5e8a, 0x8bf025c4, 0xb298cefd), 0x5b0d97aa);
    NextState(s, x, 48, 54, State(0xb298cefd, 0x5b0d97aa, 0x06cc5e8a, 0x8bf025c4), 0x7d632dd0);
    NextState(s, x, 48, 55, State(0x8bf025c4, 0x7d632dd0, 0x5b0d97aa, 0x06cc5e8a), 0x3bfa2c27);
    NextState(s, x, 48, 56, State(0x06cc5e8a, 0x3bfa2c27, 0x7d632dd0, 0x5b0d97aa), 0x7f81cc35);
    NextState(s, x, 48, 57, State(0x5b0d97aa, 0x7f81cc35, 0x3bfa2c27, 0x7d632dd0), 0x094454ab);
    NextState(s, x, 48, 58, State(0x7d632dd0, 0x094454ab, 0x7f81cc35, 0x3bfa2c27), 0x4f9dbe3f);
    NextState(s, x, 48, 59, State(0x3bfa2c27, 0x4f9dbe3f, 0x094454ab, 0x7f81cc35), 0x7327d604);
    NextState(s, x, 48, 60, State(0x7f81cc35, 0x7327d604, 0x4f9dbe3f, 0x094454ab), 0x310ade8f);
    NextState(s, x, 48, 61, State(0x094454ab, 0x310ade8f, 0x7327d604, 0x4f9dbe3f), 0x624d8cb2);
    NextState(s, x, 48, 62, State(0x4f9dbe3f, 0x624d8cb2, 0x310ade8f, 0x7327d604), 0xe484b9d8);
    NextState(s, x, 48, 63, State(0x7327d604, 0xe484b9d8, 0x624d8cb2, 0x310ade8f), 0xc08226b3);
  }

  lemma AbcSteps()
    ensures |ABC_WORDS| == 16
    ensures Steps(INIT, ABC_WORDS, 0, 64) == State(0x310ade8f, 0xc08226b3, 0xe484b9d8, 0x624d8cb2)
  {
    hide *;
    var x := ABC_WORDS;
    InitIs();
    AbcWordsAre();
    AbcRound1();
    AbcRound2();
    AbcRound3();
    AbcRound4();
    StepsJoin(INIT, x, 16, 32);
    StepsJoin(INIT, x, 32, 48);
    StepsJoin(INIT, x, 48, 64);
  }

  /** The only block: its bytes, and its words. */
  lemma AbcBlock() returns (q: seq<byte>)
    ensures var message: seq<byte> := [0x61, 0x62, 0x63]; q == message + Padding(|message|)
    ensures |q| == 64 && q[0] == 0x61 && q[1] == 0x62 && q[2] == 0x63 && q[3] == 0x80 && q[56] == 0x18
    ensures forall i :: 0 <= i < 64 && i != 0 && i != 1 && i != 2 && i != 3 && i != 56 ==> q[i] == 0
  {
    var message: seq<byte> := [0x61, 0x62, 0x63];
    LengthBytes();
    PaddingBytes(3, Little(24, 8));
    hide *;
    var p, len := Padding(3), Little(24, 8);
    q := message + p;
    forall i | 0 <= i < 8 ensures q[56 + i] == len[i] {
      assert p[53..][i] == len[i];
    }
  }

  lemma AbcWords(q: seq<byte>)
    requires |q| == 64 && q[0] == 0x61 && q[1] == 0x62 && q[2] == 0x63 && q[3] == 0x80 && q[56] == 0x18
    requires forall i :: 0 <= i < 64 && i != 0 && i != 1 && i != 2 && i != 3 && i != 56 ==> q[i] == 0
    ensures Words(q) == ABC_WORDS
  {
    hide WordAt;
    WordOf(q, 0, 0x61, 0x62, 0x63, 0x80, 0x80636261);
    WordOf(q, 14, 0x18, 0x00, 0x00, 0x00, 0x18);
    forall k | 0 <= k < 16 && k != 0 && k != 14 ensures WordAt(q, k) == 0 {
      ZeroWord(q, k);
    }
  }

  lemma AbcAdd()
    ensures Add(State(0x310ade8f, 0xc08226b3, 0xe484b9d8, 0x624d8cb2), INIT) ==
            State(0x98500190, 0xb04fd23c, 0x7d3f96d6, 0x727fe128)
    ensures Output(State(0x98500190, 0xb04fd23c, 0x7d3f96d6, 0x727fe128)) ==
            [0x90, 0x01, 0x50, 0x98, 0x3c, 0xd2, 0x4f, 0xb0, 0xd6, 0x96, 0x3f, 0x7d, 0x28, 0xe1, 0x7f, 0x72]
  {
  }

  /** MD5 ("abc") = 900150983cd24fb0d6963f7d28e17f72 */
  lemma AbcDigest()
    ensures Sum([0x61, 0x62, 0x63]) ==
            [0x90, 0x01, 0x50, 0x98, 0x3c, 0xd2, 0x4f, 0xb0, 0xd6, 0x96, 0x3f, 0x7d, 0x28, 0xe1, 0x7f, 0x72]
  {
    hide *;
    var message: seq<byte> := [0x61, 0x62, 0x63];
    var block := AbcBlock();
    AbcWords(block);
    AbcSteps();
    AbcAdd();
    OneBlock(message, block);
  }

  // ---------- Padding and the single block ----------

  lemma {:induction false} BitsZero(k: nat)
    ensures Bits(0, k) == 0
  {
    if k > 0 {
      BitsZero(k - 1);
    }
  }

  lemma {:induction false} LittleZero(k: nat)
    ensures Little(0, k) == seq(k, _ => 0)
  {
    if k > 0 {
      BitsZero(8);
      LittleZero(k - 1);
    }
  }

  /** The bits of 24, least significant first: 0, 0, 0, 1, 1. */
  lemma Bits24()
    ensures Bits(24, 8) == 24
  {
    BitsZero(3);
    assert Bits(1, 4) == 1;
    assert Bits(3, 5) == 3;
    assert Bits(6, 6) == 6;
    assert Bits(12, 7) == 12;
  }

  lemma LengthBytes()
    ensures Little(0, 8) == [0, 0, 0, 0, 0, 0, 0, 0] && Little(24, 8) == [24, 0, 0, 0, 0, 0, 0, 0]
  {
    LittleZero(8);
    LittleZero(7);
    Bits24();
    assert Little(24, 8) == [ByteOf(24)] + Little(0, 7);
  }

  lemma InitIs()
    ensures INIT == State(0x67452301, 0xefcdab89, 0x98badcfe, 0x10325476)
  {
  }

  lemma WordOf(q: seq<byte>, k: nat, b0: byte, b1: byte, b2: byte, b3: byte, w: bv32)
    requires |q| == 64 && k < 16 && q[4 * k] == b0 && q[4 * k + 1] == b1 && q[4 * k + 2] == b2 && q[4 * k + 3] == b3
    requires w == (b0 as bv32) | ((b1 as bv32) << 8) | ((b2 as bv32) << 16) | ((b3 as bv32) << 24)
    ensures WordAt(q, k) == w
  {
  }

  lemma ZeroWord(q: seq<byte>, k: nat)
    requires |q| == 64 && k < 16 && q[4 * k] == 0 && q[4 * k + 1] == 0 && q[4 * k + 2] == 0 && q[4 * k + 3] == 0
    ensures WordAt(q, k) == 0
  {
    assert (0 as bv8) as bv32 == 0;
  }

  /** The padding of a short message, byte by byte. */
  lemma PaddingBytes(n: nat, len: seq<byte>)
    requires n < 56 && len == Little(n * 8, 8)
    ensures var p := Padding(n);
            && |p| == 64 - n && p[0] == 0x80 && p[56 - n..] == len
            && forall i :: 1 <= i < 56 - n ==> p[i] == 0
  {
    hide Little;
    var p, zeros := Padding(n), Zeros(55 - n);
    assert (55 - n) % 64 == 55 - n && n * 8 % TWO64 == n * 8;
    assert p == [0x80] + zeros + len;
    assert forall i :: 0 <= i < 55 - n ==> zeros[i] == 0;
  }

  lemma OneBlock(message: seq<byte>, block: seq<byte>)
    requires message + Padding(|message|) == block && |block| == 64
    ensures Sum(message) == Output(Add(Steps(INIT, Words(block), 0, 64), INIT))
  {
    hide Padding, Steps, Words, Output, Add;
    assert block[..64] == block && block[64..] == [];
    assert Absorb(Compress(INIT, block), []) == Compress(INIT, block);
  }
}
