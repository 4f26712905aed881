/**
 * A known answer: the digest of the lower-case alphabet, from the test suite in appendix A.5 of
 * RFC 1321. It fixes every table, constant and operation at once.
 */
module Md5Known {
  import opened Md5Steps
  import opened Md5Words
  import opened Md5Stream
  import opened Md5Facts

  /** The four registers at the start, then the register that each step makes. */
  function Made(i: nat): bv32 {
    if i < 36 then
      if i < 20 then
        if i < 12 then
          if i < 8 then
            if i < 4 then
              if i == 0 then 0x67452301 else if i == 1 then 0x10325476 else if i == 2 then 0x98badcfe else 0xefcdab89
            else
              if i == 4 then 0xd6d117a6 else if i == 5 then 0xaab1aaaa else if i == 6 then 0x227d8cf1 else 0x4503b812
          else
            if i == 8 then 0xfe15f787 else if i == 9 then 0xa811b278 else if i == 10 then 0xb71122fc else 0xda9bbb0d
        else
          if i < 16 then
            if i == 12 then 0xae752899 else if i == 13 then 0x2bbe757f else if i == 14 then 0x7d4bd80b else 0x56cfa5cb
          else
            if i == 16 then 0x1754a316 else if i == 17 then 0x85567d90 else if i == 18 then 0xdf74d5 else 0x608d6b7e
      else
        if i < 28 then
          if i < 24 then
            if i == 20 then 0x2d8071cc else if i == 21 then 0x5dcee119 else if i == 22 then 0xedfe7e4b else 0x4c2145b3
          else
            if i == 24 then 0x570c43e0 else if i == 25 then 0x977efd2a else if i == 26 then 0xc28ab49d else 0xc9f162d4
        else
          if i < 32 then
            if i == 28 then 0x25bfae3b else if i == 29 then 0x89980104 else if i == 30 then 0xf8c8365f else 0xe6d3b398
          else
            if i == 32 then 0xf54d8710 else if i == 33 then 0x927b72e2 else if i == 34 then 0x2e69afc7 else 0xaeb35766
    else
      if i < 52 then
        if i < 44 then
          if i < 40 then
            if i == 36 then 0xb4bf680e else if i == 37 then 0x4c8ffa80 else if i == 38 then 0x2361ed0a else 0x6a5e211
          else
            if i == 40 then 0xb9c0c733 else if i == 41 then 0xf1e6dc7a else if i == 42 then 0x23a9451b else 0x8d41bf99
        else
          if i < 48 then
            if i == 44 then 0xa3e88ead else if i == 45 then 0x2c0b11c else if i == 46 then 0x66f6468d else 0x90a35af5
          else
            if i == 48 then 0xb5d41f9c else if i == 49 then 0xa04b4904 else if i == 50 then 0x703d54d8 else 0x71d10367
      else
        if i < 60 then
          if i < 56 then
            if i == 52 then 0xfc32dd6e else if i == 53 then 0x65456b34 else if i == 54 then 0xb35602cb else 0x33edb197
          else
            if i == 56 then 0xc1e942f1 else if i == 57 then 0xd9bb987c else if i == 58 then 0x23a68048 else 0x83877d1b
        else
          if i < 64 then
            if i == 60 then 0x77c208 else if i == 61 then 0x847fc2e7 else if i == 62 then 0xa3e2247f else 0x5e6bc930
          else
            if i == 64 then 0x708ed9c2 else if i == 65 then 0x2baf1354 else if i == 66 then 0xd38f1e7f else 0x1116e6d8
  }

  /** The sum that each step rotates. */
  function Rotand(i: nat): bv32 {
    if i < 32 then
      if i < 16 then
        if i < 8 then
          if i < 4 then
            if i == 0 then 0x3bce06d8 else if i == 1 then 0x304d3e09 else if i == 2 then 0xf123bbe5 else 0x18ac848a
          else
            if i == 4 then 0xeb72247e else if i == 5 then 0xaf1a9fbb else if i == 6 then 0xb842077f else 0x2a60448e
        else
          if i < 12 then
            if i == 8 then 0x19a7b2db else if i == 9 then 0xce67d494 else if i == 10 then 0xb14628c6 else 0xf370366
          else
            if i == 12 then 0x978109fa else if i == 13 then 0xa7a6e01d else if i == 14 then 0x7ba2bdc4 else 0xb7daa57e
      else
        if i < 24 then
          if i < 20 then
            if i == 16 then 0x76679832 else if i == 17 then 0xa6982737 else if i == 18 then 0x74ca40be else 0x2c7685e2
          else
            if i == 20 then 0x685757f1 else if i == 21 then 0xa520395c else if i == 22 then 0xddccac2e else 0x6ae37076
        else
          if i < 28 then
            if i == 24 then 0x3ade725b else if i == 25 then 0x64b1ec29 else if i == 26 then 0xd56dbcc0 else 0xb7d39ee0
          else
            if i == 28 then 0xc073ce9b else if i == 29 then 0xe94e96f5 else if i == 30 then 0xf3966fb8 else 0x9a79f804
    else
      if i < 48 then
        if i < 40 then
          if i < 36 then
            if i == 32 then 0x8060c10a else if i == 33 then 0x4e52fa12 else if i == 34 then 0xf28ad6d1 else 0x87ea0fc6
          else
            if i == 36 then 0x2b31ae52 else if i == 37 then 0xa8e704c2 else if i == 38 then 0x68a131c2 else 0x30f4fcd3
        else
          if i < 44 then
            if i == 40 then 0x416a6cf1 else if i == 41 then 0x4debdb04 else if i == 42 then 0x95716435 else 0x5a28d053
          else
            if i == 44 then 0x72530c4a else if i == 45 then 0x2d1d4ee5 else if i == 46 then 0xbd4cff2 else 0x275d1e03
      else
        if i < 56 then
          if i < 52 then
            if i == 48 then 0x1e298768 else if i == 49 then 0x719a44a3 else if i == 50 then 0x2f2e9c21 else 0xbd766404
          else
            if i == 52 then 0x6a37ee45 else if i == 53 then 0x62c5f495 else if i == 54 then 0xcf9893d5 else 0x7e69aff
        else
          if i < 60 then
            if i == 56 then 0xb5f3c113 else if i == 57 then 0x37e10200 else if i == 58 then 0xc3303ec4 else 0x4d258dd4
          else
            if i == 60 then 0x48488c42 else if i == 61 then 0x64aec80e else if i == 62 then 0x16574fc0 else 0x3e42c9ec
  }

  /** The padded message as words. */
  function Block(): seq<Word> {
    [0x64636261, 0x68676665, 0x6c6b6a69, 0x706f6e6d, 0x74737271, 0x78777675, 0x807a79, 0x0,
     0x0, 0x0, 0x0, 0x0, 0x0, 0x0, 0xd0, 0x0]
  }

  /** A step, part by part: u is the sum that is rotated and r the register it makes. */
  predicate Fits(q: nat, a: bv32, b: bv32, c: bv32, d: bv32, x: Word, s: nat, t: Word, u: bv32, r: bv32) {
    Sums(q, a, b, c, d, x, t, u) && Turns(b, s, u, r)
  }

  predicate Sums(q: nat, a: bv32, b: bv32, c: bv32, d: bv32, x: Word, t: Word, u: bv32) {
    Value(u) == Add(Value(a), Add(Add(Value(MixBits(q, b, c, d)), x), t))
  }

  predicate Turns(b: bv32, s: nat, u: bv32, r: bv32) { Value(r) == Add(Value(RotateBits(u, s)), Value(b)) }

  predicate Works(i: nat)
    requires i < 64
  {
    Fits(i / 16, Made(i), Made(i + 3), Made(i + 2), Made(i + 1), Block()[WordRow(i / 4)[i % 4]],
         ShiftRow(i / 16)[i % 4], ConstantRow(i / 4)[i % 4], Rotand(i), Made(i + 4))
  }

  lemma Sum0()
    ensures Sums(0, 0x67452301, 0xefcdab89, 0x98badcfe, 0x10325476, 0x64636261, 0xd76aa478, 0x3bce06d8) {}
  lemma Turn0()
    ensures Turns(0xefcdab89, 7, 0x3bce06d8, 0xd6d117a6) { ShiftIs(0x3bce06d8, 7, 7, 25); }
  lemma Works0()
    ensures Works(0)
  {
    Sum0();
    Turn0();
    assert Made(0) == 0x67452301 && Made(1) == 0x10325476 && Made(2) == 0x98badcfe && Made(3) == 0xefcdab89;
    assert Rotand(0) == 0x3bce06d8 && Made(4) == 0xd6d117a6 && ConstantRow(0)[0] == 0xd76aa478;
    assert Block()[WordRow(0)[0]] == 0x64636261;
  }

  lemma Sum1()
    ensures Sums(0, 0x10325476, 0xd6d117a6, 0xefcdab89, 0x98badcfe, 0x68676665, 0xe8c7b756, 0x304d3e09) {}
  lemma Turn1()
    ensures Turns(0xd6d117a6, 12, 0x304d3e09, 0xaab1aaaa) { ShiftIs(0x304d3e09, 12, 12, 20); }
  lemma Works1()
    ensures Works(1)
  {
    Sum1();
    Turn1();
    assert Made(1) == 0x10325476 && Made(2) == 0x98badcfe && Made(3) == 0xefcdab89 && Made(4) == 0xd6d117a6;
    assert Rotand(1) == 0x304d3e09 && Made(5) == 0xaab1aaaa && ConstantRow(0)[1] == 0xe8c7b756;
    assert Block()[WordRow(0)[1]] == 0x68676665;
  }

  lemma Sum2()
    ensures Sums(0, 0x98badcfe, 0xaab1aaaa, 0xd6d117a6, 0xefcdab89, 0x6c6b6a69, 0x242070db, 0xf123bbe5) {}
  lemma Turn2()
    ensures Turns(0xaab1aaaa, 17, 0xf123bbe5, 0x227d8cf1) { ShiftIs(0xf123bbe5, 17, 17, 15); }
  lemma Works2()
    ensures Works(2)
  {
    Sum2();
    Turn2();
    assert Made(2) == 0x98badcfe && Made(3) == 0xefcdab89 && Made(4) == 0xd6d117a6 && Made(5) == 0xaab1aaaa;
    assert Rotand(2) == 0xf123bbe5 && Made(6) == 0x227d8cf1 && ConstantRow(0)[2] == 0x242070db;
    assert Block()[WordRow(0)[2]] == 0x6c6b6a69;
  }

  lemma Sum3()
    ensures Sums(0, 0xefcdab89, 0x227d8cf1, 0xaab1aaaa, 0xd6d117a6, 0x706f6e6d, 0xc1bdceee, 0x18ac848a) {}
  lemma Turn3()
    ensures Turns(0x227d8cf1, 22, 0x18ac848a, 0x4503b812) { ShiftIs(0x18ac848a, 22, 22, 10); }
  lemma Works3()
    ensures Works(3)
  {
    Sum3();
    Turn3();
    assert Made(3) == 0xefcdab89 && Made(4) == 0xd6d117a6 && Made(5) == 0xaab1aaaa && Made(6) == 0x227d8cf1;
    assert Rotand(3) == 0x18ac848a && Made(7) == 0x4503b812 && ConstantRow(0)[3] == 0xc1bdceee;
    assert Block()[WordRow(0)[3]] == 0x706f6e6d;
  }

  lemma Sum4()
    ensures Sums(0, 0xd6d117a6, 0x4503b812, 0x227d8cf1, 0xaab1aaaa, 0x74737271, 0xf57c0faf, 0xeb72247e) {}
  lemma Turn4()
    ensures Turns(0x4503b812, 7, 0xeb72247e, 0xfe15f787) { ShiftIs(0xeb72247e, 7, 7, 25); }
  lemma Works4()
    ensures Works(4)
  {
    Sum4();
    Turn4();
    assert Made(4) == 0xd6d117a6 && Made(5) == 0xaab1aaaa && Made(6) == 0x227d8cf1 && Made(7) == 0x4503b812;
    assert Rotand(4) == 0xeb72247e && Made(8) == 0xfe15f787 && ConstantRow(1)[0] == 0xf57c0faf;
    assert Block()[WordRow(1)[0]] == 0x74737271;
  }

  lemma Sum5()
    ensures Sums(0, 0xaab1aaaa, 0xfe15f787, 0x4503b812, 0x227d8cf1, 0x78777675, 0x4787c62a, 0xaf1a9fbb) {}
  lemma Turn5()
    ensures Turns(0xfe15f787, 12, 0xaf1a9fbb, 0xa811b278) { ShiftIs(0xaf1a9fbb, 12, 12, 20); }
  lemma Works5()
    ensures Works(5)
  {
    Sum5();
    Turn5();
    assert Made(5) == 0xaab1aaaa && Made(6) == 0x227d8cf1 && Made(7) == 0x4503b812 && Made(8) == 0xfe15f787;
    assert Rotand(5) == 0xaf1a9fbb && Made(9) == 0xa811b278 && ConstantRow(1)[1] == 0x4787c62a;
    assert Block()[WordRow(1)[1]] == 0x78777675;
  }

  lemma Sum6()
    ensures Sums(0, 0x227d8cf1, 0xa811b278, 0xfe15f787, 0x4503b812, 0x807a79, 0xa8304613, 0xb842077f) {}
  lemma Turn6()
    ensures Turns(0xa811b278, 17, 0xb842077f, 0xb71122fc) { ShiftIs(0xb842077f, 17, 17, 15); }
  lemma Works6()
    ensures Works(6)
  {
    Sum6();
    Turn6();
    assert Made(6) == 0x227d8cf1 && Made(7) == 0x4503b812 && Made(8) == 0xfe15f787 && Made(9) == 0xa811b278;
    assert Rotand(6) == 0xb842077f && Made(10) == 0xb71122fc && ConstantRow(1)[2] == 0xa8304613;
    assert Block()[WordRow(1)[2]] == 0x807a79;
  }

  lemma Sum7()
    ensures Sums(0, 0x4503b812, 0xb71122fc, 0xa811b278, 0xfe15f787, 0x0, 0xfd469501, 0x2a60448e) {}
  lemma Turn7()
    ensures Turns(0xb71122fc, 22, 0x2a60448e, 0xda9bbb0d) { ShiftIs(0x2a60448e, 22, 22, 10); }
  lemma Works7()
    ensures Works(7)
  {
    Sum7();
    Turn7();
    assert Made(7) == 0x4503b812 && Made(8) == 0xfe15f787 && Made(9) == 0xa811b278 && Made(10) == 0xb71122fc;
    assert Rotand(7) == 0x2a60448e && Made(11) == 0xda9bbb0d && ConstantRow(1)[3] == 0xfd469501;
    assert Block()[WordRow(1)[3]] == 0x0;
  }

  lemma Sum8()
    ensures Sums(0, 0xfe15f787, 0xda9bbb0d, 0xb71122fc, 0xa811b278, 0x0, 0x698098d8, 0x19a7b2db) {}
  lemma Turn8()
    ensures Turns(0xda9bbb0d, 7, 0x19a7b2db, 0xae752899) { ShiftIs(0x19a7b2db, 7, 7, 25); }
  lemma Works8()
    ensures Works(8)
  {
    Sum8();
    Turn8();
    assert Made(8) == 0xfe15f787 && Made(9) == 0xa811b278 && Made(10) == 0xb71122fc && Made(11) == 0xda9bbb0d;
    assert Rotand(8) == 0x19a7b2db && Made(12) == 0xae752899 && ConstantRow(2)[0] == 0x698098d8;
    assert Block()[WordRow(2)[0]] == 0x0;
  }

  lemma Sum9()
    ensures Sums(0, 0xa811b278, 0xae752899, 0xda9bbb0d, 0xb71122fc, 0x0, 0x8b44f7af, 0xce67d494) {}
  lemma Turn9()
    ensures Turns(0xae752899, 12, 0xce67d494, 0x2bbe757f) { ShiftIs(0xce67d494, 12, 12, 20); }
  lemma Works9()
    ensures Works(9)
  {
    Sum9();
    Turn9();
    assert Made(9) == 0xa811b278 && Made(10) == 0xb71122fc && Made(11) == 0xda9bbb0d && Made(12) == 0xae752899;
    assert Rotand(9) == 0xce67d494 && Made(13) == 0x2bbe757f && ConstantRow(2)[1] == 0x8b44f7af;
    assert Block()[WordRow(2)[1]] == 0x0;
  }

  lemma Sum10()
    ensures Sums(0, 0xb71122fc, 0x2bbe757f, 0xae752899, 0xda9bbb0d, 0x0, 0xffff5bb1, 0xb14628c6) {}
  lemma Turn10()
    ensures Turns(0x2bbe757f, 17, 0xb14628c6, 0x7d4bd80b) { ShiftIs(0xb14628c6, 17, 17, 15); }
  lemma Works10()
    ensures Works(10)
  {
    Sum10();
    Turn10();
    assert Made(10) == 0xb71122fc && Made(11) == 0xda9bbb0d && Made(12) == 0xae752899 && Made(13) == 0x2bbe757f;
    assert Rotand(10) == 0xb14628c6 && Made(14) == 0x7d4bd80b && ConstantRow(2)[2] == 0xffff5bb1;
    assert Block()[WordRow(2)[2]] == 0x0;
  }

  lemma Sum11()
    ensures Sums(0, 0xda9bbb0d, 0x7d4bd80b, 0x2bbe757f, 0xae752899, 0x0, 0x895cd7be, 0xf370366) {}
  lemma Turn11()
    ensures Turns(0x7d4bd80b, 22, 0xf370366, 0x56cfa5cb) { ShiftIs(0xf370366, 22, 22, 10); }
  lemma Works11()
    ensures Works(11)
  {
    Sum11();
    Turn11();
    assert Made(11) == 0xda9bbb0d && Made(12) == 0xae752899 && Made(13) == 0x2bbe757f && Made(14) == 0x7d4bd80b;
    assert Rotand(11) == 0xf370366 && Made(15) == 0x56cfa5cb && ConstantRow(2)[3] == 0x895cd7be;
    assert Block()[WordRow(2)[3]] == 0x0;
  }

  lemma Sum12()
    ensures Sums(0, 0xae752899, 0x56cfa5cb, 0x7d4bd80b, 0x2bbe757f, 0x0, 0x6b901122, 0x978109fa) {}
  lemma Turn12()
    ensures Turns(0x56cfa5cb, 7, 0x978109fa, 0x1754a316) { ShiftIs(0x978109fa, 7, 7, 25); }
  lemma Works12()
    ensures Works(12)
  {
    Sum12();
    Turn12();
    assert Made(12) == 0xae752899 && Made(13) == 0x2bbe757f && Made(14) == 0x7d4bd80b && Made(15) == 0x56cfa5cb;
    assert Rotand(12) == 0x978109fa && Made(16) == 0x1754a316 && ConstantRow(3)[0] == 0x6b901122;
    assert Block()[WordRow(3)[0]] == 0x0;
  }

  lemma Sum13()
    ensures Sums(0, 0x2bbe757f, 0x1754a316, 0x56cfa5cb, 0x7d4bd80b, 0x0, 0xfd987193, 0xa7a6e01d) {}
  lemma Turn13()
    ensures Turns(0x1754a316, 12, 0xa7a6e01d, 0x85567d90) { ShiftIs(0xa7a6e01d, 12, 12, 20); }
  lemma Works13()
    ensures Works(13)
  {
    Sum13();
    Turn13();
    assert Made(13) == 0x2bbe757f && Made(14) == 0x7d4bd80b && Made(15) == 0x56cfa5cb && Made(16) == 0x1754a316;
    assert Rotand(13) == 0xa7a6e01d && Made(17) == 0x85567d90 && ConstantRow(3)[1] == 0xfd987193;
    assert Block()[WordRow(3)[1]] == 0x0;
  }

  lemma Sum14()
    ensures Sums(0, 0x7d4bd80b, 0x85567d90, 0x1754a316, 0x56cfa5cb, 0xd0, 0xa679438e, 0x7ba2bdc4) {}
  lemma Turn14()
    ensures Turns(0x85567d90, 17, 0x7ba2bdc4, 0xdf74d5) { ShiftIs(0x7ba2bdc4, 17, 17, 15); }
  lemma Works14()
    ensures Works(14)
  {
    Sum14();
    Turn14();
    assert Made(14) == 0x7d4bd80b && Made(15) == 0x56cfa5cb && Made(16) == 0x1754a316 && Made(17) == 0x85567d90;
    assert Rotand(14) == 0x7ba2bdc4 && Made(18) == 0xdf74d5 && ConstantRow(3)[2] == 0xa679438e;
    assert Block()[WordRow(3)[2]] == 0xd0;
  }

  lemma Sum15()
    ensures Sums(0, 0x56cfa5cb, 0xdf74d5, 0x85567d90, 0x1754a316, 0x0, 0x49b40821, 0xb7daa57e) {}
  lemma Turn15()
    ensures Turns(0xdf74d5, 22, 0xb7daa57e, 0x608d6b7e) { ShiftIs(0xb7daa57e, 22, 22, 10); }
  lemma Works15()
    ensures Works(15)
  {
    Sum15();
    Turn15();
    assert Made(15) == 0x56cfa5cb && Made(16) == 0x1754a316 && Made(17) == 0x85567d90 && Made(18) == 0xdf74d5;
    assert Rotand(15) == 0xb7daa57e && Made(19) == 0x608d6b7e && ConstantRow(3)[3] == 0x49b40821;
    assert Block()[WordRow(3)[3]] == 0x0;
  }

  lemma Sum16()
    ensures Sums(1, 0x1754a316, 0x608d6b7e, 0xdf74d5, 0x85567d90, 0x68676665, 0xf61e2562, 0x76679832) {}
  lemma Turn16()
    ensures Turns(0x608d6b7e, 5, 0x76679832, 0x2d8071cc) { ShiftIs(0x76679832, 5, 5, 27); }
  lemma Works16()
    ensures Works(16)
  {
    Sum16();
    Turn16();
    assert Made(16) == 0x1754a316 && Made(17) == 0x85567d90 && Made(18) == 0xdf74d5 && Made(19) == 0x608d6b7e;
    assert Rotand(16) == 0x76679832 && Made(20) == 0x2d8071cc && ConstantRow(4)[0] == 0xf61e2562;
    assert Block()[WordRow(4)[0]] == 0x68676665;
  }

  lemma Sum17()
    ensures Sums(1, 0x85567d90, 0x2d8071cc, 0x608d6b7e, 0xdf74d5, 0x807a79, 0xc040b340, 0xa6982737) {}
  lemma Turn17()
    ensures Turns(0x2d8071cc, 9, 0xa6982737, 0x5dcee119) { ShiftIs(0xa6982737, 9, 9, 23); }
  lemma Works17()
    ensures Works(17)
  {
    Sum17();
    Turn17();
    assert Made(17) == 0x85567d90 && Made(18) == 0xdf74d5 && Made(19) == 0x608d6b7e && Made(20) == 0x2d8071cc;
    assert Rotand(17) == 0xa6982737 && Made(21) == 0x5dcee119 && ConstantRow(4)[1] == 0xc040b340;
    assert Block()[WordRow(4)[1]] == 0x807a79;
  }

  lemma Sum18()
    ensures Sums(1, 0xdf74d5, 0x5dcee119, 0x2d8071cc, 0x608d6b7e, 0x0, 0x265e5a51, 0x74ca40be) {}
  lemma Turn18()
    ensures Turns(0x5dcee119, 14, 0x74ca40be, 0xedfe7e4b) { ShiftIs(0x74ca40be, 14, 14, 18); }
  lemma Works18()
    ensures Works(18)
  {
    Sum18();
    Turn18();
    assert Made(18) == 0xdf74d5 && Made(19) == 0x608d6b7e && Made(20) == 0x2d8071cc && Made(21) == 0x5dcee119;
    assert Rotand(18) == 0x74ca40be && Made(22) == 0xedfe7e4b && ConstantRow(4)[2] == 0x265e5a51;
    assert Block()[WordRow(4)[2]] == 0x0;
  }

  lemma Sum19()
    ensures Sums(1, 0x608d6b7e, 0xedfe7e4b, 0x5dcee119, 0x2d8071cc, 0x64636261, 0xe9b6c7aa, 0x2c7685e2) {}
  lemma Turn19()
    ensures Turns(0xedfe7e4b, 20, 0x2c7685e2, 0x4c2145b3) { ShiftIs(0x2c7685e2, 20, 20, 12); }
  lemma Works19()
    ensures Works(19)
  {
    Sum19();
    Turn19();
    assert Made(19) == 0x608d6b7e && Made(20) == 0x2d8071cc && Made(21) == 0x5dcee119 && Made(22) == 0xedfe7e4b;
    assert Rotand(19) == 0x2c7685e2 && Made(23) == 0x4c2145b3 && ConstantRow(4)[3] == 0xe9b6c7aa;
    assert Block()[WordRow(4)[3]] == 0x64636261;
  }

  lemma Sum20()
    ensures Sums(1, 0x2d8071cc, 0x4c2145b3, 0xedfe7e4b, 0x5dcee119, 0x78777675, 0xd62f105d, 0x685757f1) {}
  lemma Turn20()
    ensures Turns(0x4c2145b3, 5, 0x685757f1, 0x570c43e0) { ShiftIs(0x685757f1, 5, 5, 27); }
  lemma Works20()
    ensures Works(20)
  {
    Sum20();
    Turn20();
    assert Made(20) == 0x2d8071cc && Made(21) == 0x5dcee119 && Made(22) == 0xedfe7e4b && Made(23) == 0x4c2145b3;
    assert Rotand(20) == 0x685757f1 && Made(24) == 0x570c43e0 && ConstantRow(5)[0] == 0xd62f105d;
    assert Block()[WordRow(5)[0]] == 0x78777675;
  }

  lemma Sum21()
    ensures Sums(1, 0x5dcee119, 0x570c43e0, 0x4c2145b3, 0xedfe7e4b, 0x0, 0x2441453, 0xa520395c) {}
  lemma Turn21()
    ensures Turns(0x570c43e0, 9, 0xa520395c, 0x977efd2a) { ShiftIs(0xa520395c, 9, 9, 23); }
  lemma Works21()
    ensures Works(21)
  {
    Sum21();
    Turn21();
    assert Made(21) == 0x5dcee119 && Made(22) == 0xedfe7e4b && Made(23) == 0x4c2145b3 && Made(24) == 0x570c43e0;
    assert Rotand(21) == 0xa520395c && Made(25) == 0x977efd2a && ConstantRow(5)[1] == 0x2441453;
    assert Block()[WordRow(5)[1]] == 0x0;
  }

  lemma Sum22()
    ensures Sums(1, 0xedfe7e4b, 0x977efd2a, 0x570c43e0, 0x4c2145b3, 0x0, 0xd8a1e681, 0xddccac2e) {}
  lemma Turn22()
    ensures Turns(0x977efd2a, 14, 0xddccac2e, 0xc28ab49d) { ShiftIs(0xddccac2e, 14, 14, 18); }
  lemma Works22()
    ensures Works(22)
  {
    Sum22();
    Turn22();
    assert Made(22) == 0xedfe7e4b && Made(23) == 0x4c2145b3 && Made(24) == 0x570c43e0 && Made(25) == 0x977efd2a;
    assert Rotand(22) == 0xddccac2e && Made(26) == 0xc28ab49d && ConstantRow(5)[2] == 0xd8a1e681;
    assert Block()[WordRow(5)[2]] == 0x0;
  }

  lemma Sum23()
    ensures Sums(1, 0x4c2145b3, 0xc28ab49d, 0x977efd2a, 0x570c43e0, 0x74737271, 0xe7d3fbc8, 0x6ae37076) {}
  lemma Turn23()
    ensures Turns(0xc28ab49d, 20, 0x6ae37076, 0xc9f162d4) { ShiftIs(0x6ae37076, 20, 20, 12); }
  lemma Works23()
    ensures Works(23)
  {
    Sum23();
    Turn23();
    assert Made(23) == 0x4c2145b3 && Made(24) == 0x570c43e0 && Made(25) == 0x977efd2a && Made(26) == 0xc28ab49d;
    assert Rotand(23) == 0x6ae37076 && Made(27) == 0xc9f162d4 && ConstantRow(5)[3] == 0xe7d3fbc8;
    assert Block()[WordRow(5)[3]] == 0x74737271;
  }

  lemma Sum24()
    ensures Sums(1, 0x570c43e0, 0xc9f162d4, 0xc28ab49d, 0x977efd2a, 0x0, 0x21e1cde6, 0x3ade725b) {}
  lemma Turn24()
    ensures Turns(0xc9f162d4, 5, 0x3ade725b, 0x25bfae3b) { ShiftIs(0x3ade725b, 5, 5, 27); }
  lemma Works24()
    ensures Works(24)
  {
    Sum24();
    Turn24();
    assert Made(24) == 0x570c43e0 && Made(25) == 0x977efd2a && Made(26) == 0xc28ab49d && Made(27) == 0xc9f162d4;
    assert Rotand(24) == 0x3ade725b && Made(28) == 0x25bfae3b && ConstantRow(6)[0] == 0x21e1cde6;
    assert Block()[WordRow(6)[0]] == 0x0;
  }

  lemma Sum25()
    ensures Sums(1, 0x977efd2a, 0x25bfae3b, 0xc9f162d4, 0xc28ab49d, 0xd0, 0xc33707d6, 0x64b1ec29) {}
  lemma Turn25()
    ensures Turns(0x25bfae3b, 9, 0x64b1ec29, 0x89980104) { ShiftIs(0x64b1ec29, 9, 9, 23); }
  lemma Works25()
    ensures Works(25)
  {
    Sum25();
    Turn25();
    assert Made(25) == 0x977efd2a && Made(26) == 0xc28ab49d && Made(27) == 0xc9f162d4 && Made(28) == 0x25bfae3b;
    assert Rotand(25) == 0x64b1ec29 && Made(29) == 0x89980104 && ConstantRow(6)[1] == 0xc33707d6;
    assert Block()[WordRow(6)[1]] == 0xd0;
  }

  lemma Sum26()
    ensures Sums(1, 0xc28ab49d, 0x89980104, 0x25bfae3b, 0xc9f162d4, 0x706f6e6d, 0xf4d50d87, 0xd56dbcc0) {}
  lemma Turn26()
    ensures Turns(0x89980104, 14, 0xd56dbcc0, 0xf8c8365f) { ShiftIs(0xd56dbcc0, 14, 14, 18); }
  lemma Works26()
    ensures Works(26)
  {
    Sum26();
    Turn26();
    assert Made(26) == 0xc28ab49d && Made(27) == 0xc9f162d4 && Made(28) == 0x25bfae3b && Made(29) == 0x89980104;
    assert Rotand(26) == 0xd56dbcc0 && Made(30) == 0xf8c8365f && ConstantRow(6)[2] == 0xf4d50d87;
    assert Block()[WordRow(6)[2]] == 0x706f6e6d;
  }

  lemma Sum27()
    ensures Sums(1, 0xc9f162d4, 0xf8c8365f, 0x89980104, 0x25bfae3b, 0x0, 0x455a14ed, 0xb7d39ee0) {}
  lemma Turn27()
    ensures Turns(0xf8c8365f, 20, 0xb7d39ee0, 0xe6d3b398) { ShiftIs(0xb7d39ee0, 20, 20, 12); }
  lemma Works27()
    ensures Works(27)
  {
    Sum27();
    Turn27();
    assert Made(27) == 0xc9f162d4 && Made(28) == 0x25bfae3b && Made(29) == 0x89980104 && Made(30) == 0xf8c8365f;
    assert Rotand(27) == 0xb7d39ee0 && Made(31) == 0xe6d3b398 && ConstantRow(6)[3] == 0x455a14ed;
    assert Block()[WordRow(6)[3]] == 0x0;
  }

  lemma Sum28()
    ensures Sums(1, 0x25bfae3b, 0xe6d3b398, 0xf8c8365f, 0x89980104, 0x0, 0xa9e3e905, 0xc073ce9b) {}
  lemma Turn28()
    ensures Turns(0xe6d3b398, 5, 0xc073ce9b, 0xf54d8710) { ShiftIs(0xc073ce9b, 5, 5, 27); }
  lemma Works28()
    ensures Works(28)
  {
    Sum28();
    Turn28();
    assert Made(28) == 0x25bfae3b && Made(29) == 0x89980104 && Made(30) == 0xf8c8365f && Made(31) == 0xe6d3b398;
    assert Rotand(28) == 0xc073ce9b && Made(32) == 0xf54d8710 && ConstantRow(7)[0] == 0xa9e3e905;
    assert Block()[WordRow(7)[0]] == 0x0;
  }

  lemma Sum29()
    ensures Sums(1, 0x89980104, 0xf54d8710, 0xe6d3b398, 0xf8c8365f, 0x6c6b6a69, 0xfcefa3f8, 0xe94e96f5) {}
  lemma Turn29()
    ensures Turns(0xf54d8710, 9, 0xe94e96f5, 0x927b72e2) { ShiftIs(0xe94e96f5, 9, 9, 23); }
  lemma Works29()
    ensures Works(29)
  {
    Sum29();
    Turn29();
    assert Made(29) == 0x89980104 && Made(30) == 0xf8c8365f && Made(31) == 0xe6d3b398 && Made(32) == 0xf54d8710;
    assert Rotand(29) == 0xe94e96f5 && Made(33) == 0x927b72e2 && ConstantRow(7)[1] == 0xfcefa3f8;
    assert Block()[WordRow(7)[1]] == 0x6c6b6a69;
  }

  lemma Sum30()
    ensures Sums(1, 0xf8c8365f, 0x927b72e2, 0xf54d8710, 0xe6d3b398, 0x0, 0x676f02d9, 0xf3966fb8) {}
  lemma Turn30()
    ensures Turns(0x927b72e2, 14, 0xf3966fb8, 0x2e69afc7) { ShiftIs(0xf3966fb8, 14, 14, 18); }
  lemma Works30()
    ensures Works(30)
  {
    Sum30();
    Turn30();
    assert Made(30) == 0xf8c8365f && Made(31) == 0xe6d3b398 && Made(32) == 0xf54d8710 && Made(33) == 0x927b72e2;
    assert Rotand(30) == 0xf3966fb8 && Made(34) == 0x2e69afc7 && ConstantRow(7)[2] == 0x676f02d9;
    assert Block()[WordRow(7)[2]] == 0x0;
  }

  lemma Sum31()
    ensures Sums(1, 0xe6d3b398, 0x2e69afc7, 0x927b72e2, 0xf54d8710, 0x0, 0x8d2a4c8a, 0x9a79f804) {}
  lemma Turn31()
    ensures Turns(0x2e69afc7, 20, 0x9a79f804, 0xaeb35766) { ShiftIs(0x9a79f804, 20, 20, 12); }
  lemma Works31()
    ensures Works(31)
  {
    Sum31();
    Turn31();
    assert Made(31) == 0xe6d3b398 && Made(32) == 0xf54d8710 && Made(33) == 0x927b72e2 && Made(34) == 0x2e69afc7;
    assert Rotand(31) == 0x9a79f804 && Made(35) == 0xaeb35766 && ConstantRow(7)[3] == 0x8d2a4c8a;
    assert Block()[WordRow(7)[3]] == 0x0;
  }

  lemma Sum32()
    ensures Sums(2, 0xf54d8710, 0xaeb35766, 0x2e69afc7, 0x927b72e2, 0x78777675, 0xfffa3942, 0x8060c10a) {}
  lemma Turn32()
    ensures Turns(0xaeb35766, 4, 0x8060c10a, 0xb4bf680e) { ShiftIs(0x8060c10a, 4, 4, 28); }
  lemma Works32()
    ensures Works(32)
  {
    Sum32();
    Turn32();
    assert Made(32) == 0xf54d8710 && Made(33) == 0x927b72e2 && Made(34) == 0x2e69afc7 && Made(35) == 0xaeb35766;
    assert Rotand(32) == 0x8060c10a && Made(36) == 0xb4bf680e && ConstantRow(8)[0] == 0xfffa3942;
    assert Block()[WordRow(8)[0]] == 0x78777675;
  }

  lemma Sum33()
    ensures Sums(2, 0x927b72e2, 0xb4bf680e, 0xaeb35766, 0x2e69afc7, 0x0, 0x8771f681, 0x4e52fa12) {}
  lemma Turn33()
    ensures Turns(0xb4bf680e, 11, 0x4e52fa12, 0x4c8ffa80) { ShiftIs(0x4e52fa12, 11, 11, 21); }
  lemma Works33()
    ensures Works(33)
  {
    Sum33();
    Turn33();
    assert Made(33) == 0x927b72e2 && Made(34) == 0x2e69afc7 && Made(35) == 0xaeb35766 && Made(36) == 0xb4bf680e;
    assert Rotand(33) == 0x4e52fa12 && Made(37) == 0x4c8ffa80 && ConstantRow(8)[1] == 0x8771f681;
    assert Block()[WordRow(8)[1]] == 0x0;
  }

  lemma Sum34()
    ensures Sums(2, 0x2e69afc7, 0x4c8ffa80, 0xb4bf680e, 0xaeb35766, 0x0, 0x6d9d6122, 0xf28ad6d1) {}
  lemma Turn34()
    ensures Turns(0x4c8ffa80, 16, 0xf28ad6d1, 0x2361ed0a) { ShiftIs(0xf28ad6d1, 16, 16, 16); }
  lemma Works34()
    ensures Works(34)
  {
    Sum34();
    Turn34();
    assert Made(34) == 0x2e69afc7 && Made(35) == 0xaeb35766 && Made(36) == 0xb4bf680e && Made(37) == 0x4c8ffa80;
    assert Rotand(34) == 0xf28ad6d1 && Made(38) == 0x2361ed0a && ConstantRow(8)[2] == 0x6d9d6122;
    assert Block()[WordRow(8)[2]] == 0x0;
  }

  lemma Sum35()
    ensures Sums(2, 0xaeb35766, 0x2361ed0a, 0x4c8ffa80, 0xb4bf680e, 0xd0, 0xfde5380c, 0x87ea0fc6) {}
  lemma Turn35()
    ensures Turns(0x2361ed0a, 23, 0x87ea0fc6, 0x6a5e211) { ShiftIs(0x87ea0fc6, 23, 23, 9); }
  lemma Works35()
    ensures Works(35)
  {
    Sum35();
    Turn35();
    assert Made(35) == 0xaeb35766 && Made(36) == 0xb4bf680e && Made(37) == 0x4c8ffa80 && Made(38) == 0x2361ed0a;
    assert Rotand(35) == 0x87ea0fc6 && Made(39) == 0x6a5e211 && ConstantRow(8)[3] == 0xfde5380c;
    assert Block()[WordRow(8)[3]] == 0xd0;
  }

  lemma Sum36()
    ensures Sums(2, 0xb4bf680e, 0x6a5e211, 0x2361ed0a, 0x4c8ffa80, 0x68676665, 0xa4beea44, 0x2b31ae52) {}
  lemma Turn36()
    ensures Turns(0x6a5e211, 4, 0x2b31ae52, 0xb9c0c733) { ShiftIs(0x2b31ae52, 4, 4, 28); }
  lemma Works36()
    ensures Works(36)
  {
    Sum36();
    Turn36();
    assert Made(36) == 0xb4bf680e && Made(37) == 0x4c8ffa80 && Made(38) == 0x2361ed0a && Made(39) == 0x6a5e211;
    assert Rotand(36) == 0x2b31ae52 && Made(40) == 0xb9c0c733 && ConstantRow(9)[0] == 0xa4beea44;
    assert Block()[WordRow(9)[0]] == 0x68676665;
  }

  lemma Sum37()
    ensures Sums(2, 0x4c8ffa80, 0xb9c0c733, 0x6a5e211, 0x2361ed0a, 0x74737271, 0x4bdecfa9, 0xa8e704c2) {}
  lemma Turn37()
    ensures Turns(0xb9c0c733, 11, 0xa8e704c2, 0xf1e6dc7a) { ShiftIs(0xa8e704c2, 11, 11, 21); }
  lemma Works37()
    ensures Works(37)
  {
    Sum37();
    Turn37();
    assert Made(37) == 0x4c8ffa80 && Made(38) == 0x2361ed0a && Made(39) == 0x6a5e211 && Made(40) == 0xb9c0c733;
    assert Rotand(37) == 0xa8e704c2 && Made(41) == 0xf1e6dc7a && ConstantRow(9)[1] == 0x4bdecfa9;
    assert Block()[WordRow(9)[1]] == 0x74737271;
  }

  lemma Sum38()
    ensures Sums(2, 0x2361ed0a, 0xf1e6dc7a, 0xb9c0c733, 0x6a5e211, 0x0, 0xf6bb4b60, 0x68a131c2) {}
  lemma Turn38()
    ensures Turns(0xf1e6dc7a, 16, 0x68a131c2, 0x23a9451b) { ShiftIs(0x68a131c2, 16, 16, 16); }
  lemma Works38()
    ensures Works(38)
  {
    Sum38();
    Turn38();
    assert Made(38) == 0x2361ed0a && Made(39) == 0x6a5e211 && Made(40) == 0xb9c0c733 && Made(41) == 0xf1e6dc7a;
    assert Rotand(38) == 0x68a131c2 && Made(42) == 0x23a9451b && ConstantRow(9)[2] == 0xf6bb4b60;
    assert Block()[WordRow(9)[2]] == 0x0;
  }

  lemma Sum39()
    ensures Sums(2, 0x6a5e211, 0x23a9451b, 0xf1e6dc7a, 0xb9c0c733, 0x0, 0xbebfbc70, 0x30f4fcd3) {}
  lemma Turn39()
    ensures Turns(0x23a9451b, 23, 0x30f4fcd3, 0x8d41bf99) { ShiftIs(0x30f4fcd3, 23, 23, 9); }
  lemma Works39()
    ensures Works(39)
  {
    Sum39();
    Turn39();
    assert Made(39) == 0x6a5e211 && Made(40) == 0xb9c0c733 && Made(41) == 0xf1e6dc7a && Made(42) == 0x23a9451b;
    assert Rotand(39) == 0x30f4fcd3 && Made(43) == 0x8d41bf99 && ConstantRow(9)[3] == 0xbebfbc70;
    assert Block()[WordRow(9)[3]] == 0x0;
  }

  lemma Sum40()
    ensures Sums(2, 0xb9c0c733, 0x8d41bf99, 0x23a9451b, 0xf1e6dc7a, 0x0, 0x289b7ec6, 0x416a6cf1) {}
  lemma Turn40()
    ensures Turns(0x8d41bf99, 4, 0x416a6cf1, 0xa3e88ead) { ShiftIs(0x416a6cf1, 4, 4, 28); }
  lemma Works40()
    ensures Works(40)
  {
    Sum40();
    Turn40();
    assert Made(40) == 0xb9c0c733 && Made(41) == 0xf1e6dc7a && Made(42) == 0x23a9451b && Made(43) == 0x8d41bf99;
    assert Rotand(40) == 0x416a6cf1 && Made(44) == 0xa3e88ead && ConstantRow(10)[0] == 0x289b7ec6;
    assert Block()[WordRow(10)[0]] == 0x0;
  }

  lemma Sum41()
    ensures Sums(2, 0xf1e6dc7a, 0xa3e88ead, 0x8d41bf99, 0x23a9451b, 0x64636261, 0xeaa127fa, 0x4debdb04) {}
  lemma Turn41()
    ensures Turns(0xa3e88ead, 11, 0x4debdb04, 0x2c0b11c) { ShiftIs(0x4debdb04, 11, 11, 21); }
  lemma Works41()
    ensures Works(41)
  {
    Sum41();
    Turn41();
    assert Made(41) == 0xf1e6dc7a && Made(42) == 0x23a9451b && Made(43) == 0x8d41bf99 && Made(44) == 0xa3e88ead;
    assert Rotand(41) == 0x4debdb04 && Made(45) == 0x2c0b11c && ConstantRow(10)[1] == 0xeaa127fa;
    assert Block()[WordRow(10)[1]] == 0x64636261;
  }

  lemma Sum42()
    ensures Sums(2, 0x23a9451b, 0x2c0b11c, 0xa3e88ead, 0x8d41bf99, 0x706f6e6d, 0xd4ef3085, 0x95716435) {}
  lemma Turn42()
    ensures Turns(0x2c0b11c, 16, 0x95716435, 0x66f6468d) { ShiftIs(0x95716435, 16, 16, 16); }
  lemma Works42()
    ensures Works(42)
  {
    Sum42();
    Turn42();
    assert Made(42) == 0x23a9451b && Made(43) == 0x8d41bf99 && Made(44) == 0xa3e88ead && Made(45) == 0x2c0b11c;
    assert Rotand(42) == 0x95716435 && Made(46) == 0x66f6468d && ConstantRow(10)[2] == 0xd4ef3085;
    assert Block()[WordRow(10)[2]] == 0x706f6e6d;
  }

  lemma Sum43()
    ensures Sums(2, 0x8d41bf99, 0x66f6468d, 0x2c0b11c, 0xa3e88ead, 0x807a79, 0x4881d05, 0x5a28d053) {}
  lemma Turn43()
    ensures Turns(0x66f6468d, 23, 0x5a28d053, 0x90a35af5) { ShiftIs(0x5a28d053, 23, 23, 9); }
  lemma Works43()
    ensures Works(43)
  {
    Sum43();
    Turn43();
    assert Made(43) == 0x8d41bf99 && Made(44) == 0xa3e88ead && Made(45) == 0x2c0b11c && Made(46) == 0x66f6468d;
    assert Rotand(43) == 0x5a28d053 && Made(47) == 0x90a35af5 && ConstantRow(10)[3] == 0x4881d05;
    assert Block()[WordRow(10)[3]] == 0x807a79;
  }

  lemma Sum44()
    ensures Sums(2, 0xa3e88ead, 0x90a35af5, 0x66f6468d, 0x2c0b11c, 0x0, 0xd9d4d039, 0x72530c4a) {}
  lemma Turn44()
    ensures Turns(0x90a35af5, 4, 0x72530c4a, 0xb5d41f9c) { ShiftIs(0x72530c4a, 4, 4, 28); }
  lemma Works44()
    ensures Works(44)
  {
    Sum44();
    Turn44();
    assert Made(44) == 0xa3e88ead && Made(45) == 0x2c0b11c && Made(46) == 0x66f6468d && Made(47) == 0x90a35af5;
    assert Rotand(44) == 0x72530c4a && Made(48) == 0xb5d41f9c && ConstantRow(11)[0] == 0xd9d4d039;
    assert Block()[WordRow(11)[0]] == 0x0;
  }

  lemma Sum45()
    ensures Sums(2, 0x2c0b11c, 0xb5d41f9c, 0x90a35af5, 0x66f6468d, 0x0, 0xe6db99e5, 0x2d1d4ee5) {}
  lemma Turn45()
    ensures Turns(0xb5d41f9c, 11, 0x2d1d4ee5, 0xa04b4904) { ShiftIs(0x2d1d4ee5, 11, 11, 21); }
  lemma Works45()
    ensures Works(45)
  {
    Sum45();
    Turn45();
    assert Made(45) == 0x2c0b11c && Made(46) == 0x66f6468d && Made(47) == 0x90a35af5 && Made(48) == 0xb5d41f9c;
    assert Rotand(45) == 0x2d1d4ee5 && Made(49) == 0xa04b4904 && ConstantRow(11)[1] == 0xe6db99e5;
    assert Block()[WordRow(11)[1]] == 0x0;
  }

  lemma Sum46()
    ensures Sums(2, 0x66f6468d, 0xa04b4904, 0xb5d41f9c, 0x90a35af5, 0x0, 0x1fa27cf8, 0xbd4cff2) {}
  lemma Turn46()
    ensures Turns(0xa04b4904, 16, 0xbd4cff2, 0x703d54d8) { ShiftIs(0xbd4cff2, 16, 16, 16); }
  lemma Works46()
    ensures Works(46)
  {
    Sum46();
    Turn46();
    assert Made(46) == 0x66f6468d && Made(47) == 0x90a35af5 && Made(48) == 0xb5d41f9c && Made(49) == 0xa04b4904;
    assert Rotand(46) == 0xbd4cff2 && Made(50) == 0x703d54d8 && ConstantRow(11)[2] == 0x1fa27cf8;
    assert Block()[WordRow(11)[2]] == 0x0;
  }

  lemma Sum47()
    ensures Sums(2, 0x90a35af5, 0x703d54d8, 0xa04b4904, 0xb5d41f9c, 0x6c6b6a69, 0xc4ac5665, 0x275d1e03) {}
  lemma Turn47()
    ensures Turns(0x703d54d8, 23, 0x275d1e03, 0x71d10367) { ShiftIs(0x275d1e03, 23, 23, 9); }
  lemma Works47()
    ensures Works(47)
  {
    Sum47();
    Turn47();
    assert Made(47) == 0x90a35af5 && Made(48) == 0xb5d41f9c && Made(49) == 0xa04b4904 && Made(50) == 0x703d54d8;
    assert Rotand(47) == 0x275d1e03 && Made(51) == 0x71d10367 && ConstantRow(11)[3] == 0xc4ac5665;
    assert Block()[WordRow(11)[3]] == 0x6c6b6a69;
  }

  lemma Sum48()
    ensures Sums(3, 0xb5d41f9c, 0x71d10367, 0x703d54d8, 0xa04b4904, 0x64636261, 0xf4292244, 0x1e298768) {}
  lemma Turn48()
    ensures Turns(0x71d10367, 6, 0x1e298768, 0xfc32dd6e) { ShiftIs(0x1e298768, 6, 6, 26); }
  lemma Works48()
    ensures Works(48)
  {
    Sum48();
    Turn48();
    assert Made(48) == 0xb5d41f9c && Made(49) == 0xa04b4904 && Made(50) == 0x703d54d8 && Made(51) == 0x71d10367;
    assert Rotand(48) == 0x1e298768 && Made(52) == 0xfc32dd6e && ConstantRow(12)[0] == 0xf4292244;
    assert Block()[WordRow(12)[0]] == 0x64636261;
  }

  lemma Sum49()
    ensures Sums(3, 0xa04b4904, 0xfc32dd6e, 0x71d10367, 0x703d54d8, 0x0, 0x432aff97, 0x719a44a3) {}
  lemma Turn49()
    ensures Turns(0xfc32dd6e, 10, 0x719a44a3, 0x65456b34) { ShiftIs(0x719a44a3, 10, 10, 22); }
  lemma Works49()
    ensures Works(49)
  {
    Sum49();
    Turn49();
    assert Made(49) == 0xa04b4904 && Made(50) == 0x703d54d8 && Made(51) == 0x71d10367 && Made(52) == 0xfc32dd6e;
    assert Rotand(49) == 0x719a44a3 && Made(53) == 0x65456b34 && ConstantRow(12)[1] == 0x432aff97;
    assert Block()[WordRow(12)[1]] == 0x0;
  }

  lemma Sum50()
    ensures Sums(3, 0x703d54d8, 0x65456b34, 0xfc32dd6e, 0x71d10367, 0xd0, 0xab9423a7, 0x2f2e9c21) {}
  lemma Turn50()
    ensures Turns(0x65456b34, 15, 0x2f2e9c21, 0xb35602cb) { ShiftIs(0x2f2e9c21, 15, 15, 17); }
  lemma Works50()
    ensures Works(50)
  {
    Sum50();
    Turn50();
    assert Made(50) == 0x703d54d8 && Made(51) == 0x71d10367 && Made(52) == 0xfc32dd6e && Made(53) == 0x65456b34;
    assert Rotand(50) == 0x2f2e9c21 && Made(54) == 0xb35602cb && ConstantRow(12)[2] == 0xab9423a7;
    assert Block()[WordRow(12)[2]] == 0xd0;
  }

  lemma Sum51()
    ensures Sums(3, 0x71d10367, 0xb35602cb, 0x65456b34, 0xfc32dd6e, 0x78777675, 0xfc93a039, 0xbd766404) {}
  lemma Turn51()
    ensures Turns(0xb35602cb, 21, 0xbd766404, 0x33edb197) { ShiftIs(0xbd766404, 21, 21, 11); }
  lemma Works51()
    ensures Works(51)
  {
    Sum51();
    Turn51();
    assert Made(51) == 0x71d10367 && Made(52) == 0xfc32dd6e && Made(53) == 0x65456b34 && Made(54) == 0xb35602cb;
    assert Rotand(51) == 0xbd766404 && Made(55) == 0x33edb197 && ConstantRow(12)[3] == 0xfc93a039;
    assert Block()[WordRow(12)[3]] == 0x78777675;
  }

  lemma Sum52()
    ensures Sums(3, 0xfc32dd6e, 0x33edb197, 0xb35602cb, 0x65456b34, 0x0, 0x655b59c3, 0x6a37ee45) {}
  lemma Turn52()
    ensures Turns(0x33edb197, 6, 0x6a37ee45, 0xc1e942f1) { ShiftIs(0x6a37ee45, 6, 6, 26); }
  lemma Works52()
    ensures Works(52)
  {
    Sum52();
    Turn52();
    assert Made(52) == 0xfc32dd6e && Made(53) == 0x65456b34 && Made(54) == 0xb35602cb && Made(55) == 0x33edb197;
    assert Rotand(52) == 0x6a37ee45 && Made(56) == 0xc1e942f1 && ConstantRow(13)[0] == 0x655b59c3;
    assert Block()[WordRow(13)[0]] == 0x0;
  }

  lemma Sum53()
    ensures Sums(3, 0x65456b34, 0xc1e942f1, 0x33edb197, 0xb35602cb, 0x706f6e6d, 0x8f0ccc92, 0x62c5f495) {}
  lemma Turn53()
    ensures Turns(0xc1e942f1, 10, 0x62c5f495, 0xd9bb987c) { ShiftIs(0x62c5f495, 10, 10, 22); }
  lemma Works53()
    ensures Works(53)
  {
    Sum53();
    Turn53();
    assert Made(53) == 0x65456b34 && Made(54) == 0xb35602cb && Made(55) == 0x33edb197 && Made(56) == 0xc1e942f1;
    assert Rotand(53) == 0x62c5f495 && Made(57) == 0xd9bb987c && ConstantRow(13)[1] == 0x8f0ccc92;
    assert Block()[WordRow(13)[1]] == 0x706f6e6d;
  }

  lemma Sum54()
    ensures Sums(3, 0xb35602cb, 0xd9bb987c, 0xc1e942f1, 0x33edb197, 0x0, 0xffeff47d, 0xcf9893d5) {}
  lemma Turn54()
    ensures Turns(0xd9bb987c, 15, 0xcf9893d5, 0x23a68048) { ShiftIs(0xcf9893d5, 15, 15, 17); }
  lemma Works54()
    ensures Works(54)
  {
    Sum54();
    Turn54();
    assert Made(54) == 0xb35602cb && Made(55) == 0x33edb197 && Made(56) == 0xc1e942f1 && Made(57) == 0xd9bb987c;
    assert Rotand(54) == 0xcf9893d5 && Made(58) == 0x23a68048 && ConstantRow(13)[2] == 0xffeff47d;
    assert Block()[WordRow(13)[2]] == 0x0;
  }

  lemma Sum55()
    ensures Sums(3, 0x33edb197, 0x23a68048, 0xd9bb987c, 0xc1e942f1, 0x68676665, 0x85845dd1, 0x7e69aff) {}
  lemma Turn55()
    ensures Turns(0x23a68048, 21, 0x7e69aff, 0x83877d1b) { ShiftIs(0x7e69aff, 21, 21, 11); }
  lemma Works55()
    ensures Works(55)
  {
    Sum55();
    Turn55();
    assert Made(55) == 0x33edb197 && Made(56) == 0xc1e942f1 && Made(57) == 0xd9bb987c && Made(58) == 0x23a68048;
    assert Rotand(55) == 0x7e69aff && Made(59) == 0x83877d1b && ConstantRow(13)[3] == 0x85845dd1;
    assert Block()[WordRow(13)[3]] == 0x68676665;
  }

  lemma Sum56()
    ensures Sums(3, 0xc1e942f1, 0x83877d1b, 0x23a68048, 0xd9bb987c, 0x0, 0x6fa87e4f, 0xb5f3c113) {}
  lemma Turn56()
    ensures Turns(0x83877d1b, 6, 0xb5f3c113, 0x77c208) { ShiftIs(0xb5f3c113, 6, 6, 26); }
  lemma Works56()
    ensures Works(56)
  {
    Sum56();
    Turn56();
    assert Made(56) == 0xc1e942f1 && Made(57) == 0xd9bb987c && Made(58) == 0x23a68048 && Made(59) == 0x83877d1b;
    assert Rotand(56) == 0xb5f3c113 && Made(60) == 0x77c208 && ConstantRow(14)[0] == 0x6fa87e4f;
    assert Block()[WordRow(14)[0]] == 0x0;
  }

  lemma Sum57()
    ensures Sums(3, 0xd9bb987c, 0x77c208, 0x83877d1b, 0x23a68048, 0x0, 0xfe2ce6e0, 0x37e10200) {}
  lemma Turn57()
    ensures Turns(0x77c208, 10, 0x37e10200, 0x847fc2e7) { ShiftIs(0x37e10200, 10, 10, 22); }
  lemma Works57()
    ensures Works(57)
  {
    Sum57();
    Turn57();
    assert Made(57) == 0xd9bb987c && Made(58) == 0x23a68048 && Made(59) == 0x83877d1b && Made(60) == 0x77c208;
    assert Rotand(57) == 0x37e10200 && Made(61) == 0x847fc2e7 && ConstantRow(14)[1] == 0xfe2ce6e0;
    assert Block()[WordRow(14)[1]] == 0x0;
  }

  lemma Sum58()
    ensures Sums(3, 0x23a68048, 0x847fc2e7, 0x77c208, 0x83877d1b, 0x807a79, 0xa3014314, 0xc3303ec4) {}
  lemma Turn58()
    ensures Turns(0x847fc2e7, 15, 0xc3303ec4, 0xa3e2247f) { ShiftIs(0xc3303ec4, 15, 15, 17); }
  lemma Works58()
    ensures Works(58)
  {
    Sum58();
    Turn58();
    assert Made(58) == 0x23a68048 && Made(59) == 0x83877d1b && Made(60) == 0x77c208 && Made(61) == 0x847fc2e7;
    assert Rotand(58) == 0xc3303ec4 && Made(62) == 0xa3e2247f && ConstantRow(14)[2] == 0xa3014314;
    assert Block()[WordRow(14)[2]] == 0x807a79;
  }

  lemma Sum59()
    ensures Sums(3, 0x83877d1b, 0xa3e2247f, 0x847fc2e7, 0x77c208, 0x0, 0x4e0811a1, 0x4d258dd4) {}
  lemma Turn59()
    ensures Turns(0xa3e2247f, 21, 0x4d258dd4, 0x5e6bc930) { ShiftIs(0x4d258dd4, 21, 21, 11); }
  lemma Works59()
    ensures Works(59)
  {
    Sum59();
    Turn59();
    assert Made(59) == 0x83877d1b && Made(60) == 0x77c208 && Made(61) == 0x847fc2e7 && Made(62) == 0xa3e2247f;
    assert Rotand(59) == 0x4d258dd4 && Made(63) == 0x5e6bc930 && ConstantRow(14)[3] == 0x4e0811a1;
    assert Block()[WordRow(14)[3]] == 0x0;
  }

  lemma Sum60()
    ensures Sums(3, 0x77c208, 0x5e6bc930, 0xa3e2247f, 0x847fc2e7, 0x74737271, 0xf7537e82, 0x48488c42) {}
  lemma Turn60()
    ensures Turns(0x5e6bc930, 6, 0x48488c42, 0x708ed9c2) { ShiftIs(0x48488c42, 6, 6, 26); }
  lemma Works60()
    ensures Works(60)
  {
    Sum60();
    Turn60();
    assert Made(60) == 0x77c208 && Made(61) == 0x847fc2e7 && Made(62) == 0xa3e2247f && Made(63) == 0x5e6bc930;
    assert Rotand(60) == 0x48488c42 && Made(64) == 0x708ed9c2 && ConstantRow(15)[0] == 0xf7537e82;
    assert Block()[WordRow(15)[0]] == 0x74737271;
  }

  lemma Sum61()
    ensures Sums(3, 0x847fc2e7, 0x708ed9c2, 0x5e6bc930, 0xa3e2247f, 0x0, 0xbd3af235, 0x64aec80e) {}
  lemma Turn61()
    ensures Turns(0x708ed9c2, 10, 0x64aec80e, 0x2baf1354) { ShiftIs(0x64aec80e, 10, 10, 22); }
  lemma Works61()
    ensures Works(61)
  {
    Sum61();
    Turn61();
    assert Made(61) == 0x847fc2e7 && Made(62) == 0xa3e2247f && Made(63) == 0x5e6bc930 && Made(64) == 0x708ed9c2;
    assert Rotand(61) == 0x64aec80e && Made(65) == 0x2baf1354 && ConstantRow(15)[1] == 0xbd3af235;
    assert Block()[WordRow(15)[1]] == 0x0;
  }

  lemma Sum62()
    ensures Sums(3, 0xa3e2247f, 0x2baf1354, 0x708ed9c2, 0x5e6bc930, 0x6c6b6a69, 0x2ad7d2bb, 0x16574fc0) {}
  lemma Turn62()
    ensures Turns(0x2baf1354, 15, 0x16574fc0, 0xd38f1e7f) { ShiftIs(0x16574fc0, 15, 15, 17); }
  lemma Works62()
    ensures Works(62)
  {
    Sum62();
    Turn62();
    assert Made(62) == 0xa3e2247f && Made(63) == 0x5e6bc930 && Made(64) == 0x708ed9c2 && Made(65) == 0x2baf1354;
    assert Rotand(62) == 0x16574fc0 && Made(66) == 0xd38f1e7f && ConstantRow(15)[2] == 0x2ad7d2bb;
    assert Block()[WordRow(15)[2]] == 0x6c6b6a69;
  }

  lemma Sum63()
    ensures Sums(3, 0x5e6bc930, 0xd38f1e7f, 0x2baf1354, 0x708ed9c2, 0x0, 0xeb86d391, 0x3e42c9ec) {}
  lemma Turn63()
    ensures Turns(0xd38f1e7f, 21, 0x3e42c9ec, 0x1116e6d8) { ShiftIs(0x3e42c9ec, 21, 21, 11); }
  lemma Works63()
    ensures Works(63)
  {
    Sum63();
    Turn63();
    assert Made(63) == 0x5e6bc930 && Made(64) == 0x708ed9c2 && Made(65) == 0x2baf1354 && Made(66) == 0xd38f1e7f;
    assert Rotand(63) == 0x3e42c9ec && Made(67) == 0x1116e6d8 && ConstantRow(15)[3] == 0xeb86d391;
    assert Block()[WordRow(15)[3]] == 0x0;
  }

  lemma WorkFrom0(i: nat)
    requires 0 <= i < 8
    ensures Works(i)
  {
    if i == 0 { Works0(); }
    if i == 1 { Works1(); }
    if i == 2 { Works2(); }
    if i == 3 { Works3(); }
    if i == 4 { Works4(); }
    if i == 5 { Works5(); }
    if i == 6 { Works6(); }
    if i == 7 { Works7(); }
  }

  lemma WorkFrom8(i: nat)
    requires 8 <= i < 16
    ensures Works(i)
  {
    if i == 8 { Works8(); }
    if i == 9 { Works9(); }
    if i == 10 { Works10(); }
    if i == 11 { Works11(); }
    if i == 12 { Works12(); }
    if i == 13 { Works13(); }
    if i == 14 { Works14(); }
    if i == 15 { Works15(); }
  }

  lemma WorkFrom16(i: nat)
    requires 16 <= i < 24
    ensures Works(i)
  {
    if i == 16 { Works16(); }
    if i == 17 { Works17(); }
    if i == 18 { Works18(); }
    if i == 19 { Works19(); }
    if i == 20 { Works20(); }
    if i == 21 { Works21(); }
    if i == 22 { Works22(); }
    if i == 23 { Works23(); }
  }

  lemma WorkFrom24(i: nat)
    requires 24 <= i < 32
    ensures Works(i)
  {
    if i == 24 { Works24(); }
    if i == 25 { Works25(); }
    if i == 26 { Works26(); }
    if i == 27 { Works27(); }
    if i == 28 { Works28(); }
    if i == 29 { Works29(); }
    if i == 30 { Works30(); }
    if i == 31 { Works31(); }
  }

  lemma WorkFrom32(i: nat)
    requires 32 <= i < 40
    ensures Works(i)
  {
    if i == 32 { Works32(); }
    if i == 33 { Works33(); }
    if i == 34 { Works34(); }
    if i == 35 { Works35(); }
    if i == 36 { Works36(); }
    if i == 37 { Works37(); }
    if i == 38 { Works38(); }
    if i == 39 { Works39(); }
  }

  lemma WorkFrom40(i: nat)
    requires 40 <= i < 48
    ensures Works(i)
  {
    if i == 40 { Works40(); }
    if i == 41 { Works41(); }
    if i == 42 { Works42(); }
    if i == 43 { Works43(); }
    if i == 44 { Works44(); }
    if i == 45 { Works45(); }
    if i == 46 { Works46(); }
    if i == 47 { Works47(); }
  }

  lemma WorkFrom48(i: nat)
    requires 48 <= i < 56
    ensures Works(i)
  {
    if i == 48 { Works48(); }
    if i == 49 { Works49(); }
    if i == 50 { Works50(); }
    if i == 51 { Works51(); }
    if i == 52 { Works52(); }
    if i == 53 { Works53(); }
    if i == 54 { Works54(); }
    if i == 55 { Works55(); }
  }

  lemma WorkFrom56(i: nat)
    requires 56 <= i < 64
    ensures Works(i)
  {
    if i == 56 { Works56(); }
    if i == 57 { Works57(); }
    if i == 58 { Works58(); }
    if i == 59 { Works59(); }
    if i == 60 { Works60(); }
    if i == 61 { Works61(); }
    if i == 62 { Works62(); }
    if i == 63 { Works63(); }
  }

  lemma AllWork(i: nat)
    requires i < 64
    ensures Works(i)
  {
    if 0 <= i < 8 { WorkFrom0(i); }
    if 8 <= i < 16 { WorkFrom8(i); }
    if 16 <= i < 24 { WorkFrom16(i); }
    if 24 <= i < 32 { WorkFrom24(i); }
    if 32 <= i < 40 { WorkFrom32(i); }
    if 40 <= i < 48 { WorkFrom40(i); }
    if 48 <= i < 56 { WorkFrom48(i); }
    if 56 <= i < 64 { WorkFrom56(i); }
  }

  /** Primitives that are those of md5.c, point by point. */
  ghost predicate IsMd5(R: Primitives<Word>) {
    && Tables(R) && R.initial == State()
    && (forall i :: 0 <= i < 64 ==> R.P[i] == WordRow(i / 4)[i % 4] && R.C[i] == ConstantRow(i / 4)[i % 4])
    && (forall i :: 0 <= i < 16 ==> R.S[i] == ShiftRow(i / 4)[i % 4])
    && (forall x, y :: R.add(x, y) == Add(x, y)) && (forall x, n :: R.rotate(x, n) == RotateLeft(x, n))
    && (forall q, x, y, z :: R.mix(q, x, y, z) == Mix(q, x, y, z)) && (forall n :: R.word(n) == ToWord(n))
    && (forall s :: R.decode(s) == DecodeWords(s)) && forall ws :: R.encode(ws) == EncodeWords(ws)
  }

  function State(): Regs<Word> { Regs(0x67452301, 0xefcdab89, 0x98badcfe, 0x10325476) }

  lemma Md5IsMd5()
    ensures IsMd5(Md5()) && Lawful(Md5())
  {
    Md5Lawful();
  }

  lemma MixIs(q: nat, b: bv32, c: bv32, d: bv32)
    ensures Mix(q, Value(b), Value(c), Value(d)) == Value(MixBits(q, b, c, d))
  {
    BitsOfValue(b);
    BitsOfValue(c);
    BitsOfValue(d);
  }

  lemma RotateIs(u: bv32, s: nat)
    ensures RotateLeft(Value(u), s) == Value(RotateBits(u, s))
  {
    BitsOfValue(u);
  }

  lemma OpIs(R: Primitives<Word>, q: nat, a: bv32, b: bv32, c: bv32, d: bv32, x: Word, s: nat, t: Word,
             u: bv32, r: bv32)
    requires IsMd5(R) && Fits(q, a, b, c, d, x, s, t, u, r)
    ensures Op(R, q, Value(a), Value(b), Value(c), Value(d), x, s, t) == Value(r)
  {
    MixIs(q, b, c, d);
    RotateIs(u, s);
    OpFrom(R, q, Value(a), Value(b), Value(c), Value(d), x, s, t, Value(MixBits(q, b, c, d)), Value(u),
           Value(RotateBits(u, s)), Value(r));
  }

  lemma OpFrom(R: Primitives<Word>, q: nat, a: Word, b: Word, c: Word, d: Word, x: Word, s: nat, t: Word,
               f: Word, w: Word, v: Word, r: Word)
    requires IsMd5(R) && f == Mix(q, b, c, d) && w == Add(a, Add(Add(f, x), t))
    requires v == RotateLeft(w, s) && r == Add(v, b)
    ensures Op(R, q, a, b, c, d, x, s, t) == r
  {}

  // ---- a course of steps ----

  ghost predicate FitsAt(R: Primitives<Word>, x: seq<Word>, made: seq<bv32>, sums: seq<bv32>, i: nat)
    requires Tables(R) && |x| == 16 && |made| == 68 && |sums| == 64 && i < 64
  {
    Fits(i / 16, made[i], made[i + 3], made[i + 2], made[i + 1], x[R.P[i]], R.S[4 * (i / 16) + i % 4], R.C[i],
         sums[i], made[i + 4])
  }

  /** The registers of the rotating form before step n. */
  function Held(made: seq<bv32>, n: nat): Regs<Word>
    requires n + 3 < |made|
  {
    Regs(Value(made[n]), Value(made[n + 3]), Value(made[n + 2]), Value(made[n + 1]))
  }

  lemma StepHeld(R: Primitives<Word>, x: seq<Word>, made: seq<bv32>, sums: seq<bv32>, i: nat)
    requires IsMd5(R) && |x| == 16 && |made| == 68 && |sums| == 64 && i < 64
    requires FitsAt(R, x, made, sums, i)
    ensures RotatingStep(R, Held(made, i), x, i) == Held(made, i + 1)
  {
    HeldOp(R, x, made, sums, i, Held(made, i));
    StepFrom(R, x, Held(made, i), i, Value(made[i + 4]));
  }

  lemma HeldOp(R: Primitives<Word>, x: seq<Word>, made: seq<bv32>, sums: seq<bv32>, i: nat, o: Regs<Word>)
    requires IsMd5(R) && |x| == 16 && |made| == 68 && |sums| == 64 && i < 64
    requires FitsAt(R, x, made, sums, i) && o == Held(made, i)
    ensures Op(R, i / 16, o.a, o.b, o.c, o.d, x[R.P[i]], R.S[4 * (i / 16) + i % 4], R.C[i]) == Value(made[i + 4])
  {
    OpIs(R, i / 16, made[i], made[i + 3], made[i + 2], made[i + 1], x[R.P[i]], R.S[4 * (i / 16) + i % 4], R.C[i],
         sums[i], made[i + 4]);
  }

  lemma StepFrom(R: Primitives<Word>, x: seq<Word>, o: Regs<Word>, i: nat, r: Word)
    requires Tables(R) && |x| == 16 && i < 64
    requires Op(R, i / 16, o.a, o.b, o.c, o.d, x[R.P[i]], R.S[4 * (i / 16) + i % 4], R.C[i]) == r
    ensures RotatingStep(R, o, x, i) == Regs(o.d, r, o.b, o.c)
  {}

  lemma {:induction false} StepsHeld(R: Primitives<Word>, x: seq<Word>, made: seq<bv32>, sums: seq<bv32>, n: nat)
    requires IsMd5(R) && |x| == 16 && |made| == 68 && |sums| == 64 && n <= 64
    requires forall i :: 0 <= i < 64 ==> FitsAt(R, x, made, sums, i)
    ensures RotatingSteps(R, Held(made, 0), x, n) == Held(made, n)
    decreases n
  {
    if n > 0 {
      StepsHeld(R, x, made, sums, n - 1);
      StepHeld(R, x, made, sums, n - 1);
    }
  }

  lemma ShiftAt(R: Primitives<Word>, q: nat, k: nat)
    requires IsMd5(R) && q < 4 && k < 4
    ensures R.S[4 * q + k] == ShiftRow(q)[k]
  {
    InRow(q, k);
  }

  /** The words of the padded message. */
  ghost predicate IsBlock(x: seq<Word>) { |x| == 16 && forall k :: 0 <= k < 16 ==> x[k] == Block()[k] }

  lemma LettersFit(R: Primitives<Word>, x: seq<Word>, made: seq<bv32>, sums: seq<bv32>, i: nat)
    requires IsMd5(R) && IsBlock(x) && i < 64
    requires |made| == 68 && |sums| == 64 && (forall k :: 0 <= k < 68 ==> made[k] == Made(k))
    requires forall k :: 0 <= k < 64 ==> sums[k] == Rotand(k)
    ensures FitsAt(R, x, made, sums, i)
  {
    ListsWork(made, sums, i);
    ShiftAt(R, i / 16, i % 4);
    assert x[R.P[i]] == Block()[WordRow(i / 4)[i % 4]];
  }

  /** Works, for the registers and sums in lists. */
  predicate WorksIn(made: seq<bv32>, sums: seq<bv32>, i: nat)
    requires |made| == 68 && |sums| == 64 && i < 64
  {
    Fits(i / 16, made[i], made[i + 3], made[i + 2], made[i + 1], Block()[WordRow(i / 4)[i % 4]],
         ShiftRow(i / 16)[i % 4], ConstantRow(i / 4)[i % 4], sums[i], made[i + 4])
  }

  lemma ListsWork(made: seq<bv32>, sums: seq<bv32>, i: nat)
    requires |made| == 68 && |sums| == 64 && i < 64 && (forall k :: 0 <= k < 68 ==> made[k] == Made(k))
    requires forall k :: 0 <= k < 64 ==> sums[k] == Rotand(k)
    ensures WorksIn(made, sums, i)
  {
    AllWork(i);
  }

  lemma Ends(made: seq<bv32>, n: nat)
    requires |made| == 68 && (forall k :: 0 <= k < 68 ==> made[k] == Made(k)) && n == 64
    ensures Held(made, 0) == State() && Held(made, n) == Regs(0x708ed9c2, 0x1116e6d8, 0xd38f1e7f, 0x2baf1354)
  {
    assert made[0] == Made(0) && made[1] == Made(1) && made[2] == Made(2) && made[3] == Made(3);
    assert made[64] == Made(64) && made[65] == Made(65) && made[66] == Made(66) && made[67] == Made(67);
  }

  function Answer(): Regs<Word> { Regs(0xd7d3fcc3, 0xe49261, 0x6c49fb7d, 0x3be167ca) }

  lemma AnswerIs(R: Primitives<Word>)
    requires IsMd5(R)
    ensures AddRegs(R, R.initial, Regs(0x708ed9c2, 0x1116e6d8, 0xd38f1e7f, 0x2baf1354)) == Answer()
  {}

  lemma StepsKnown(R: Primitives<Word>, x: seq<Word>, n: nat)
    requires IsMd5(R) && IsBlock(x) && 63 < n < 65
    ensures RotatingSteps(R, R.initial, x, n) == Regs(0x708ed9c2, 0x1116e6d8, 0xd38f1e7f, 0x2baf1354)
  {
    var made, sums := seq(68, k requires 0 <= k < 68 => Made(k)), seq(64, k requires 0 <= k < 64 => Rotand(k));
    StepsMade(R, x, made, sums, n);
    Ends(made, n);
  }

  lemma StepsMade(R: Primitives<Word>, x: seq<Word>, made: seq<bv32>, sums: seq<bv32>, n: nat)
    requires IsMd5(R) && IsBlock(x) && n <= 64
    requires |made| == 68 && |sums| == 64 && (forall k :: 0 <= k < 68 ==> made[k] == Made(k))
    requires forall k :: 0 <= k < 64 ==> sums[k] == Rotand(k)
    ensures RotatingSteps(R, Held(made, 0), x, n) == Held(made, n)
  {
    forall i | 0 <= i < 64 ensures FitsAt(R, x, made, sums, i) { LettersFit(R, x, made, sums, i); }
    StepsHeld(R, x, made, sums, n);
  }

  lemma TransformKnown(R: Primitives<Word>, x: seq<Word>)
    requires IsMd5(R) && IsBlock(x)
    ensures Transform(R, R.initial, x) == Answer()
  {
    StepsKnown(R, x, 64);
    RotatingTransform(R, R.initial, x);
    AnswerIs(R);
  }

  // ---- the message ----

  /** abcdefghijklmnopqrstuvwxyz */
  predicate IsLetters(m: seq<byte>) { |m| == 26 && forall i :: 0 <= i < 26 ==> m[i] == 97 + i }

  lemma LengthOfLetters(R: Primitives<Word>)
    requires IsMd5(R)
    ensures LengthBytes(R, 26) == [208, 0, 0, 0, 0, 0, 0, 0]
  {
    TwoWords(208, 0);
  }

  lemma LettersPadded(m: seq<byte>, p: seq<byte>)
    requires IsLetters(m) && p == m + ([0x80] + Zeros(29)) + [208, 0, 0, 0, 0, 0, 0, 0]
    ensures |p| == 64 && (forall i :: 0 <= i < 26 ==> p[i] == 97 + i) && p[26] == 0x80 && p[56] == 208
    ensures forall i :: 27 <= i < 64 && i != 56 ==> p[i] == 0
  {}

  lemma LettersDecoded(p: seq<byte>)
    requires |p| == 64 && (forall i :: 0 <= i < 26 ==> p[i] == 97 + i) && p[26] == 0x80 && p[56] == 208
    requires forall i :: 27 <= i < 64 && i != 56 ==> p[i] == 0
    ensures IsBlock(DecodeWords(p))
  {
    forall i | 0 <= i < 16 ensures WordOf(p[4 * i], p[4 * i + 1], p[4 * i + 2], p[4 * i + 3]) == Block()[i] {
      if i < 6 { LetterWord(i, 97 + 4 * i); } else { OtherWord(i); }
    }
  }

  lemma OtherWord(i: nat)
    requires 6 <= i < 16
    ensures Block()[i] == if i == 6 then WordOf(121, 122, 128, 0) else if i == 14 then 208 else 0
  {}

  lemma LetterWord(i: nat, a: byte)
    requires i < 6 && a == 97 + 4 * i
    ensures WordOf(a, a + 1, a + 2, a + 3) == Block()[i]
  {}

  lemma FourWords(a: Word, b: Word, c: Word, d: Word)
    ensures EncodeWords([a, b, c, d]) == BytesOf(a) + BytesOf(b) + BytesOf(c) + BytesOf(d)
  {
    TwoWords(a, b);
    EncodePush([a, b], c);
    EncodePush([a, b, c], d);
    assert [a, b] + [c] == [a, b, c] && [a, b, c] + [d] == [a, b, c, d];
  }

  lemma FoldKnown(R: Primitives<Word>, p: seq<byte>)
    requires IsMd5(R) && Lawful(R) && |p| == 64 && IsBlock(DecodeWords(p))
    ensures FoldBlocks(R, R.initial, p) == Answer()
  {
    FoldOne(R, R.initial, p);
    TransformKnown(R, R.decode(p));
  }

  lemma PaddedLetters(R: Primitives<Word>, m: seq<byte>, n: nat, p: seq<byte>)
    requires IsMd5(R) && IsLetters(m) && n == 26 && p == m + Padding(n) + LengthBytes(R, n)
    ensures |p| == 64 && IsBlock(DecodeWords(p))
  {
    assert ZeroCount(n) == 29;
    LengthOfLetters(R);
    LettersPadded(m, p);
    LettersDecoded(p);
  }

  lemma EncodedAnswer(r: Regs<Word>)
    requires r == Answer()
    ensures EncodeWords([r.a, r.b, r.c, r.d]) ==
            [0xc3, 0xfc, 0xd3, 0xd7, 0x61, 0x92, 0xe4, 0x0,
             0x7d, 0xfb, 0x49, 0x6c, 0xca, 0x67, 0xe1, 0x3b]
  {
    FourWords(r.a, r.b, r.c, r.d);
    FirstBytes(r.a, r.b);
    LastBytes(r.c, r.d);
  }

  lemma FirstBytes(a: Word, b: Word)
    requires a == 0xd7d3fcc3 && b == 0xe49261
    ensures BytesOf(a) == [0xc3, 0xfc, 0xd3, 0xd7] && BytesOf(b) == [0x61, 0x92, 0xe4, 0x0]
  {}

  lemma LastBytes(c: Word, d: Word)
    requires c == 0x6c49fb7d && d == 0x3be167ca
    ensures BytesOf(c) == [0x7d, 0xfb, 0x49, 0x6c] && BytesOf(d) == [0xca, 0x67, 0xe1, 0x3b]
  {}

  lemma DigestIs(R: Primitives<Word>, m: seq<byte>, p: seq<byte>, r: Regs<Word>)
    requires Lawful(R) && p == m + Padding(|m|) + LengthBytes(R, |m|) && FoldBlocks(R, R.initial, p) == r
    ensures Digest(R, m) == R.encode([r.a, r.b, r.c, r.d])
  {}

  /** The digest of the lower-case alphabet, as RFC 1321 gives it. */
  lemma LettersDigest(R: Primitives<Word>, m: seq<byte>)
    requires IsMd5(R) && Lawful(R) && IsLetters(m)
    ensures Digest(R, m) ==
            [0xc3, 0xfc, 0xd3, 0xd7, 0x61, 0x92, 0xe4, 0x0,
             0x7d, 0xfb, 0x49, 0x6c, 0xca, 0x67, 0xe1, 0x3b]
  {
    var p := m + Padding(|m|) + LengthBytes(R, |m|);
    PaddedLetters(R, m, |m|, p);
    FoldKnown(R, p);
    DigestIs(R, m, p, Answer());
    EncodedAnswer(Answer());
  }
}
