/**
 * Reflection undoes itself: reflecting twice gives back the low `width` bits.
 * Proved width by width, since each width fixes the final shift.
 */
module ReflectionInverse {
  import opened Bits
  import opened Reflection

  lemma Involution1(width: bv8, value: bv64)
    requires width == 1
    ensures Reflect(width, Reflect(width, value)) == LowBits(value, width)
  {
  }

  lemma Involution2(width: bv8, value: bv64)
    requires width == 2
    ensures Reflect(width, Reflect(width, value)) == LowBits(value, width)
  {
  }

  lemma Involution3(width: bv8, value: bv64)
    requires width == 3
    ensures Reflect(width, Reflect(width, value)) == LowBits(value, width)
  {
  }

  lemma Involution4(width: bv8, value: bv64)
    requires width == 4
    ensures Reflect(width, Reflect(width, value)) == LowBits(value, width)
  {
  }

  lemma Involution5(width: bv8, value: bv64)
    requires width == 5
    ensures Reflect(width, Reflect(width, value)) == LowBits(value, width)
  {
  }

  lemma Involution6(width: bv8, value: bv64)
    requires width == 6
    ensures Reflect(width, Reflect(width, value)) == LowBits(value, width)
  {
  }

  lemma Involution7(width: bv8, value: bv64)
    requires width == 7
    ensures Reflect(width, Reflect(width, value)) == LowBits(value, width)
  {
  }

  lemma Involution8(width: bv8, value: bv64)
    requires width == 8
    ensures Reflect(width, Reflect(width, value)) == LowBits(value, width)
  {
  }

  lemma Involution9(width: bv8, value: bv64)
    requires width == 9
    ensures Reflect(width, Reflect(width, value)) == LowBits(value, width)
  {
  }

  lemma Involution10(width: bv8, value: bv64)
    requires width == 10
    ensures Reflect(width, Reflect(width, value)) == LowBits(value, width)
  {
  }

  lemma Involution11(width: bv8, value: bv64)
    requires width == 11
    ensures Reflect(width, Reflect(width, value)) == LowBits(value, width)
  {
  }

  lemma Involution12(width: bv8, value: bv64)
    requires width == 12
    ensures Reflect(width, Reflect(width, value)) == LowBits(value, width)
  {
  }

  lemma Involution13(width: bv8, value: bv64)
    requires width == 13
    ensures Reflect(width, Reflect(width, value)) == LowBits(value, width)
  {
  }

  lemma Involution14(width: bv8, value: bv64)
    requires width == 14
    ensures Reflect(width, Reflect(width, value)) == LowBits(value, width)
  {
  }

  lemma Involution15(width: bv8, value: bv64)
    requires width == 15
    ensures Reflect(width, Reflect(width, value)) == LowBits(value, width)
  {
  }

  lemma Involution16(width: bv8, value: bv64)
    requires width == 16
    ensures Reflect(width, Reflect(width, value)) == LowBits(value, width)
  {
  }

  lemma Involution17(width: bv8, value: bv64)
    requires width == 17
    ensures Reflect(width, Reflect(width, value)) == LowBits(value, width)
  {
  }

  lemma Involution18(width: bv8, value: bv64)
    requires width == 18
    ensures Reflect(width, Reflect(width, value)) == LowBits(value, width)
  {
  }

  lemma Involution19(width: bv8, value: bv64)
    requires width == 19
    ensures Reflect(width, Reflect(width, value)) == LowBits(value, width)
  {
  }

  lemma Involution20(width: bv8, value: bv64)
    requires width == 20
    ensures Reflect(width, Reflect(width, value)) == LowBits(value, width)
  {
  }

  lemma Involution21(width: bv8, value: bv64)
    requires width == 21
    ensures Reflect(width, Reflect(width, value)) == LowBits(value, width)
  {
  }

  lemma Involution22(width: bv8, value: bv64)
    requires width == 22
    ensures Reflect(width, Reflect(width, value)) == LowBits(value, width)
  {
  }

  lemma Involution23(width: bv8, value: bv64)
    requires width == 23
    ensures Reflect(width, Reflect(width, value)) == LowBits(value, width)
  {
  }

  lemma Involution24(width: bv8, value: bv64)
    requires width == 24
    ensures Reflect(width, Reflect(width, value)) == LowBits(value, width)
  {
  }

  lemma Involution25(width: bv8, value: bv64)
    requires width == 25
    ensures Reflect(width, Reflect(width, value)) == LowBits(value, width)
  {
  }

  lemma Involution26(width: bv8, value: bv64)
    requires width == 26
    ensures Reflect(width, Reflect(width, value)) == LowBits(value, width)
  {
  }

  lemma Involution27(width: bv8, value: bv64)
    requires width == 27
    ensures Reflect(width, Reflect(width, value)) == LowBits(value, width)
  {
  }

  lemma Involution28(width: bv8, value: bv64)
    requires width == 28
    ensures Reflect(width, Reflect(width, value)) == LowBits(value, width)
  {
  }

  lemma Involution29(width: bv8, value: bv64)
    requires width == 29
    ensures Reflect(width, Reflect(width, value)) == LowBits(value, width)
  {
  }

  lemma Involution30(width: bv8, value: bv64)
    requires width == 30
    ensures Reflect(width, Reflect(width, value)) == LowBits(value, width)
  {
  }

  lemma Involution31(width: bv8, value: bv64)
    requires width == 31
    ensures Reflect(width, Reflect(width, value)) == LowBits(value, width)
  {
  }

  lemma Involution32(width: bv8, value: bv64)
    requires width == 32
    ensures Reflect(width, Reflect(width, value)) == LowBits(value, width)
  {
  }

  lemma Involution33(width: bv8, value: bv64)
    requires width == 33
    ensures Reflect(width, Reflect(width, value)) == LowBits(value, width)
  {
  }

  lemma Involution34(width: bv8, value: bv64)
    requires width == 34
    ensures Reflect(width, Reflect(width, value)) == LowBits(value, width)
  {
  }

  lemma Involution35(width: bv8, value: bv64)
    requires width == 35
    ensures Reflect(width, Reflect(width, value)) == LowBits(value, width)
  {
  }

  lemma Involution36(width: bv8, value: bv64)
    requires width == 36
    ensures Reflect(width, Reflect(width, value)) == LowBits(value, width)
  {
  }

  lemma Involution37(width: bv8, value: bv64)
    requires width == 37
    ensures Reflect(width, Reflect(width, value)) == LowBits(value, width)
  {
  }

  lemma Involution38(width: bv8, value: bv64)
    requires width == 38
    ensures Reflect(width, Reflect(width, value)) == LowBits(value, width)
  {
  }

  lemma Involution39(width: bv8, value: bv64)
    requires width == 39
    ensures Reflect(width, Reflect(width, value)) == LowBits(value, width)
  {
  }

  lemma Involution40(width: bv8, value: bv64)
    requires width == 40
    ensures Reflect(width, Reflect(width, value)) == LowBits(value, width)
  {
  }

  lemma Involution41(width: bv8, value: bv64)
    requires width == 41
    ensures Reflect(width, Reflect(width, value)) == LowBits(value, width)
  {
  }

  lemma Involution42(width: bv8, value: bv64)
    requires width == 42
    ensures Reflect(width, Reflect(width, value)) == LowBits(value, width)
  {
  }

  lemma Involution43(width: bv8, value: bv64)
    requires width == 43
    ensures Reflect(width, Reflect(width, value)) == LowBits(value, width)
  {
  }

  lemma Involution44(width: bv8, value: bv64)
    requires width == 44
    ensures Reflect(width, Reflect(width, value)) == LowBits(value, width)
  {
  }

  lemma Involution45(width: bv8, value: bv64)
    requires width == 45
    ensures Reflect(width, Reflect(width, value)) == LowBits(value, width)
  {
  }

  lemma Involution46(width: bv8, value: bv64)
    requires width == 46
    ensures Reflect(width, Reflect(width, value)) == LowBits(value, width)
  {
  }

  lemma Involution47(width: bv8, value: bv64)
    requires width == 47
    ensures Reflect(width, Reflect(width, value)) == LowBits(value, width)
  {
  }

  lemma Involution48(width: bv8, value: bv64)
    requires width == 48
    ensures Reflect(width, Reflect(width, value)) == LowBits(value, width)
  {
  }

  lemma Involution49(width: bv8, value: bv64)
    requires width == 49
    ensures Reflect(width, Reflect(width, value)) == LowBits(value, width)
  {
  }

  lemma Involution50(width: bv8, value: bv64)
    requires width == 50
    ensures Reflect(width, Reflect(width, value)) == LowBits(value, width)
  {
  }

  lemma Involution51(width: bv8, value: bv64)
    requires width == 51
    ensures Reflect(width, Reflect(width, value)) == LowBits(value, width)
  {
  }

  lemma Involution52(width: bv8, value: bv64)
    requires width == 52
    ensures Reflect(width, Reflect(width, value)) == LowBits(value, width)
  {
  }

  lemma Involution53(width: bv8, value: bv64)
    requires width == 53
    ensures Reflect(width, Reflect(width, value)) == LowBits(value, width)
  {
  }

  lemma Involution54(width: bv8, value: bv64)
    requires width == 54
    ensures Reflect(width, Reflect(width, value)) == LowBits(value, width)
  {
  }

  lemma Involution55(width: bv8, value: bv64)
    requires width == 55
    ensures Reflect(width, Reflect(width, value)) == LowBits(value, width)
  {
  }

  lemma Involution56(width: bv8, value: bv64)
    requires width == 56
    ensures Reflect(width, Reflect(width, value)) == LowBits(value, width)
  {
  }

  lemma Involution57(width: bv8, value: bv64)
    requires width == 57
    ensures Reflect(width, Reflect(width, value)) == LowBits(value, width)
  {
  }

  lemma Involution58(width: bv8, value: bv64)
    requires width == 58
    ensures Reflect(width, Reflect(width, value)) == LowBits(value, width)
  {
  }

  lemma Involution59(width: bv8, value: bv64)
    requires width == 59
    ensures Reflect(width, Reflect(width, value)) == LowBits(value, width)
  {
  }

  lemma Involution60(width: bv8, value: bv64)
    requires width == 60
    ensures Reflect(width, Reflect(width, value)) == LowBits(value, width)
  {
  }

  lemma Involution61(width: bv8, value: bv64)
    requires width == 61
    ensures Reflect(width, Reflect(width, value)) == LowBits(value, width)
  {
  }

  lemma Involution62(width: bv8, value: bv64)
    requires width == 62
    ensures Reflect(width, Reflect(width, value)) == LowBits(value, width)
  {
  }

  lemma Involution63(width: bv8, value: bv64)
    requires width == 63
    ensures Reflect(width, Reflect(width, value)) == LowBits(value, width)
  {
  }

  lemma Involution64(width: bv8, value: bv64)
    requires width == 64
    ensures Reflect(width, Reflect(width, value)) == LowBits(value, width)
  {
  }

  /** Reflecting twice keeps exactly the low `width` bits of the value. */
  lemma ReflectInvolution(width: bv8, value: bv64)
    requires 1 <= width <= 64
    ensures Reflect(width, Reflect(width, value)) == LowBits(value, width)
  {
    hide *;
    if width == 1 {
      Involution1(width, value);
    } else if width == 2 {
      Involution2(width, value);
    } else if width == 3 {
      Involution3(width, value);
    } else if width == 4 {
      Involution4(width, value);
    } else if width == 5 {
      Involution5(width, value);
    } else if width == 6 {
      Involution6(width, value);
    } else if width == 7 {
      Involution7(width, value);
    } else if width == 8 {
      Involution8(width, value);
    } else if width == 9 {
      Involution9(width, value);
    } else if width == 10 {
      Involution10(width, value);
    } else if width == 11 {
      Involution11(width, value);
    } else if width == 12 {
      Involution12(width, value);
    } else if width == 13 {
      Involution13(width, value);
    } else if width == 14 {
      Involution14(width, value);
    } else if width == 15 {
      Involution15(width, value);
    } else if width == 16 {
      Involution16(width, value);
    } else if width == 17 {
      Involution17(width, value);
    } else if width == 18 {
      Involution18(width, value);
    } else if width == 19 {
      Involution19(width, value);
    } else if width == 20 {
      Involution20(width, value);
    } else if width == 21 {
      Involution21(width, value);
    } else if width == 22 {
      Involution22(width, value);
    } else if width == 23 {
      Involution23(width, value);
    } else if width == 24 {
      Involution24(width, value);
    } else if width == 25 {
      Involution25(width, value);
    } else if width == 26 {
      Involution26(width, value);
    } else if width == 27 {
      Involution27(width, value);
    } else if width == 28 {
      Involution28(width, value);
    } else if width == 29 {
      Involution29(width, value);
    } else if width == 30 {
      Involution30(width, value);
    } else if width == 31 {
      Involution31(width, value);
    } else if width == 32 {
      Involution32(width, value);
    } else if width == 33 {
      Involution33(width, value);
    } else if width == 34 {
      Involution34(width, value);
    } else if width == 35 {
      Involution35(width, value);
    } else if width == 36 {
      Involution36(width, value);
    } else if width == 37 {
      Involution37(width, value);
    } else if width == 38 {
      Involution38(width, value);
    } else if width == 39 {
      Involution39(width, value);
    } else if width == 40 {
      Involution40(width, value);
    } else if width == 41 {
      Involution41(width, value);
    } else if width == 42 {
      Involution42(width, value);
    } else if width == 43 {
      Involution43(width, value);
    } else if width == 44 {
      Involution44(width, value);
    } else if width == 45 {
      Involution45(width, value);
    } else if width == 46 {
      Involution46(width, value);
    } else if width == 47 {
      Involution47(width, value);
    } else if width == 48 {
      Involution48(width, value);
    } else if width == 49 {
      Involution49(width, value);
    } else if width == 50 {
      Involution50(width, value);
    } else if width == 51 {
      Involution51(width, value);
    } else if width == 52 {
      Involution52(width, value);
    } else if width == 53 {
      Involution53(width, value);
    } else if width == 54 {
      Involution54(width, value);
    } else if width == 55 {
      Involution55(width, value);
    } else if width == 56 {
      Involution56(width, value);
    } else if width == 57 {
      Involution57(width, value);
    } else if width == 58 {
      Involution58(width, value);
    } else if width == 59 {
      Involution59(width, value);
    } else if width == 60 {
      Involution60(width, value);
    } else if width == 61 {
      Involution61(width, value);
    } else if width == 62 {
      Involution62(width, value);
    } else if width == 63 {
      Involution63(width, value);
    } else {
      Involution64(width, value);
    }
  }
}
