/**
 * Check values of well-known CRC parameter sets: the CRC of the nine ASCII
 * bytes "123456789", as published for each parameter set, worked out by the
 * model one data byte at a time.
 */
module CheckValues {
  import opened Bits
  import opened Engine
  import opened Table
  import opened Properties

  /** The ASCII bytes of "123456789". */
  const CheckMessage: seq<bv8> := [0x31, 0x32, 0x33, 0x34, 0x35, 0x36, 0x37, 0x38, 0x39]

  /** CRC-32: reflected, 32 bits. */
  lemma Crc32Check()
    ensures CrcSpec(32, true, 0x4C11DB7, 0xFFFFFFFF, 0xFFFFFFFF, CheckMessage) == 0xCBF43926
  {
    var data := CheckMessage;
    var p := SetupPoly(32, true, 0x4C11DB7);
    assert p == 0xEDB88320;
    var s := SetupState(32, true, 0xFFFFFFFF);
    assert s == 0xFFFFFFFF;
    assert Process(32, true, p, s, data[..0]) == s;
    assert data[..1][..0] == data[..0];
    assert UpdateSpec(32, true, 0xEDB88320, 0xFFFFFFFF, 0x31) == 0x7C231048;
    assert Process(32, true, p, SetupState(32, true, 0xFFFFFFFF), data[..1]) == 0x7C231048;
    assert data[..2][..1] == data[..1];
    assert UpdateSpec(32, true, 0xEDB88320, 0x7C231048, 0x32) == 0xB0ACBB32;
    assert Process(32, true, p, SetupState(32, true, 0xFFFFFFFF), data[..2]) == 0xB0ACBB32;
    assert data[..3][..2] == data[..2];
    assert UpdateSpec(32, true, 0xEDB88320, 0xB0ACBB32, 0x33) == 0x77B79C2D;
    assert Process(32, true, p, SetupState(32, true, 0xFFFFFFFF), data[..3]) == 0x77B79C2D;
    assert data[..4][..3] == data[..3];
    assert UpdateSpec(32, true, 0xEDB88320, 0x77B79C2D, 0x34) == 0x641C1F5C;
    assert Process(32, true, p, SetupState(32, true, 0xFFFFFFFF), data[..4]) == 0x641C1F5C;
    assert data[..5][..4] == data[..4];
    assert UpdateSpec(32, true, 0xEDB88320, 0x641C1F5C, 0x35) == 0x340AC5E3;
    assert Process(32, true, p, SetupState(32, true, 0xFFFFFFFF), data[..5]) == 0x340AC5E3;
    assert data[..6][..5] == data[..5];
    assert UpdateSpec(32, true, 0xEDB88320, 0x340AC5E3, 0x36) == 0xF68D2C9E;
    assert Process(32, true, p, SetupState(32, true, 0xFFFFFFFF), data[..6]) == 0xF68D2C9E;
    assert data[..7][..6] == data[..6];
    assert UpdateSpec(32, true, 0xEDB88320, 0xF68D2C9E, 0x37) == 0xAFFC9660;
    assert Process(32, true, p, SetupState(32, true, 0xFFFFFFFF), data[..7]) == 0xAFFC9660;
    assert data[..8][..7] == data[..7];
    assert UpdateSpec(32, true, 0xEDB88320, 0xAFFC9660, 0x38) == 0x651F2550;
    assert Process(32, true, p, SetupState(32, true, 0xFFFFFFFF), data[..8]) == 0x651F2550;
    assert data[..9][..8] == data[..8];
    assert UpdateSpec(32, true, 0xEDB88320, 0x651F2550, 0x39) == 0x340BC6D9;
    assert Process(32, true, p, SetupState(32, true, 0xFFFFFFFF), data[..9]) == 0x340BC6D9;
    assert data[..9] == data;
  }

  /** CRC-16/CCITT-FALSE: not reflected, 16 bits. */
  lemma Crc16CcittFalseCheck()
    ensures CrcSpec(16, false, 0x1021, 0xFFFF, 0x0, CheckMessage) == 0x29B1
  {
    var data := CheckMessage;
    var p := SetupPoly(16, false, 0x1021);
    assert p == 0x1021;
    var s := SetupState(16, false, 0xFFFF);
    assert s == 0xFFFF;
    assert Process(16, false, p, s, data[..0]) == s;
    assert data[..1][..0] == data[..0];
    assert UpdateSpec(16, false, 0x1021, 0xFFFF, 0x31) == 0xC2C782;
    assert Process(16, false, p, SetupState(16, false, 0xFFFF), data[..1]) == 0xC2C782;
    assert data[..2][..1] == data[..1];
    assert UpdateSpec(16, false, 0x1021, 0xC2C782, 0x32) == 0xC2FA3DBA;
    assert Process(16, false, p, SetupState(16, false, 0xFFFF), data[..2]) == 0xC2FA3DBA;
    assert data[..3][..2] == data[..2];
    assert UpdateSpec(16, false, 0x1021, 0xC2FA3DBA, 0x33) == 0xC2FA0E5BCE;
    assert Process(16, false, p, SetupState(16, false, 0xFFFF), data[..3]) == 0xC2FA0E5BCE;
    assert data[..4][..3] == data[..3];
    assert UpdateSpec(16, false, 0x1021, 0xC2FA0E5BCE, 0x34) == 0xC2FA0E695349;
    assert Process(16, false, p, SetupState(16, false, 0xFFFF), data[..4]) == 0xC2FA0E695349;
    assert data[..5][..4] == data[..4];
    assert UpdateSpec(16, false, 0x1021, 0xC2FA0E695349, 0x35) == 0xC2FA0E69604560;
    assert Process(16, false, p, SetupState(16, false, 0xFFFF), data[..5]) == 0xC2FA0E69604560;
    assert data[..6][..5] == data[..5];
    assert UpdateSpec(16, false, 0x1021, 0xC2FA0E69604560, 0x36) == 0xC2FA0E6960742EF4;
    assert Process(16, false, p, SetupState(16, false, 0xFFFF), data[..6]) == 0xC2FA0E6960742EF4;
    assert data[..7][..6] == data[..6];
    assert UpdateSpec(16, false, 0x1021, 0xC2FA0E6960742EF4, 0x37) == 0xFA0E696074187718;
    assert Process(16, false, p, SetupState(16, false, 0xFFFF), data[..7]) == 0xFA0E696074187718;
    assert data[..8][..7] == data[..7];
    assert UpdateSpec(16, false, 0x1021, 0xFA0E696074187718, 0x38) == 0xE696074184BA12B;
    assert Process(16, false, p, SetupState(16, false, 0xFFFF), data[..8]) == 0xE696074184BA12B;
    assert data[..9][..8] == data[..8];
    assert UpdateSpec(16, false, 0x1021, 0xE696074184BA12B, 0x39) == 0x696074184B9129B1;
    assert Process(16, false, p, SetupState(16, false, 0xFFFF), data[..9]) == 0x696074184B9129B1;
    assert data[..9] == data;
  }

  /** CRC-8: not reflected, 8 bits. */
  lemma Crc8Check()
    ensures CrcSpec(8, false, 0x7, 0x0, 0x0, CheckMessage) == 0xF4
  {
    var data := CheckMessage;
    var p := SetupPoly(8, false, 0x7);
    assert p == 0x7;
    var s := SetupState(8, false, 0x0);
    assert s == 0x0;
    assert Process(8, false, p, s, data[..0]) == s;
    assert data[..1][..0] == data[..0];
    assert UpdateSpec(8, false, 0x7, 0x0, 0x31) == 0x3197;
    assert Process(8, false, p, SetupState(8, false, 0x0), data[..1]) == 0x3197;
    assert data[..2][..1] == data[..1];
    assert UpdateSpec(8, false, 0x7, 0x3197, 0x32) == 0x31A672;
    assert Process(8, false, p, SetupState(8, false, 0x0), data[..2]) == 0x31A672;
    assert data[..3][..2] == data[..2];
    assert UpdateSpec(8, false, 0x7, 0x31A672, 0x33) == 0x31A640C0;
    assert Process(8, false, p, SetupState(8, false, 0x0), data[..3]) == 0x31A640C0;
    assert data[..4][..3] == data[..3];
    assert UpdateSpec(8, false, 0x7, 0x31A640C0, 0x34) == 0x31A640F6C2;
    assert Process(8, false, p, SetupState(8, false, 0x0), data[..4]) == 0x31A640F6C2;
    assert data[..5][..4] == data[..4];
    assert UpdateSpec(8, false, 0x7, 0x31A640F6C2, 0x35) == 0x31A640F6F5CB;
    assert Process(8, false, p, SetupState(8, false, 0x0), data[..5]) == 0x31A640F6F5CB;
    assert data[..6][..5] == data[..5];
    assert UpdateSpec(8, false, 0x7, 0x31A640F6F5CB, 0x36) == 0x31A640F6F5FFFD;
    assert Process(8, false, p, SetupState(8, false, 0x0), data[..6]) == 0x31A640F6F5FFFD;
    assert data[..7][..6] == data[..6];
    assert UpdateSpec(8, false, 0x7, 0x31A640F6F5FFFD, 0x37) == 0x31A640F6F5FFC878;
    assert Process(8, false, p, SetupState(8, false, 0x0), data[..7]) == 0x31A640F6F5FFC878;
    assert data[..8][..7] == data[..7];
    assert UpdateSpec(8, false, 0x7, 0x31A640F6F5FFC878, 0x38) == 0xA640F6F5FFC841C7;
    assert Process(8, false, p, SetupState(8, false, 0x0), data[..8]) == 0xA640F6F5FFC841C7;
    assert data[..9][..8] == data[..8];
    assert UpdateSpec(8, false, 0x7, 0xA640F6F5FFC841C7, 0x39) == 0x40F6F5FFC841FCF4;
    assert Process(8, false, p, SetupState(8, false, 0x0), data[..9]) == 0x40F6F5FFC841FCF4;
    assert data[..9] == data;
  }

  /** CRC-3/GSM: not reflected, fewer than 8 bits. */
  lemma Crc3GsmCheck()
    ensures CrcSpec(3, false, 0x3, 0x0, 0x7, CheckMessage) == 0x4
  {
    var data := CheckMessage;
    var p := SetupPoly(3, false, 0x3);
    assert p == 0x60;
    var s := SetupState(3, false, 0x0);
    assert s == 0x0;
    assert Process(3, false, p, s, data[..0]) == s;
    assert data[..1][..0] == data[..0];
    assert UpdateSpec(3, false, 0x60, 0x0, 0x31) == 0x3800;
    assert Process(3, false, p, SetupState(3, false, 0x0), data[..1]) == 0x3800;
    assert data[..2][..1] == data[..1];
    assert UpdateSpec(3, false, 0x60, 0x3800, 0x32) == 0x383BA0;
    assert Process(3, false, p, SetupState(3, false, 0x0), data[..2]) == 0x383BA0;
    assert data[..3][..2] == data[..2];
    assert UpdateSpec(3, false, 0x60, 0x383BA0, 0x33) == 0x383BADE0;
    assert Process(3, false, p, SetupState(3, false, 0x0), data[..3]) == 0x383BADE0;
    assert data[..4][..3] == data[..3];
    assert UpdateSpec(3, false, 0x60, 0x383BADE0, 0x34) == 0x383BADF720;
    assert Process(3, false, p, SetupState(3, false, 0x0), data[..4]) == 0x383BADF720;
    assert data[..5][..4] == data[..4];
    assert UpdateSpec(3, false, 0x60, 0x383BADF720, 0x35) == 0x383BADF713A0;
    assert Process(3, false, p, SetupState(3, false, 0x0), data[..5]) == 0x383BADF713A0;
    assert data[..6][..5] == data[..5];
    assert UpdateSpec(3, false, 0x60, 0x383BADF713A0, 0x36) == 0x383BADF713A960;
    assert Process(3, false, p, SetupState(3, false, 0x0), data[..6]) == 0x383BADF713A960;
    assert data[..7][..6] == data[..6];
    assert UpdateSpec(3, false, 0x60, 0x383BADF713A960, 0x37) == 0x383BADF713A94DE0;
    assert Process(3, false, p, SetupState(3, false, 0x0), data[..7]) == 0x383BADF713A94DE0;
    assert data[..8][..7] == data[..7];
    assert UpdateSpec(3, false, 0x60, 0x383BADF713A94DE0, 0x38) == 0x3BADF713A94DF960;
    assert Process(3, false, p, SetupState(3, false, 0x0), data[..8]) == 0x3BADF713A94DF960;
    assert data[..9][..8] == data[..8];
    assert UpdateSpec(3, false, 0x60, 0x3BADF713A94DF960, 0x39) == 0xADF713A94DF94160;
    assert Process(3, false, p, SetupState(3, false, 0x0), data[..9]) == 0xADF713A94DF94160;
    assert data[..9] == data;
  }

  /** CRC-64/XZ: reflected, 64 bits. */
  lemma Crc64XzCheck()
    ensures CrcSpec(64, true, 0x42F0E1EBA9EA3693, 0xFFFFFFFFFFFFFFFF, 0xFFFFFFFFFFFFFFFF, CheckMessage) == 0x995DC9BBDF1939FA
  {
    var data := CheckMessage;
    var p := SetupPoly(64, true, 0x42F0E1EBA9EA3693);
    assert p == 0xC96C5795D7870F42;
    var s := SetupState(64, true, 0xFFFFFFFFFFFFFFFF);
    assert s == 0xFFFFFFFFFFFFFFFF;
    assert Process(64, true, p, s, data[..0]) == s;
    assert data[..1][..0] == data[..0];
    assert UpdateSpec(64, true, 0xC96C5795D7870F42, 0xFFFFFFFFFFFFFFFF, 0x31) == 0xD5D0F17A6B6A3512;
    assert Process(64, true, p, SetupState(64, true, 0xFFFFFFFFFFFFFFFF), data[..1]) == 0xD5D0F17A6B6A3512;
    assert data[..2][..1] == data[..1];
    assert UpdateSpec(64, true, 0xC96C5795D7870F42, 0xD5D0F17A6B6A3512, 0x32) == 0xFBE29281D80DA6A7;
    assert Process(64, true, p, SetupState(64, true, 0xFFFFFFFFFFFFFFFF), data[..2]) == 0xFBE29281D80DA6A7;
    assert data[..3][..2] == data[..2];
    assert UpdateSpec(64, true, 0xC96C5795D7870F42, 0xFBE29281D80DA6A7, 0x33) == 0xCFDCD7BBF8E33A9E;
    assert Process(64, true, p, SetupState(64, true, 0xFFFFFFFFFFFFFFFF), data[..3]) == 0xCFDCD7BBF8E33A9E;
    assert data[..4][..3] == data[..3];
    assert UpdateSpec(64, true, 0xC96C5795D7870F42, 0xCFDCD7BBF8E33A9E, 0x34) == 0x31B1786C99473CD7;
    assert Process(64, true, p, SetupState(64, true, 0xFFFFFFFFFFFFFFFF), data[..4]) == 0x31B1786C99473CD7;
    assert data[..5][..4] == data[..4];
    assert UpdateSpec(64, true, 0xC96C5795D7870F42, 0x31B1786C99473CD7, 0x35) == 0xA258B9005AFBA316;
    assert Process(64, true, p, SetupState(64, true, 0xFFFFFFFFFFFFFFFF), data[..5]) == 0xA258B9005AFBA316;
    assert data[..6][..5] == data[..5];
    assert UpdateSpec(64, true, 0xC96C5795D7870F42, 0xA258B9005AFBA316, 0x36) == 0xFB951AC9A23C3731;
    assert Process(64, true, p, SetupState(64, true, 0xFFFFFFFFFFFFFFFF), data[..6]) == 0xFB951AC9A23C3731;
    assert data[..7][..6] == data[..6];
    assert UpdateSpec(64, true, 0xC96C5795D7870F42, 0xFB951AC9A23C3731, 0x37) == 0x8FAF60C99E6DC25F;
    assert Process(64, true, p, SetupState(64, true, 0xFFFFFFFFFFFFFFFF), data[..7]) == 0x8FAF60C99E6DC25F;
    assert data[..8][..7] == data[..7];
    assert UpdateSpec(64, true, 0xC96C5795D7870F42, 0x8FAF60C99E6DC25F, 0x38) == 0xA3747FB7D45387F6;
    assert Process(64, true, p, SetupState(64, true, 0xFFFFFFFFFFFFFFFF), data[..8]) == 0xA3747FB7D45387F6;
    assert data[..9][..8] == data[..8];
    assert UpdateSpec(64, true, 0xC96C5795D7870F42, 0xA3747FB7D45387F6, 0x39) == 0x66A2364420E6C605;
    assert Process(64, true, p, SetupState(64, true, 0xFFFFFFFFFFFFFFFF), data[..9]) == 0x66A2364420E6C605;
    assert data[..9] == data;
  }

  /** The table-driven engine gives the same CRC-32 check value. */
  lemma Crc32TableCheck()
    ensures TableCrcSpec(32, true, TableSpec(32, true, 0x04C11DB7), 0xFFFFFFFF, 0xFFFFFFFF, CheckMessage) == 0xCBF43926
  {
    TableCrcMatches(32, true, 0x04C11DB7, 0xFFFFFFFF, 0xFFFFFFFF, CheckMessage);
    Crc32Check();
  }

  /** The table-driven engine gives the same CRC-3/GSM check value, in byte mode. */
  lemma Crc3GsmTableCheck()
    ensures TableCrcSpec(3, false, TableSpec(3, false, 0x3), 0x0, 0x7, CheckMessage) == 0x4
  {
    TableCrcMatches(3, false, 0x3, 0x0, 0x7, CheckMessage);
    Crc3GsmCheck();
  }
}
