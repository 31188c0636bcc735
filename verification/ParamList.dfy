// The parameter list: types, defaults and bounds, floats as the bits of their
// single-precision value.

module ParamList {
  import opened Flash
  import opened ParamStore

  /** A string default, zero-padded. */
  function Text(s: seq<byte>): Raw
    requires |s| <= UNION_SIZE
  {
    s + NO_TEXT[|s|..]
  }

  const PART_1: seq<Spec> := [
    Spec(I32, 0, 0, 0, NO_TEXT), // BOOT_TIME
    Spec(U32, 0, 0, 1000, NO_TEXT), // NUM_MOVES
    Spec(U32, 0, 0, 86400, NO_TEXT), // MOVE_START
    Spec(U32, 0, 0, 86400, NO_TEXT), // MOVE_END
    Spec(F32, 0x40800000, 0x00000000, 0x42C80000, NO_TEXT), // DRIVE_DIST
    Spec(F32, 0x40000000, 0x00000000, 0x41200000, NO_TEXT), // JACK_DIST
    Spec(F32, 0x41E9999A, 0x3F800000, 0x4E6E6B28, NO_TEXT), // DRIVE_KE
    Spec(F32, 0x49AFC800, 0x3F800000, 0x4E6E6B28, NO_TEXT), // DRIVE_KT
    Spec(F32, 0x49D2A810, 0x3F800000, 0x4E6E6B28, NO_TEXT), // JACK_KT
    Spec(U32, 0, 0, 0, NO_TEXT), // KEYCODE_0
    Spec(U32, 0, 0, 0, NO_TEXT) // KEYCODE_1
  ]

  const PART_2: seq<Spec> := [
    Spec(U32, 0, 0, 0, NO_TEXT), // KEYCODE_2
    Spec(U32, 0, 0, 0, NO_TEXT), // KEYCODE_3
    Spec(U32, 0, 0, 0, NO_TEXT), // KEYCODE_4
    Spec(U32, 0, 0, 0, NO_TEXT), // KEYCODE_5
    Spec(U32, 0, 0, 0, NO_TEXT), // KEYCODE_6
    Spec(U32, 0, 0, 0, NO_TEXT), // KEYCODE_7
    Spec(F32, 0x3F000000, 0x00000000, 0x3F800000, NO_TEXT), // ADC_ALPHA_BATTERY
    Spec(F32, 0x3F19999A, 0x00000000, 0x3F800000, NO_TEXT), // ADC_ALPHA_ISENS
    Spec(F32, 0x3BA3D70A, 0x00000000, 0x3F800000, NO_TEXT), // ADC_ALPHA_IAZ
    Spec(F32, 0x40A00000, 0x00000000, 0x43480000, NO_TEXT), // ADC_DB_IAZ
    Spec(F32, 0x42200000, 0x00000000, 0x43480000, NO_TEXT) // EFUSE_INOM_1
  ]

  const PART_3: seq<Spec> := [
    Spec(F32, 0x41600000, 0x00000000, 0x43480000, NO_TEXT), // EFUSE_INOM_2
    Spec(F32, 0x40800000, 0x00000000, 0x43480000, NO_TEXT), // EFUSE_INOM_3
    Spec(F32, 0x42700000, 0x00000000, 0x4E6E6B28, NO_TEXT), // EFUSE_HEAT_THRESH
    Spec(F32, 0x40000000, 0x3C23D70A, 0x42C80000, NO_TEXT), // EFUSE_KINST
    Spec(F32, 0x3E4CCCCD, 0x00000000, 0x42C80000, NO_TEXT), // EFUSE_TAUCOOL
    Spec(U32, 5000000, 0, 60000000, NO_TEXT), // EFUSE_TCOOL
    Spec(F32, 0x41200000, 0x00000000, 0x42C80000, NO_TEXT), // LOW_PROTECTION_V
    Spec(U32, 10, 0, 3600, NO_TEXT), // LOW_PROTECTION_S
    Spec(F32, 0x40A00000, 0x00000000, 0x42C80000, NO_TEXT), // CHG_LOW_V
    Spec(U32, 5, 0, 3600, NO_TEXT), // CHG_LOW_S
    Spec(U32, 20, 0, 3600, NO_TEXT) // CHG_BULK_S
  ]

  const PART_4: seq<Spec> := [
    Spec(U32, 350000, 0, 10000000, NO_TEXT), // RF_PULSE_LENGTH
    Spec(F32, 0x3ECCCCCD, 0xC1200000, 0x41200000, NO_TEXT), // V_SENS_OFFSET
    Spec(Str, 0, 0, 0, NO_TEXT), // NET_SSID
    Spec(Str, 0, 0, 0, NO_TEXT), // NET_PASS
    Spec(U16, 6, 1, 14, NO_TEXT), // WIFI_CHANNEL
    Spec(Str, 0, 0, 0, Text([83, 116, 111, 99, 107, 67, 114, 111, 112, 112, 101, 114])), // WIFI_SSID
    Spec(Str, 0, 0, 0, Text([112, 97, 115, 115, 119, 111, 114, 100])), // WIFI_PASS
    Spec(U32, 250000, 0, 10000000, NO_TEXT), // EFUSE_INRUSH_US
    Spec(F32, 0x41000000, 0x00000000, 0x43480000, NO_TEXT), // JACK_I_UP
    Spec(F32, 0x3FCCCCCD, 0x00000000, 0x43480000, NO_TEXT), // JACK_I_DOWN
    Spec(F32, 0x3BFB38A9, 0x00000000, 0x3F800000, NO_TEXT) // V_SENS_K
  ]

  const PART_5: seq<Spec> := [
    Spec(Str, 0, 0, 0, Text([117, 110, 100, 101, 102, 105, 110, 101, 100])), // BUILD_VERSION
    Spec(U32, 300000, 0, 10000000, NO_TEXT), // SAFETY_BREAK_US
    Spec(U32, 1000000, 0, 10000000, NO_TEXT), // SAFETY_MAKE_US
    Spec(F32, 0x3FCCCCCD, 0x00000000, 0x43480000, NO_TEXT), // JACK_IS_DOWN
    Spec(U32, 2000, 0, 60000, NO_TEXT), // FLUFF_PREDRIVE_MS
    Spec(U32, 300, 10, 86400, NO_TEXT), // INACTIVITY_TIMEOUT_S
    Spec(I32, 0xFFFFFFFF, 0xFFFFFFFF, 86399, NO_TEXT), // MOVE_TIME_00
    Spec(I32, 0xFFFFFFFF, 0xFFFFFFFF, 86399, NO_TEXT), // MOVE_TIME_01
    Spec(I32, 0xFFFFFFFF, 0xFFFFFFFF, 86399, NO_TEXT), // MOVE_TIME_02
    Spec(I32, 0xFFFFFFFF, 0xFFFFFFFF, 86399, NO_TEXT), // MOVE_TIME_03
    Spec(I32, 0xFFFFFFFF, 0xFFFFFFFF, 86399, NO_TEXT) // MOVE_TIME_04
  ]

  const PART_6: seq<Spec> := [
    Spec(I32, 0xFFFFFFFF, 0xFFFFFFFF, 86399, NO_TEXT), // MOVE_TIME_05
    Spec(I32, 0xFFFFFFFF, 0xFFFFFFFF, 86399, NO_TEXT), // MOVE_TIME_06
    Spec(I32, 0xFFFFFFFF, 0xFFFFFFFF, 86399, NO_TEXT), // MOVE_TIME_07
    Spec(I32, 0xFFFFFFFF, 0xFFFFFFFF, 86399, NO_TEXT), // MOVE_TIME_08
    Spec(I32, 0xFFFFFFFF, 0xFFFFFFFF, 86399, NO_TEXT), // MOVE_TIME_09
    Spec(I32, 0xFFFFFFFF, 0xFFFFFFFF, 86399, NO_TEXT), // MOVE_TIME_10
    Spec(I32, 0xFFFFFFFF, 0xFFFFFFFF, 86399, NO_TEXT), // MOVE_TIME_11
    Spec(F32, 0x40A00000, 0x00000000, 0x41200000, NO_TEXT), // JACK_MAX
    Spec(U32, 1000000, 0, 10000000, NO_TEXT), // WEB_PULSE_LENGTH
    Spec(F32, 0x40800000, 0x00000000, 0x41200000, NO_TEXT) // JACK_PRE_DIST
  ]

  const PARAM_LIST: seq<Spec> := PART_1 + PART_2 + PART_3 + PART_4 + PART_5 + PART_6

  const NUM_PARAMS: nat := 65
  const PARAM_MOVE_TIME_00: nat := 50

  ghost predicate AllOk(s: seq<Spec>) {
    forall i :: 0 <= i < |s| ==> SpecOk(s[i])
  }

  lemma Part1Ok()
    ensures AllOk(PART_1)
  {
  }

  lemma Part2Ok()
    ensures AllOk(PART_2)
  {
  }

  lemma Part3Ok()
    ensures AllOk(PART_3)
  {
  }

  lemma Part4Ok()
    ensures AllOk(PART_4)
  {
  }

  lemma Part5Ok()
    ensures AllOk(PART_5)
  {
  }

  lemma Part6Ok()
    ensures AllOk(PART_6)
  {
  }

  lemma ConcatOk(a: seq<Spec>, b: seq<Spec>)
    requires AllOk(a) && AllOk(b)
    ensures AllOk(a + b)
  {
  }

  /** Every line of the parameter list has finite, ordered bounds that hold its
      default, and the move-time slots lie together. */
  lemma {:induction false} ParamListOk()
    ensures |PARAM_LIST| == NUM_PARAMS && AllOk(PARAM_LIST)
    ensures SpecsOk(PARAM_LIST, PARAM_MOVE_TIME_00)
  {
    Part1Ok();
    Part2Ok();
    Part3Ok();
    Part4Ok();
    Part5Ok();
    Part6Ok();
    ConcatOk(PART_1, PART_2);
    ConcatOk(PART_1 + PART_2, PART_3);
    ConcatOk(PART_1 + PART_2 + PART_3, PART_4);
    ConcatOk(PART_1 + PART_2 + PART_3 + PART_4, PART_5);
    ConcatOk(PART_1 + PART_2 + PART_3 + PART_4 + PART_5, PART_6);
  }
}
