/**
 The table of nfc_compositions.inc itself, row for row, and the proof that it is well formed: so
 what is proved of every well-formed table holds of the one path keys are made with.

 The rows stand in runs, each ending in the next, so that each run can be checked by evaluation.
 */
module NfcTable {
  import opened Utf8
  import opened Composition

  datatype Rows = End | Then(base: Scalar, mark: Scalar, composed: Scalar, rest: Rows)

  /** The marks of the table, and no other character of it. */
  predicate CombiningMark(cp: Scalar) {
    if cp < 0x0300 then false
    else if cp < 0x0346 then
      || 0x0300 <= cp <= 0x0304
      || 0x0306 <= cp <= 0x030C
      || cp == 0x030F
      || cp == 0x0311
      || 0x0313 <= cp <= 0x0314
      || cp == 0x031B
      || 0x0323 <= cp <= 0x0328
      || 0x032D <= cp <= 0x032E
      || 0x0330 <= cp <= 0x0331
      || cp == 0x0338
      || cp == 0x0342
      || cp == 0x0345
    else if cp < 0x1B36 then
      || 0x0653 <= cp <= 0x0655
      || cp == 0x093C
      || cp == 0x09BE
      || cp == 0x09D7
      || cp == 0x0B3E
      || 0x0B56 <= cp <= 0x0B57
      || cp == 0x0BBE
      || cp == 0x0BD7
      || cp == 0x0C56
      || cp == 0x0CC2
      || 0x0CD5 <= cp <= 0x0CD6
      || cp == 0x0D3E
      || cp == 0x0D57
      || cp == 0x0DCA
      || cp == 0x0DCF
      || cp == 0x0DDF
      || cp == 0x102E
      || cp == 0x1B35
    else
      0x3099 <= cp <= 0x309A
  }

  /** The number of bytes a character below 0x10000 is encoded in. */
  function EncodedWidth(cp: Scalar): nat {
    if cp < 0x80 then 1 else if cp < 0x800 then 2 else 3
  }

  /** Rows that go on in order from a base and mark, each as the generator makes them. */
  predicate Fit(base: Scalar, mark: Scalar, rows: Rows)
    decreases rows
  {
    match rows
    case End => true
    case Then(b, m, c, rest) =>
      && KeyBefore(base, mark, b, m)
      && 0x3C <= b < 0x1_0000 && b != 0x5C && 0x80 <= m < 0x1_0000 && 0x80 <= c < 0x1_0000
      && EncodedWidth(c) <= EncodedWidth(b) + EncodedWidth(m)
      && CombiningMark(m) && !CombiningMark(b) && !CombiningMark(c)
      && Fit(b, m, rest)
  }

  function ToTable(rows: Rows): Table {
    match rows
    case End => []
    case Then(b, m, c, rest) => [Row(b, m, c)] + ToTable(rest)
  }

  /** What Fit says of each row of the table, one by one. */
  lemma {:induction false} FitRows(base: Scalar, mark: Scalar, rows: Rows)
    requires Fit(base, mark, rows)
    ensures Sorted(ToTable(rows))
    ensures forall i :: 0 <= i < |ToTable(rows)| ==>
              var r := ToTable(rows)[i];
              && KeyBefore(base, mark, r.base, r.mark) && RowOk(r)
              && CombiningMark(r.mark) && !CombiningMark(r.base) && !CombiningMark(r.composed)
    decreases rows
  {
    if rows.Then? {
      FitRows(rows.base, rows.mark, rows.rest);
      RowFits(Row(rows.base, rows.mark, rows.composed));
    }
  }

  lemma RowFits(r: Row)
    requires 0x3C <= r.base < 0x1_0000 && r.base != 0x5C && 0x80 <= r.mark < 0x1_0000 && 0x80 <= r.composed < 0x1_0000
    requires EncodedWidth(r.composed) <= EncodedWidth(r.base) + EncodedWidth(r.mark)
    ensures RowOk(r)
  {
  }

  /** Sorted, structural characters left out, no mark composing further: the shipped table is well formed. */
  lemma TableIsWellFormed()
    ensures WellFormed(NfcCompositions())
  {
    Rows00Fit();
    FitRows(0, 0, Rows00());
    var table := NfcCompositions();
    forall i | 0 <= i < |table|
      ensures !IsMark(table, table[i].base) && !IsMark(table, table[i].composed)
    {
    }
  }

  function NfcCompositions(): Table {
    ToTable(Rows00())
  }

  function Rows00(): Rows {
    Then(0x003C, 0x0338, 0x226E, Then(0x003D, 0x0338, 0x2260, Then(0x003E, 0x0338, 0x226F,
    Then(0x0041, 0x0300, 0x00C0, Then(0x0041, 0x0301, 0x00C1, Then(0x0041, 0x0302, 0x00C2,
    Then(0x0041, 0x0303, 0x00C3, Then(0x0041, 0x0304, 0x0100, Then(0x0041, 0x0306, 0x0102,
    Then(0x0041, 0x0307, 0x0226, Then(0x0041, 0x0308, 0x00C4, Then(0x0041, 0x0309, 0x1EA2,
    Then(0x0041, 0x030A, 0x00C5, Then(0x0041, 0x030C, 0x01CD, Rows01()))))))))))))))
  }

  function Rows01(): Rows {
    Then(0x0041, 0x030F, 0x0200, Then(0x0041, 0x0311, 0x0202, Then(0x0041, 0x0323, 0x1EA0,
    Then(0x0041, 0x0325, 0x1E00, Then(0x0041, 0x0328, 0x0104, Then(0x0042, 0x0307, 0x1E02,
    Then(0x0042, 0x0323, 0x1E04, Then(0x0042, 0x0331, 0x1E06, Then(0x0043, 0x0301, 0x0106,
    Then(0x0043, 0x0302, 0x0108, Then(0x0043, 0x0307, 0x010A, Then(0x0043, 0x030C, 0x010C,
    Then(0x0043, 0x0327, 0x00C7, Then(0x0044, 0x0307, 0x1E0A, Rows02()))))))))))))))
  }

  function Rows02(): Rows {
    Then(0x0044, 0x030C, 0x010E, Then(0x0044, 0x0323, 0x1E0C, Then(0x0044, 0x0327, 0x1E10,
    Then(0x0044, 0x032D, 0x1E12, Then(0x0044, 0x0331, 0x1E0E, Then(0x0045, 0x0300, 0x00C8,
    Then(0x0045, 0x0301, 0x00C9, Then(0x0045, 0x0302, 0x00CA, Then(0x0045, 0x0303, 0x1EBC,
    Then(0x0045, 0x0304, 0x0112, Then(0x0045, 0x0306, 0x0114, Then(0x0045, 0x0307, 0x0116,
    Then(0x0045, 0x0308, 0x00CB, Then(0x0045, 0x0309, 0x1EBA, Rows03()))))))))))))))
  }

  function Rows03(): Rows {
    Then(0x0045, 0x030C, 0x011A, Then(0x0045, 0x030F, 0x0204, Then(0x0045, 0x0311, 0x0206,
    Then(0x0045, 0x0323, 0x1EB8, Then(0x0045, 0x0327, 0x0228, Then(0x0045, 0x0328, 0x0118,
    Then(0x0045, 0x032D, 0x1E18, Then(0x0045, 0x0330, 0x1E1A, Then(0x0046, 0x0307, 0x1E1E,
    Then(0x0047, 0x0301, 0x01F4, Then(0x0047, 0x0302, 0x011C, Then(0x0047, 0x0304, 0x1E20,
    Then(0x0047, 0x0306, 0x011E, Then(0x0047, 0x0307, 0x0120, Rows04()))))))))))))))
  }

  function Rows04(): Rows {
    Then(0x0047, 0x030C, 0x01E6, Then(0x0047, 0x0327, 0x0122, Then(0x0048, 0x0302, 0x0124,
    Then(0x0048, 0x0307, 0x1E22, Then(0x0048, 0x0308, 0x1E26, Then(0x0048, 0x030C, 0x021E,
    Then(0x0048, 0x0323, 0x1E24, Then(0x0048, 0x0327, 0x1E28, Then(0x0048, 0x032E, 0x1E2A,
    Then(0x0049, 0x0300, 0x00CC, Then(0x0049, 0x0301, 0x00CD, Then(0x0049, 0x0302, 0x00CE,
    Then(0x0049, 0x0303, 0x0128, Then(0x0049, 0x0304, 0x012A, Rows05()))))))))))))))
  }

  function Rows05(): Rows {
    Then(0x0049, 0x0306, 0x012C, Then(0x0049, 0x0307, 0x0130, Then(0x0049, 0x0308, 0x00CF,
    Then(0x0049, 0x0309, 0x1EC8, Then(0x0049, 0x030C, 0x01CF, Then(0x0049, 0x030F, 0x0208,
    Then(0x0049, 0x0311, 0x020A, Then(0x0049, 0x0323, 0x1ECA, Then(0x0049, 0x0328, 0x012E,
    Then(0x0049, 0x0330, 0x1E2C, Then(0x004A, 0x0302, 0x0134, Then(0x004B, 0x0301, 0x1E30,
    Then(0x004B, 0x030C, 0x01E8, Then(0x004B, 0x0323, 0x1E32, Rows06()))))))))))))))
  }

  function Rows06(): Rows {
    Then(0x004B, 0x0327, 0x0136, Then(0x004B, 0x0331, 0x1E34, Then(0x004C, 0x0301, 0x0139,
    Then(0x004C, 0x030C, 0x013D, Then(0x004C, 0x0323, 0x1E36, Then(0x004C, 0x0327, 0x013B,
    Then(0x004C, 0x032D, 0x1E3C, Then(0x004C, 0x0331, 0x1E3A, Then(0x004D, 0x0301, 0x1E3E,
    Then(0x004D, 0x0307, 0x1E40, Then(0x004D, 0x0323, 0x1E42, Then(0x004E, 0x0300, 0x01F8,
    Then(0x004E, 0x0301, 0x0143, Then(0x004E, 0x0303, 0x00D1, Rows07()))))))))))))))
  }

  function Rows07(): Rows {
    Then(0x004E, 0x0307, 0x1E44, Then(0x004E, 0x030C, 0x0147, Then(0x004E, 0x0323, 0x1E46,
    Then(0x004E, 0x0327, 0x0145, Then(0x004E, 0x032D, 0x1E4A, Then(0x004E, 0x0331, 0x1E48,
    Then(0x004F, 0x0300, 0x00D2, Then(0x004F, 0x0301, 0x00D3, Then(0x004F, 0x0302, 0x00D4,
    Then(0x004F, 0x0303, 0x00D5, Then(0x004F, 0x0304, 0x014C, Then(0x004F, 0x0306, 0x014E,
    Then(0x004F, 0x0307, 0x022E, Then(0x004F, 0x0308, 0x00D6, Rows08()))))))))))))))
  }

  function Rows08(): Rows {
    Then(0x004F, 0x0309, 0x1ECE, Then(0x004F, 0x030B, 0x0150, Then(0x004F, 0x030C, 0x01D1,
    Then(0x004F, 0x030F, 0x020C, Then(0x004F, 0x0311, 0x020E, Then(0x004F, 0x031B, 0x01A0,
    Then(0x004F, 0x0323, 0x1ECC, Then(0x004F, 0x0328, 0x01EA, Then(0x0050, 0x0301, 0x1E54,
    Then(0x0050, 0x0307, 0x1E56, Then(0x0052, 0x0301, 0x0154, Then(0x0052, 0x0307, 0x1E58,
    Then(0x0052, 0x030C, 0x0158, Then(0x0052, 0x030F, 0x0210, Rows09()))))))))))))))
  }

  function Rows09(): Rows {
    Then(0x0052, 0x0311, 0x0212, Then(0x0052, 0x0323, 0x1E5A, Then(0x0052, 0x0327, 0x0156,
    Then(0x0052, 0x0331, 0x1E5E, Then(0x0053, 0x0301, 0x015A, Then(0x0053, 0x0302, 0x015C,
    Then(0x0053, 0x0307, 0x1E60, Then(0x0053, 0x030C, 0x0160, Then(0x0053, 0x0323, 0x1E62,
    Then(0x0053, 0x0326, 0x0218, Then(0x0053, 0x0327, 0x015E, Then(0x0054, 0x0307, 0x1E6A,
    Then(0x0054, 0x030C, 0x0164, Then(0x0054, 0x0323, 0x1E6C, Rows10()))))))))))))))
  }

  function Rows10(): Rows {
    Then(0x0054, 0x0326, 0x021A, Then(0x0054, 0x0327, 0x0162, Then(0x0054, 0x032D, 0x1E70,
    Then(0x0054, 0x0331, 0x1E6E, Then(0x0055, 0x0300, 0x00D9, Then(0x0055, 0x0301, 0x00DA,
    Then(0x0055, 0x0302, 0x00DB, Then(0x0055, 0x0303, 0x0168, Then(0x0055, 0x0304, 0x016A,
    Then(0x0055, 0x0306, 0x016C, Then(0x0055, 0x0308, 0x00DC, Then(0x0055, 0x0309, 0x1EE6,
    Then(0x0055, 0x030A, 0x016E, Then(0x0055, 0x030B, 0x0170, Rows11()))))))))))))))
  }

  function Rows11(): Rows {
    Then(0x0055, 0x030C, 0x01D3, Then(0x0055, 0x030F, 0x0214, Then(0x0055, 0x0311, 0x0216,
    Then(0x0055, 0x031B, 0x01AF, Then(0x0055, 0x0323, 0x1EE4, Then(0x0055, 0x0324, 0x1E72,
    Then(0x0055, 0x0328, 0x0172, Then(0x0055, 0x032D, 0x1E76, Then(0x0055, 0x0330, 0x1E74,
    Then(0x0056, 0x0303, 0x1E7C, Then(0x0056, 0x0323, 0x1E7E, Then(0x0057, 0x0300, 0x1E80,
    Then(0x0057, 0x0301, 0x1E82, Then(0x0057, 0x0302, 0x0174, Rows12()))))))))))))))
  }

  function Rows12(): Rows {
    Then(0x0057, 0x0307, 0x1E86, Then(0x0057, 0x0308, 0x1E84, Then(0x0057, 0x0323, 0x1E88,
    Then(0x0058, 0x0307, 0x1E8A, Then(0x0058, 0x0308, 0x1E8C, Then(0x0059, 0x0300, 0x1EF2,
    Then(0x0059, 0x0301, 0x00DD, Then(0x0059, 0x0302, 0x0176, Then(0x0059, 0x0303, 0x1EF8,
    Then(0x0059, 0x0304, 0x0232, Then(0x0059, 0x0307, 0x1E8E, Then(0x0059, 0x0308, 0x0178,
    Then(0x0059, 0x0309, 0x1EF6, Then(0x0059, 0x0323, 0x1EF4, Rows13()))))))))))))))
  }

  function Rows13(): Rows {
    Then(0x005A, 0x0301, 0x0179, Then(0x005A, 0x0302, 0x1E90, Then(0x005A, 0x0307, 0x017B,
    Then(0x005A, 0x030C, 0x017D, Then(0x005A, 0x0323, 0x1E92, Then(0x005A, 0x0331, 0x1E94,
    Then(0x0061, 0x0300, 0x00E0, Then(0x0061, 0x0301, 0x00E1, Then(0x0061, 0x0302, 0x00E2,
    Then(0x0061, 0x0303, 0x00E3, Then(0x0061, 0x0304, 0x0101, Then(0x0061, 0x0306, 0x0103,
    Then(0x0061, 0x0307, 0x0227, Then(0x0061, 0x0308, 0x00E4, Rows14()))))))))))))))
  }

  function Rows14(): Rows {
    Then(0x0061, 0x0309, 0x1EA3, Then(0x0061, 0x030A, 0x00E5, Then(0x0061, 0x030C, 0x01CE,
    Then(0x0061, 0x030F, 0x0201, Then(0x0061, 0x0311, 0x0203, Then(0x0061, 0x0323, 0x1EA1,
    Then(0x0061, 0x0325, 0x1E01, Then(0x0061, 0x0328, 0x0105, Then(0x0062, 0x0307, 0x1E03,
    Then(0x0062, 0x0323, 0x1E05, Then(0x0062, 0x0331, 0x1E07, Then(0x0063, 0x0301, 0x0107,
    Then(0x0063, 0x0302, 0x0109, Then(0x0063, 0x0307, 0x010B, Rows15()))))))))))))))
  }

  function Rows15(): Rows {
    Then(0x0063, 0x030C, 0x010D, Then(0x0063, 0x0327, 0x00E7, Then(0x0064, 0x0307, 0x1E0B,
    Then(0x0064, 0x030C, 0x010F, Then(0x0064, 0x0323, 0x1E0D, Then(0x0064, 0x0327, 0x1E11,
    Then(0x0064, 0x032D, 0x1E13, Then(0x0064, 0x0331, 0x1E0F, Then(0x0065, 0x0300, 0x00E8,
    Then(0x0065, 0x0301, 0x00E9, Then(0x0065, 0x0302, 0x00EA, Then(0x0065, 0x0303, 0x1EBD,
    Then(0x0065, 0x0304, 0x0113, Then(0x0065, 0x0306, 0x0115, Rows16()))))))))))))))
  }

  function Rows16(): Rows {
    Then(0x0065, 0x0307, 0x0117, Then(0x0065, 0x0308, 0x00EB, Then(0x0065, 0x0309, 0x1EBB,
    Then(0x0065, 0x030C, 0x011B, Then(0x0065, 0x030F, 0x0205, Then(0x0065, 0x0311, 0x0207,
    Then(0x0065, 0x0323, 0x1EB9, Then(0x0065, 0x0327, 0x0229, Then(0x0065, 0x0328, 0x0119,
    Then(0x0065, 0x032D, 0x1E19, Then(0x0065, 0x0330, 0x1E1B, Then(0x0066, 0x0307, 0x1E1F,
    Then(0x0067, 0x0301, 0x01F5, Then(0x0067, 0x0302, 0x011D, Rows17()))))))))))))))
  }

  function Rows17(): Rows {
    Then(0x0067, 0x0304, 0x1E21, Then(0x0067, 0x0306, 0x011F, Then(0x0067, 0x0307, 0x0121,
    Then(0x0067, 0x030C, 0x01E7, Then(0x0067, 0x0327, 0x0123, Then(0x0068, 0x0302, 0x0125,
    Then(0x0068, 0x0307, 0x1E23, Then(0x0068, 0x0308, 0x1E27, Then(0x0068, 0x030C, 0x021F,
    Then(0x0068, 0x0323, 0x1E25, Then(0x0068, 0x0327, 0x1E29, Then(0x0068, 0x032E, 0x1E2B,
    Then(0x0068, 0x0331, 0x1E96, Then(0x0069, 0x0300, 0x00EC, Rows18()))))))))))))))
  }

  function Rows18(): Rows {
    Then(0x0069, 0x0301, 0x00ED, Then(0x0069, 0x0302, 0x00EE, Then(0x0069, 0x0303, 0x0129,
    Then(0x0069, 0x0304, 0x012B, Then(0x0069, 0x0306, 0x012D, Then(0x0069, 0x0308, 0x00EF,
    Then(0x0069, 0x0309, 0x1EC9, Then(0x0069, 0x030C, 0x01D0, Then(0x0069, 0x030F, 0x0209,
    Then(0x0069, 0x0311, 0x020B, Then(0x0069, 0x0323, 0x1ECB, Then(0x0069, 0x0328, 0x012F,
    Then(0x0069, 0x0330, 0x1E2D, Then(0x006A, 0x0302, 0x0135, Rows19()))))))))))))))
  }

  function Rows19(): Rows {
    Then(0x006A, 0x030C, 0x01F0, Then(0x006B, 0x0301, 0x1E31, Then(0x006B, 0x030C, 0x01E9,
    Then(0x006B, 0x0323, 0x1E33, Then(0x006B, 0x0327, 0x0137, Then(0x006B, 0x0331, 0x1E35,
    Then(0x006C, 0x0301, 0x013A, Then(0x006C, 0x030C, 0x013E, Then(0x006C, 0x0323, 0x1E37,
    Then(0x006C, 0x0327, 0x013C, Then(0x006C, 0x032D, 0x1E3D, Then(0x006C, 0x0331, 0x1E3B,
    Then(0x006D, 0x0301, 0x1E3F, Then(0x006D, 0x0307, 0x1E41, Rows20()))))))))))))))
  }

  function Rows20(): Rows {
    Then(0x006D, 0x0323, 0x1E43, Then(0x006E, 0x0300, 0x01F9, Then(0x006E, 0x0301, 0x0144,
    Then(0x006E, 0x0303, 0x00F1, Then(0x006E, 0x0307, 0x1E45, Then(0x006E, 0x030C, 0x0148,
    Then(0x006E, 0x0323, 0x1E47, Then(0x006E, 0x0327, 0x0146, Then(0x006E, 0x032D, 0x1E4B,
    Then(0x006E, 0x0331, 0x1E49, Then(0x006F, 0x0300, 0x00F2, Then(0x006F, 0x0301, 0x00F3,
    Then(0x006F, 0x0302, 0x00F4, Then(0x006F, 0x0303, 0x00F5, Rows21()))))))))))))))
  }

  function Rows21(): Rows {
    Then(0x006F, 0x0304, 0x014D, Then(0x006F, 0x0306, 0x014F, Then(0x006F, 0x0307, 0x022F,
    Then(0x006F, 0x0308, 0x00F6, Then(0x006F, 0x0309, 0x1ECF, Then(0x006F, 0x030B, 0x0151,
    Then(0x006F, 0x030C, 0x01D2, Then(0x006F, 0x030F, 0x020D, Then(0x006F, 0x0311, 0x020F,
    Then(0x006F, 0x031B, 0x01A1, Then(0x006F, 0x0323, 0x1ECD, Then(0x006F, 0x0328, 0x01EB,
    Then(0x0070, 0x0301, 0x1E55, Then(0x0070, 0x0307, 0x1E57, Rows22()))))))))))))))
  }

  function Rows22(): Rows {
    Then(0x0072, 0x0301, 0x0155, Then(0x0072, 0x0307, 0x1E59, Then(0x0072, 0x030C, 0x0159,
    Then(0x0072, 0x030F, 0x0211, Then(0x0072, 0x0311, 0x0213, Then(0x0072, 0x0323, 0x1E5B,
    Then(0x0072, 0x0327, 0x0157, Then(0x0072, 0x0331, 0x1E5F, Then(0x0073, 0x0301, 0x015B,
    Then(0x0073, 0x0302, 0x015D, Then(0x0073, 0x0307, 0x1E61, Then(0x0073, 0x030C, 0x0161,
    Then(0x0073, 0x0323, 0x1E63, Then(0x0073, 0x0326, 0x0219, Rows23()))))))))))))))
  }

  function Rows23(): Rows {
    Then(0x0073, 0x0327, 0x015F, Then(0x0074, 0x0307, 0x1E6B, Then(0x0074, 0x0308, 0x1E97,
    Then(0x0074, 0x030C, 0x0165, Then(0x0074, 0x0323, 0x1E6D, Then(0x0074, 0x0326, 0x021B,
    Then(0x0074, 0x0327, 0x0163, Then(0x0074, 0x032D, 0x1E71, Then(0x0074, 0x0331, 0x1E6F,
    Then(0x0075, 0x0300, 0x00F9, Then(0x0075, 0x0301, 0x00FA, Then(0x0075, 0x0302, 0x00FB,
    Then(0x0075, 0x0303, 0x0169, Then(0x0075, 0x0304, 0x016B, Rows24()))))))))))))))
  }

  function Rows24(): Rows {
    Then(0x0075, 0x0306, 0x016D, Then(0x0075, 0x0308, 0x00FC, Then(0x0075, 0x0309, 0x1EE7,
    Then(0x0075, 0x030A, 0x016F, Then(0x0075, 0x030B, 0x0171, Then(0x0075, 0x030C, 0x01D4,
    Then(0x0075, 0x030F, 0x0215, Then(0x0075, 0x0311, 0x0217, Then(0x0075, 0x031B, 0x01B0,
    Then(0x0075, 0x0323, 0x1EE5, Then(0x0075, 0x0324, 0x1E73, Then(0x0075, 0x0328, 0x0173,
    Then(0x0075, 0x032D, 0x1E77, Then(0x0075, 0x0330, 0x1E75, Rows25()))))))))))))))
  }

  function Rows25(): Rows {
    Then(0x0076, 0x0303, 0x1E7D, Then(0x0076, 0x0323, 0x1E7F, Then(0x0077, 0x0300, 0x1E81,
    Then(0x0077, 0x0301, 0x1E83, Then(0x0077, 0x0302, 0x0175, Then(0x0077, 0x0307, 0x1E87,
    Then(0x0077, 0x0308, 0x1E85, Then(0x0077, 0x030A, 0x1E98, Then(0x0077, 0x0323, 0x1E89,
    Then(0x0078, 0x0307, 0x1E8B, Then(0x0078, 0x0308, 0x1E8D, Then(0x0079, 0x0300, 0x1EF3,
    Then(0x0079, 0x0301, 0x00FD, Then(0x0079, 0x0302, 0x0177, Rows26()))))))))))))))
  }

  function Rows26(): Rows {
    Then(0x0079, 0x0303, 0x1EF9, Then(0x0079, 0x0304, 0x0233, Then(0x0079, 0x0307, 0x1E8F,
    Then(0x0079, 0x0308, 0x00FF, Then(0x0079, 0x0309, 0x1EF7, Then(0x0079, 0x030A, 0x1E99,
    Then(0x0079, 0x0323, 0x1EF5, Then(0x007A, 0x0301, 0x017A, Then(0x007A, 0x0302, 0x1E91,
    Then(0x007A, 0x0307, 0x017C, Then(0x007A, 0x030C, 0x017E, Then(0x007A, 0x0323, 0x1E93,
    Then(0x007A, 0x0331, 0x1E95, Then(0x00A8, 0x0300, 0x1FED, Rows27()))))))))))))))
  }

  function Rows27(): Rows {
    Then(0x00A8, 0x0301, 0x0385, Then(0x00A8, 0x0342, 0x1FC1, Then(0x00C2, 0x0300, 0x1EA6,
    Then(0x00C2, 0x0301, 0x1EA4, Then(0x00C2, 0x0303, 0x1EAA, Then(0x00C2, 0x0309, 0x1EA8,
    Then(0x00C4, 0x0304, 0x01DE, Then(0x00C5, 0x0301, 0x01FA, Then(0x00C6, 0x0301, 0x01FC,
    Then(0x00C6, 0x0304, 0x01E2, Then(0x00C7, 0x0301, 0x1E08, Then(0x00CA, 0x0300, 0x1EC0,
    Then(0x00CA, 0x0301, 0x1EBE, Then(0x00CA, 0x0303, 0x1EC4, Rows28()))))))))))))))
  }

  function Rows28(): Rows {
    Then(0x00CA, 0x0309, 0x1EC2, Then(0x00CF, 0x0301, 0x1E2E, Then(0x00D4, 0x0300, 0x1ED2,
    Then(0x00D4, 0x0301, 0x1ED0, Then(0x00D4, 0x0303, 0x1ED6, Then(0x00D4, 0x0309, 0x1ED4,
    Then(0x00D5, 0x0301, 0x1E4C, Then(0x00D5, 0x0304, 0x022C, Then(0x00D5, 0x0308, 0x1E4E,
    Then(0x00D6, 0x0304, 0x022A, Then(0x00D8, 0x0301, 0x01FE, Then(0x00DC, 0x0300, 0x01DB,
    Then(0x00DC, 0x0301, 0x01D7, Then(0x00DC, 0x0304, 0x01D5, Rows29()))))))))))))))
  }

  function Rows29(): Rows {
    Then(0x00DC, 0x030C, 0x01D9, Then(0x00E2, 0x0300, 0x1EA7, Then(0x00E2, 0x0301, 0x1EA5,
    Then(0x00E2, 0x0303, 0x1EAB, Then(0x00E2, 0x0309, 0x1EA9, Then(0x00E4, 0x0304, 0x01DF,
    Then(0x00E5, 0x0301, 0x01FB, Then(0x00E6, 0x0301, 0x01FD, Then(0x00E6, 0x0304, 0x01E3,
    Then(0x00E7, 0x0301, 0x1E09, Then(0x00EA, 0x0300, 0x1EC1, Then(0x00EA, 0x0301, 0x1EBF,
    Then(0x00EA, 0x0303, 0x1EC5, Then(0x00EA, 0x0309, 0x1EC3, Rows30()))))))))))))))
  }

  function Rows30(): Rows {
    Then(0x00EF, 0x0301, 0x1E2F, Then(0x00F4, 0x0300, 0x1ED3, Then(0x00F4, 0x0301, 0x1ED1,
    Then(0x00F4, 0x0303, 0x1ED7, Then(0x00F4, 0x0309, 0x1ED5, Then(0x00F5, 0x0301, 0x1E4D,
    Then(0x00F5, 0x0304, 0x022D, Then(0x00F5, 0x0308, 0x1E4F, Then(0x00F6, 0x0304, 0x022B,
    Then(0x00F8, 0x0301, 0x01FF, Then(0x00FC, 0x0300, 0x01DC, Then(0x00FC, 0x0301, 0x01D8,
    Then(0x00FC, 0x0304, 0x01D6, Then(0x00FC, 0x030C, 0x01DA, Rows31()))))))))))))))
  }

  function Rows31(): Rows {
    Then(0x0102, 0x0300, 0x1EB0, Then(0x0102, 0x0301, 0x1EAE, Then(0x0102, 0x0303, 0x1EB4,
    Then(0x0102, 0x0309, 0x1EB2, Then(0x0103, 0x0300, 0x1EB1, Then(0x0103, 0x0301, 0x1EAF,
    Then(0x0103, 0x0303, 0x1EB5, Then(0x0103, 0x0309, 0x1EB3, Then(0x0112, 0x0300, 0x1E14,
    Then(0x0112, 0x0301, 0x1E16, Then(0x0113, 0x0300, 0x1E15, Then(0x0113, 0x0301, 0x1E17,
    Then(0x014C, 0x0300, 0x1E50, Then(0x014C, 0x0301, 0x1E52, Rows32()))))))))))))))
  }

  function Rows32(): Rows {
    Then(0x014D, 0x0300, 0x1E51, Then(0x014D, 0x0301, 0x1E53, Then(0x015A, 0x0307, 0x1E64,
    Then(0x015B, 0x0307, 0x1E65, Then(0x0160, 0x0307, 0x1E66, Then(0x0161, 0x0307, 0x1E67,
    Then(0x0168, 0x0301, 0x1E78, Then(0x0169, 0x0301, 0x1E79, Then(0x016A, 0x0308, 0x1E7A,
    Then(0x016B, 0x0308, 0x1E7B, Then(0x017F, 0x0307, 0x1E9B, Then(0x01A0, 0x0300, 0x1EDC,
    Then(0x01A0, 0x0301, 0x1EDA, Then(0x01A0, 0x0303, 0x1EE0, Rows33()))))))))))))))
  }

  function Rows33(): Rows {
    Then(0x01A0, 0x0309, 0x1EDE, Then(0x01A0, 0x0323, 0x1EE2, Then(0x01A1, 0x0300, 0x1EDD,
    Then(0x01A1, 0x0301, 0x1EDB, Then(0x01A1, 0x0303, 0x1EE1, Then(0x01A1, 0x0309, 0x1EDF,
    Then(0x01A1, 0x0323, 0x1EE3, Then(0x01AF, 0x0300, 0x1EEA, Then(0x01AF, 0x0301, 0x1EE8,
    Then(0x01AF, 0x0303, 0x1EEE, Then(0x01AF, 0x0309, 0x1EEC, Then(0x01AF, 0x0323, 0x1EF0,
    Then(0x01B0, 0x0300, 0x1EEB, Then(0x01B0, 0x0301, 0x1EE9, Rows34()))))))))))))))
  }

  function Rows34(): Rows {
    Then(0x01B0, 0x0303, 0x1EEF, Then(0x01B0, 0x0309, 0x1EED, Then(0x01B0, 0x0323, 0x1EF1,
    Then(0x01B7, 0x030C, 0x01EE, Then(0x01EA, 0x0304, 0x01EC, Then(0x01EB, 0x0304, 0x01ED,
    Then(0x0226, 0x0304, 0x01E0, Then(0x0227, 0x0304, 0x01E1, Then(0x0228, 0x0306, 0x1E1C,
    Then(0x0229, 0x0306, 0x1E1D, Then(0x022E, 0x0304, 0x0230, Then(0x022F, 0x0304, 0x0231,
    Then(0x0292, 0x030C, 0x01EF, Then(0x0391, 0x0300, 0x1FBA, Rows35()))))))))))))))
  }

  function Rows35(): Rows {
    Then(0x0391, 0x0301, 0x0386, Then(0x0391, 0x0304, 0x1FB9, Then(0x0391, 0x0306, 0x1FB8,
    Then(0x0391, 0x0313, 0x1F08, Then(0x0391, 0x0314, 0x1F09, Then(0x0391, 0x0345, 0x1FBC,
    Then(0x0395, 0x0300, 0x1FC8, Then(0x0395, 0x0301, 0x0388, Then(0x0395, 0x0313, 0x1F18,
    Then(0x0395, 0x0314, 0x1F19, Then(0x0397, 0x0300, 0x1FCA, Then(0x0397, 0x0301, 0x0389,
    Then(0x0397, 0x0313, 0x1F28, Then(0x0397, 0x0314, 0x1F29, Rows36()))))))))))))))
  }

  function Rows36(): Rows {
    Then(0x0397, 0x0345, 0x1FCC, Then(0x0399, 0x0300, 0x1FDA, Then(0x0399, 0x0301, 0x038A,
    Then(0x0399, 0x0304, 0x1FD9, Then(0x0399, 0x0306, 0x1FD8, Then(0x0399, 0x0308, 0x03AA,
    Then(0x0399, 0x0313, 0x1F38, Then(0x0399, 0x0314, 0x1F39, Then(0x039F, 0x0300, 0x1FF8,
    Then(0x039F, 0x0301, 0x038C, Then(0x039F, 0x0313, 0x1F48, Then(0x039F, 0x0314, 0x1F49,
    Then(0x03A1, 0x0314, 0x1FEC, Then(0x03A5, 0x0300, 0x1FEA, Rows37()))))))))))))))
  }

  function Rows37(): Rows {
    Then(0x03A5, 0x0301, 0x038E, Then(0x03A5, 0x0304, 0x1FE9, Then(0x03A5, 0x0306, 0x1FE8,
    Then(0x03A5, 0x0308, 0x03AB, Then(0x03A5, 0x0314, 0x1F59, Then(0x03A9, 0x0300, 0x1FFA,
    Then(0x03A9, 0x0301, 0x038F, Then(0x03A9, 0x0313, 0x1F68, Then(0x03A9, 0x0314, 0x1F69,
    Then(0x03A9, 0x0345, 0x1FFC, Then(0x03AC, 0x0345, 0x1FB4, Then(0x03AE, 0x0345, 0x1FC4,
    Then(0x03B1, 0x0300, 0x1F70, Then(0x03B1, 0x0301, 0x03AC, Rows38()))))))))))))))
  }

  function Rows38(): Rows {
    Then(0x03B1, 0x0304, 0x1FB1, Then(0x03B1, 0x0306, 0x1FB0, Then(0x03B1, 0x0313, 0x1F00,
    Then(0x03B1, 0x0314, 0x1F01, Then(0x03B1, 0x0342, 0x1FB6, Then(0x03B1, 0x0345, 0x1FB3,
    Then(0x03B5, 0x0300, 0x1F72, Then(0x03B5, 0x0301, 0x03AD, Then(0x03B5, 0x0313, 0x1F10,
    Then(0x03B5, 0x0314, 0x1F11, Then(0x03B7, 0x0300, 0x1F74, Then(0x03B7, 0x0301, 0x03AE,
    Then(0x03B7, 0x0313, 0x1F20, Then(0x03B7, 0x0314, 0x1F21, Rows39()))))))))))))))
  }

  function Rows39(): Rows {
    Then(0x03B7, 0x0342, 0x1FC6, Then(0x03B7, 0x0345, 0x1FC3, Then(0x03B9, 0x0300, 0x1F76,
    Then(0x03B9, 0x0301, 0x03AF, Then(0x03B9, 0x0304, 0x1FD1, Then(0x03B9, 0x0306, 0x1FD0,
    Then(0x03B9, 0x0308, 0x03CA, Then(0x03B9, 0x0313, 0x1F30, Then(0x03B9, 0x0314, 0x1F31,
    Then(0x03B9, 0x0342, 0x1FD6, Then(0x03BF, 0x0300, 0x1F78, Then(0x03BF, 0x0301, 0x03CC,
    Then(0x03BF, 0x0313, 0x1F40, Then(0x03BF, 0x0314, 0x1F41, Rows40()))))))))))))))
  }

  function Rows40(): Rows {
    Then(0x03C1, 0x0313, 0x1FE4, Then(0x03C1, 0x0314, 0x1FE5, Then(0x03C5, 0x0300, 0x1F7A,
    Then(0x03C5, 0x0301, 0x03CD, Then(0x03C5, 0x0304, 0x1FE1, Then(0x03C5, 0x0306, 0x1FE0,
    Then(0x03C5, 0x0308, 0x03CB, Then(0x03C5, 0x0313, 0x1F50, Then(0x03C5, 0x0314, 0x1F51,
    Then(0x03C5, 0x0342, 0x1FE6, Then(0x03C9, 0x0300, 0x1F7C, Then(0x03C9, 0x0301, 0x03CE,
    Then(0x03C9, 0x0313, 0x1F60, Then(0x03C9, 0x0314, 0x1F61, Rows41()))))))))))))))
  }

  function Rows41(): Rows {
    Then(0x03C9, 0x0342, 0x1FF6, Then(0x03C9, 0x0345, 0x1FF3, Then(0x03CA, 0x0300, 0x1FD2,
    Then(0x03CA, 0x0301, 0x0390, Then(0x03CA, 0x0342, 0x1FD7, Then(0x03CB, 0x0300, 0x1FE2,
    Then(0x03CB, 0x0301, 0x03B0, Then(0x03CB, 0x0342, 0x1FE7, Then(0x03CE, 0x0345, 0x1FF4,
    Then(0x03D2, 0x0301, 0x03D3, Then(0x03D2, 0x0308, 0x03D4, Then(0x0406, 0x0308, 0x0407,
    Then(0x0410, 0x0306, 0x04D0, Then(0x0410, 0x0308, 0x04D2, Rows42()))))))))))))))
  }

  function Rows42(): Rows {
    Then(0x0413, 0x0301, 0x0403, Then(0x0415, 0x0300, 0x0400, Then(0x0415, 0x0306, 0x04D6,
    Then(0x0415, 0x0308, 0x0401, Then(0x0416, 0x0306, 0x04C1, Then(0x0416, 0x0308, 0x04DC,
    Then(0x0417, 0x0308, 0x04DE, Then(0x0418, 0x0300, 0x040D, Then(0x0418, 0x0304, 0x04E2,
    Then(0x0418, 0x0306, 0x0419, Then(0x0418, 0x0308, 0x04E4, Then(0x041A, 0x0301, 0x040C,
    Then(0x041E, 0x0308, 0x04E6, Then(0x0423, 0x0304, 0x04EE, Rows43()))))))))))))))
  }

  function Rows43(): Rows {
    Then(0x0423, 0x0306, 0x040E, Then(0x0423, 0x0308, 0x04F0, Then(0x0423, 0x030B, 0x04F2,
    Then(0x0427, 0x0308, 0x04F4, Then(0x042B, 0x0308, 0x04F8, Then(0x042D, 0x0308, 0x04EC,
    Then(0x0430, 0x0306, 0x04D1, Then(0x0430, 0x0308, 0x04D3, Then(0x0433, 0x0301, 0x0453,
    Then(0x0435, 0x0300, 0x0450, Then(0x0435, 0x0306, 0x04D7, Then(0x0435, 0x0308, 0x0451,
    Then(0x0436, 0x0306, 0x04C2, Then(0x0436, 0x0308, 0x04DD, Rows44()))))))))))))))
  }

  function Rows44(): Rows {
    Then(0x0437, 0x0308, 0x04DF, Then(0x0438, 0x0300, 0x045D, Then(0x0438, 0x0304, 0x04E3,
    Then(0x0438, 0x0306, 0x0439, Then(0x0438, 0x0308, 0x04E5, Then(0x043A, 0x0301, 0x045C,
    Then(0x043E, 0x0308, 0x04E7, Then(0x0443, 0x0304, 0x04EF, Then(0x0443, 0x0306, 0x045E,
    Then(0x0443, 0x0308, 0x04F1, Then(0x0443, 0x030B, 0x04F3, Then(0x0447, 0x0308, 0x04F5,
    Then(0x044B, 0x0308, 0x04F9, Then(0x044D, 0x0308, 0x04ED, Rows45()))))))))))))))
  }

  function Rows45(): Rows {
    Then(0x0456, 0x0308, 0x0457, Then(0x0474, 0x030F, 0x0476, Then(0x0475, 0x030F, 0x0477,
    Then(0x04D8, 0x0308, 0x04DA, Then(0x04D9, 0x0308, 0x04DB, Then(0x04E8, 0x0308, 0x04EA,
    Then(0x04E9, 0x0308, 0x04EB, Then(0x0627, 0x0653, 0x0622, Then(0x0627, 0x0654, 0x0623,
    Then(0x0627, 0x0655, 0x0625, Then(0x0648, 0x0654, 0x0624, Then(0x064A, 0x0654, 0x0626,
    Then(0x06C1, 0x0654, 0x06C2, Then(0x06D2, 0x0654, 0x06D3, Rows46()))))))))))))))
  }

  function Rows46(): Rows {
    Then(0x06D5, 0x0654, 0x06C0, Then(0x0928, 0x093C, 0x0929, Then(0x0930, 0x093C, 0x0931,
    Then(0x0933, 0x093C, 0x0934, Then(0x09C7, 0x09BE, 0x09CB, Then(0x09C7, 0x09D7, 0x09CC,
    Then(0x0B47, 0x0B3E, 0x0B4B, Then(0x0B47, 0x0B56, 0x0B48, Then(0x0B47, 0x0B57, 0x0B4C,
    Then(0x0B92, 0x0BD7, 0x0B94, Then(0x0BC6, 0x0BBE, 0x0BCA, Then(0x0BC6, 0x0BD7, 0x0BCC,
    Then(0x0BC7, 0x0BBE, 0x0BCB, Then(0x0C46, 0x0C56, 0x0C48, Rows47()))))))))))))))
  }

  function Rows47(): Rows {
    Then(0x0CBF, 0x0CD5, 0x0CC0, Then(0x0CC6, 0x0CC2, 0x0CCA, Then(0x0CC6, 0x0CD5, 0x0CC7,
    Then(0x0CC6, 0x0CD6, 0x0CC8, Then(0x0CCA, 0x0CD5, 0x0CCB, Then(0x0D46, 0x0D3E, 0x0D4A,
    Then(0x0D46, 0x0D57, 0x0D4C, Then(0x0D47, 0x0D3E, 0x0D4B, Then(0x0DD9, 0x0DCA, 0x0DDA,
    Then(0x0DD9, 0x0DCF, 0x0DDC, Then(0x0DD9, 0x0DDF, 0x0DDE, Then(0x0DDC, 0x0DCA, 0x0DDD,
    Then(0x1025, 0x102E, 0x1026, Then(0x1B05, 0x1B35, 0x1B06, Rows48()))))))))))))))
  }

  function Rows48(): Rows {
    Then(0x1B07, 0x1B35, 0x1B08, Then(0x1B09, 0x1B35, 0x1B0A, Then(0x1B0B, 0x1B35, 0x1B0C,
    Then(0x1B0D, 0x1B35, 0x1B0E, Then(0x1B11, 0x1B35, 0x1B12, Then(0x1B3A, 0x1B35, 0x1B3B,
    Then(0x1B3C, 0x1B35, 0x1B3D, Then(0x1B3E, 0x1B35, 0x1B40, Then(0x1B3F, 0x1B35, 0x1B41,
    Then(0x1B42, 0x1B35, 0x1B43, Then(0x1E36, 0x0304, 0x1E38, Then(0x1E37, 0x0304, 0x1E39,
    Then(0x1E5A, 0x0304, 0x1E5C, Then(0x1E5B, 0x0304, 0x1E5D, Rows49()))))))))))))))
  }

  function Rows49(): Rows {
    Then(0x1E62, 0x0307, 0x1E68, Then(0x1E63, 0x0307, 0x1E69, Then(0x1EA0, 0x0302, 0x1EAC,
    Then(0x1EA0, 0x0306, 0x1EB6, Then(0x1EA1, 0x0302, 0x1EAD, Then(0x1EA1, 0x0306, 0x1EB7,
    Then(0x1EB8, 0x0302, 0x1EC6, Then(0x1EB9, 0x0302, 0x1EC7, Then(0x1ECC, 0x0302, 0x1ED8,
    Then(0x1ECD, 0x0302, 0x1ED9, Then(0x1F00, 0x0300, 0x1F02, Then(0x1F00, 0x0301, 0x1F04,
    Then(0x1F00, 0x0342, 0x1F06, Then(0x1F00, 0x0345, 0x1F80, Rows50()))))))))))))))
  }

  function Rows50(): Rows {
    Then(0x1F01, 0x0300, 0x1F03, Then(0x1F01, 0x0301, 0x1F05, Then(0x1F01, 0x0342, 0x1F07,
    Then(0x1F01, 0x0345, 0x1F81, Then(0x1F02, 0x0345, 0x1F82, Then(0x1F03, 0x0345, 0x1F83,
    Then(0x1F04, 0x0345, 0x1F84, Then(0x1F05, 0x0345, 0x1F85, Then(0x1F06, 0x0345, 0x1F86,
    Then(0x1F07, 0x0345, 0x1F87, Then(0x1F08, 0x0300, 0x1F0A, Then(0x1F08, 0x0301, 0x1F0C,
    Then(0x1F08, 0x0342, 0x1F0E, Then(0x1F08, 0x0345, 0x1F88, Rows51()))))))))))))))
  }

  function Rows51(): Rows {
    Then(0x1F09, 0x0300, 0x1F0B, Then(0x1F09, 0x0301, 0x1F0D, Then(0x1F09, 0x0342, 0x1F0F,
    Then(0x1F09, 0x0345, 0x1F89, Then(0x1F0A, 0x0345, 0x1F8A, Then(0x1F0B, 0x0345, 0x1F8B,
    Then(0x1F0C, 0x0345, 0x1F8C, Then(0x1F0D, 0x0345, 0x1F8D, Then(0x1F0E, 0x0345, 0x1F8E,
    Then(0x1F0F, 0x0345, 0x1F8F, Then(0x1F10, 0x0300, 0x1F12, Then(0x1F10, 0x0301, 0x1F14,
    Then(0x1F11, 0x0300, 0x1F13, Then(0x1F11, 0x0301, 0x1F15, Rows52()))))))))))))))
  }

  function Rows52(): Rows {
    Then(0x1F18, 0x0300, 0x1F1A, Then(0x1F18, 0x0301, 0x1F1C, Then(0x1F19, 0x0300, 0x1F1B,
    Then(0x1F19, 0x0301, 0x1F1D, Then(0x1F20, 0x0300, 0x1F22, Then(0x1F20, 0x0301, 0x1F24,
    Then(0x1F20, 0x0342, 0x1F26, Then(0x1F20, 0x0345, 0x1F90, Then(0x1F21, 0x0300, 0x1F23,
    Then(0x1F21, 0x0301, 0x1F25, Then(0x1F21, 0x0342, 0x1F27, Then(0x1F21, 0x0345, 0x1F91,
    Then(0x1F22, 0x0345, 0x1F92, Then(0x1F23, 0x0345, 0x1F93, Rows53()))))))))))))))
  }

  function Rows53(): Rows {
    Then(0x1F24, 0x0345, 0x1F94, Then(0x1F25, 0x0345, 0x1F95, Then(0x1F26, 0x0345, 0x1F96,
    Then(0x1F27, 0x0345, 0x1F97, Then(0x1F28, 0x0300, 0x1F2A, Then(0x1F28, 0x0301, 0x1F2C,
    Then(0x1F28, 0x0342, 0x1F2E, Then(0x1F28, 0x0345, 0x1F98, Then(0x1F29, 0x0300, 0x1F2B,
    Then(0x1F29, 0x0301, 0x1F2D, Then(0x1F29, 0x0342, 0x1F2F, Then(0x1F29, 0x0345, 0x1F99,
    Then(0x1F2A, 0x0345, 0x1F9A, Then(0x1F2B, 0x0345, 0x1F9B, Rows54()))))))))))))))
  }

  function Rows54(): Rows {
    Then(0x1F2C, 0x0345, 0x1F9C, Then(0x1F2D, 0x0345, 0x1F9D, Then(0x1F2E, 0x0345, 0x1F9E,
    Then(0x1F2F, 0x0345, 0x1F9F, Then(0x1F30, 0x0300, 0x1F32, Then(0x1F30, 0x0301, 0x1F34,
    Then(0x1F30, 0x0342, 0x1F36, Then(0x1F31, 0x0300, 0x1F33, Then(0x1F31, 0x0301, 0x1F35,
    Then(0x1F31, 0x0342, 0x1F37, Then(0x1F38, 0x0300, 0x1F3A, Then(0x1F38, 0x0301, 0x1F3C,
    Then(0x1F38, 0x0342, 0x1F3E, Then(0x1F39, 0x0300, 0x1F3B, Rows55()))))))))))))))
  }

  function Rows55(): Rows {
    Then(0x1F39, 0x0301, 0x1F3D, Then(0x1F39, 0x0342, 0x1F3F, Then(0x1F40, 0x0300, 0x1F42,
    Then(0x1F40, 0x0301, 0x1F44, Then(0x1F41, 0x0300, 0x1F43, Then(0x1F41, 0x0301, 0x1F45,
    Then(0x1F48, 0x0300, 0x1F4A, Then(0x1F48, 0x0301, 0x1F4C, Then(0x1F49, 0x0300, 0x1F4B,
    Then(0x1F49, 0x0301, 0x1F4D, Then(0x1F50, 0x0300, 0x1F52, Then(0x1F50, 0x0301, 0x1F54,
    Then(0x1F50, 0x0342, 0x1F56, Then(0x1F51, 0x0300, 0x1F53, Rows56()))))))))))))))
  }

  function Rows56(): Rows {
    Then(0x1F51, 0x0301, 0x1F55, Then(0x1F51, 0x0342, 0x1F57, Then(0x1F59, 0x0300, 0x1F5B,
    Then(0x1F59, 0x0301, 0x1F5D, Then(0x1F59, 0x0342, 0x1F5F, Then(0x1F60, 0x0300, 0x1F62,
    Then(0x1F60, 0x0301, 0x1F64, Then(0x1F60, 0x0342, 0x1F66, Then(0x1F60, 0x0345, 0x1FA0,
    Then(0x1F61, 0x0300, 0x1F63, Then(0x1F61, 0x0301, 0x1F65, Then(0x1F61, 0x0342, 0x1F67,
    Then(0x1F61, 0x0345, 0x1FA1, Then(0x1F62, 0x0345, 0x1FA2, Rows57()))))))))))))))
  }

  function Rows57(): Rows {
    Then(0x1F63, 0x0345, 0x1FA3, Then(0x1F64, 0x0345, 0x1FA4, Then(0x1F65, 0x0345, 0x1FA5,
    Then(0x1F66, 0x0345, 0x1FA6, Then(0x1F67, 0x0345, 0x1FA7, Then(0x1F68, 0x0300, 0x1F6A,
    Then(0x1F68, 0x0301, 0x1F6C, Then(0x1F68, 0x0342, 0x1F6E, Then(0x1F68, 0x0345, 0x1FA8,
    Then(0x1F69, 0x0300, 0x1F6B, Then(0x1F69, 0x0301, 0x1F6D, Then(0x1F69, 0x0342, 0x1F6F,
    Then(0x1F69, 0x0345, 0x1FA9, Then(0x1F6A, 0x0345, 0x1FAA, Rows58()))))))))))))))
  }

  function Rows58(): Rows {
    Then(0x1F6B, 0x0345, 0x1FAB, Then(0x1F6C, 0x0345, 0x1FAC, Then(0x1F6D, 0x0345, 0x1FAD,
    Then(0x1F6E, 0x0345, 0x1FAE, Then(0x1F6F, 0x0345, 0x1FAF, Then(0x1F70, 0x0345, 0x1FB2,
    Then(0x1F74, 0x0345, 0x1FC2, Then(0x1F7C, 0x0345, 0x1FF2, Then(0x1FB6, 0x0345, 0x1FB7,
    Then(0x1FBF, 0x0300, 0x1FCD, Then(0x1FBF, 0x0301, 0x1FCE, Then(0x1FBF, 0x0342, 0x1FCF,
    Then(0x1FC6, 0x0345, 0x1FC7, Then(0x1FF6, 0x0345, 0x1FF7, Rows59()))))))))))))))
  }

  function Rows59(): Rows {
    Then(0x1FFE, 0x0300, 0x1FDD, Then(0x1FFE, 0x0301, 0x1FDE, Then(0x1FFE, 0x0342, 0x1FDF,
    Then(0x2190, 0x0338, 0x219A, Then(0x2192, 0x0338, 0x219B, Then(0x2194, 0x0338, 0x21AE,
    Then(0x21D0, 0x0338, 0x21CD, Then(0x21D2, 0x0338, 0x21CF, Then(0x21D4, 0x0338, 0x21CE,
    Then(0x2203, 0x0338, 0x2204, Then(0x2208, 0x0338, 0x2209, Then(0x220B, 0x0338, 0x220C,
    Then(0x2223, 0x0338, 0x2224, Then(0x2225, 0x0338, 0x2226, Rows60()))))))))))))))
  }

  function Rows60(): Rows {
    Then(0x223C, 0x0338, 0x2241, Then(0x2243, 0x0338, 0x2244, Then(0x2245, 0x0338, 0x2247,
    Then(0x2248, 0x0338, 0x2249, Then(0x224D, 0x0338, 0x226D, Then(0x2261, 0x0338, 0x2262,
    Then(0x2264, 0x0338, 0x2270, Then(0x2265, 0x0338, 0x2271, Then(0x2272, 0x0338, 0x2274,
    Then(0x2273, 0x0338, 0x2275, Then(0x2276, 0x0338, 0x2278, Then(0x2277, 0x0338, 0x2279,
    Then(0x227A, 0x0338, 0x2280, Then(0x227B, 0x0338, 0x2281, Rows61()))))))))))))))
  }

  function Rows61(): Rows {
    Then(0x227C, 0x0338, 0x22E0, Then(0x227D, 0x0338, 0x22E1, Then(0x2282, 0x0338, 0x2284,
    Then(0x2283, 0x0338, 0x2285, Then(0x2286, 0x0338, 0x2288, Then(0x2287, 0x0338, 0x2289,
    Then(0x2291, 0x0338, 0x22E2, Then(0x2292, 0x0338, 0x22E3, Then(0x22A2, 0x0338, 0x22AC,
    Then(0x22A8, 0x0338, 0x22AD, Then(0x22A9, 0x0338, 0x22AE, Then(0x22AB, 0x0338, 0x22AF,
    Then(0x22B2, 0x0338, 0x22EA, Then(0x22B3, 0x0338, 0x22EB, Rows62()))))))))))))))
  }

  function Rows62(): Rows {
    Then(0x22B4, 0x0338, 0x22EC, Then(0x22B5, 0x0338, 0x22ED, Then(0x3046, 0x3099, 0x3094,
    Then(0x304B, 0x3099, 0x304C, Then(0x304D, 0x3099, 0x304E, Then(0x304F, 0x3099, 0x3050,
    Then(0x3051, 0x3099, 0x3052, Then(0x3053, 0x3099, 0x3054, Then(0x3055, 0x3099, 0x3056,
    Then(0x3057, 0x3099, 0x3058, Then(0x3059, 0x3099, 0x305A, Then(0x305B, 0x3099, 0x305C,
    Then(0x305D, 0x3099, 0x305E, Then(0x305F, 0x3099, 0x3060, Rows63()))))))))))))))
  }

  function Rows63(): Rows {
    Then(0x3061, 0x3099, 0x3062, Then(0x3064, 0x3099, 0x3065, Then(0x3066, 0x3099, 0x3067,
    Then(0x3068, 0x3099, 0x3069, Then(0x306F, 0x3099, 0x3070, Then(0x306F, 0x309A, 0x3071,
    Then(0x3072, 0x3099, 0x3073, Then(0x3072, 0x309A, 0x3074, Then(0x3075, 0x3099, 0x3076,
    Then(0x3075, 0x309A, 0x3077, Then(0x3078, 0x3099, 0x3079, Then(0x3078, 0x309A, 0x307A,
    Then(0x307B, 0x3099, 0x307C, Then(0x307B, 0x309A, 0x307D, Rows64()))))))))))))))
  }

  function Rows64(): Rows {
    Then(0x309D, 0x3099, 0x309E, Then(0x30A6, 0x3099, 0x30F4, Then(0x30AB, 0x3099, 0x30AC,
    Then(0x30AD, 0x3099, 0x30AE, Then(0x30AF, 0x3099, 0x30B0, Then(0x30B1, 0x3099, 0x30B2,
    Then(0x30B3, 0x3099, 0x30B4, Then(0x30B5, 0x3099, 0x30B6, Then(0x30B7, 0x3099, 0x30B8,
    Then(0x30B9, 0x3099, 0x30BA, Then(0x30BB, 0x3099, 0x30BC, Then(0x30BD, 0x3099, 0x30BE,
    Then(0x30BF, 0x3099, 0x30C0, Then(0x30C1, 0x3099, 0x30C2, Rows65()))))))))))))))
  }

  function Rows65(): Rows {
    Then(0x30C4, 0x3099, 0x30C5, Then(0x30C6, 0x3099, 0x30C7, Then(0x30C8, 0x3099, 0x30C9,
    Then(0x30CF, 0x3099, 0x30D0, Then(0x30CF, 0x309A, 0x30D1, Then(0x30D2, 0x3099, 0x30D3,
    Then(0x30D2, 0x309A, 0x30D4, Then(0x30D5, 0x3099, 0x30D6, Then(0x30D5, 0x309A, 0x30D7,
    Then(0x30D8, 0x3099, 0x30D9, Then(0x30D8, 0x309A, 0x30DA, Then(0x30DB, 0x3099, 0x30DC,
    Then(0x30DB, 0x309A, 0x30DD, Then(0x30EF, 0x3099, 0x30F7, Rows66()))))))))))))))
  }

  function Rows66(): Rows {
    Then(0x30F0, 0x3099, 0x30F8, Then(0x30F1, 0x3099, 0x30F9, Then(0x30F2, 0x3099, 0x30FA,
    Then(0x30FD, 0x3099, 0x30FE, End))))
  }

  lemma Rows00Fit()
    ensures Fit(0x0000, 0x0000, Rows00())
  {
    Rows01Fit();
  }

  lemma Rows01Fit()
    ensures Fit(0x0041, 0x030C, Rows01())
  {
    Rows02Fit();
  }

  lemma Rows02Fit()
    ensures Fit(0x0044, 0x0307, Rows02())
  {
    Rows03Fit();
  }

  lemma Rows03Fit()
    ensures Fit(0x0045, 0x0309, Rows03())
  {
    Rows04Fit();
  }

  lemma Rows04Fit()
    ensures Fit(0x0047, 0x0307, Rows04())
  {
    Rows05Fit();
  }

  lemma Rows05Fit()
    ensures Fit(0x0049, 0x0304, Rows05())
  {
    Rows06Fit();
  }

  lemma Rows06Fit()
    ensures Fit(0x004B, 0x0323, Rows06())
  {
    Rows07Fit();
  }

  lemma Rows07Fit()
    ensures Fit(0x004E, 0x0303, Rows07())
  {
    Rows08Fit();
  }

  lemma Rows08Fit()
    ensures Fit(0x004F, 0x0308, Rows08())
  {
    Rows09Fit();
  }

  lemma Rows09Fit()
    ensures Fit(0x0052, 0x030F, Rows09())
  {
    Rows10Fit();
  }

  lemma Rows10Fit()
    ensures Fit(0x0054, 0x0323, Rows10())
  {
    Rows11Fit();
  }

  lemma Rows11Fit()
    ensures Fit(0x0055, 0x030B, Rows11())
  {
    Rows12Fit();
  }

  lemma Rows12Fit()
    ensures Fit(0x0057, 0x0302, Rows12())
  {
    Rows13Fit();
  }

  lemma Rows13Fit()
    ensures Fit(0x0059, 0x0323, Rows13())
  {
    Rows14Fit();
  }

  lemma Rows14Fit()
    ensures Fit(0x0061, 0x0308, Rows14())
  {
    Rows15Fit();
  }

  lemma Rows15Fit()
    ensures Fit(0x0063, 0x0307, Rows15())
  {
    Rows16Fit();
  }

  lemma Rows16Fit()
    ensures Fit(0x0065, 0x0306, Rows16())
  {
    Rows17Fit();
  }

  lemma Rows17Fit()
    ensures Fit(0x0067, 0x0302, Rows17())
  {
    Rows18Fit();
  }

  lemma Rows18Fit()
    ensures Fit(0x0069, 0x0300, Rows18())
  {
    Rows19Fit();
  }

  lemma Rows19Fit()
    ensures Fit(0x006A, 0x0302, Rows19())
  {
    Rows20Fit();
  }

  lemma Rows20Fit()
    ensures Fit(0x006D, 0x0307, Rows20())
  {
    Rows21Fit();
  }

  lemma Rows21Fit()
    ensures Fit(0x006F, 0x0303, Rows21())
  {
    Rows22Fit();
  }

  lemma Rows22Fit()
    ensures Fit(0x0070, 0x0307, Rows22())
  {
    Rows23Fit();
  }

  lemma Rows23Fit()
    ensures Fit(0x0073, 0x0326, Rows23())
  {
    Rows24Fit();
  }

  lemma Rows24Fit()
    ensures Fit(0x0075, 0x0304, Rows24())
  {
    Rows25Fit();
  }

  lemma Rows25Fit()
    ensures Fit(0x0075, 0x0330, Rows25())
  {
    Rows26Fit();
  }

  lemma Rows26Fit()
    ensures Fit(0x0079, 0x0302, Rows26())
  {
    Rows27Fit();
  }

  lemma Rows27Fit()
    ensures Fit(0x00A8, 0x0300, Rows27())
  {
    Rows28Fit();
  }

  lemma Rows28Fit()
    ensures Fit(0x00CA, 0x0303, Rows28())
  {
    Rows29Fit();
  }

  lemma Rows29Fit()
    ensures Fit(0x00DC, 0x0304, Rows29())
  {
    Rows30Fit();
  }

  lemma Rows30Fit()
    ensures Fit(0x00EA, 0x0309, Rows30())
  {
    Rows31Fit();
  }

  lemma Rows31Fit()
    ensures Fit(0x00FC, 0x030C, Rows31())
  {
    Rows32Fit();
  }

  lemma Rows32Fit()
    ensures Fit(0x014C, 0x0301, Rows32())
  {
    Rows33Fit();
  }

  lemma Rows33Fit()
    ensures Fit(0x01A0, 0x0303, Rows33())
  {
    Rows34Fit();
  }

  lemma Rows34Fit()
    ensures Fit(0x01B0, 0x0301, Rows34())
  {
    Rows35Fit();
  }

  lemma Rows35Fit()
    ensures Fit(0x0391, 0x0300, Rows35())
  {
    Rows36Fit();
  }

  lemma Rows36Fit()
    ensures Fit(0x0397, 0x0314, Rows36())
  {
    Rows37Fit();
  }

  lemma Rows37Fit()
    ensures Fit(0x03A5, 0x0300, Rows37())
  {
    Rows38Fit();
  }

  lemma Rows38Fit()
    ensures Fit(0x03B1, 0x0301, Rows38())
  {
    Rows39Fit();
  }

  lemma Rows39Fit()
    ensures Fit(0x03B7, 0x0314, Rows39())
  {
    Rows40Fit();
  }

  lemma Rows40Fit()
    ensures Fit(0x03BF, 0x0314, Rows40())
  {
    Rows41Fit();
  }

  lemma Rows41Fit()
    ensures Fit(0x03C9, 0x0314, Rows41())
  {
    Rows42Fit();
  }

  lemma Rows42Fit()
    ensures Fit(0x0410, 0x0308, Rows42())
  {
    Rows43Fit();
  }

  lemma Rows43Fit()
    ensures Fit(0x0423, 0x0304, Rows43())
  {
    Rows44Fit();
  }

  lemma Rows44Fit()
    ensures Fit(0x0436, 0x0308, Rows44())
  {
    Rows45Fit();
  }

  lemma Rows45Fit()
    ensures Fit(0x044D, 0x0308, Rows45())
  {
    Rows46Fit();
  }

  lemma Rows46Fit()
    ensures Fit(0x06D2, 0x0654, Rows46())
  {
    Rows47Fit();
  }

  lemma Rows47Fit()
    ensures Fit(0x0C46, 0x0C56, Rows47())
  {
    Rows48Fit();
  }

  lemma Rows48Fit()
    ensures Fit(0x1B05, 0x1B35, Rows48())
  {
    Rows49Fit();
  }

  lemma Rows49Fit()
    ensures Fit(0x1E5B, 0x0304, Rows49())
  {
    Rows50Fit();
  }

  lemma Rows50Fit()
    ensures Fit(0x1F00, 0x0345, Rows50())
  {
    Rows51Fit();
  }

  lemma Rows51Fit()
    ensures Fit(0x1F08, 0x0345, Rows51())
  {
    Rows52Fit();
  }

  lemma Rows52Fit()
    ensures Fit(0x1F11, 0x0301, Rows52())
  {
    Rows53Fit();
  }

  lemma Rows53Fit()
    ensures Fit(0x1F23, 0x0345, Rows53())
  {
    Rows54Fit();
  }

  lemma Rows54Fit()
    ensures Fit(0x1F2B, 0x0345, Rows54())
  {
    Rows55Fit();
  }

  lemma Rows55Fit()
    ensures Fit(0x1F39, 0x0300, Rows55())
  {
    Rows56Fit();
  }

  lemma Rows56Fit()
    ensures Fit(0x1F51, 0x0300, Rows56())
  {
    Rows57Fit();
  }

  lemma Rows57Fit()
    ensures Fit(0x1F62, 0x0345, Rows57())
  {
    Rows58Fit();
  }

  lemma Rows58Fit()
    ensures Fit(0x1F6A, 0x0345, Rows58())
  {
    Rows59Fit();
  }

  lemma Rows59Fit()
    ensures Fit(0x1FF6, 0x0345, Rows59())
  {
    Rows60Fit();
  }

  lemma Rows60Fit()
    ensures Fit(0x2225, 0x0338, Rows60())
  {
    Rows61Fit();
  }

  lemma Rows61Fit()
    ensures Fit(0x227B, 0x0338, Rows61())
  {
    Rows62Fit();
  }

  lemma Rows62Fit()
    ensures Fit(0x22B3, 0x0338, Rows62())
  {
    Rows63Fit();
  }

  lemma Rows63Fit()
    ensures Fit(0x305F, 0x3099, Rows63())
  {
    Rows64Fit();
  }

  lemma Rows64Fit()
    ensures Fit(0x307B, 0x309A, Rows64())
  {
    Rows65Fit();
  }

  lemma Rows65Fit()
    ensures Fit(0x30C1, 0x3099, Rows65())
  {
    Rows66Fit();
  }

  lemma Rows66Fit()
    ensures Fit(0x30EF, 0x3099, Rows66())
  {
  }
}
