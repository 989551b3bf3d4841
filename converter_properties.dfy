/**
 * Properties of the dump that BinConverter promises, stated over the specification
 * functions of module Converter: the handling of the arguments, the size of the grid,
 * the contents of the address, byte and text columns, and how the lines make up the output.
 */
module ConverterProperties {
  import opened Settings
  import opened Strings
  import opened Converter

  // The arguments of Convert.

  /**
   * An empty buffer or a zero length gives the empty string; a negative length, or one
   * beyond the buffer, means the whole buffer; otherwise the first length bytes are dumped.
   */
  lemma ConvertArguments(c: Config, buffer: seq<byte>, length: int)
    requires c.Valid()
    ensures |buffer| == 0 || length == 0 ==> ConvertSpec(c, buffer, length) == Text([])
    ensures length < 0 || length > |buffer| ==> ConvertSpec(c, buffer, length) == ConvertSpec(c, buffer, |buffer|)
    ensures |buffer| > 0 && 0 < length <= |buffer| ==> ConvertSpec(c, buffer, length) == RenderSpec(c, buffer[..length])
  {
  }

  // The delimiters in the address format.

  /**
   * The delimiter runs that AppendFormat can read: a brace must come in pairs, counted
   * over both runs together when they repeat the same brace.
   */
  predicate DelimitersReadable(c: Config) {
    var a, s := c.addressDelimiterValue, c.sectionDelimiterValue;
    var w1, w2 := Width(c.addressDelimiterWidth), Width(c.sectionDelimiterWidth);
    if a == s then RunReadable(a, w1 + w2) else RunReadable(a, w1) && RunReadable(s, w2)
  }

  /** The delimiter text written after each address, with every pair of braces as one. */
  function DelimiterText(c: Config): string {
    var a, s := c.addressDelimiterValue, c.sectionDelimiterValue;
    var w1, w2 := Width(c.addressDelimiterWidth), Width(c.sectionDelimiterWidth);
    if a == s then RunText(a, w1 + w2) else RunText(a, w1) + RunText(s, w2)
  }

  function Width(w: int): nat {
    if w > 0 then w else 0
  }

  /**
   * The literal text after the number in the address format reads without error exactly
   * when the delimiters are readable, and then reads as the delimiter text; delimiters
   * without braces are written as they are.
   */
  lemma SuffixDecoded(c: SizedConfig, total: int)
    ensures var f := GetAddressFormat(c, total);
      && (Unescape(f.suffix).Some? <==> DelimitersReadable(c))
      && (DelimitersReadable(c) ==> SuffixText(f) == DelimiterText(c))
  {
    var a, s := c.addressDelimiterValue, c.sectionDelimiterValue;
    var w1, w2 := Width(c.addressDelimiterWidth), Width(c.sectionDelimiterWidth);
    assert GetAddressFormat(c, total).suffix == Repeat(a, w1) + Repeat(s, w2);
    TwoRuns(a, w1, s, w2);
  }

  /** Without a brace among the delimiters, the delimiter text is the two runs as they are. */
  lemma PlainDelimiters(c: Config)
    requires !IsBrace(c.addressDelimiterValue) && !IsBrace(c.sectionDelimiterValue)
    ensures DelimitersReadable(c)
    ensures DelimiterText(c) == Repeat(c.addressDelimiterValue, Width(c.addressDelimiterWidth))
                                + Repeat(c.sectionDelimiterValue, Width(c.sectionDelimiterWidth))
  {
    if c.addressDelimiterValue == c.sectionDelimiterValue {
      RepeatAdd(c.addressDelimiterValue, Width(c.addressDelimiterWidth), Width(c.sectionDelimiterWidth));
    }
  }

  /**
   * For a non-empty selection of the buffer, Convert fails with a FormatException exactly
   * when the address column is shown and its delimiters cannot be read; otherwise it
   * returns the dump.
   */
  lemma ConvertFails(c: Config, buffer: seq<byte>, length: int)
    requires c.Valid() && |buffer| > 0 && length != 0
    ensures var data := buffer[..EffectiveCount(|buffer|, length)];
      && (ConvertSpec(c, buffer, length) == FormatError <==> c.isShowAddress && !DelimitersReadable(c))
      && (ConvertSpec(c, buffer, length) != FormatError ==> ConvertSpec(c, buffer, length) == Text(Dump(c, data)))
  {
    var data := buffer[..EffectiveCount(|buffer|, length)];
    assert |data| > 0;
    SuffixDecoded(c, GetTotalSize(|data|, c.ByteBlockLimit()));
  }

  // The size of the grid.

  /** GetTotalSize is the least multiple of limit that holds count bytes (so 0 for 0). */
  lemma TotalSizeIsLeast(count: int, limit: int, m: int)
    requires count >= 0 && limit > 0
    requires m >= count && m % limit == 0
    ensures GetTotalSize(count, limit) <= m
  {
    var total := GetTotalSize(count, limit);
    var a, b := total / limit, m / limit;
    assert total == a * limit && m == b * limit;
    assert (b + 1) * limit == m + limit;
    QuotientBound(a, b, limit);
    MulMonotone(a, b, limit);
  }

  lemma QuotientBound(a: nat, b: nat, limit: nat)
    requires a * limit < (b + 1) * limit
    ensures a <= b
  {
    if a > b {
      MulMonotone(b + 1, a, limit);
    }
  }

  /** A longer dump never needs fewer address digits. */
  lemma RequiredSizeMonotone(total: int, total': int)
    requires total <= total'
    ensures GetAddrFormatRequiredSize(total) <= GetAddrFormatRequiredSize(total')
  {
  }

  // The address column.

  /**
   * The address of a slot of a dump of total slots, when the address column is shown and
   * its delimiters can be read: hexadecimal digits in the configured case that read back
   * as the address, never fewer than two per byte of the configured address size, and
   * then the delimiter text.
   */
  lemma AddressColumn(c: SizedConfig, total: int, address: nat)
    requires c.isShowAddress && DelimitersReadable(c)
    ensures var p := AddressPart(c, GetAddressFormat(c, total), address);
      var d := DelimiterText(c);
      && |p| >= |d|
      && p[|p| - |d|..] == d
      && HexValue(p[..|p| - |d|]) == address
      && |p| - |d| >= 2 * c.addressSize
      && (forall i :: 0 <= i < |p| - |d| ==> IsHexDigit(p[i], c.isCapitalLetters))
  {
    var f := GetAddressFormat(c, total);
    SuffixDecoded(c, total);
    var d := DelimiterText(c);
    var h := Hex(address, f.number.digits, c.isCapitalLetters);
    var p := AddressPart(c, f, address);
    assert p == h + d;
    assert p[..|p| - |d|] == h && p[|p| - |d|..] == d;
    HexRoundTrip(address, f.number.digits, c.isCapitalLetters);
    HexDigits(address, f.number.digits, c.isCapitalLetters);
  }

  /**
   * Every address of a dump, up to a last address that fits in 64 bits, is written with
   * exactly the format's number of digits, so the address column has one width.
   */
  lemma AddressWidth(c: SizedConfig, total: int, address: nat)
    requires c.isShowAddress
    requires address < total <= 0x1_0000_0000_0000_0000
    ensures var f := GetAddressFormat(c, total);
      |AddressPart(c, f, address)| == f.number.digits + |SuffixText(f)|
  {
    var f := GetAddressFormat(c, total);
    var required := GetAddrFormatRequiredSize(total);
    if required == 16 {
      Pow16Values();
    }
    assert address < Pow16(required);
    Pow16Monotone(required, f.number.digits);
    HexLength(address, f.number.digits, c.isCapitalLetters);
    assert AddressPart(c, f, address) == Hex(address, f.number.digits, c.isCapitalLetters) + SuffixText(f);
  }

  // The byte and text columns.

  /**
   * A real byte puts exactly two hexadecimal digits of the configured case into the byte
   * block, and they read back as the byte; a hidden byte block receives nothing.
   */
  lemma ByteColumn(c: Config, value: byte)
    ensures c.isShowByteBlock ==>
      && |ValueBody(c, value)| == 2
      && HexValue(ValueBody(c, value)) == value as nat
      && IsHexDigit(ValueBody(c, value)[0], c.isCapitalLetters)
      && IsHexDigit(ValueBody(c, value)[1], c.isCapitalLetters)
    ensures !c.isShowByteBlock ==> ValueBody(c, value) == [] && PaddingBody(c) == []
  {
    if c.isShowByteBlock {
      var s := ValueBody(c, value);
      var v := value as nat;
      assert s[..1][..0] == [] && s[..1] == [s[0]];
      assert HexValue(s[..1]) == v / 16;
      assert HexValue(s) == 16 * (v / 16) + v % 16;
    }
  }

  /**
   * The text column of slots lo .. hi - 1, when shown: one character per slot, the text
   * character of the byte for each real byte and the text padding after the data; a
   * hidden text column receives nothing.
   */
  lemma {:induction false} TextColumn(c: Config, data: seq<byte>, lo: nat, hi: nat)
    requires lo <= hi
    ensures c.isShowTextBlock ==> |TextRange(c, data, lo, hi)| == hi - lo
    ensures c.isShowTextBlock ==> forall j :: 0 <= j < hi - lo ==>
      TextRange(c, data, lo, hi)[j] == if lo + j < |data| then TextChar(c, data[lo + j]) else c.textBlockPadding
    ensures !c.isShowTextBlock ==> TextRange(c, data, lo, hi) == []
    decreases hi
  {
    if hi > lo {
      TextColumn(c, data, lo, hi - 1);
    }
  }

  /** Under the settings invariant the text column never holds a control character. */
  lemma TextIsPrintable(c: Config, data: seq<byte>, lo: nat, hi: nat)
    requires c.Valid() && lo <= hi
    ensures forall j :: 0 <= j < |TextRange(c, data, lo, hi)| ==> !IsControl(TextRange(c, data, lo, hi)[j])
  {
    TextColumn(c, data, lo, hi);
  }

  // Lines and the output.

  /** A string without control characters, so in particular without a line break. */
  predicate Printable(s: string) {
    forall i :: 0 <= i < |s| ==> !IsControl(s[i])
  }

  lemma PrintableConcat(a: string, b: string)
    requires Printable(a) && Printable(b)
    ensures Printable(a + b)
  {
    forall i | 0 <= i < |a + b| ensures !IsControl((a + b)[i]) {
      if i >= |a| {
        assert (a + b)[i] == b[i - |a|];
      }
    }
  }

  lemma RepeatPrintable(ch: char, n: nat)
    requires !IsControl(ch)
    ensures Printable(Repeat(ch, n))
  {
    RepeatAt(ch, n);
  }

  /** Under the settings invariant the byte block of slots lo .. hi - 1 is printable. */
  lemma {:induction false} BodyPrintable(c: SizedConfig, data: seq<byte>, lo: nat, hi: nat)
    requires c.Valid()
    ensures Printable(BodyRange(c, data, lo, hi))
    decreases hi
  {
    if hi > lo {
      BodyPrintable(c, data, lo, hi - 1);
      var slot := BodySlot(c, data, hi - 1);
      var part := if hi - 1 < |data| then ValueBody(c, data[hi - 1]) else PaddingBody(c);
      assert Printable(part);
      PrintableConcat(part, Separator(c, hi - 1));
      PrintableConcat(BodyRange(c, data, lo, hi - 1), slot);
    }
  }

  /** The delimiter text after the address is printable under the settings invariant. */
  lemma SuffixPrintable(c: SizedConfig, total: int)
    requires c.Valid()
    ensures Printable(SuffixText(GetAddressFormat(c, total)))
  {
    SuffixDecoded(c, total);
    var a, s := c.addressDelimiterValue, c.sectionDelimiterValue;
    var w1, w2 := Width(c.addressDelimiterWidth), Width(c.sectionDelimiterWidth);
    RepeatPrintable(a, w1 + w2);
    RepeatPrintable(a, (w1 + w2) / 2);
    RepeatPrintable(a, w1);
    RepeatPrintable(a, w1 / 2);
    RepeatPrintable(s, w2);
    RepeatPrintable(s, w2 / 2);
    PrintableConcat(RunText(a, w1), RunText(s, w2));
  }

  /** The address column is printable when its delimiter text is. */
  lemma AddressPrintable(c: Config, f: AddressFormat, address: nat)
    requires Printable(SuffixText(f))
    ensures Printable(AddressPart(c, f, address))
  {
    HexDigits(address, f.number.digits, f.number.specifier == 'X');
    PrintableConcat(FormatHex(f.number, address), SuffixText(f));
  }

  /** AddResult keeps printable builders printable under the settings invariant. */
  lemma ResultPrintable(c: Config, body: string, text: string)
    requires c.Valid() && Printable(body) && Printable(text)
    ensures Printable(LineResult(c, body, text))
  {
    TrimEndSpec(body, c.sectionDelimiterValue);
    var trimmed := TrimEnd(body, c.sectionDelimiterValue);
    assert Printable(trimmed);
    var gap := if c.sectionDelimiterWidth > 0 && c.isShowTextBlock
               then Repeat(c.sectionDelimiterValue, c.sectionDelimiterWidth) else [];
    RepeatPrintable(c.sectionDelimiterValue, c.sectionDelimiterWidth);
    PrintableConcat(trimmed, gap);
    var bodyPart := if c.isShowByteBlock then trimmed + gap else [];
    var textPart := if c.isShowTextBlock then text else [];
    PrintableConcat(bodyPart, textPart);
  }

  /** Under the settings invariant no line of a dump holds a control character. */
  lemma LinePrintable(c: SizedConfig, data: seq<byte>, f: AddressFormat, k: nat)
    requires c.Valid() && Printable(SuffixText(f))
    ensures Printable(Line(c, data, f, k))
  {
    var start := LineStart(c, k);
    var end := start + c.ByteBlockLimit();
    BodyPrintable(c, data, start, end);
    TextIsPrintable(c, data, start, end);
    AddressPrintable(c, f, start);
    ResultPrintable(c, BodyRange(c, data, start, end), TextRange(c, data, start, end));
    PrintableConcat(AddressPart(c, f, start),
                    LineResult(c, BodyRange(c, data, start, end), TextRange(c, data, start, end)));
  }

  /** With every column hidden a line is empty. */
  lemma LineHidden(c: SizedConfig, data: seq<byte>, f: AddressFormat, k: nat)
    requires !c.isShowAddress && !c.isShowByteBlock && !c.isShowTextBlock
    ensures Line(c, data, f, k) == []
  {
  }

  /** A line is never empty when the address or the text column is shown. */
  lemma LineNotEmpty(c: SizedConfig, data: seq<byte>, f: AddressFormat, k: nat)
    requires c.isShowAddress || c.isShowTextBlock
    ensures |Line(c, data, f, k)| > 0
  {
    var start := LineStart(c, k);
    TextColumn(c, data, start, start + c.ByteBlockLimit());
  }

  lemma LinesNotEmpty(c: SizedConfig, data: seq<byte>, f: AddressFormat, n: nat)
    requires c.isShowAddress || c.isShowTextBlock
    ensures forall i :: 0 <= i < n ==> |Lines(c, data, f, n)[i]| > 0
  {
    forall i | 0 <= i < n ensures |Lines(c, data, f, n)[i]| > 0 {
      LineNotEmpty(c, data, f, i);
    }
  }

  lemma LinesPrintable(c: SizedConfig, data: seq<byte>, f: AddressFormat, n: nat)
    requires c.Valid() && Printable(SuffixText(f))
    ensures forall i :: 0 <= i < n ==> Printable(Lines(c, data, f, n)[i])
  {
    forall i | 0 <= i < n ensures Printable(Lines(c, data, f, n)[i]) {
      LinePrintable(c, data, f, i);
    }
  }

  lemma LinesAllEmpty(c: SizedConfig, data: seq<byte>, f: AddressFormat, n: nat)
    requires !c.isShowAddress && !c.isShowByteBlock && !c.isShowTextBlock
    ensures forall i :: 0 <= i < n ==> Lines(c, data, f, n)[i] == []
  {
    forall i | 0 <= i < n ensures Lines(c, data, f, n)[i] == [] {
      LineHidden(c, data, f, i);
    }
  }

  /**
   * When the address or the text column is shown, every line is non-empty, so the dump is
   * exactly its lines joined by "\r\n", with no terminator after the last one.
   */
  lemma DumpIsJoin(c: SizedConfig, data: seq<byte>)
    requires c.isShowAddress || c.isShowTextBlock
    ensures var limit := c.ByteBlockLimit();
      var total := GetTotalSize(|data|, limit);
      Dump(c, data) == Join(Lines(c, data, GetAddressFormat(c, total), total / limit), NewLine)
  {
    var limit := c.ByteBlockLimit();
    var total := GetTotalSize(|data|, limit);
    assert limit >= 1 && total >= 0;
    var n: nat := total / limit;
    LinesJoin(c, data, GetAddressFormat(c, total), n);
    Equal(Dump(c, data), Join(Lines(c, data, GetAddressFormat(c, total), n), NewLine));
  }

  lemma LinesJoin(c: SizedConfig, data: seq<byte>, f: AddressFormat, n: nat)
    requires c.isShowAddress || c.isShowTextBlock
    ensures Assemble(Lines(c, data, f, n)) == Join(Lines(c, data, f, n), NewLine)
  {
    LinesNotEmpty(c, data, f, n);
    AssembleIsJoin(Lines(c, data, f, n));
  }

  /** With every column hidden the dump is the empty string. */
  lemma DumpHidden(c: SizedConfig, data: seq<byte>)
    requires !c.isShowAddress && !c.isShowByteBlock && !c.isShowTextBlock
    ensures Dump(c, data) == []
  {
    var limit := c.ByteBlockLimit();
    var total := GetTotalSize(|data|, limit);
    assert limit >= 1 && total >= 0;
    var n: nat := total / limit;
    LinesHidden(c, data, GetAddressFormat(c, total), n);
  }

  lemma LinesHidden(c: SizedConfig, data: seq<byte>, f: AddressFormat, n: nat)
    requires !c.isShowAddress && !c.isShowByteBlock && !c.isShowTextBlock
    ensures Assemble(Lines(c, data, f, n)) == []
  {
    LinesAllEmpty(c, data, f, n);
    AssembleAllEmpty(Lines(c, data, f, n));
  }

  /**
   * A dump of n > 0 bytes under valid settings, with the address or the text column shown,
   * holds exactly one line feed fewer than it has lines: one line per limit bytes, rounded up.
   */
  lemma DumpLineCount(c: SizedConfig, data: seq<byte>)
    requires c.Valid() && (c.isShowAddress || c.isShowTextBlock) && |data| > 0
    ensures var limit := c.ByteBlockLimit();
      var total := GetTotalSize(|data|, limit);
      total / limit >= 1 && Count(Dump(c, data), '\n') == total / limit - 1
  {
    var limit := c.ByteBlockLimit();
    var total := GetTotalSize(|data|, limit);
    assert limit >= 1 && total >= 1;
    var n: nat := total / limit;
    assert n >= 1;
    var ls := Lines(c, data, GetAddressFormat(c, total), n);
    SuffixPrintable(c, total);
    LinesPrintable(c, data, GetAddressFormat(c, total), n);
    forall i, j | 0 <= i < |ls| && 0 <= j < |ls[i]| ensures ls[i][j] != '\n' {
      assert Printable(ls[i]);
    }
    DumpIsJoin(c, data);
    JoinLineFeeds(ls);
  }

  /**
   * A single '{' as address delimiter is accepted by its setter, yet every conversion of a
   * non-empty selection that shows the address fails with a FormatException.
   */
  lemma LoneBraceFails(buffer: seq<byte>)
    requires |buffer| > 0
    ensures CheckCharacter(AddressDelimiterValue, '{').Pass?
    ensures Defaults.(addressDelimiterValue := '{').Valid()
    ensures ConvertSpec(Defaults.(addressDelimiterValue := '{'), buffer, -1) == FormatError
  {
    DefaultsValid();
    ConvertFails(Defaults.(addressDelimiterValue := '{'), buffer, -1);
  }

  /** Two '{' as address delimiter are written as one, then the two section spaces. */
  lemma DoubledBraceWritesOne()
    ensures Defaults.(addressDelimiterValue := '{', addressDelimiterWidth := 2).Sized()
    ensures DelimitersReadable(Defaults.(addressDelimiterValue := '{', addressDelimiterWidth := 2))
    ensures DelimiterText(Defaults.(addressDelimiterValue := '{', addressDelimiterWidth := 2)) == "{  "
  {
    assert RunText('{', 2) == "{";
    assert RunText(' ', 2) == "  ";
  }

  /** The defaults satisfy the settings invariant. */
  lemma DefaultsValid()
    ensures Defaults.Valid()
  {
    assert IsPowerOfTwo(16) && IsPowerOfTwo(1);
  }

  /**
   * The default settings on 130 bytes: 144 slots of 16 bytes per line, and 8 address
   * digits, since the address size of 4 bytes already covers the last address 0x8F.
   */
  lemma DefaultGrid(data: seq<byte>)
    requires |data| == 130
    ensures Defaults.Sized() && Defaults.ByteBlockLimit() == 16
    ensures GetTotalSize(|data|, 16) == 144
    ensures GetAddressFormat(Defaults, 144).number.digits == 8
  {
  }

  /** The default settings on 130 bytes give 9 lines, so 8 line feeds. */
  lemma DefaultScenario(data: seq<byte>)
    requires |data| == 130
    ensures Count(Dump(Defaults, data), '\n') == 8
  {
    DefaultsValid();
    DefaultGrid(data);
    DumpLineCount(Defaults, data);
  }
}
