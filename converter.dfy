/**
 * The conversion engine (BinConverter): lays a byte buffer into lines of an optional
 * address column, a grouped hexadecimal column and a text column.
 *
 * The first half of the module is the specification of the output as functions of the
 * settings and the bytes; the class BinConverter then builds the output the way the
 * original does, in one loop over three string builders, and is proved to produce it.
 */
module Converter {
  import opened Settings
  import opened Strings

  newtype byte = b: int | 0 <= b < 256

  /** Settings whose sizes the layout arithmetic can rely on (see Config.Sized). */
  type SizedConfig = c: Config | c.Sized()
    witness Config(false, false, 1, false, 1, 1, ' ', false, ' ', ' ', 0, ' ', 0, ' ')

  /** A composite format such as "{0:X8}": the specifier character and the precision. */
  datatype HexFormat = HexFormat(specifier: char, digits: nat)

  /**
   * The address format "{0:X8}" followed by the delimiters: the number format and the
   * literal text after it, as written into the composite format string.
   */
  datatype AddressFormat = AddressFormat(number: HexFormat, suffix: string)

  function FormatHex(f: HexFormat, n: nat): string {
    Hex(n, f.digits, f.specifier == 'X')
  }

  /** AppendFormat can read the address format, or it is not used: no address is shown. */
  predicate AddressReadable(c: Config, f: AddressFormat) {
    !c.isShowAddress || Unescape(f.suffix).Some?
  }

  /**
   * The text AppendFormat writes after the number: the suffix with its doubled braces
   * read as one. When the suffix cannot be read the conversion fails instead (RenderSpec),
   * so the empty text given then is never part of a result.
   */
  function SuffixText(f: AddressFormat): string {
    if Unescape(f.suffix).Some? then Unescape(f.suffix).value else []
  }

  function FormatAddress(f: AddressFormat, address: nat): string {
    FormatHex(f.number, address) + SuffixText(f)
  }

  /** The format specifier of every number: "X" for capital letters, "x" otherwise. */
  function GetByteFormat(c: Config): (r: char)
    ensures r == 'X' || r == 'x'
    ensures r == 'X' <==> c.isCapitalLetters
  {
    if c.isCapitalLetters then 'X' else 'x'
  }

  /** The format of one byte: two digits, in the configured case. */
  function GetBodyFormat(c: Config): (f: HexFormat)
    ensures f.digits == 2
    ensures f.specifier == 'X' <==> c.isCapitalLetters
  {
    HexFormat(GetByteFormat(c), 2)
  }

  /** The number of slots to render: whole lines of limit bytes, padding included. */
  function GetTotalSize(count: int, limit: int): (total: int)
    requires count >= 0 && limit > 0
    ensures total % limit == 0
    ensures count <= total < count + limit
  {
    var lines := count / limit;
    var lines' := if count % limit != 0 then lines + 1 else lines;
    assert lines' * limit == lines * limit + (if count % limit != 0 then limit else 0);
    assert (lines' * limit) % limit == 0 by { MultipleMod(lines', limit); }
    lines' * limit
  }

  lemma MultipleMod(k: int, limit: int)
    requires k >= 0 && limit > 0
    ensures (k * limit) % limit == 0 && (k * limit) / limit == k
  {
    LineIndex(k, 0, limit);
  }

  /** (line * limit + col) splits back into line and col. */
  lemma LineIndex(line: nat, col: nat, limit: nat)
    requires col < limit
    ensures (line * limit + col) % limit == col
    ensures (line * limit + col) / limit == line
  {
    var n := line * limit + col;
    var q, r := n / limit, n % limit;
    assert n == q * limit + r;
    if q > line {
      assert (line + 1) * limit == line * limit + limit;
      MulMonotone(line + 1, q, limit);
    } else if q < line {
      assert (q + 1) * limit == q * limit + limit;
      MulMonotone(q + 1, line, limit);
    }
  }

  lemma {:induction false} MulMonotone(a: nat, b: nat, m: nat)
    requires a <= b
    ensures a * m <= b * m
    decreases b - a
  {
    if a < b {
      MulMonotone(a + 1, b, m);
      assert (a + 1) * m == a * m + m;
    }
  }

  /**
   * Two hex digits per byte of the configured address size: 2, 4, 8 or 16 for its 1, 2, 4
   * or 8, so that r digits hold exactly the values of addressSize bytes.
   */
  function GetAddrFormatExpectedSize(c: Config): (r: int)
    ensures r in {2, 4, 8, 16} <==> c.addressSize in {1, 2, 4, 8}
    ensures r > 0 <==> c.addressSize > 0
    ensures c.addressSize >= 0 ==> r >= 0 && Pow16(r) == Pow2(8 * c.addressSize)
  {
    if c.addressSize >= 0 then
      DigitsPerByte(c.addressSize);
      2 * c.addressSize
    else
      2 * c.addressSize
  }

  /** n bytes and 2 * n hex digits hold the same values: 16^(2n) == 2^(8n). */
  lemma {:induction false} DigitsPerByte(n: nat)
    ensures Pow16(2 * n) == Pow2(8 * n)
  {
    if n > 0 {
      var m: nat := n - 1;
      DigitsPerByte(m);
      assert Pow16(2 * m + 2) == 256 * Pow16(2 * m);
      Pow2Plus8(8 * m);
      assert 2 * n == 2 * m + 2 && 8 * n == 8 * m + 8;
    }
  }

  lemma Pow2Plus8(k: nat)
    ensures Pow2(k + 8) == 256 * Pow2(k)
  {
    assert Pow2(k + 2) == 4 * Pow2(k);
    assert Pow2(k + 4) == 4 * Pow2(k + 2);
    assert Pow2(k + 6) == 4 * Pow2(k + 4);
    assert Pow2(k + 8) == 4 * Pow2(k + 6);
  }

  /**
   * The fewest hex digits among 2, 4, 8 and 16 that hold the last address total - 1:
   * it fits in that many digits (up to 16 digits), and not in the next smaller choice.
   */
  function GetAddrFormatRequiredSize(total: int): (r: nat)
    ensures r in {2, 4, 8, 16}
    ensures r < 16 ==> total - 1 < Pow16(r)
    ensures r > 2 ==> total - 1 >= Pow16(r / 2)
  {
    Pow16Values();
    var address := total - 1;
    if address <= 0xFF then 2
    else if address <= 0xFFFF then 4
    else if address <= 0xFFFF_FFFF then 8
    else 16
  }

  /**
   * The address format for a dump of total slots: never narrower than the configured
   * address size, widened when the last address needs more digits.
   */
  function GetAddressFormat(c: SizedConfig, total: int): (f: AddressFormat)
    ensures f.number.specifier == 'X' <==> c.isCapitalLetters
    ensures f.number.digits >= 2 * c.addressSize
    ensures f.number.digits >= GetAddrFormatRequiredSize(total)
    ensures f.number.digits == 2 * c.addressSize || f.number.digits == GetAddrFormatRequiredSize(total)
    ensures f.suffix == Repeat(c.addressDelimiterValue, c.addressDelimiterWidth)
                      + Repeat(c.sectionDelimiterValue, c.sectionDelimiterWidth)
  {
    var expected := GetAddrFormatExpectedSize(c);
    var required := GetAddrFormatRequiredSize(total);
    var digits := if required > expected then required else expected;
    var padding :=
      (if c.addressDelimiterWidth > 0 then Repeat(c.addressDelimiterValue, c.addressDelimiterWidth) else [])
      + (if c.sectionDelimiterWidth > 0 then Repeat(c.sectionDelimiterValue, c.sectionDelimiterWidth) else []);
    AddressFormat(HexFormat(GetByteFormat(c), digits), padding)
  }

  /** The character shown for a byte in the text column (Latin-1: code point == byte). */
  function TextChar(c: Config, value: byte): (ch: char)
    ensures !IsControl(c.controlCharacterValue) ==> !IsControl(ch)
    ensures !IsControl(value as int as char) ==> ch == value as int as char
    ensures IsControl(value as int as char) ==> ch == c.controlCharacterValue
  {
    if IsControl(value as int as char) then c.controlCharacterValue else value as int as char
  }

  // What AddValue and AddPadding append to the body and text builders.

  /** The byte in the body format "{0:X2}" or "{0:x2}": its two hex digits (see ByteHex). */
  function ValueBody(c: Config, value: byte): string {
    if c.isShowByteBlock then [HexDigit(value as nat / 16, c.isCapitalLetters), HexDigit(value as nat % 16, c.isCapitalLetters)]
    else []
  }

  /** The two-digit body format writes a byte as exactly its high and its low hex digit. */
  lemma ByteHex(c: Config, value: byte)
    ensures FormatHex(GetBodyFormat(c), value as nat)
      == [HexDigit(value as nat / 16, c.isCapitalLetters), HexDigit(value as nat % 16, c.isCapitalLetters)]
  {
    assert Hex(value as nat / 16, 1, c.isCapitalLetters) == [HexDigit(value as nat / 16, c.isCapitalLetters)];
  }

  function ValueText(c: Config, value: byte): string {
    if c.isShowTextBlock then [TextChar(c, value)] else []
  }

  /** Two padding characters, the width of one byte in the body. */
  function PaddingBody(c: Config): string {
    if c.isShowByteBlock then [c.byteBlockPadding, c.byteBlockPadding] else []
  }

  function PaddingText(c: Config): string {
    if c.isShowTextBlock then [c.textBlockPadding] else []
  }

  /**
   * The remainder of n divided by d, by repeated subtraction; RemIsMod shows it is n % d.
   * The slot functions use it instead of % so that the solver unfolds them one slot at a
   * time rather than reasoning about non-linear remainders.
   */
  function Rem(n: nat, d: nat): (r: nat)
    requires d > 0
    ensures r < d
    decreases n
  {
    if n < d then n else Rem(n - d, d)
  }

  lemma {:induction false} RemIsMod(n: nat, d: nat)
    requires d > 0
    ensures Rem(n, d) == n % d
    decreases n
  {
    if n >= d {
      RemIsMod(n - d, d);
      var q := (n - d) / d;
      assert n - d == q * d + (n - d) % d;
      assert n == (q + 1) * d + (n - d) % d;
      LineIndex(q + 1, (n - d) % d, d);
    } else {
      LineIndex(0, n, d);
    }
  }

  /** The group separator written after every byteBlockWidth-th slot. */
  function Separator(c: SizedConfig, index: nat): string
  {
    if Rem(index + 1, c.byteBlockWidth) == 0 then [c.sectionDelimiterValue] else []
  }

  /** The body text of slot index: a real byte below |data|, padding after it. */
  function BodySlot(c: SizedConfig, data: seq<byte>, index: nat): string
  {
    (if index < |data| then ValueBody(c, data[index]) else PaddingBody(c))
    + Separator(c, index)
  }

  function TextSlot(c: Config, data: seq<byte>, index: nat): string {
    if index < |data| then ValueText(c, data[index]) else PaddingText(c)
  }

  /** The body builder after the slots lo .. hi - 1. */
  function BodyRange(c: SizedConfig, data: seq<byte>, lo: nat, hi: nat): string
    decreases hi
  {
    if hi <= lo then [] else BodyRange(c, data, lo, hi - 1) + BodySlot(c, data, hi - 1)
  }

  /** The text builder after the slots lo .. hi - 1. */
  function TextRange(c: Config, data: seq<byte>, lo: nat, hi: nat): string
    decreases hi
  {
    if hi <= lo then [] else TextRange(c, data, lo, hi - 1) + TextSlot(c, data, hi - 1)
  }

  /** AddResult: the trimmed body, the section gap, the text, as far as they are shown. */
  function LineResult(c: Config, body: string, text: string): string {
    (if c.isShowByteBlock then
       TrimEnd(body, c.sectionDelimiterValue)
       + (if c.sectionDelimiterWidth > 0 && c.isShowTextBlock
          then Repeat(c.sectionDelimiterValue, c.sectionDelimiterWidth) else [])
     else [])
    + (if c.isShowTextBlock then text else [])
  }

  /** AddAddress: the formatted address when the address column is shown. */
  function AddressPart(c: Config, f: AddressFormat, address: nat): string {
    if c.isShowAddress then FormatAddress(f, address) else []
  }

  /**
   * The index of the first slot of line k: k * limit, by repeated addition, for the same
   * reason as Rem; LineStartIsProduct ties it to the product.
   */
  function LineStart(c: SizedConfig, k: nat): nat
  {
    if k == 0 then 0 else LineStart(c, k - 1) + c.ByteBlockLimit()
  }

  lemma {:induction false} LineStartIsProduct(c: SizedConfig, k: nat)
    ensures LineStart(c, k) == k * c.ByteBlockLimit()
  {
    if k > 0 {
      LineStartIsProduct(c, k - 1);
      assert k * c.ByteBlockLimit() == (k - 1) * c.ByteBlockLimit() + c.ByteBlockLimit();
    }
  }

  /** Line k of the dump: the slots LineStart(k) .. LineStart(k + 1) - 1. */
  function Line(c: SizedConfig, data: seq<byte>, f: AddressFormat, k: nat): string
  {
    var start := LineStart(c, k);
    var end := start + c.ByteBlockLimit();
    AddressPart(c, f, start)
    + LineResult(c, BodyRange(c, data, start, end), TextRange(c, data, start, end))
  }

  /** Lines 0 .. n - 1 of the dump. */
  function Lines(c: SizedConfig, data: seq<byte>, f: AddressFormat, n: nat): (ls: seq<string>)
    ensures |ls| == n
  {
    seq(n, k requires 0 <= k < n => Line(c, data, f, k))
  }

  /**
   * x == y, restated for values of any type. It states nothing new; it is a hint for the
   * solver: called on two strings, their equality is settled by rewriting with the facts
   * at hand rather than character by character.
   */
  lemma Equal<T>(x: T, y: T)
    requires x == y
    ensures x == y
  {
  }

  lemma SnocAt<T>(s: seq<T>, x: T, k: nat)
    requires k <= |s|
    ensures (s + [x])[k] == if k < |s| then s[k] else x
  {
  }

  /** The dump of all of data. */
  function Dump(c: SizedConfig, data: seq<byte>): string
  {
    var limit := c.ByteBlockLimit();
    var total := GetTotalSize(|data|, limit);
    Assemble(Lines(c, data, GetAddressFormat(c, total), total / limit))
  }

  /** The number of buffer bytes rendered: a negative length means the whole buffer. */
  function EffectiveCount(size: nat, length: int): nat {
    var len := if length < 0 then size else length;
    if len > size then size else len
  }

  /** What Convert returns, or the FormatException that AppendFormat throws. */
  datatype Output = Text(value: string) | FormatError

  /**
   * The loop of Convert over the bytes data: the first address it formats throws when
   * AppendFormat cannot read the address format, otherwise the result is the dump.
   */
  function RenderSpec(c: SizedConfig, data: seq<byte>): Output {
    var total := GetTotalSize(|data|, c.ByteBlockLimit());
    if |data| > 0 && !AddressReadable(c, GetAddressFormat(c, total)) then FormatError
    else Text(Dump(c, data))
  }

  /** Convert(buffer, length), as the result it returns. */
  function ConvertSpec(c: Config, buffer: seq<byte>, length: int): Output
    requires c.Valid()
  {
    if |buffer| == 0 || length == 0 then Text([])
    else RenderSpec(c, buffer[..EffectiveCount(|buffer|, length)])
  }

  class BinConverter {
    const settings: BinConverterSettings

    constructor (settings: BinConverterSettings)
      ensures this.settings == settings
    {
      this.settings := settings;
    }

    /** Convert(buffer): the whole buffer, by passing length -1. */
    method Convert(buffer: seq<byte>) returns (result: Output)
      requires settings.Valid()
      ensures result == ConvertSpec(settings.Snapshot(), buffer, -1)
      ensures result == ConvertSpec(settings.Snapshot(), buffer, |buffer|)
    {
      result := ConvertLength(buffer, -1);
    }

    /** Convert(buffer, length). */
    method ConvertLength(buffer: seq<byte>, length: int) returns (result: Output)
      requires settings.Valid()
      ensures result == ConvertSpec(settings.Snapshot(), buffer, length)
    {
      if |buffer| == 0 || length == 0 {
        return Text([]);
      }
      var len := length;
      if len < 0 {
        len := |buffer|;
      }
      var c: SizedConfig := settings.Snapshot();
      var count := if len > |buffer| then |buffer| else len;
      result := Render(c, buffer, count);
    }

    /**
     * The rest of Convert(buffer, length) once the arguments are checked: the loop over
     * total slots, for the settings c read at the start and the first count bytes.
     */
    method Render(c: SizedConfig, buffer: seq<byte>, count: nat) returns (result: Output)
      requires count <= |buffer|
      ensures result == RenderSpec(c, buffer[..count])
    {
      var limit := c.ByteBlockLimit();
      var total := GetTotalSize(count, limit);

      var addrFormat := GetAddressFormat(c, total);
      var bodyFormat := GetBodyFormat(c);

      var dataBuilder := new StringBuilder();
      var bodyBuilder := new StringBuilder();
      var textBuilder := new StringBuilder();

      ghost var data := buffer[..count];
      ghost var lines: seq<string>, col: nat := [], 0;
      var index := 0;
      while index < total
        invariant index <= total
        invariant Progress(c, data, addrFormat, total, lines, col, index,
                           dataBuilder.content, bodyBuilder.content, textBuilder.content)
        invariant index > 0 ==> AddressReadable(c, addrFormat)
      {
        var ok := AddSlot(c, addrFormat, bodyFormat, dataBuilder, bodyBuilder, textBuilder, buffer, count, index,
                          limit, total, data, lines, col);
        if !ok {
          assert |data| > 0;
          return FormatError;
        }
        lines, col := CloseSlot(c, dataBuilder, bodyBuilder, textBuilder, index, limit, total,
                                data, addrFormat, lines, col);
        index := index + 1;
      }
      DumpFromLines(c, data, addrFormat, lines);
      result := Text(dataBuilder.ToString());
    }

    /**
     * The first half of one pass of the loop of Convert: the address when slot index opens
     * a line, the byte or its padding, and the group separator after every
     * byteBlockWidth-th slot. Fails, with nothing written, when the address cannot be
     * formatted.
     */
    method AddSlot(c: SizedConfig, addrFormat: AddressFormat, bodyFormat: HexFormat,
                   dataBuilder: StringBuilder, bodyBuilder: StringBuilder, textBuilder: StringBuilder,
                   buffer: seq<byte>, count: nat, index: nat, limit: int, total: int,
                   ghost data: seq<byte>, ghost lines: seq<string>, ghost col: nat)
      returns (ok: bool)
      requires dataBuilder != bodyBuilder && dataBuilder != textBuilder && bodyBuilder != textBuilder
      requires count <= |buffer| && data == buffer[..count] && bodyFormat == GetBodyFormat(c)
      requires limit == c.ByteBlockLimit() && total % limit == 0 && index < total
      requires Progress(c, data, addrFormat, total, lines, col, index,
                        dataBuilder.content, bodyBuilder.content, textBuilder.content)
      modifies dataBuilder, bodyBuilder, textBuilder
      ensures ok == (col != 0 || AddressReadable(c, addrFormat))
      ensures ok ==> bodyBuilder.content == BodyRange(c, data, LineStart(c, |lines|), index + 1)
      ensures ok ==> textBuilder.content == TextRange(c, data, LineStart(c, |lines|), index + 1)
      ensures ok ==> dataBuilder.content == DataPrefix(c, addrFormat, lines, col + 1)
      ensures !ok ==> dataBuilder.content == old(dataBuilder.content) && bodyBuilder.content == old(bodyBuilder.content)
                      && textBuilder.content == old(textBuilder.content)
    {
      SlotPosition(c, |lines|, col, index, limit, total);
      ghost var data0, body0, text0 := dataBuilder.content, bodyBuilder.content, textBuilder.content;
      if index % limit == 0 {
        ok := AddAddress(c, addrFormat, dataBuilder, index);
        if !ok {
          return;
        }
      }
      ok := true;
      MidLine(c, addrFormat, lines, col, data0, dataBuilder.content);
      if index < count {
        AddValue(c, bodyFormat, bodyBuilder, textBuilder, buffer[index]);
      } else {
        AddPadding(c, bodyBuilder, textBuilder);
      }
      ghost var body1 := bodyBuilder.content;
      SeparatorTest(c, index, c.byteBlockWidth);
      if (index + 1) % c.byteBlockWidth == 0 {
        bodyBuilder.Append([c.sectionDelimiterValue]);
      }
      BodyStep(c, data, LineStart(c, |lines|), index, body0, body1, bodyBuilder.content);
      TextStep(c, data, LineStart(c, |lines|), index, text0, textBuilder.content);
    }

    /**
     * The second half of one pass of the loop of Convert: when slot index ends a line,
     * the line goes to the data builder and the two section builders are emptied; a
     * NewLine follows when another line comes and the data builder is not empty.
     * Returns the finished lines and the column of the next slot.
     */
    method CloseSlot(c: SizedConfig, dataBuilder: StringBuilder, bodyBuilder: StringBuilder, textBuilder: StringBuilder,
                     index: nat, limit: int, total: int,
                     ghost data: seq<byte>, ghost f: AddressFormat,
                     ghost lines: seq<string>, ghost col: nat)
      returns (ghost lines': seq<string>, ghost col': nat)
      requires dataBuilder != bodyBuilder && dataBuilder != textBuilder && bodyBuilder != textBuilder
      requires limit == c.ByteBlockLimit() && total % limit == 0
      requires index == LineStart(c, |lines|) + col && col < limit && index < total
      requires bodyBuilder.content == BodyRange(c, data, LineStart(c, |lines|), index + 1)
      requires textBuilder.content == TextRange(c, data, LineStart(c, |lines|), index + 1)
      requires dataBuilder.content == DataPrefix(c, f, lines, col + 1)
      requires LinesSoFar(c, data, f, lines)
      modifies dataBuilder, bodyBuilder, textBuilder
      ensures Progress(c, data, f, total, lines', col', index + 1,
                       dataBuilder.content, bodyBuilder.content, textBuilder.content)
      ensures |lines'| == if col + 1 == limit then |lines| + 1 else |lines|
    {
      SlotPosition(c, |lines|, col, index, limit, total);
      ghost var data1, body, text := dataBuilder.content, bodyBuilder.content, textBuilder.content;
      if (index + 1) % limit == 0 || index + 1 >= total {
        AddResult(c, dataBuilder, bodyBuilder, textBuilder);
        bodyBuilder.Clear();
        textBuilder.Clear();
      }
      ghost var data2 := dataBuilder.content;
      if (index + 1) % limit == 0 && index + 1 < total && dataBuilder.Length() > 0 {
        dataBuilder.Append(NewLine);
      }
      if col + 1 == limit {
        LineIs(c, data, f, lines, col, index, body, text);
        CloseLine(lines, AddressPart(c, f, LineStart(c, |lines|)), LineResult(c, body, text), Line(c, data, f, |lines|),
                  data1, data2, dataBuilder.content, index + 1 < total);
        LineClosed(c, data, f, lines, col, index);
        LinesSnoc(c, data, f, lines);
        lines', col' := lines + [Line(c, data, f, |lines|)], 0;
      } else {
        lines', col' := lines, col + 1;
      }
    }

    /**
     * AppendFormat(addrFormat, address) when the address column is shown. It fails, with
     * the builder as it was, when the literal text of the format cannot be read.
     */
    method AddAddress(c: Config, addrFormat: AddressFormat, dataBuilder: StringBuilder, address: nat)
      returns (ok: bool)
      modifies dataBuilder
      ensures ok == AddressReadable(c, addrFormat)
      ensures ok ==> dataBuilder.content == old(dataBuilder.content) + AddressPart(c, addrFormat, address)
      ensures !ok ==> dataBuilder.content == old(dataBuilder.content)
    {
      if c.isShowAddress {
        var text := Unescape(addrFormat.suffix);
        if text.None? {
          return false;
        }
        dataBuilder.Append(FormatHex(addrFormat.number, address) + text.value);
      }
      ok := true;
    }

    method AddValue(c: Config, bodyFormat: HexFormat, bodyBuilder: StringBuilder, textBuilder: StringBuilder,
                    value: byte)
      requires bodyBuilder != textBuilder && bodyFormat == GetBodyFormat(c)
      modifies bodyBuilder, textBuilder
      ensures bodyBuilder.content == old(bodyBuilder.content) + ValueBody(c, value)
      ensures textBuilder.content == old(textBuilder.content) + ValueText(c, value)
    {
      if c.isShowByteBlock {
        ByteHex(c, value);
        bodyBuilder.Append(FormatHex(bodyFormat, value as nat));
      }
      if c.isShowTextBlock {
        var ch := if IsControl(value as int as char) then c.controlCharacterValue else value as int as char;
        textBuilder.Append([ch]);
      }
    }

    method AddPadding(c: Config, bodyBuilder: StringBuilder, textBuilder: StringBuilder)
      requires bodyBuilder != textBuilder
      modifies bodyBuilder, textBuilder
      ensures bodyBuilder.content == old(bodyBuilder.content) + PaddingBody(c)
      ensures textBuilder.content == old(textBuilder.content) + PaddingText(c)
    {
      if c.isShowByteBlock {
        assert Repeat(c.byteBlockPadding, 2) == [c.byteBlockPadding, c.byteBlockPadding];
        bodyBuilder.Append(Repeat(c.byteBlockPadding, 2));
      }
      if c.isShowTextBlock {
        textBuilder.Append(Repeat(c.textBlockPadding, 1));
      }
    }

    method AddResult(c: Config, dataBuilder: StringBuilder, bodyBuilder: StringBuilder, textBuilder: StringBuilder)
      requires dataBuilder != bodyBuilder && dataBuilder != textBuilder
      modifies dataBuilder
      ensures dataBuilder.content == old(dataBuilder.content) + LineResult(c, bodyBuilder.content, textBuilder.content)
    {
      if c.isShowByteBlock {
        dataBuilder.Append(TrimEnd(bodyBuilder.ToString(), c.sectionDelimiterValue));
        if c.sectionDelimiterWidth > 0 && c.isShowTextBlock {
          dataBuilder.Append(Repeat(c.sectionDelimiterValue, c.sectionDelimiterWidth));
        }
      }
      if c.isShowTextBlock {
        dataBuilder.Append(textBuilder.ToString());
      }
    }
  }


  // Facts for the loop of Render.

  /** The data builder while the line after the finished lines is in progress, after col of its slots. */
  function DataPrefix(c: SizedConfig, f: AddressFormat, lines: seq<string>, col: nat): string
  {
    if col > 0 then Finished(lines) + AddressPart(c, f, LineStart(c, |lines|)) else Finished(lines)
  }

  /**
   * The invariant of the loop of Render before slot index: the finished lines are the
   * first lines of the dump, index is column col of the line after them, the body and
   * text builders hold that line's slots so far, and the data builder holds the finished
   * lines (with the line's address once it has a slot), or the whole dump at the end.
   */
  predicate Progress(c: SizedConfig, data: seq<byte>, f: AddressFormat, total: int,
                     lines: seq<string>, col: nat, index: nat, out: string, body: string, text: string)
  {
    && index == LineStart(c, |lines|) + col && col < c.ByteBlockLimit()
    && (index == total ==> col == 0)
    && LinesSoFar(c, data, f, lines)
    && body == BodyRange(c, data, LineStart(c, |lines|), index)
    && text == TextRange(c, data, LineStart(c, |lines|), index)
    && (index < total ==> out == DataPrefix(c, f, lines, col))
    && (index == total ==> out == Assemble(lines))
  }

  /** lines are the first |lines| lines of the dump. */
  predicate LinesSoFar(c: SizedConfig, data: seq<byte>, f: AddressFormat, lines: seq<string>) {
    forall i {:trigger Line(c, data, f, i)} :: 0 <= i < |lines| ==> lines[i] == Line(c, data, f, i)
  }

  lemma LinesSnoc(c: SizedConfig, data: seq<byte>, f: AddressFormat, lines: seq<string>)
    requires LinesSoFar(c, data, f, lines)
    ensures LinesSoFar(c, data, f, lines + [Line(c, data, f, |lines|)])
  {
    var next := lines + [Line(c, data, f, |lines|)];
    forall i | 0 <= i < |next|
      ensures next[i] == Line(c, data, f, i)
    {
      SnocAt(lines, Line(c, data, f, |lines|), i);
      Equal(next[i], Line(c, data, f, i));
    }
  }

  /** A dump of n lines is Assemble of those n lines. */
  lemma DumpIsAssembled(c: SizedConfig, data: seq<byte>, n: nat)
    requires LineStart(c, n) == GetTotalSize(|data|, c.ByteBlockLimit())
    ensures Dump(c, data) == Assemble(Lines(c, data, GetAddressFormat(c, LineStart(c, n)), n))
  {
    LineStartIsProduct(c, n);
    MultipleMod(n, c.ByteBlockLimit());
  }

  /** A sequence whose every element is the line of its index is Lines. */
  lemma LinesEqual(c: SizedConfig, data: seq<byte>, f: AddressFormat, lines: seq<string>)
    requires LinesSoFar(c, data, f, lines)
    ensures lines == Lines(c, data, f, |lines|)
  {
    var ls := Lines(c, data, f, |lines|);
    forall i | 0 <= i < |lines| ensures lines[i] == ls[i] {
      Equal(lines[i], Line(c, data, f, i));
    }
  }

  /** The lines of all slots, assembled, are the dump. */
  lemma DumpFromLines(c: SizedConfig, data: seq<byte>, f: AddressFormat, lines: seq<string>)
    requires LinesSoFar(c, data, f, lines)
    requires LineStart(c, |lines|) == GetTotalSize(|data|, c.ByteBlockLimit())
    requires f == GetAddressFormat(c, LineStart(c, |lines|))
    ensures Assemble(lines) == Dump(c, data)
  {
    LinesEqual(c, data, f, lines);
    DumpIsAssembled(c, data, |lines|);
  }

  /**
   * Slot index = LineStart(line) + col, in the terms the loop tests: it opens a line exactly
   * when col is 0, and it closes one exactly when col is the last column, which the last
   * slot of the dump always is.
   */
  lemma SlotPosition(c: SizedConfig, line: nat, col: nat, index: nat, limit: int, total: int)
    requires limit == c.ByteBlockLimit()
    requires index == LineStart(c, line) + col && col < limit && index < total
    requires total % limit == 0
    ensures (index % limit == 0) == (col == 0)
    ensures ((index + 1) % limit == 0) == (col + 1 == limit)
    ensures index + 1 >= total ==> col + 1 == limit
    ensures col + 1 == limit ==> LineStart(c, line + 1) == index + 1
  {
    LineStartIsProduct(c, line);
    LineIndex(line, col, limit);
    if col + 1 < limit {
      LineIndex(line, col + 1, limit);
    } else {
      assert (line + 1) * limit == line * limit + limit;
      LineIndex(line + 1, 0, limit);
    }
  }

  /** The separator test of the loop, on the remainder the code computes. */
  lemma SeparatorTest(c: SizedConfig, index: nat, width: int)
    requires width == c.byteBlockWidth
    ensures Separator(c, index) == if (index + 1) % width == 0 then [c.sectionDelimiterValue] else []
  {
    RemIsMod(index + 1, width);
  }

  /** One slot appended to the body builder. */
  lemma BodyStep(c: SizedConfig, data: seq<byte>, lo: nat, index: nat, body0: string, body1: string, body2: string)
    requires lo <= index
    requires body0 == BodyRange(c, data, lo, index)
    requires body1 == body0 + (if index < |data| then ValueBody(c, data[index]) else PaddingBody(c))
    requires body2 == body1 + Separator(c, index)
    ensures body2 == BodyRange(c, data, lo, index + 1)
  {
    Associate(body0, if index < |data| then ValueBody(c, data[index]) else PaddingBody(c),
              Separator(c, index));
  }

  /** One slot appended to the text builder. */
  lemma TextStep(c: Config, data: seq<byte>, lo: nat, index: nat, text0: string, text1: string)
    requires lo <= index
    requires text0 == TextRange(c, data, lo, index)
    requires text1 == text0 + (if index < |data| then ValueText(c, data[index]) else PaddingText(c))
    ensures text1 == TextRange(c, data, lo, index + 1)
  {
  }

  /** A slot that does not end its line: the address is written once, at the first slot. */
  lemma MidLine(c: SizedConfig, f: AddressFormat, lines: seq<string>, col: nat, data0: string, data1: string)
    requires data0 == DataPrefix(c, f, lines, col)
    requires data1 == if col == 0 then data0 + AddressPart(c, f, LineStart(c, |lines|)) else data0
    ensures data1 == DataPrefix(c, f, lines, col + 1)
  {
    AddressOnce(Finished(lines), AddressPart(c, f, LineStart(c, |lines|)), col, data0, data1);
  }

  /** Whichever slot wrote the address, the line holds it once. */
  lemma AddressOnce(t: string, a: string, col: nat, data0: string, data1: string)
    requires data0 == if col > 0 then t + a else t
    requires data1 == if col == 0 then data0 + a else data0
    ensures data1 == t + a
  {
  }

  lemma Associate(t: string, a: string, r: string)
    ensures (t + a) + r == t + (a + r)
  {
  }

  /** Line k, on the slots up to hi, the first slot of the next line. */
  lemma LineUnfold(c: SizedConfig, data: seq<byte>, f: AddressFormat, k: nat, hi: nat)
    requires hi == LineStart(c, k) + c.ByteBlockLimit()
    ensures Line(c, data, f, k) ==
      AddressPart(c, f, LineStart(c, k))
      + LineResult(c, BodyRange(c, data, LineStart(c, k), hi), TextRange(c, data, LineStart(c, k), hi))
  {
  }

  /** The line that the body and text builders hold at its last slot. */
  lemma LineIs(c: SizedConfig, data: seq<byte>, f: AddressFormat, lines: seq<string>, col: nat, index: nat,
               body: string, text: string)
    requires col + 1 == c.ByteBlockLimit() && index == LineStart(c, |lines|) + col
    requires body == BodyRange(c, data, LineStart(c, |lines|), index + 1)
    requires text == TextRange(c, data, LineStart(c, |lines|), index + 1)
    ensures Line(c, data, f, |lines|) == AddressPart(c, f, LineStart(c, |lines|)) + LineResult(c, body, text)
  {
    LineUnfold(c, data, f, |lines|, index + 1);
    Equal(Line(c, data, f, |lines|), AddressPart(c, f, LineStart(c, |lines|)) + LineResult(c, body, text));
  }

  /** After the last slot of a line, the next line starts at the next slot, with nothing in it yet. */
  lemma LineClosed(c: SizedConfig, data: seq<byte>, f: AddressFormat, lines: seq<string>, col: nat, index: nat)
    requires col + 1 == c.ByteBlockLimit() && index == LineStart(c, |lines|) + col
    ensures var next := lines + [Line(c, data, f, |lines|)];
      && LineStart(c, |next|) == index + 1
      && BodyRange(c, data, LineStart(c, |next|), index + 1) == []
      && TextRange(c, data, LineStart(c, |next|), index + 1) == []
  {
    assert LineStart(c, |lines| + 1) == index + 1;
  }
}
