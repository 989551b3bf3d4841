# Plexdata.BinConverter in Dafny

A model of the core of Plexdata.BinConverter, a .NET library that renders a byte buffer as a
hex dump. Each line of the dump has three columns, and each can be switched off:

- the address of the line's first byte;
- the bytes in hexadecimal, grouped by a section delimiter;
- the bytes as text, with control characters replaced.

The model holds four modules:

- `Settings` (settings.dfy) models `BinConverterSettings`. It is a class with the original's
  fourteen fields and one method per property setter. Each setter either rejects its argument
  and leaves the object unchanged, or writes exactly its own field. The invariant `Valid()`
  collects what the setters accept. The constructor sets the documented defaults through the
  setters, so it establishes `Valid()`, and every setter preserves it.
- `Strings` (strings.dfy) holds the small pieces of .NET text handling the converter uses:
  - `PadLeft` on the empty string, as `Repeat`;
  - `TrimEnd(char)`;
  - the `X`/`x` numeric format with a minimum digit count, as `Hex`, with `HexValue` reading
    it back;
  - a `StringBuilder` class with a mutable `content`;
  - the literal text of a composite format as `AppendFormat` reads it, as `Unescape`, with
    `Escape` as its inverse;
  - `Assemble`, the way the converter's loop joins lines: a terminator goes between two lines
    only when another line follows and the output so far is non-empty (BinConverter.cs:130).
    `Join` is the plain reference join; `DumpIsJoin` shows the two agree whenever the
    address or text column is shown.
- `Converter` (converter.dfy) holds the pure format and size functions (`GetTotalSize`,
  `GetAddrFormatRequiredSize`, `GetAddressFormat` and the others) and a pure specification of
  the dump. `Line` is one output line:
  - the address part;
  - the hex column, with trailing section delimiters trimmed;
  - the section gap, when both the hex and text columns are shown;
  - the text column.

  `Dump` assembles the lines. Class `BinConverter` holds the imperative `Convert`. Its loop over
  the slots of the grid appends into three `StringBuilder`s, as the original does. It is proved
  equal to the specification through the loop invariant `Progress`.
- `ConverterProperties` (converter_properties.dfy) proves what the dump promises over that
  specification:
  - the handling of the arguments and the size of the grid;
  - the contents and widths of the address, hex and text columns;
  - that no line holds a control character;
  - that the output is its lines joined by `"\r\n"`, with exactly one line feed fewer than it
    has lines;
  - the concrete default scenario of 130 bytes in 9 lines.

Two source quirks the model reproduces:

- `AddResult` trims every trailing `SectionDelimiterValue` from the hex column. When that
  delimiter is itself a hexadecimal digit, trailing digits of the last bytes are trimmed as
  well. With only the hex column shown, a line can then be trimmed to nothing. An empty line
  gets no terminator after it (BinConverter.cs:130), so a non-empty buffer can even give
  `""`. This is why `DumpIsJoin` and `DumpLineCount` require the address or the text column
  to be shown: with either shown, no line is empty.
- `GetAddressFormat` pastes the delimiter characters into a .NET composite format string
  such as `"{0:X8}:  "`, which `AppendFormat` then reads. The setters accept `{` and `}`,
  which are not control characters. In that text `{{` and `}}` each stand for one brace,
  and any other brace makes `AppendFormat` throw a `FormatException`. `Strings.Unescape`
  reads the text this way. `Convert` then yields the result type `Output`: the text, or
  `FormatError` when the first address cannot be formatted.

## Model

| member | source | states |
|---|---|---|
| Settings.BinConverterSettings.constructor | code/src/Plexdata.BinConverter/BinConverterSettings.cs:153-175 | the new object satisfies the invariant and holds the documented defaults (`Defaults`): capitals, address shown with size 4, hex shown with 16 blocks of width 1 padded with `_`, text shown padded with `_`, address delimiter `:` once, section delimiter space twice, `.` for control characters |
| Settings.BinConverterSettings.SetIsCapitalLetters | code/src/Plexdata.BinConverter/BinConverterSettings.cs:182 | the flag, and only the flag, takes the new value; the invariant is kept |
| Settings.BinConverterSettings.SetIsShowAddress | code/src/Plexdata.BinConverter/BinConverterSettings.cs:185 | the flag, and only the flag, takes the new value; the invariant is kept |
| Settings.BinConverterSettings.SetIsShowByteBlock | code/src/Plexdata.BinConverter/BinConverterSettings.cs:211 | the flag, and only the flag, takes the new value; the invariant is kept |
| Settings.BinConverterSettings.SetIsShowTextBlock | code/src/Plexdata.BinConverter/BinConverterSettings.cs:287 | the flag, and only the flag, takes the new value; the invariant is kept |
| Settings.CheckAddressSize | code/src/Plexdata.BinConverter/BinConverterSettings.cs:196-206 | the address size passes exactly for 1, 2, 4 and 8; any other value fails as unsupported |
| Settings.BinConverterSettings.SetAddressSize | code/src/Plexdata.BinConverter/BinConverterSettings.cs:188-208 | the outcome is the address size check; on success only the address size changes, on failure nothing does; the invariant is kept |
| Settings.CheckBlockSize | code/src/Plexdata.BinConverter/BinConverterSettings.cs:222-230 | the value passes exactly when it is 2^k for some k; a value of 0 or less fails as not greater than zero, any other failure is "not divisible by 8 bits" |
| Settings.PowerOfTwoIff | code/src/Plexdata.BinConverter/BinConverterSettings.cs:450-456 | the exact power-of-two test that replaces IsDivisibleByEightBits accepts exactly the numbers 2^k |
| Settings.IsPowerOfTwo | code/src/Plexdata.BinConverter/BinConverterSettings.cs:450-456 | only positive numbers pass; PowerOfTwoIff shows it accepts exactly the numbers 2^k, as the logarithm test intends |
| Settings.NoPowerOfTwoBetween | code/src/Plexdata.BinConverter/BinConverterSettings.cs:450-456 | nothing strictly between 2^k and 2^(k+1) passes, so 3, 5..7 and 9..15 are rejected |
| Settings.BinConverterSettings.SetByteBlockCount | code/src/Plexdata.BinConverter/BinConverterSettings.cs:214-234 | the outcome is the block size check for ByteBlockCount; on success only the count changes, on failure nothing does; the invariant is kept |
| Settings.BinConverterSettings.SetByteBlockWidth | code/src/Plexdata.BinConverter/BinConverterSettings.cs:237-257 | the outcome is the block size check for ByteBlockWidth; on success only the width changes, on failure nothing does; the invariant is kept |
| Settings.BinConverterSettings.ByteBlockLimit | code/src/Plexdata.BinConverter/BinConverterSettings.cs:260-266 | the limit is the current count times the current width, recomputed on every read; under the invariant it is at least 1 |
| Settings.Config.LimitIsPowerOfTwo | code/src/Plexdata.BinConverter/BinConverterSettings.cs:260-266 | under the invariant the line length, count times width, is itself a power of two |
| Settings.CheckCharacter | code/src/Plexdata.BinConverter/BinConverterSettings.cs:277-280 | a character passes exactly when it is not a control character (U+0000..U+001F, U+007F..U+009F); a failure names the property |
| Settings.BinConverterSettings.SetByteBlockPadding | code/src/Plexdata.BinConverter/BinConverterSettings.cs:269-284 | the outcome is the character check; on success only the byte block padding changes, on failure nothing does; the invariant is kept |
| Settings.BinConverterSettings.SetTextBlockPadding | code/src/Plexdata.BinConverter/BinConverterSettings.cs:290-305 | the outcome is the character check; on success only the text block padding changes, on failure nothing does; the invariant is kept |
| Settings.BinConverterSettings.SetAddressDelimiterValue | code/src/Plexdata.BinConverter/BinConverterSettings.cs:308-323 | the outcome is the character check; on success only the address delimiter changes, on failure nothing does; the invariant is kept |
| Settings.CheckWidth | code/src/Plexdata.BinConverter/BinConverterSettings.cs:335-338 | a width passes exactly when it is 0 or more; a failure is "less than zero" for the property |
| Settings.BinConverterSettings.SetAddressDelimiterWidth | code/src/Plexdata.BinConverter/BinConverterSettings.cs:326-342 | the outcome is the width check; on success only the address delimiter width changes, on failure nothing does; the invariant is kept |
| Settings.BinConverterSettings.SetSectionDelimiterValue | code/src/Plexdata.BinConverter/BinConverterSettings.cs:345-360 | the outcome is the character check; on success only the section delimiter changes, on failure nothing does; the invariant is kept |
| Settings.BinConverterSettings.SetSectionDelimiterWidth | code/src/Plexdata.BinConverter/BinConverterSettings.cs:363-378 | the outcome is the width check; on success only the section delimiter width changes, on failure nothing does; the invariant is kept |
| Settings.BinConverterSettings.SetControlCharacterValue | code/src/Plexdata.BinConverter/BinConverterSettings.cs:381-396 | the outcome is the character check; on success only the replacement character changes, on failure nothing does; the invariant is kept |
| Converter.GetTotalSize | code/src/Plexdata.BinConverter/BinConverter.cs:409-420 | the slot count is a multiple of the limit, at least the byte count, and less than the byte count plus one line |
| ConverterProperties.TotalSizeIsLeast | code/src/Plexdata.BinConverter/BinConverter.cs:409-420 | no smaller multiple of the limit holds the bytes, so the slot count is the least one, and 0 bytes give 0 slots |
| Converter.GetAddrFormatRequiredSize | code/src/Plexdata.BinConverter/BinConverter.cs:463-483 | the digit count is 2, 4, 8 or 16; below 16 the last address total - 1 fits in it; above 2 it does not fit in the next smaller choice |
| ConverterProperties.RequiredSizeMonotone | code/src/Plexdata.BinConverter/BinConverter.cs:463-483 | a longer dump never needs fewer address digits |
| Converter.GetAddressFormat | code/src/Plexdata.BinConverter/BinConverter.cs:317-337 | upper-case digits exactly when capitals are set; at least 2 digits per byte of the address size (GetAddrFormatExpectedSize) and at least the required size, and one of the two; the suffix is the address delimiter repeated its width, then the section delimiter repeated its width |
| Converter.GetAddrFormatExpectedSize | code/src/Plexdata.BinConverter/BinConverter.cs:434-437 | two hex digits per byte of the address size: for a size n >= 0 the r digits hold exactly the values of n bytes (16^r == 2^(8n)), which fixes r as 2, 4, 8, 16 for the sizes 1, 2, 4, 8; r is one of 2, 4, 8, 16 exactly when the size is one of 1, 2, 4, 8 (Converter.DigitsPerByte) |
| Strings.UnescapeEscape | code/src/Plexdata.BinConverter/BinConverter.cs:164 | literal text of a composite format with every brace doubled reads back as the text itself |
| Strings.UnescapeBraceFree | code/src/Plexdata.BinConverter/BinConverter.cs:164 | literal text without braces is written as it is |
| Strings.TwoRuns | code/src/Plexdata.BinConverter/BinConverter.cs:326-336 | two runs of repeated characters read without error exactly when each run's braces pair up (taken as one run when the characters are equal), and then read as one brace for each pair and the other characters as they are |
| Converter.TextChar | code/src/Plexdata.BinConverter/BinConverter.cs:209 | a byte whose character is not a control character shows as itself, a control character shows as the replacement; when the replacement is not a control character, neither is the result |
| Converter.ByteHex | code/src/Plexdata.BinConverter/BinConverter.cs:352-355 | the two-digit body format of a byte gives the digits of its high and low nibble, in the configured case |
| Converter.GetByteFormat | code/src/Plexdata.BinConverter/BinConverter.cs:384-387 | the specifier is "X" exactly when capital letters are set, and "x" otherwise |
| Converter.GetBodyFormat | code/src/Plexdata.BinConverter/BinConverter.cs:352-355 | a byte is formatted with two digits, in the configured case |
| Converter.SeparatorTest | code/src/Plexdata.BinConverter/BinConverter.cs:117-120 | a section delimiter follows a slot exactly when its 1-based index is a multiple of ByteBlockWidth |
| Converter.BinConverter.constructor | code/src/Plexdata.BinConverter/BinConverter.cs:57-60 | the converter keeps the settings object it was given, by reference |
| Converter.BinConverter.AddAddress | code/src/Plexdata.BinConverter/BinConverter.cs:160-166 | when the address column is shown, AppendFormat either writes the address digits and the delimiter text, or fails with the builder unchanged; it fails exactly when the literal text of the format cannot be read; a hidden address writes nothing and never fails |
| Converter.BinConverter.AddValue | code/src/Plexdata.BinConverter/BinConverter.cs:200-212 | the body builder gains the byte's two hex digits when the hex column is shown; the text builder gains its text character when the text column is shown |
| Converter.BinConverter.AddPadding | code/src/Plexdata.BinConverter/BinConverter.cs:234-245 | the body builder gains two byte block paddings when shown; the text builder gains one text block padding when shown |
| Converter.BinConverter.AddResult | code/src/Plexdata.BinConverter/BinConverter.cs:274-290 | the data builder gains the line's result: the hex column with all trailing section delimiters trimmed, the section gap when its width is positive and both columns are shown, then the text column |
| Converter.BinConverter.AddSlot | code/src/Plexdata.BinConverter/BinConverter.cs:103-120 | the first half of one pass fails exactly when it opens a line and the address cannot be formatted, with nothing written; otherwise the body and text builders hold exactly the current line's slots up to this one, and the data builder holds the finished lines and the line's address |
| Converter.BinConverter.CloseSlot | code/src/Plexdata.BinConverter/BinConverter.cs:122-133 | after the second half of one pass, the loop invariant holds for the next slot: at a line end the line is complete, the line has been appended and the builders are cleared; a terminator is added only before a further line and after non-empty output |
| Converter.BinConverter.Render | code/src/Plexdata.BinConverter/BinConverter.cs:92-136 | the loop over all slots gives a FormatException when there is a slot and the address format cannot be read, and otherwise builds exactly the specified dump of the first count bytes |
| Converter.BinConverter.ConvertLength | code/src/Plexdata.BinConverter/BinConverter.cs:79-137 | the result is the specification: empty for an empty buffer or length 0; otherwise the loop's result, a FormatException or the dump of the first min(length, buffer size) bytes, with a negative length meaning the whole buffer |
| Converter.BinConverter.Convert | code/src/Plexdata.BinConverter/BinConverter.cs:73-77 | the one-argument overload equals the two-argument one with length -1, which is the whole buffer |
| Converter.LinesEqual | code/src/Plexdata.BinConverter/BinConverter.cs:101-134 | a sequence whose every element is the line of its index is the dump's lines |
| Converter.DumpFromLines | code/src/Plexdata.BinConverter/BinConverter.cs:101-136 | the finished lines of the loop, assembled, are the dump |
| ConverterProperties.ConvertArguments | code/src/Plexdata.BinConverter/BinConverter.cs:82-90 | an empty buffer or length 0 gives the empty string; a negative or oversized length means the whole buffer; otherwise exactly the first length bytes go to the loop |
| ConverterProperties.AddressColumn | code/src/Plexdata.BinConverter/BinConverter.cs:160-166 | when its delimiters can be read, a shown address is hex digits of the configured case that read back as the address, at least two per byte of the address size, followed by the delimiter text, in which each pair of braces is one brace |
| ConverterProperties.AddressWidth | code/src/Plexdata.BinConverter/BinConverter.cs:317-337 | up to a last address of 2^64 - 1, every address of the dump has the format's exact digit count followed by the same delimiter text, so the column has one width |
| ConverterProperties.SuffixDecoded | code/src/Plexdata.BinConverter/BinConverter.cs:326-336 | the delimiter text pasted into the address format reads without a FormatException exactly when every brace in it pairs up (over both runs when they repeat the same brace), and then reads as the delimiter text |
| ConverterProperties.PlainDelimiters | code/src/Plexdata.BinConverter/BinConverter.cs:326-336 | delimiters that are not braces can always be read and are written as they are: the address delimiter repeated its width, then the section delimiter repeated its width |
| ConverterProperties.ConvertFails | code/src/Plexdata.BinConverter/BinConverter.cs:101-106 | for a non-empty selection, Convert throws a FormatException exactly when the address is shown and its delimiters cannot be read, and otherwise returns the dump |
| ConverterProperties.LoneBraceFails | code/src/Plexdata.BinConverter/BinConverter.cs:326-336 | a single "{" as address delimiter passes its setter and keeps the settings valid, yet every conversion of a non-empty buffer with the default columns throws |
| ConverterProperties.DoubledBraceWritesOne | code/src/Plexdata.BinConverter/BinConverter.cs:326-336 | with "{" twice as address delimiter, the text after each address is one "{" and the two section spaces |
| ConverterProperties.ByteColumn | code/src/Plexdata.BinConverter/BinConverter.cs:200-212 | a real byte adds exactly two hex digits of the configured case that read back as the byte; a hidden hex column receives nothing, for bytes or padding |
| ConverterProperties.TextColumn | code/src/Plexdata.BinConverter/BinConverter.cs:101-115 | a shown text column has one character per slot: the text character of each real byte, then the text padding after the data; a hidden one is empty |
| ConverterProperties.TextIsPrintable | code/src/Plexdata.BinConverter/BinConverter.cs:209 | under valid settings the text column holds no control character |
| Strings.TrimEndSpec | code/src/Plexdata.BinConverter/BinConverter.cs:278 | TrimEnd yields a prefix that does not end in the character, and every character it removed is that character |
| Strings.HexRoundTrip | code/src/Plexdata.BinConverter/BinConverter.cs:164 | the hex rendering of a number reads back as the number |
| Strings.HexLength | code/src/Plexdata.BinConverter/BinConverter.cs:164 | a number below 16^d is rendered with exactly d digits when d digits are requested |
| Strings.HexDigits | code/src/Plexdata.BinConverter/BinConverter.cs:164 | every character of a hex rendering is a digit of the requested case |
| Strings.AssembleIsJoin | code/src/Plexdata.BinConverter/BinConverter.cs:130-133 | when no line is empty, the loop's guarded terminators give the plain join with "\r\n" |
| Strings.JoinLineFeeds | code/src/Plexdata.BinConverter/BinConverter.cs:132 | n lines without a line feed, joined, hold exactly n - 1 line feeds |
| ConverterProperties.LinePrintable | code/src/Plexdata.BinConverter/BinConverter.cs:101-134 | under valid settings no line of a dump holds a control character |
| ConverterProperties.LineNotEmpty | code/src/Plexdata.BinConverter/BinConverter.cs:101-134 | a line is never empty when the address or the text column is shown |
| ConverterProperties.DumpIsJoin | code/src/Plexdata.BinConverter/BinConverter.cs:101-136 | with the address or text column shown, the dump is its lines joined by "\r\n", with no terminator after the last |
| ConverterProperties.DumpHidden | code/src/Plexdata.BinConverter/BinConverter.cs:101-136 | with every column hidden the dump is the empty string |
| ConverterProperties.DumpLineCount | code/src/Plexdata.BinConverter/BinConverter.cs:92-136 | a non-empty dump under valid settings, with address or text shown, holds one line feed fewer than its number of lines, total / limit |
| ConverterProperties.DefaultScenario | code/src/Plexdata.BinConverter/BinConverter.cs:92-136 | the default settings on 130 bytes give 9 lines, so 8 line feeds |
| ConverterProperties.DefaultGrid | code/src/Plexdata.BinConverter/BinConverter.cs:317-337 | the default settings on 130 bytes give 144 slots of 16 per line and 8 address digits |

## Left out

- Null buffer and null settings: sequences and references are never null here. An empty
  buffer is modelled and gives the empty string. The null-to-defaults rule of
  `BinConverterFactory` is not part of this model.
- `BinConverterSettings.ToString`: it lists properties through runtime reflection, in an
  order .NET does not fix.
- `IsDivisibleByEightBits` computes `Math.Log(value, 2)` in floating point. The model uses
  the exact power-of-two test it is meant to perform, so it does not capture float rounding
  on large values. For example, for 2^29 = 536870912 the quotient Log(2^29) / Log(2) in IEEE
  double arithmetic is expected to round to 29.000000000000004. The source would then reject
  a block count or width that `Settings.CheckBlockSize` accepts.
- .NET composite format strings: `GetAddressFormat` and `GetBodyFormat` return text such as
  `"{0:X8}:  "`. The model keeps them as records of case, digit count and suffix.
  `String.Format` is modelled only for the `X`/`x` specifier with a digit count, as `Hex`.
  `GetTextFormat` always returns `"{0}"`, so a text character is appended as itself and no
  format record is kept for it.
- `Environment.NewLine` is fixed to `"\r\n"`.
- 32-bit integers: all arithmetic is on unbounded integers. The Int32 overflow of
  `lines * limit` for huge buffers is not modelled. The 16-digit address case is kept
  although an Int32 total cannot reach it.
- Settings.BinConverterSettings.ByteBlockLimit: the source multiplies count and width in
  Int32, and the setters accept values large enough for the product to wrap. 65536 × 65536
  wraps to 0, and `GetTotalSize` then divides by zero. 32768 × 65536 wraps to
  Int32.MinValue, and `Convert` returns the empty string for a non-empty buffer. The model's
  limit is the exact product, which is at least 1; the wrapped cases are not modelled.
- Characters: Dafny's `char` is a Unicode scalar value, while a C# `Char` is a UTF-16 code
  unit. The model cannot hold a lone surrogate (U+D800..U+DFFF). The character setters
  accept one, since it is not a control character. The model also admits characters above
  U+FFFF, which no C# `Char` holds. Bytes become the characters U+0000..U+00FF, which both
  share, as in the original.
- Converter.BinConverter.AddAddress: the literal text follows the composite format parser
  of .NET Core and later. The .NET Framework parser reads a `}}` right after the number's
  format specifier as part of that specifier; that reading is not modelled. When `AppendFormat`
  throws it may already have written part of the address. The model leaves the builder as
  it was, since the exception discards it.
- Converter.BinConverter.ConvertLength: this reads the settings once, at the start, and
  passes them as a value to the loop and the `Add…` methods. The original reads
  `this.Settings` at every use. The results agree because nothing in `Convert` writes to the
  settings, but concurrent changes to the settings during a conversion are not modelled.
- Converter.BinConverter.Render: the loop of `Convert(buffer, length)` is in its own
  method, and each pass is split into `AddSlot` (the address, the byte or padding, the
  separator) and `CloseSlot` (the line end). The steps run in the original's order.
- The interfaces `IBinConverter` and `IBinConverterSettings`, the factory and the demo
  program hold no converter logic and are not part of this model.
