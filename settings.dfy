/**
 * The validated settings object of the hex-dump converter (BinConverterSettings).
 *
 * Every validating property setter of the original becomes a method that either
 * rejects its argument and leaves the object untouched, or writes exactly one field.
 * A Config value is the observable state of a settings object, as its getters show it.
 */
module Settings {

  /** .NET Char.IsControl: the Unicode category Cc, that is U+0000..U+001F and U+007F..U+009F. */
  predicate IsControl(ch: char) {
    ch as int <= 0x1F || (0x7F <= ch as int <= 0x9F)
  }

  function Pow2(k: nat): (r: nat)
    ensures r >= 1
  {
    if k == 0 then 1 else 2 * Pow2(k - 1)
  }

  /**
   * The test IsDivisibleByEightBits is meant to perform: is n a positive power of two?
   * The original computes it with a floating-point logarithm; this is the exact test.
   */
  predicate IsPowerOfTwo(n: int)
    ensures IsPowerOfTwo(n) ==> n >= 1
    decreases if n > 0 then n else 0
  {
    n == 1 || (n > 1 && n % 2 == 0 && IsPowerOfTwo(n / 2))
  }

  lemma {:induction false} PowerOfTwoIsPow2(n: int)
    requires IsPowerOfTwo(n)
    ensures exists k: nat :: Pow2(k) == n
    decreases if n > 0 then n else 0
  {
    if n == 1 {
      assert Pow2(0) == n;
    } else {
      PowerOfTwoIsPow2(n / 2);
      var k: nat :| Pow2(k) == n / 2;
      assert Pow2(k + 1) == n;
    }
  }

  lemma {:induction false} Pow2IsPowerOfTwo(k: nat)
    ensures IsPowerOfTwo(Pow2(k))
  {
    if k > 0 {
      Pow2IsPowerOfTwo(k - 1);
      assert Pow2(k) / 2 == Pow2(k - 1);
    }
  }

  /** The recursive test accepts exactly the numbers 2^k. */
  lemma PowerOfTwoIff(n: int)
    ensures IsPowerOfTwo(n) <==> exists k: nat :: Pow2(k) == n
  {
    if IsPowerOfTwo(n) {
      PowerOfTwoIsPow2(n);
    }
    if exists k: nat :: Pow2(k) == n {
      var k: nat :| Pow2(k) == n;
      Pow2IsPowerOfTwo(k);
    }
  }

  lemma {:induction false} Pow2Monotone(j: nat, k: nat)
    requires j <= k
    ensures Pow2(j) <= Pow2(k)
    decreases k
  {
    if j < k {
      Pow2Monotone(j, k - 1);
    }
  }

  /** No power of two lies strictly between 2^k and 2^(k+1): so 3, 5..7, 9..15 are all rejected. */
  lemma NoPowerOfTwoBetween(k: nat, n: int)
    requires Pow2(k) < n < Pow2(k + 1)
    ensures !IsPowerOfTwo(n)
  {
    if IsPowerOfTwo(n) {
      PowerOfTwoIsPow2(n);
      var j: nat :| Pow2(j) == n;
      if j <= k {
        Pow2Monotone(j, k);
      } else {
        Pow2Monotone(k + 1, j);
      }
    }
  }

  /** The product of two powers of two is a power of two (so ByteBlockLimit is one). */
  lemma PowerOfTwoProduct(a: int, b: int)
    ensures IsPowerOfTwo(a) && IsPowerOfTwo(b) ==> IsPowerOfTwo(a * b)
  {
    if IsPowerOfTwo(a) && IsPowerOfTwo(b) {
      PowerOfTwoIsPow2(a);
      PowerOfTwoIsPow2(b);
      var i: nat :| Pow2(i) == a;
      var j: nat :| Pow2(j) == b;
      Pow2Add(i, j);
      Pow2IsPowerOfTwo(i + j);
    }
  }

  lemma {:induction false} Pow2Add(i: nat, j: nat)
    ensures Pow2(i) * Pow2(j) == Pow2(i + j)
    decreases i
  {
    if i > 0 {
      Pow2Add(i - 1, j);
      assert Pow2(i) * Pow2(j) == 2 * (Pow2(i - 1) * Pow2(j));
    }
  }

  /** The validated properties, as named in the exceptions of the original. */
  datatype Property =
    | AddressSize
    | ByteBlockCount
    | ByteBlockWidth
    | ByteBlockPadding
    | TextBlockPadding
    | AddressDelimiterValue
    | AddressDelimiterWidth
    | SectionDelimiterValue
    | SectionDelimiterWidth
    | ControlCharacterValue

  /** The reasons a setter rejects a value (each an ArgumentException in the original). */
  datatype SettingsError =
    | UnsupportedValue(property: Property, value: int)
    | NotGreaterThanZero(property: Property)
    | NotDivisibleByEightBits(property: Property)
    | ControlCharacter(property: Property)
    | LessThanZero(property: Property)

  datatype Outcome = Pass | Fail(error: SettingsError)

  /** AddressSize accepts the byte sizes of Byte, UInt16, UInt32 and UInt64. */
  function CheckAddressSize(value: int): (r: Outcome)
    ensures r.Pass? <==> value in {1, 2, 4, 8}
    ensures r.Fail? ==> r.error == UnsupportedValue(AddressSize, value)
  {
    if value == 1 || value == 2 || value == 4 || value == 8 then Pass
    else Fail(UnsupportedValue(AddressSize, value))
  }

  /** ByteBlockCount and ByteBlockWidth: first "greater than zero", then "divisible by 8 bits". */
  function CheckBlockSize(property: Property, value: int): (r: Outcome)
    ensures r.Pass? <==> exists k: nat :: Pow2(k) == value
    ensures value <= 0 ==> r == Fail(NotGreaterThanZero(property))
    ensures value > 0 && r.Fail? ==> r == Fail(NotDivisibleByEightBits(property))
  {
    PowerOfTwoIff(value);
    if value <= 0 then Fail(NotGreaterThanZero(property))
    else if !IsPowerOfTwo(value) then Fail(NotDivisibleByEightBits(property))
    else Pass
  }

  /** The padding, delimiter and replacement characters: anything but a control character. */
  function CheckCharacter(property: Property, value: char): (r: Outcome)
    ensures r.Pass? <==> !IsControl(value)
    ensures r.Fail? ==> r.error == ControlCharacter(property)
  {
    if IsControl(value) then Fail(ControlCharacter(property)) else Pass
  }

  /** The delimiter widths: zero, which disables the delimiter, or more. */
  function CheckWidth(property: Property, value: int): (r: Outcome)
    ensures r.Pass? <==> value >= 0
    ensures r.Fail? ==> r.error == LessThanZero(property)
  {
    if value < 0 then Fail(LessThanZero(property)) else Pass
  }

  /** The observable state of a settings object. */
  datatype Config = Config(
    isCapitalLetters: bool,
    isShowAddress: bool,
    addressSize: int,
    isShowByteBlock: bool,
    byteBlockCount: int,
    byteBlockWidth: int,
    byteBlockPadding: char,
    isShowTextBlock: bool,
    textBlockPadding: char,
    addressDelimiterValue: char,
    addressDelimiterWidth: int,
    sectionDelimiterValue: char,
    sectionDelimiterWidth: int,
    controlCharacterValue: char)
  {
    /** The object invariant: every validated field holds a value its setter accepts. */
    predicate Valid()
      ensures Valid() ==> Sized()
    {
      && CheckAddressSize(addressSize).Pass?
      && CheckBlockSize(ByteBlockCount, byteBlockCount).Pass?
      && CheckBlockSize(ByteBlockWidth, byteBlockWidth).Pass?
      && CheckCharacter(ByteBlockPadding, byteBlockPadding).Pass?
      && CheckCharacter(TextBlockPadding, textBlockPadding).Pass?
      && CheckCharacter(AddressDelimiterValue, addressDelimiterValue).Pass?
      && CheckWidth(AddressDelimiterWidth, addressDelimiterWidth).Pass?
      && CheckCharacter(SectionDelimiterValue, sectionDelimiterValue).Pass?
      && CheckWidth(SectionDelimiterWidth, sectionDelimiterWidth).Pass?
      && CheckCharacter(ControlCharacterValue, controlCharacterValue).Pass?
    }

    /** The part of Valid that the layout arithmetic of the converter relies on. */
    predicate Sized() {
      && byteBlockCount >= 1 && byteBlockWidth >= 1 && addressSize >= 1
      && addressDelimiterWidth >= 0 && sectionDelimiterWidth >= 0
    }

    /** The number of bytes per line; derived, never stored. */
    function ByteBlockLimit(): (r: int)
      ensures Sized() ==> r >= byteBlockCount && r >= byteBlockWidth
    {
      byteBlockCount * byteBlockWidth
    }

    /** Under the invariant the line length is itself a power of two. */
    lemma LimitIsPowerOfTwo()
      requires Valid()
      ensures IsPowerOfTwo(ByteBlockLimit())
    {
      PowerOfTwoProduct(byteBlockCount, byteBlockWidth);
    }
  }

  /** The settings of a new BinConverterSettings object. */
  const Defaults := Config(
    isCapitalLetters := true, isShowAddress := true, addressSize := 4,
    isShowByteBlock := true, byteBlockCount := 16, byteBlockWidth := 1,
    byteBlockPadding := '_', isShowTextBlock := true, textBlockPadding := '_',
    addressDelimiterValue := ':', addressDelimiterWidth := 1,
    sectionDelimiterValue := ' ', sectionDelimiterWidth := 2,
    controlCharacterValue := '.')

  /** The settings object; its fields are the private fields and auto-properties of the original. */
  class BinConverterSettings {
    var isCapitalLetters: bool
    var isShowAddress: bool
    var addressSize: int
    var isShowByteBlock: bool
    var byteBlockCount: int
    var byteBlockWidth: int
    var byteBlockPadding: char
    var isShowTextBlock: bool
    var textBlockPadding: char
    var addressDelimiterValue: char
    var addressDelimiterWidth: int
    var sectionDelimiterValue: char
    var sectionDelimiterWidth: int
    var controlCharacterValue: char

    function Snapshot(): Config
      reads this
    {
      Config(isCapitalLetters, isShowAddress, addressSize, isShowByteBlock, byteBlockCount,
             byteBlockWidth, byteBlockPadding, isShowTextBlock, textBlockPadding,
             addressDelimiterValue, addressDelimiterWidth, sectionDelimiterValue,
             sectionDelimiterWidth, controlCharacterValue)
    }

    predicate Valid()
      reads this
    {
      Snapshot().Valid()
    }

    /** ByteBlockLimit: always the product of the current count and width. */
    function ByteBlockLimit(): (r: int)
      reads this
      ensures r == Snapshot().ByteBlockLimit()
      ensures Valid() ==> r >= 1
    {
      byteBlockCount * byteBlockWidth
    }

    /**
     * The field initialisers of the original, then the documented defaults assigned
     * through the validating setters.
     */
    constructor ()
      ensures Valid()
      ensures Snapshot() == Defaults
    {
      isCapitalLetters, isShowAddress, isShowByteBlock, isShowTextBlock := false, false, false, false;
      addressSize, byteBlockCount, byteBlockWidth := 0, 0, 0;
      byteBlockPadding, textBlockPadding := '\0', '\0';
      addressDelimiterValue, addressDelimiterWidth := '\0', 0;
      sectionDelimiterValue, sectionDelimiterWidth := '\0', 0;
      controlCharacterValue := '\0';
      new;
      assert IsPowerOfTwo(16) && IsPowerOfTwo(1);
      SetIsCapitalLetters(true);
      SetIsShowAddress(true);
      var outcome := SetAddressSize(4);
      SetIsShowByteBlock(true);
      outcome := SetByteBlockCount(16);
      outcome := SetByteBlockWidth(1);
      outcome := SetByteBlockPadding('_');
      SetIsShowTextBlock(true);
      outcome := SetTextBlockPadding('_');
      outcome := SetAddressDelimiterValue(':');
      outcome := SetAddressDelimiterWidth(1);
      outcome := SetSectionDelimiterValue(' ');
      outcome := SetSectionDelimiterWidth(2);
      outcome := SetControlCharacterValue('.');
      assert Snapshot().Valid();
    }

    method SetIsCapitalLetters(value: bool)
      modifies this
      ensures Snapshot() == old(Snapshot()).(isCapitalLetters := value)
      ensures old(Valid()) ==> Valid()
    {
      isCapitalLetters := value;
    }

    method SetIsShowAddress(value: bool)
      modifies this
      ensures Snapshot() == old(Snapshot()).(isShowAddress := value)
      ensures old(Valid()) ==> Valid()
    {
      isShowAddress := value;
    }

    method SetIsShowByteBlock(value: bool)
      modifies this
      ensures Snapshot() == old(Snapshot()).(isShowByteBlock := value)
      ensures old(Valid()) ==> Valid()
    {
      isShowByteBlock := value;
    }

    method SetIsShowTextBlock(value: bool)
      modifies this
      ensures Snapshot() == old(Snapshot()).(isShowTextBlock := value)
      ensures old(Valid()) ==> Valid()
    {
      isShowTextBlock := value;
    }

    method SetAddressSize(value: int) returns (outcome: Outcome)
      modifies this
      ensures outcome == CheckAddressSize(value)
      ensures Snapshot() == if outcome.Pass? then old(Snapshot()).(addressSize := value) else old(Snapshot())
      ensures old(Valid()) ==> Valid()
    {
      if value == 1 || value == 2 || value == 4 || value == 8 {
        addressSize := value;
        outcome := Pass;
      } else {
        outcome := Fail(UnsupportedValue(AddressSize, value));
      }
    }

    method SetByteBlockCount(value: int) returns (outcome: Outcome)
      modifies this
      ensures outcome == CheckBlockSize(ByteBlockCount, value)
      ensures Snapshot() == if outcome.Pass? then old(Snapshot()).(byteBlockCount := value) else old(Snapshot())
      ensures old(Valid()) ==> Valid()
    {
      if value <= 0 {
        return Fail(NotGreaterThanZero(ByteBlockCount));
      }
      if !IsPowerOfTwo(value) {
        return Fail(NotDivisibleByEightBits(ByteBlockCount));
      }
      byteBlockCount := value;
      outcome := Pass;
    }

    method SetByteBlockWidth(value: int) returns (outcome: Outcome)
      modifies this
      ensures outcome == CheckBlockSize(ByteBlockWidth, value)
      ensures Snapshot() == if outcome.Pass? then old(Snapshot()).(byteBlockWidth := value) else old(Snapshot())
      ensures old(Valid()) ==> Valid()
    {
      if value <= 0 {
        return Fail(NotGreaterThanZero(ByteBlockWidth));
      }
      if !IsPowerOfTwo(value) {
        return Fail(NotDivisibleByEightBits(ByteBlockWidth));
      }
      byteBlockWidth := value;
      outcome := Pass;
    }

    method SetByteBlockPadding(value: char) returns (outcome: Outcome)
      modifies this
      ensures outcome == CheckCharacter(ByteBlockPadding, value)
      ensures Snapshot() == if outcome.Pass? then old(Snapshot()).(byteBlockPadding := value) else old(Snapshot())
      ensures old(Valid()) ==> Valid()
    {
      if IsControl(value) {
        return Fail(ControlCharacter(ByteBlockPadding));
      }
      byteBlockPadding := value;
      outcome := Pass;
    }

    method SetTextBlockPadding(value: char) returns (outcome: Outcome)
      modifies this
      ensures outcome == CheckCharacter(TextBlockPadding, value)
      ensures Snapshot() == if outcome.Pass? then old(Snapshot()).(textBlockPadding := value) else old(Snapshot())
      ensures old(Valid()) ==> Valid()
    {
      if IsControl(value) {
        return Fail(ControlCharacter(TextBlockPadding));
      }
      textBlockPadding := value;
      outcome := Pass;
    }

    method SetAddressDelimiterValue(value: char) returns (outcome: Outcome)
      modifies this
      ensures outcome == CheckCharacter(AddressDelimiterValue, value)
      ensures Snapshot() == if outcome.Pass? then old(Snapshot()).(addressDelimiterValue := value) else old(Snapshot())
      ensures old(Valid()) ==> Valid()
    {
      if IsControl(value) {
        return Fail(ControlCharacter(AddressDelimiterValue));
      }
      addressDelimiterValue := value;
      outcome := Pass;
    }

    method SetAddressDelimiterWidth(value: int) returns (outcome: Outcome)
      modifies this
      ensures outcome == CheckWidth(AddressDelimiterWidth, value)
      ensures Snapshot() == if outcome.Pass? then old(Snapshot()).(addressDelimiterWidth := value) else old(Snapshot())
      ensures old(Valid()) ==> Valid()
    {
      if value < 0 {
        return Fail(LessThanZero(AddressDelimiterWidth));
      }
      addressDelimiterWidth := value;
      outcome := Pass;
    }

    method SetSectionDelimiterValue(value: char) returns (outcome: Outcome)
      modifies this
      ensures outcome == CheckCharacter(SectionDelimiterValue, value)
      ensures Snapshot() == if outcome.Pass? then old(Snapshot()).(sectionDelimiterValue := value) else old(Snapshot())
      ensures old(Valid()) ==> Valid()
    {
      if IsControl(value) {
        return Fail(ControlCharacter(SectionDelimiterValue));
      }
      sectionDelimiterValue := value;
      outcome := Pass;
    }

    method SetSectionDelimiterWidth(value: int) returns (outcome: Outcome)
      modifies this
      ensures outcome == CheckWidth(SectionDelimiterWidth, value)
      ensures Snapshot() == if outcome.Pass? then old(Snapshot()).(sectionDelimiterWidth := value) else old(Snapshot())
      ensures old(Valid()) ==> Valid()
    {
      if value < 0 {
        return Fail(LessThanZero(SectionDelimiterWidth));
      }
      sectionDelimiterWidth := value;
      outcome := Pass;
    }

    method SetControlCharacterValue(value: char) returns (outcome: Outcome)
      modifies this
      ensures outcome == CheckCharacter(ControlCharacterValue, value)
      ensures Snapshot() == if outcome.Pass? then old(Snapshot()).(controlCharacterValue := value) else old(Snapshot())
      ensures old(Valid()) ==> Valid()
    {
      if IsControl(value) {
        return Fail(ControlCharacter(ControlCharacterValue));
      }
      controlCharacterValue := value;
      outcome := Pass;
    }
  }
}
