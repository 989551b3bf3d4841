/**
 * The pieces of .NET string handling the converter relies on: String.PadLeft on the
 * empty string, String.TrimEnd with one character, the "X"/"x" hexadecimal format
 * specifier with a precision, line assembly, and a StringBuilder.
 */
module Strings {

  /** String.Empty.PadLeft(n, ch): n copies of ch. */
  function Repeat(ch: char, n: nat): (r: string)
    ensures |r| == n
  {
    if n == 0 then [] else Repeat(ch, n - 1) + [ch]
  }

  lemma {:induction false} RepeatAt(ch: char, n: nat)
    ensures forall i :: 0 <= i < n ==> Repeat(ch, n)[i] == ch
  {
    if n > 0 {
      RepeatAt(ch, n - 1);
    }
  }

  /** s.TrimEnd(ch): removes every trailing occurrence of ch, and nothing else. */
  function TrimEnd(s: string, ch: char): string
    decreases |s|
  {
    if |s| > 0 && s[|s| - 1] == ch then TrimEnd(s[..|s| - 1], ch) else s
  }

  /** TrimEnd keeps a prefix of s that does not end in ch, and drops only copies of ch. */
  lemma {:induction false} TrimEndSpec(s: string, ch: char)
    ensures |TrimEnd(s, ch)| <= |s| && TrimEnd(s, ch) == s[..|TrimEnd(s, ch)|]
    ensures TrimEnd(s, ch) == [] || TrimEnd(s, ch)[|TrimEnd(s, ch)| - 1] != ch
    ensures forall i :: |TrimEnd(s, ch)| <= i < |s| ==> s[i] == ch
    decreases |s|
  {
    if |s| > 0 && s[|s| - 1] == ch {
      var t := s[..|s| - 1];
      TrimEndSpec(t, ch);
      assert TrimEnd(s, ch) == TrimEnd(t, ch);
      assert t[..|TrimEnd(t, ch)|] == s[..|TrimEnd(t, ch)|];
    }
  }

  predicate IsHexDigit(ch: char, capital: bool) {
    || '0' <= ch <= '9'
    || (capital && 'A' <= ch <= 'F')
    || (!capital && 'a' <= ch <= 'f')
  }

  /** The value of one hexadecimal digit, of either case (0 for anything else). */
  function DigitValue(ch: char): nat {
    if '0' <= ch <= '9' then ch as int - '0' as int
    else if 'A' <= ch <= 'F' then ch as int - 'A' as int + 10
    else if 'a' <= ch <= 'f' then ch as int - 'a' as int + 10
    else 0
  }

  /** The digit for d, in upper case for "X" and in lower case for "x". */
  function HexDigit(d: nat, capital: bool): (ch: char)
    requires d < 16
    ensures IsHexDigit(ch, capital)
    ensures DigitValue(ch) == d
  {
    if d < 10 then ('0' as int + d) as char
    else if capital then ('A' as int + d - 10) as char
    else ('a' as int + d - 10) as char
  }

  function Pow16(k: nat): (r: nat)
    ensures r >= 1
  {
    if k == 0 then 1 else 16 * Pow16(k - 1)
  }

  /**
   * The format specifier "X" or "x" with precision minDigits: n in hexadecimal,
   * left-padded with zeros to at least minDigits digits (and at least one digit).
   */
  function Hex(n: nat, minDigits: nat, capital: bool): (r: string)
    ensures |r| >= 1 && |r| >= minDigits
    decreases n, minDigits
  {
    if n < 16 && minDigits <= 1 then [HexDigit(n, capital)]
    else Hex(n / 16, if minDigits > 0 then minDigits - 1 else 0, capital) + [HexDigit(n % 16, capital)]
  }

  lemma {:induction false} HexDigits(n: nat, minDigits: nat, capital: bool)
    ensures forall i :: 0 <= i < |Hex(n, minDigits, capital)| ==> IsHexDigit(Hex(n, minDigits, capital)[i], capital)
    decreases n, minDigits
  {
    if !(n < 16 && minDigits <= 1) {
      HexDigits(n / 16, if minDigits > 0 then minDigits - 1 else 0, capital);
    }
  }

  /** Reads a string of hexadecimal digits back as a number: the inverse of Hex. */
  function HexValue(s: string): nat {
    if s == [] then 0 else 16 * HexValue(s[..|s| - 1]) + DigitValue(s[|s| - 1])
  }

  lemma {:induction false} HexRoundTrip(n: nat, minDigits: nat, capital: bool)
    ensures HexValue(Hex(n, minDigits, capital)) == n
    decreases n, minDigits
  {
    var r := Hex(n, minDigits, capital);
    if n < 16 && minDigits <= 1 {
      assert r[..0] == [];
    } else {
      var m := if minDigits > 0 then minDigits - 1 else 0;
      HexRoundTrip(n / 16, m, capital);
      assert r[..|r| - 1] == Hex(n / 16, m, capital);
    }
  }

  /** A number below 16^d takes exactly d digits when d digits are asked for. */
  lemma {:induction false} HexLength(n: nat, minDigits: nat, capital: bool)
    requires minDigits >= 1 && n < Pow16(minDigits)
    ensures |Hex(n, minDigits, capital)| == minDigits
    decreases minDigits
  {
    if !(n < 16 && minDigits <= 1) {
      assert minDigits > 1;
      assert n / 16 < Pow16(minDigits - 1);
      HexLength(n / 16, minDigits - 1, capital);
    }
  }

  lemma {:induction false} Pow16Monotone(j: nat, k: nat)
    requires j <= k
    ensures Pow16(j) <= Pow16(k)
    decreases k
  {
    if j < k {
      Pow16Monotone(j, k - 1);
    }
  }

  /** The largest values of Byte, UInt16, UInt32 and UInt64, plus one. */
  lemma Pow16Values()
    ensures Pow16(2) == 0x100
    ensures Pow16(4) == 0x1_0000
    ensures Pow16(8) == 0x1_0000_0000
    ensures Pow16(16) == 0x1_0000_0000_0000_0000
  {
    assert Pow16(4) == Pow16(2) * Pow16(2) by { assert Pow16(4) == 16 * 16 * Pow16(2); }
    assert Pow16(8) == 16 * 16 * 16 * 16 * Pow16(4);
    assert Pow16(16) == 16 * 16 * 16 * 16 * Pow16(12);
    assert Pow16(12) == 16 * 16 * 16 * 16 * Pow16(8);
  }

  // The literal text of a composite format string.

  datatype Option<T> = None | Some(value: T)

  predicate IsBrace(ch: char) {
    ch == '{' || ch == '}'
  }

  function Prepend(ch: char, r: Option<string>): Option<string> {
    if r.Some? then Some([ch] + r.value) else None
  }

  /**
   * The text String.Format and StringBuilder.AppendFormat write for literal text of a
   * composite format: "{{" and "}}" each stand for one brace; any other "}" is a
   * FormatException (None). Any other "{" opens a format item; the literal texts read here
   * are runs of at most two repeated characters, where an item can never be complete, so
   * for them it is a FormatException too.
   */
  function Unescape(s: string): Option<string>
    decreases |s|
  {
    if |s| == 0 then Some([])
    else if IsBrace(s[0]) then
      if |s| >= 2 && s[1] == s[0] then Prepend(s[0], Unescape(s[2..])) else None
    else Prepend(s[0], Unescape(s[1..]))
  }

  /** s as literal text of a composite format: every brace doubled. */
  function Escape(s: string): string
    decreases |s|
  {
    if |s| == 0 then []
    else (if IsBrace(s[0]) then [s[0], s[0]] else [s[0]]) + Escape(s[1..])
  }

  /** Reading escaped text gives back the text. */
  lemma {:induction false} UnescapeEscape(s: string)
    ensures Unescape(Escape(s)) == Some(s)
    decreases |s|
  {
    if |s| > 0 {
      UnescapeEscape(s[1..]);
      var e := Escape(s);
      if IsBrace(s[0]) {
        assert e[2..] == Escape(s[1..]);
      } else {
        assert e[1..] == Escape(s[1..]);
      }
      assert [s[0]] + s[1..] == s;
    }
  }

  /** Text without braces is its own literal text. */
  lemma {:induction false} UnescapeBraceFree(s: string)
    requires forall i :: 0 <= i < |s| ==> !IsBrace(s[i])
    ensures Unescape(s) == Some(s)
    decreases |s|
  {
    if |s| > 0 {
      UnescapeBraceFree(s[1..]);
      assert [s[0]] + s[1..] == s;
    }
  }

  /** A run of w copies of ch reads without error: ch is no brace, or the braces pair up. */
  predicate RunReadable(ch: char, w: nat) {
    !IsBrace(ch) || w % 2 == 0
  }

  /** The text a readable run stands for: itself, or one brace for every two. */
  function RunText(ch: char, w: nat): string {
    if IsBrace(ch) then Repeat(ch, w / 2) else Repeat(ch, w)
  }

  lemma {:induction false} RepeatCons(ch: char, n: nat)
    requires n > 0
    ensures Repeat(ch, n) == [ch] + Repeat(ch, n - 1)
  {
    if n > 1 {
      RepeatCons(ch, n - 1);
    }
  }

  /** Reading one character that is no brace. */
  lemma UnescapeCons(ch: char, t: string)
    requires !IsBrace(ch)
    ensures Unescape([ch] + t) == Prepend(ch, Unescape(t))
  {
    assert ([ch] + t)[1..] == t;
  }

  /** Reading a doubled brace. */
  lemma UnescapePair(ch: char, t: string)
    requires IsBrace(ch)
    ensures Unescape([ch, ch] + t) == Prepend(ch, Unescape(t))
  {
    assert ([ch, ch] + t)[2..] == t;
  }

  /** A readable run in front of y: its text in front of the text of y, or y's error. */
  lemma UnescapeRunThen(ch: char, w: nat, y: string)
    requires RunReadable(ch, w)
    ensures Unescape(Repeat(ch, w) + y)
      == if Unescape(y).Some? then Some(RunText(ch, w) + Unescape(y).value) else None
  {
    if IsBrace(ch) {
      UnescapePairs(ch, w, y);
    } else {
      UnescapePlain(ch, w, y);
    }
  }

  lemma {:induction false} UnescapePairs(ch: char, w: nat, y: string)
    requires IsBrace(ch) && w % 2 == 0
    ensures Unescape(Repeat(ch, w) + y)
      == if Unescape(y).Some? then Some(Repeat(ch, w / 2) + Unescape(y).value) else None
    decreases w
  {
    if w == 0 {
      assert Repeat(ch, 0) + y == y;
      if Unescape(y).Some? {
        assert [] + Unescape(y).value == Unescape(y).value;
      }
    } else {
      var m: nat := w - 2;
      assert m / 2 == w / 2 - 1;
      RepeatTwice(ch, m);
      RepeatCons(ch, w / 2);
      assert Repeat(ch, w) + y == [ch, ch] + (Repeat(ch, m) + y);
      UnescapePair(ch, Repeat(ch, m) + y);
      UnescapePairs(ch, m, y);
      if Unescape(y).Some? {
        var v := Unescape(y).value;
        assert [ch] + (Repeat(ch, m / 2) + v) == Repeat(ch, w / 2) + v;
      }
    }
  }

  lemma RepeatTwice(ch: char, m: nat)
    ensures Repeat(ch, m + 2) == [ch, ch] + Repeat(ch, m)
  {
    RepeatCons(ch, m + 2);
    RepeatCons(ch, m + 1);
  }

  lemma {:induction false} UnescapePlain(ch: char, w: nat, y: string)
    requires !IsBrace(ch)
    ensures Unescape(Repeat(ch, w) + y)
      == if Unescape(y).Some? then Some(Repeat(ch, w) + Unescape(y).value) else None
    decreases w
  {
    if w == 0 {
      assert Repeat(ch, 0) + y == y;
      if Unescape(y).Some? {
        assert [] + Unescape(y).value == Unescape(y).value;
      }
    } else {
      RepeatCons(ch, w);
      assert Repeat(ch, w) + y == [ch] + (Repeat(ch, w - 1) + y);
      UnescapeCons(ch, Repeat(ch, w - 1) + y);
      UnescapePlain(ch, w - 1, y);
      if Unescape(y).Some? {
        var v := Unescape(y).value;
        assert [ch] + (Repeat(ch, w - 1) + v) == Repeat(ch, w) + v;
      }
    }
  }

  /** An odd run of a brace that the next character does not pair up is an error. */
  lemma {:induction false} UnescapeLoneBrace(ch: char, w: nat, y: string)
    requires IsBrace(ch) && w % 2 == 1
    requires |y| == 0 || y[0] != ch
    ensures Unescape(Repeat(ch, w) + y) == None
    decreases w
  {
    RepeatCons(ch, w);
    var s := Repeat(ch, w) + y;
    if w >= 3 {
      RepeatCons(ch, w - 1);
      assert s[2..] == Repeat(ch, w - 2) + y;
      UnescapeLoneBrace(ch, w - 2, y);
    } else {
      assert s == [ch] + y;
    }
  }

  /**
   * Two runs, w1 copies of a and then w2 copies of b, read without error exactly when
   * each run does, taken as one run when a == b; the text is then that of the runs.
   */
  lemma TwoRuns(a: char, w1: nat, b: char, w2: nat)
    ensures a == b ==>
              Unescape(Repeat(a, w1) + Repeat(b, w2))
              == if RunReadable(a, w1 + w2) then Some(RunText(a, w1 + w2)) else None
    ensures a != b ==>
              Unescape(Repeat(a, w1) + Repeat(b, w2))
              == if RunReadable(a, w1) && RunReadable(b, w2) then Some(RunText(a, w1) + RunText(b, w2)) else None
  {
    var y := Repeat(b, w2);
    if a == b {
      RepeatAdd(a, w1, w2);
      assert Repeat(a, w1 + w2) + [] == Repeat(a, w1 + w2);
      if RunReadable(a, w1 + w2) {
        UnescapeRunThen(a, w1 + w2, []);
        assert RunText(a, w1 + w2) + [] == RunText(a, w1 + w2);
      } else {
        UnescapeLoneBrace(a, w1 + w2, []);
      }
    } else {
      assert y + [] == y;
      if RunReadable(b, w2) {
        UnescapeRunThen(b, w2, []);
        assert RunText(b, w2) + [] == RunText(b, w2);
      } else {
        UnescapeLoneBrace(b, w2, []);
      }
      if RunReadable(a, w1) {
        UnescapeRunThen(a, w1, y);
      } else {
        if w2 > 0 {
          RepeatCons(b, w2);
        }
        UnescapeLoneBrace(a, w1, y);
      }
    }
  }

  lemma {:induction false} RepeatAdd(ch: char, m: nat, n: nat)
    ensures Repeat(ch, m) + Repeat(ch, n) == Repeat(ch, m + n)
    decreases n
  {
    if n > 0 {
      RepeatAdd(ch, m, n - 1);
    }
  }

  const NewLine: string := "\r\n"

  /**
   * The builder content after the first n lines of ls were appended one by one, each
   * followed by NewLine when the content is not empty at that point.
   */
  function Terminated(ls: seq<string>, n: nat): string
    requires n <= |ls|
  {
    if n == 0 then []
    else
      var content := Terminated(ls, n - 1) + ls[n - 1];
      if |content| > 0 then content + NewLine else content
  }

  /** The whole output: like Terminated, but the final line gets no terminator. */
  function Assemble(ls: seq<string>): string {
    if ls == [] then [] else Terminated(ls, |ls| - 1) + ls[|ls| - 1]
  }

  /** Plain joining with a separator, the reference for Assemble. */
  function Join(ls: seq<string>, sep: string): string {
    if |ls| == 0 then []
    else if |ls| == 1 then ls[0]
    else Join(ls[..|ls| - 1], sep) + sep + ls[|ls| - 1]
  }

  /** Terminated only looks at the lines it covers. */
  lemma {:induction false} TerminatedPrefix(ls: seq<string>, ms: seq<string>, n: nat)
    requires n <= |ls| && n <= |ms|
    requires forall i :: 0 <= i < n ==> ls[i] == ms[i]
    ensures Terminated(ls, n) == Terminated(ms, n)
  {
    if n > 0 {
      TerminatedPrefix(ls, ms, n - 1);
    }
  }

  /** Appending line x to n = |ls| lines: Terminated takes one more step. */
  lemma TerminatedSnoc(ls: seq<string>, x: string, n: nat)
    requires n == |ls|
    ensures Terminated(ls + [x], n + 1) ==
      var content := Terminated(ls, n) + x;
      if |content| > 0 then content + NewLine else content
  {
    TerminatedPrefix(ls + [x], ls, n);
  }

  /** The output of ls + [x]: the lines of ls, terminated, then x. */
  lemma AssembleSnoc(ls: seq<string>, x: string, n: nat)
    requires n == |ls|
    ensures Assemble(ls + [x]) == Terminated(ls, n) + x
  {
    TerminatedPrefix(ls + [x], ls, n);
  }

  /** The output once every line of ls is written and terminated. */
  function Finished(ls: seq<string>): string {
    Terminated(ls, |ls|)
  }

  /**
   * Writing line x = a + r after the lines ls, a first and r later, and then a NewLine
   * only when another line follows and the output is not empty.
   */
  lemma CloseLine(ls: seq<string>, a: string, r: string, x: string,
                  data1: string, data2: string, data3: string, more: bool)
    requires x == a + r
    requires data1 == Finished(ls) + a && data2 == data1 + r
    requires data3 == if more && |data2| > 0 then data2 + NewLine else data2
    ensures more ==> data3 == Finished(ls + [x])
    ensures !more ==> data3 == Assemble(ls + [x])
  {
    assert data2 == Terminated(ls, |ls|) + x;
    TerminatedSnoc(ls, x, |ls|);
    AssembleSnoc(ls, x, |ls|);
  }

  lemma {:induction false} TerminatedNonEmpty(ls: seq<string>, n: nat)
    requires 1 <= n <= |ls|
    requires forall i :: 0 <= i < |ls| ==> |ls[i]| > 0
    ensures Terminated(ls, n) == Join(ls[..n], NewLine) + NewLine
  {
    var init := ls[..n][..n - 1];
    assert init == ls[..n - 1];
    if n > 1 {
      TerminatedNonEmpty(ls, n - 1);
    }
  }

  /** When no line is empty, the guarded terminator is the plain separator. */
  lemma AssembleIsJoin(ls: seq<string>)
    requires forall i :: 0 <= i < |ls| ==> |ls[i]| > 0
    ensures Assemble(ls) == Join(ls, NewLine)
  {
    if |ls| > 1 {
      TerminatedNonEmpty(ls, |ls| - 1);
    }
  }

  /** When every line is empty, no terminator is ever written. */
  lemma {:induction false} TerminatedAllEmpty(ls: seq<string>, n: nat)
    requires n <= |ls|
    requires forall i :: 0 <= i < |ls| ==> ls[i] == []
    ensures Terminated(ls, n) == []
  {
    if n > 0 {
      TerminatedAllEmpty(ls, n - 1);
    }
  }

  lemma AssembleAllEmpty(ls: seq<string>)
    requires forall i :: 0 <= i < |ls| ==> ls[i] == []
    ensures Assemble(ls) == []
  {
    if ls != [] {
      TerminatedAllEmpty(ls, |ls| - 1);
    }
  }

  function Count(s: string, ch: char): nat {
    if s == [] then 0 else Count(s[..|s| - 1], ch) + (if s[|s| - 1] == ch then 1 else 0)
  }

  lemma {:induction false} CountAppend(a: string, b: string, ch: char)
    ensures Count(a + b, ch) == Count(a, ch) + Count(b, ch)
    decreases |b|
  {
    if b == [] {
      assert a + b == a;
    } else {
      assert (a + b)[..|a + b| - 1] == a + b[..|b| - 1];
      CountAppend(a, b[..|b| - 1], ch);
    }
  }

  lemma {:induction false} CountAbsent(s: string, ch: char)
    requires forall i :: 0 <= i < |s| ==> s[i] != ch
    ensures Count(s, ch) == 0
    decreases |s|
  {
    if s != [] {
      CountAbsent(s[..|s| - 1], ch);
    }
  }

  /** Joining n lines that hold no line feed yields exactly n - 1 line feeds. */
  lemma {:induction false} JoinLineFeeds(ls: seq<string>)
    requires |ls| >= 1
    requires forall i, j :: 0 <= i < |ls| && 0 <= j < |ls[i]| ==> ls[i][j] != '\n'
    ensures Count(Join(ls, NewLine), '\n') == |ls| - 1
  {
    CountAbsent(ls[|ls| - 1], '\n');
    if |ls| > 1 {
      var init := ls[..|ls| - 1];
      JoinLineFeeds(init);
      CountAppend(Join(init, NewLine), NewLine, '\n');
      CountAppend(Join(init, NewLine) + NewLine, ls[|ls| - 1], '\n');
      assert Count(NewLine, '\n') == 1 by {
        assert NewLine[..1] == "\r" && NewLine[..1][..0] == [];
      }
    }
  }

  /** System.Text.StringBuilder, reduced to what the converter uses. */
  class StringBuilder {
    var content: string

    constructor ()
      ensures content == []
    {
      content := [];
    }

    method Append(s: string)
      modifies this
      ensures content == old(content) + s
    {
      content := content + s;
    }

    /** Assigning Length = 0. */
    method Clear()
      modifies this
      ensures content == []
    {
      content := [];
    }

    function Length(): nat
      reads this
    {
      |content|
    }

    function ToString(): string
      reads this
    {
      content
    }
  }
}
