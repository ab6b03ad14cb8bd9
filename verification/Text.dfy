/**
 * Lines, decimal numbers and blank-separated fields, as Go's bufio.Scanner, fmt and strings handle
 * them. A char is a rune; where bytes count they are those of its UTF-8 form.
 */
module Text {
  import opened Numbers
  import opened Results

  // ---------- Bytes ----------

  /** How many bytes UTF-8 takes for a rune. */
  function Width(c: char): (n: nat)
    ensures 1 <= n <= 4
  {
    if c as int < 0x80 then 1 else if c as int < 0x800 then 2 else if c as int < 0x1_0000 then 3 else 4
  }

  /** Go's len of a string. */
  function ByteLen(s: string): (n: nat)
    ensures n >= |s|
  {
    if s == "" then 0 else Width(s[0]) + ByteLen(s[1..])
  }

  lemma {:induction false} ByteLenJoin(a: string, b: string)
    ensures ByteLen(a + b) == ByteLen(a) + ByteLen(b)
  {
    if a == "" {
      assert a + b == b;
    } else {
      assert (a + b)[1..] == a[1..] + b;
      ByteLenJoin(a[1..], b);
    }
  }

  lemma {:induction false} ByteLenOfAscii(s: string)
    requires forall i | 0 <= i < |s| :: s[i] as int < 0x80
    ensures ByteLen(s) == |s|
  {
    if s != "" {
      ByteLenOfAscii(s[1..]);
    }
  }

  // ---------- Lines ----------

  /** bufio.MaxScanTokenSize: a line must end within this many bytes, its newline included. */
  const LINE_LIMIT: nat := 0x1_0000

  /** The index of the first newline, the length if there is none. */
  function LineEnd(s: string): (n: nat)
    ensures n <= |s| && '\n' !in s[..n]
    ensures n < |s| ==> s[n] == '\n'
  {
    if s == "" || s[0] == '\n' then 0 else 1 + LineEnd(s[1..])
  }

  /** bufio.ScanLines drops one carriage return before the newline. */
  function DropCr(s: string): (r: string)
    ensures '\n' !in s ==> '\n' !in r
  {
    if s != "" && s[|s| - 1] == '\r' then s[..|s| - 1] else s
  }

  /** One Scan: the next line and what is left, or None at the end of the input and before a line that is too long. */
  function NextLine(input: string): (r: Option<(string, string)>)
    ensures r.Some? ==> |r.value.1| < |input| && '\n' !in r.value.0
  {
    var n := LineEnd(input);
    if input == "" || ByteLen(input[..n]) >= LINE_LIMIT then None
    else Some((DropCr(input[..n]), if n == |input| then "" else input[n + 1..]))
  }

  lemma {:induction false} LineEndAt(line: string, rest: string)
    requires '\n' !in line
    ensures LineEnd(line + "\n" + rest) == |line|
  {
    if line != "" {
      assert (line + "\n" + rest)[1..] == line[1..] + "\n" + rest;
      LineEndAt(line[1..], rest);
    }
  }

  /**
   * A line that holds no newline is read back whole, also when it ends in a carriage return of its
   * own, exactly when it and its carriage return are below the limit; otherwise nothing is read.
   */
  lemma LineRoundTrip(line: string, rest: string)
    requires '\n' !in line
    ensures NextLine(line + "\r\n" + rest) == if ByteLen(line) + 1 < LINE_LIMIT then Some((line, rest)) else None
  {
    var s := line + "\r\n" + rest;
    assert s == (line + "\r") + "\n" + rest;
    LineEndAt(line + "\r", rest);
    assert s[..|line| + 1] == line + "\r";
    assert s[|line| + 2..] == rest;
    ByteLenJoin(line, "\r");
    ByteLenOfAscii("\r");
  }

  /** The last line of the input needs no newline. */
  lemma LastLine(line: string)
    requires '\n' !in line && line != "" && line[|line| - 1] != '\r'
    ensures NextLine(line) == if ByteLen(line) < 65536 then Some((line, "")) else None
  {
    NoLineEnd(line);
    assert line[..|line|] == line;
  }

  lemma {:induction false} NoLineEnd(line: string)
    requires '\n' !in line
    ensures LineEnd(line) == |line|
  {
    if line != "" {
      NoLineEnd(line[1..]);
    }
  }

  // ---------- Decimal numbers ----------

  function Digit(d: nat): char
    requires d < 10
  {
    '0' + d as char
  }

  predicate IsDigit(c: char) {
    '0' <= c <= '9'
  }

  /** %d of a non-negative number. */
  function Digits(n: nat): (s: string)
    ensures s != "" && forall i | 0 <= i < |s| :: IsDigit(s[i])
  {
    if n < 10 then [Digit(n)] else Digits(n / 10) + [Digit(n % 10)]
  }

  function Decimal(n: int): (s: string)
    ensures s != "" && (s[0] == '-' || IsDigit(s[0]))
  {
    if n < 0 then "-" + Digits(-n) else Digits(n)
  }

  /** The number that a string of digits spells. */
  function Value(digits: string): nat
    requires forall i | 0 <= i < |digits| :: IsDigit(digits[i])
  {
    if digits == "" then 0
    else
      var last := digits[|digits| - 1];
      assert IsDigit(last);
      Value(digits[..|digits| - 1]) * 10 + (last as int - '0' as int)
  }

  lemma {:induction false} ValueOfDigits(n: nat)
    ensures Value(Digits(n)) == n
  {
    if n >= 10 {
      ValueOfDigits(n / 10);
      assert Digits(n)[..|Digits(n)| - 1] == Digits(n / 10);
    }
  }

  /** The length of the run of digits at the front. */
  function DigitRun(s: string): (n: nat)
    ensures n <= |s| && forall i | 0 <= i < n :: IsDigit(s[i])
  {
    if s == "" || !IsDigit(s[0]) then 0 else 1 + DigitRun(s[1..])
  }

  /** The number that the digits at the front spell. */
  function ScanDigits(s: string): Option<nat> {
    var n := DigitRun(s);
    if n == 0 then None else Some(Value(s[..n]))
  }

  /** Sscanf's %d: blanks, a sign, then at least one digit; what follows the digits is not looked at. */
  function ScanDecimal(s: string): Option<int> {
    if s != "" && (s[0] == ' ' || s[0] == '\t') then ScanDecimal(s[1..])
    else
      var signed := s != "" && (s[0] == '-' || s[0] == '+');
      match ScanDigits(if signed then s[1..] else s)
      case None => None
      case Some(n) => Some(if signed && s[0] == '-' then 0 - n else n)
  }

  lemma {:induction false} DigitRunStops(digits: string, tail: string)
    requires forall i | 0 <= i < |digits| :: IsDigit(digits[i])
    requires tail == "" || !IsDigit(tail[0])
    ensures DigitRun(digits + tail) == |digits|
  {
    if digits != "" {
      assert (digits + tail)[1..] == digits[1..] + tail;
      DigitRunStops(digits[1..], tail);
    } else {
      assert digits + tail == tail;
    }
  }

  lemma ScansDigits(n: nat, tail: string)
    requires tail == "" || !IsDigit(tail[0])
    ensures ScanDigits(Digits(n) + tail) == Some(n) && IsDigit((Digits(n) + tail)[0])
  {
    var digits := Digits(n);
    DigitRunStops(digits, tail);
    ValueOfDigits(n);
    hide Digits, DigitRun, Value;
    assert (digits + tail)[..|digits|] == digits;
    assert IsDigit(digits[0]);
  }

  lemma ScansSigned(sign: char, s: string, n: nat)
    requires (sign == '-' || sign == '+') && ScanDigits(s) == Some(n)
    ensures ScanDecimal([sign] + s) == Some(if sign == '-' then 0 - n else n)
  {
    hide ScanDigits;
    assert ([sign] + s)[1..] == s;
  }

  lemma ScansUnsigned(s: string, n: nat)
    requires s != "" && IsDigit(s[0]) && ScanDigits(s) == Some(n)
    ensures ScanDecimal(s) == Some(n)
  {
    hide ScanDigits;
  }

  lemma ScansBehindBlank(blank: char, s: string)
    requires blank == ' ' || blank == '\t'
    ensures ScanDecimal([blank] + s) == ScanDecimal(s)
  {
    assert ([blank] + s)[1..] == s;
  }

  lemma DecimalThen(n: int, tail: string)
    ensures n < 0 ==> Decimal(n) + tail == ['-'] + (Digits(-n) + tail)
    ensures n >= 0 ==> Decimal(n) + tail == Digits(n) + tail
  {
    hide Digits;
  }

  /** %d scans a number behind blanks, also with a plus sign, and does not look at what follows its digits. */
  lemma ScanIsLenient(n: int, tail: string)
    requires tail == "" || !IsDigit(tail[0])
    ensures ScanDecimal(Decimal(n) + tail) == Some(n)
    ensures n >= 0 ==> ScanDecimal(['+'] + (Decimal(n) + tail)) == Some(n)
    ensures ScanDecimal([' '] + (Decimal(n) + tail)) == ScanDecimal(['\t'] + (Decimal(n) + tail)) == Some(n)
  {
    var magnitude := if n < 0 then -n else n;
    hide Digits, ScanDigits, ScanDecimal, Decimal;
    var s, t := Digits(magnitude) + tail, Decimal(n) + tail;
    ScansDigits(magnitude, tail);
    DecimalThen(n, tail);
    if n < 0 {
      ScansSigned('-', s, magnitude);
    } else {
      ScansUnsigned(s, magnitude);
      ScansSigned('+', s, magnitude);
    }
    ScansBehindBlank(' ', t);
    ScansBehindBlank('\t', t);
  }

  /** What %d prints is what %d scans. */
  lemma DecimalRoundTrip(n: int)
    ensures ScanDecimal(Decimal(n)) == Some(n)
  {
    hide Decimal, ScanDecimal;
    ScanIsLenient(n, "");
    assert Decimal(n) + "" == Decimal(n);
  }

  lemma DecimalHasNoNewline(n: int)
    ensures '\n' !in Decimal(n) && ByteLen(Decimal(n)) == |Decimal(n)|
  {
    var digits := Digits(if n < 0 then -n else n);
    assert forall i | 0 <= i < |digits| :: IsDigit(digits[i]);
    ByteLenOfAscii(Decimal(n));
  }

  function PowerOfTen(k: nat): nat {
    if k == 0 then 1 else 10 * PowerOfTen(k - 1)
  }

  lemma {:induction false} DigitsAreFew(n: nat, k: nat)
    requires n < PowerOfTen(k) && k > 0
    ensures |Digits(n)| <= k
  {
    if n >= 10 {
      DigitsAreFew(n / 10, k - 1);
    }
  }

  /** A 64-bit number takes at most 19 digits and a sign. */
  lemma DecimalIsShort(n: int)
    requires -TWO_63 <= n < TWO_63
    ensures ByteLen(Decimal(n)) <= 20
  {
    assert PowerOfTen(7) == 10_000_000;
    assert PowerOfTen(14) == 100_000_000_000_000;
    assert PowerOfTen(19) == 10_000_000_000_000_000_000;
    DigitsAreFew(if n < 0 then -n else n, 19);
    DecimalHasNoNewline(n);
  }

  // ---------- Fields ----------

  /** unicode.IsSpace, the white space of strings.Fields and strings.TrimSpace. */
  predicate IsSpace(c: char) {
    var r := c as int;
    || 0x09 <= r <= 0x0D || r == 0x20 || r == 0x85 || r == 0xA0 || r == 0x1680
    || 0x2000 <= r <= 0x200A || r == 0x2028 || r == 0x2029 || r == 0x202F || r == 0x205F || r == 0x3000
  }

  /** A field: not empty and without white space. */
  predicate IsWord(s: string) {
    s != "" && forall i | 0 <= i < |s| :: !IsSpace(s[i])
  }

  function WordRun(s: string): (n: nat)
    ensures n <= |s| && forall i | 0 <= i < n :: !IsSpace(s[i])
    ensures n < |s| ==> IsSpace(s[n])
  {
    if s == "" || IsSpace(s[0]) then 0 else 1 + WordRun(s[1..])
  }

  function Fields(s: string): (ws: seq<string>)
    ensures forall i | 0 <= i < |ws| :: IsWord(ws[i])
    decreases |s|
  {
    if s == "" then []
    else if IsSpace(s[0]) then Fields(s[1..])
    else
      var n := WordRun(s);
      [s[..n]] + Fields(s[n..])
  }

  function JoinBlank(ws: seq<string>): string {
    if ws == [] then ""
    else if |ws| == 1 then ws[0]
    else ws[0] + " " + JoinBlank(ws[1..])
  }

  function TrimLeft(s: string): string {
    if s != "" && IsSpace(s[0]) then TrimLeft(s[1..]) else s
  }

  function TrimRight(s: string): string {
    if s != "" && IsSpace(s[|s| - 1]) then TrimRight(s[..|s| - 1]) else s
  }

  function TrimSpace(s: string): string {
    TrimRight(TrimLeft(s))
  }

  lemma {:induction false} WordRunStops(w: string, c: char, rest: string)
    requires IsSpace(c) && forall i | 0 <= i < |w| :: !IsSpace(w[i])
    ensures WordRun(w + [c] + rest) == |w|
  {
    if w != "" {
      assert (w + [c] + rest)[1..] == w[1..] + [c] + rest;
      WordRunStops(w[1..], c, rest);
    }
  }

  /** A word before white space is the first field. */
  lemma FieldsOfWordThen(w: string, c: char, rest: string)
    requires IsWord(w) && IsSpace(c)
    ensures Fields(w + [c] + rest) == [w] + Fields(rest)
  {
    var s := w + [c] + rest;
    WordRunStops(w, c, rest);
    assert s[..|w|] == w && s[|w|..] == [c] + rest;
    assert ([c] + rest)[1..] == rest;
  }

  lemma {:induction false} FieldsOfTrimLeft(s: string)
    ensures Fields(TrimLeft(s)) == Fields(s)
  {
    if s != "" && IsSpace(s[0]) {
      FieldsOfTrimLeft(s[1..]);
    }
  }

  lemma {:induction false} FieldsIgnoreTrailing(s: string, c: char)
    requires IsSpace(c)
    ensures Fields(s + [c]) == Fields(s)
    decreases |s|
  {
    if s == "" {
      assert (s + [c])[1..] == "";
    } else if IsSpace(s[0]) {
      assert (s + [c])[1..] == s[1..] + [c];
      FieldsIgnoreTrailing(s[1..], c);
    } else {
      var n := WordRun(s);
      WordRunBeforeTrailing(s, c);
      assert (s + [c])[..n] == s[..n] && (s + [c])[n..] == s[n..] + [c];
      FieldsIgnoreTrailing(s[n..], c);
    }
  }

  lemma {:induction false} WordRunBeforeTrailing(s: string, c: char)
    requires IsSpace(c)
    ensures WordRun(s + [c]) == WordRun(s)
  {
    if s != "" && !IsSpace(s[0]) {
      assert (s + [c])[1..] == s[1..] + [c];
      WordRunBeforeTrailing(s[1..], c);
    }
  }

  lemma {:induction false} FieldsOfTrimRight(s: string)
    ensures Fields(TrimRight(s)) == Fields(s)
  {
    if s != "" && IsSpace(s[|s| - 1]) {
      FieldsOfTrimRight(s[..|s| - 1]);
      FieldsIgnoreTrailing(s[..|s| - 1], s[|s| - 1]);
      assert s == s[..|s| - 1] + [s[|s| - 1]];
    }
  }

  lemma FieldsOfTrimSpace(s: string)
    ensures Fields(TrimSpace(s)) == Fields(s)
  {
    FieldsOfTrimLeft(s);
    FieldsOfTrimRight(TrimLeft(s));
  }

  lemma {:induction false} JoinBytes(w: string, ws: seq<string>)
    ensures ByteLen(JoinBlank([w] + ws)) == ByteLen(w) + if ws == [] then 0 else 1 + ByteLen(JoinBlank(ws))
  {
    assert ([w] + ws)[1..] == ws;
    if ws != [] {
      ByteLenJoin(w + " ", JoinBlank(ws));
      ByteLenJoin(w, " ");
      ByteLenOfAscii(" ");
    }
  }

  /** Splitting and joining never makes a text longer. */
  lemma {:induction false} FieldsAreShorter(s: string)
    ensures ByteLen(JoinBlank(Fields(s))) <= ByteLen(s)
    decreases |s|
  {
    if s != "" {
      if IsSpace(s[0]) {
        FieldsAreShorter(s[1..]);
      } else {
        var n := WordRun(s);
        var w, rest := s[..n], s[n..];
        assert s == w + rest;
        ByteLenJoin(w, rest);
        FieldsAreShorter(rest);
        JoinBytes(w, Fields(rest));
        if Fields(rest) != [] {
          FieldsAreShorter(rest[1..]);
        }
      }
    }
  }

  /** Words with single blanks between them and nothing around them. */
  predicate SingleSpaced(s: string) {
    && s != "" && !IsSpace(s[0]) && !IsSpace(s[|s| - 1])
    && (forall i | 0 <= i < |s| && IsSpace(s[i]) :: s[i] == ' ')
    && (forall i | 0 <= i < |s| - 1 && IsSpace(s[i]) :: !IsSpace(s[i + 1]))
  }

  lemma {:induction false} JoinIsSingleSpaced(ws: seq<string>)
    requires ws != [] && forall i | 0 <= i < |ws| :: IsWord(ws[i])
    ensures SingleSpaced(JoinBlank(ws))
  {
    if |ws| > 1 {
      JoinIsSingleSpaced(ws[1..]);
      var w, rest := ws[0], JoinBlank(ws[1..]);
      var s := JoinBlank(ws);
      assert s == w + " " + rest;
      assert forall i | 0 <= i < |w| :: s[i] == w[i];
      assert forall i | |w| < i < |s| :: s[i] == rest[i - |w| - 1];
      assert s[|w|] == ' ';
    }
  }

  /** Splitting into fields and joining with blanks gives the text back exactly when it is single-spaced. */
  lemma {:induction false} JoinOfFields(s: string)
    ensures JoinBlank(Fields(s)) == s && s != "" <==> SingleSpaced(s)
    decreases |s|
  {
    if SingleSpaced(s) {
      var n := WordRun(s);
      if n == |s| {
        assert s[..n] == s && s[n..] == "";
      } else {
        var w, rest := s[..n], s[n + 1..];
        assert s == w + [s[n]] + rest;
        FieldsOfWordThen(w, s[n], rest);
        RestIsSingleSpaced(s, n);
        JoinOfFields(rest);
        assert ([w] + Fields(rest))[1..] == Fields(rest);
      }
    } else if Fields(s) != [] {
      JoinIsSingleSpaced(Fields(s));
    }
  }

  lemma RestIsSingleSpaced(s: string, n: nat)
    requires SingleSpaced(s) && 0 < n < |s| && IsSpace(s[n])
    ensures n + 1 < |s| && s[n] == ' ' && SingleSpaced(s[n + 1..])
  {
    var rest := s[n + 1..];
    assert forall i | 0 <= i < |rest| :: rest[i] == s[n + 1 + i];
  }
}
