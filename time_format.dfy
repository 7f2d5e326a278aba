/** The text side of the stopwatch: the "MM:SS" formatter behind `format_time`
    and the "M:S" parser inside `update_countdown_time`, with the facts that
    connect them. */
module TimeFormat {

  datatype Option<T> = None | Some(value: T)

  /** A displayed time: whole minutes and seconds. */
  datatype Clock = Clock(minutes: int, seconds: int)

  /** A normalised time: minutes are not negative and seconds lie in [0, 59]. */
  predicate ClockValid(c: Clock) {
    c.minutes >= 0 && 0 <= c.seconds < 60
  }

  /** The time as a number of seconds. */
  function Total(c: Clock): int {
    60 * c.minutes + c.seconds
  }

  /** A normalised time is determined by its number of seconds. */
  lemma ClockOfTotal(c: Clock)
    requires ClockValid(c)
    ensures Total(c) >= 0
    ensures c.minutes == Total(c) / 60 && c.seconds == Total(c) % 60
  {
  }

  // ----- decimal digits -----

  predicate IsDigit(ch: char) {
    '0' <= ch <= '9'
  }

  /** Every character of `s` is an ASCII digit. */
  predicate AllDigits(s: string) {
    |s| == 0 || (IsDigit(s[|s| - 1]) && AllDigits(s[..|s| - 1]))
  }

  /** A non-empty string of ASCII digits. */
  predicate IsDigits(s: string) {
    |s| > 0 && AllDigits(s)
  }

  function DigitChar(d: nat): char
    requires d < 10
  {
    ('0' as int + d) as char
  }

  /** The value of a string of ASCII digits, most significant digit first;
      leading zeros are allowed. */
  function DigitsValue(s: string): nat
    requires AllDigits(s)
  {
    if |s| == 0 then 0 else 10 * DigitsValue(s[..|s| - 1]) + (s[|s| - 1] as int - '0' as int)
  }

  /** The decimal digits of `n` without leading zeros, as Python's `str(n)`. */
  function Digits(n: nat): string {
    if n < 10 then [DigitChar(n)] else Digits(n / 10) + [DigitChar(n % 10)]
  }

  /** `Digits` writes only digits, one of them exactly for the numbers below
      ten, and reads back as the number it was made from. */
  lemma {:induction false} DigitsValueOf(n: nat)
    ensures IsDigits(Digits(n))
    ensures DigitsValue(Digits(n)) == n
    ensures n < 10 <==> |Digits(n)| == 1
  {
    if n >= 10 {
      DigitsValueOf(n / 10);
      var front := Digits(n / 10);
      assert (front + [DigitChar(n % 10)])[..|front|] == front;
    }
  }

  /** Each character of a digit string is a digit. */
  lemma {:induction false} DigitAt(s: string, i: int)
    requires AllDigits(s) && 0 <= i < |s|
    ensures IsDigit(s[i])
    decreases |s|
  {
    if i < |s| - 1 {
      DigitAt(s[..|s| - 1], i);
    }
  }

  // ----- the formatter -----

  /** One field of `format_time`: Python's `f"{n:02d}"`, the decimal digits of
      `n` left-padded with zeros to width 2 (a negative number has its sign in
      front and, at width 2, no padding). */
  function Pad2(n: int): string {
    if n < 0 then "-" + Digits(-n)
    else if n < 10 then "0" + Digits(n)
    else Digits(n)
  }

  /** A padded field is at least two characters wide, exactly two for the
      numbers 0 to 99, all digits when not negative, and never holds a colon. */
  lemma Pad2Shape(n: int)
    ensures |Pad2(n)| >= 2
    ensures 0 <= n < 100 ==> |Pad2(n)| == 2
    ensures n >= 0 ==> IsDigits(Pad2(n))
    ensures ':' !in Pad2(n)
    ensures !IsSpace(Pad2(n)[0]) && !IsSpace(Pad2(n)[|Pad2(n)| - 1])
  {
    var m := if n < 0 then -n else n;
    DigitsValueOf(m);
    var d := Digits(m);
    forall i | 0 <= i < |d| ensures IsDigit(d[i]) {
      DigitAt(d, i);
    }
    if 0 <= n < 10 {
      assert AllDigits("0" + Digits(n)) by {
        assert ("0" + Digits(n))[..1] == "0";
      }
    }
  }

  /** `format_time`: the minutes and the seconds, each padded to two digits,
      joined by a colon. */
  function FormatTime(minutes: int, seconds: int): string {
    Pad2(minutes) + ":" + Pad2(seconds)
  }

  // ----- Python's str.split with an explicit separator -----

  /** `s.split(sep)`: the pieces of `s` between occurrences of `sep`, empty
      pieces included, so that there is always one piece more than there are
      separators. */
  function Split(s: string, sep: char): (parts: seq<string>)
    ensures |parts| >= 1
    decreases |s|
  {
    if |s| == 0 then [""]
    else if s[0] == sep then [""] + Split(s[1..], sep)
    else
      var rest := Split(s[1..], sep);
      [[s[0]] + rest[0]] + rest[1..]
  }

  /** `sep.join(parts)`, the inverse of `Split`. */
  function Join(parts: seq<string>, sep: char): string
    requires |parts| >= 1
  {
    if |parts| == 1 then parts[0] else parts[0] + [sep] + Join(parts[1..], sep)
  }

  /** Number of occurrences of `c` in `s`. */
  function Occurrences(s: string, c: char): nat {
    if |s| == 0 then 0 else (if s[0] == c then 1 else 0) + Occurrences(s[1..], c)
  }

  /** Splitting loses nothing: joining the pieces gives the string back. */
  lemma {:induction false} SplitJoin(s: string, sep: char)
    ensures Join(Split(s, sep), sep) == s
    decreases |s|
  {
    if |s| > 0 {
      SplitJoin(s[1..], sep);
      var rest := Split(s[1..], sep);
      if s[0] != sep && |rest| > 1 {
        assert ([[s[0]] + rest[0]] + rest[1..])[1..] == rest[1..];
      }
    }
  }

  /** Splitting yields exactly one piece more than there are separators. */
  lemma {:induction false} SplitCount(s: string, sep: char)
    ensures |Split(s, sep)| == Occurrences(s, sep) + 1
    decreases |s|
  {
    if |s| > 0 {
      SplitCount(s[1..], sep);
    }
  }

  /** No piece contains the separator. */
  lemma {:induction false} SplitPieces(s: string, sep: char)
    ensures forall i :: 0 <= i < |Split(s, sep)| ==> sep !in Split(s, sep)[i]
    decreases |s|
  {
    if |s| > 0 {
      SplitPieces(s[1..], sep);
      var rest := Split(s[1..], sep);
      if s[0] != sep {
        assert sep !in [s[0]] + rest[0];
      }
    }
  }

  /** A string without the separator is one piece. */
  lemma {:induction false} SplitWhole(b: string, sep: char)
    requires sep !in b
    ensures Split(b, sep) == [b]
    decreases |b|
  {
    if |b| > 0 {
      assert b[0] != sep;
      assert sep !in b[1..] by {
        forall i | 0 <= i < |b[1..]| ensures b[1..][i] != sep { assert b[1..][i] == b[i + 1]; }
      }
      SplitWhole(b[1..], sep);
      assert [b[0]] + b[1..] == b;
    }
  }

  /** Two separator-free pieces joined by one separator split back into those two. */
  lemma {:induction false} SplitPair(a: string, b: string, sep: char)
    requires sep !in a && sep !in b
    ensures Split(a + [sep] + b, sep) == [a, b]
    decreases |a|
  {
    var s := a + [sep] + b;
    if |a| == 0 {
      assert s[0] == sep && s[1..] == b;
      SplitWhole(b, sep);
    } else {
      assert s[0] == a[0] && s[1..] == a[1..] + [sep] + b;
      assert sep !in a[1..] by {
        forall i | 0 <= i < |a[1..]| ensures a[1..][i] != sep { assert a[1..][i] == a[i + 1]; }
      }
      SplitPair(a[1..], b, sep);
      assert [a[0]] + a[1..] == a;
    }
  }

  // ----- the parser -----

  /** The whitespace Python's `int` ignores around a number, restricted to
      ASCII: space, tab, line feed, vertical tab, form feed, carriage return. */
  predicate IsSpace(ch: char) {
    ch == ' ' || 9 <= ch as int <= 13
  }

  /** `s` without its leading whitespace. */
  function TrimStart(s: string): string
    decreases |s|
  {
    if |s| > 0 && IsSpace(s[0]) then TrimStart(s[1..]) else s
  }

  /** `s` without its trailing whitespace. */
  function TrimEnd(s: string): string
    decreases |s|
  {
    if |s| > 0 && IsSpace(s[|s| - 1]) then TrimEnd(s[..|s| - 1]) else s
  }

  /** `s.strip()` on ASCII whitespace. */
  function Strip(s: string): string {
    TrimEnd(TrimStart(s))
  }

  /** Python's `int(s)` on the strings it accepts that consist of optional
      whitespace, an optional sign, ASCII digits and optional whitespace;
      every other string is refused (None), where Python raises ValueError. */
  function ParseInt(s: string): Option<int> {
    var t := Strip(s);
    if |t| > 0 && (t[0] == '+' || t[0] == '-') then
      if IsDigits(t[1..]) then
        var v: int := DigitsValue(t[1..]);
        Some(if t[0] == '-' then -v else v)
      else None
    else if IsDigits(t) then Some(DigitsValue(t))
    else None
  }

  /** Every padded field reads back as the number it was made from. */
  lemma ParseIntPad2(n: int)
    ensures ParseInt(Pad2(n)) == Some(n)
  {
    var m := if n < 0 then -n else n;
    DigitsValueOf(m);
    Pad2Shape(n);
    assert Strip(Pad2(n)) == Pad2(n);
    if n < 0 {
      assert Pad2(n)[1..] == Digits(m);
    } else if n < 10 {
      var r := "0" + Digits(n);
      assert |r| == 2 && r[..1] == "0" && r[1] == DigitChar(n);
      assert DigitChar(n) as int - '0' as int == n;
      assert AllDigits(r[..1]) && AllDigits(r);
      assert DigitsValue(r) == 10 * DigitsValue(r[..1]) + (r[1] as int - '0' as int);
      assert DigitsValue(r[..1]) == 0;
      assert r[0] == '0' && IsDigits(r) && DigitsValue(r) == n;
      assert ParseInt(r) == Some(DigitsValue(r));
      assert Pad2(n) == r;
    } else {
      DigitAt(Digits(n), 0);
    }
  }

  /** The parse step of `update_countdown_time`: the text must split on ':'
      into exactly two integers with minutes >= 0 and 0 <= seconds < 60. */
  function ParseTime(text: string): (r: Option<Clock>)
    ensures r.Some? ==> ClockValid(r.value)
  {
    var parts := Split(text, ':');
    if |parts| != 2 then None
    else
      match (ParseInt(parts[0]), ParseInt(parts[1]))
      case (Some(m), Some(s)) =>
        if 0 <= m && 0 <= s < 60 then Some(Clock(m, s)) else None
      case _ => None
  }

  /** Text without exactly one colon is refused. */
  lemma ParseTimeNeedsOneColon(text: string)
    requires Occurrences(text, ':') != 1
    ensures ParseTime(text) == None
  {
    SplitCount(text, ':');
  }

  /** Text with exactly one colon is a colon-free left side, the colon and a
      colon-free right side, so the next lemma covers it. */
  lemma OneColonSplits(text: string)
    requires Occurrences(text, ':') == 1
    ensures exists a, b :: ':' !in a && ':' !in b && text == a + ":" + b
  {
    SplitCount(text, ':');
    SplitPieces(text, ':');
    SplitJoin(text, ':');
    var parts := Split(text, ':');
    assert ':' !in parts[0] && ':' !in parts[1];
    assert parts[1..] == [parts[1]];
    assert text == parts[0] + ":" + parts[1];
  }

  /** Text with exactly one colon is accepted exactly when both sides are
      integers in range, and then it yields those integers. */
  lemma ParseTimeFields(a: string, b: string)
    requires ':' !in a && ':' !in b
    ensures ParseTime(a + ":" + b) ==
      if ParseInt(a).Some? && ParseInt(b).Some? && ClockValid(Clock(ParseInt(a).value, ParseInt(b).value))
      then Some(Clock(ParseInt(a).value, ParseInt(b).value))
      else None
  {
    SplitPair(a, b, ':');
  }

  /** The round trip: the formatted time of a normalised clock parses back to
      it, and the formatted time of any other pair of integers is refused. */
  lemma ParseFormat(minutes: int, seconds: int)
    ensures ParseTime(FormatTime(minutes, seconds)) ==
      if ClockValid(Clock(minutes, seconds)) then Some(Clock(minutes, seconds)) else None
  {
    var a, b := Pad2(minutes), Pad2(seconds);
    Pad2Shape(minutes);
    Pad2Shape(seconds);
    ParseTimeFields(a, b);
    ParseIntPad2(minutes);
    ParseIntPad2(seconds);
  }

  /** Parsing is stable under reformatting: parse(format(parse(s))) == parse(s). */
  lemma ParseStable(text: string)
    ensures ParseTime(text).Some? ==>
      ParseTime(FormatTime(ParseTime(text).value.minutes, ParseTime(text).value.seconds)) == ParseTime(text)
  {
    if ParseTime(text).Some? {
      var c := ParseTime(text).value;
      ParseFormat(c.minutes, c.seconds);
    }
  }
}
