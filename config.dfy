/** The parameter file: `safeParse`, the C library's `strtol` it relies on,
    `std::getline`'s behaviour at the end of the file, and the sequence of
    fields and clamps of `read_config_file`. */
module ConfigParse {
  import opened DrawCases

  /** The characters `isspace` accepts in the C locale. */
  predicate IsSpace(c: char) {
    c == ' ' || c == '\t' || c == '\n' || c == '\r' || c as int == 0x0B || c as int == 0x0C
  }

  predicate IsDigit(c: char) {
    '0' <= c <= '9'
  }

  predicate AllDigits(s: string) {
    forall i :: 0 <= i < |s| ==> IsDigit(s[i])
  }

  function Pow10(n: nat): (p: nat)
    ensures p >= 1
  {
    if n == 0 then 1 else 10 * Pow10(n - 1)
  }

  lemma {:induction false} Pow10Monotone(m: nat, n: nat)
    requires m <= n
    ensures Pow10(m) <= Pow10(n)
    decreases n
  {
    if m < n {
      Pow10Monotone(m, n - 1);
    }
  }

  function Max(a: int, b: int): int {
    if a < b then b else a
  }

  /** The string without its leading white space. */
  function SkipSpace(s: string): (t: string)
    ensures |t| <= |s| && t == s[|s| - |t|..]
    ensures forall i :: 0 <= i < |s| - |t| ==> IsSpace(s[i])
    ensures t == [] || !IsSpace(t[0])
  {
    if s != [] && IsSpace(s[0]) then SkipSpace(s[1..]) else s
  }

  /** The longest prefix of `s` made of decimal digits. */
  function LeadingDigits(s: string): (d: string)
    ensures |d| <= |s| && d == s[..|d|]
    ensures AllDigits(d)
    ensures |d| == |s| || !IsDigit(s[|d|])
  {
    if s != [] && IsDigit(s[0]) then [s[0]] + LeadingDigits(s[1..]) else []
  }

  /** The value of a string of decimal digits, most significant first. */
  function DecimalValue(d: string): (v: nat)
    requires AllDigits(d)
    ensures v < Pow10(|d|)
  {
    if d == [] then 0
    else
      var init := DecimalValue(d[..|d| - 1]);
      assert init <= Pow10(|d| - 1) - 1;
      init * 10 + (d[|d| - 1] as int - '0' as int)
  }

  const LongMin: int := -0x8000_0000_0000_0000
  const LongMax: int := 0x7FFF_FFFF_FFFF_FFFF

  /** `strtol(s, &end, 10)` on a 64-bit `long`: white space, an optional
      sign, the longest run of digits (none gives 0), and a result that
      saturates at the bounds of `long`. */
  function Strtol(s: string): (r: int)
    ensures LongMin <= r <= LongMax
    ensures r < 0 ==> SkipSpace(s) != [] && SkipSpace(s)[0] == '-'
  {
    Saturate(SignedValue(SkipSpace(s)))
  }

  /** Text with no digit after the white space and the optional sign
      reads as 0. */
  lemma StrtolNoDigit(s: string)
    requires LeadingDigits(Unsigned(SkipSpace(s))) == []
    ensures Strtol(s) == 0
  {
    assert Magnitude(Unsigned(SkipSpace(s))) == 0;
  }

  /** The value of an optionally signed run of digits. */
  function SignedValue(t: string): int
  {
    var magnitude: int := Magnitude(Unsigned(t));
    if t != [] && t[0] == '-' then -magnitude else magnitude
  }

  /** The value of the leading digits. */
  function Magnitude(u: string): nat
  {
    DecimalValue(LeadingDigits(u))
  }

  /** `strtol`'s saturation at the bounds of `long`. */
  function Saturate(v: int): int
  {
    if v < LongMin then LongMin else if v > LongMax then LongMax else v
  }

  /** The text after an optional leading sign. */
  function Unsigned(t: string): (u: string)
    ensures |u| <= |t|
  {
    if t != [] && (t[0] == '-' || t[0] == '+') then t[1..] else t
  }

  lemma Pow10Nine()
    ensures Pow10(9) == 1_000_000_000
  {
    assert Pow10(1) == 10;
    assert Pow10(3) == 1000;
    assert Pow10(5) == 100_000;
    assert Pow10(7) == 10_000_000;
  }

  /** The `(int)` cast of a `long`: two's complement truncation to 32 bits. */
  function ToInt32(v: int): (r: int)
    ensures -0x8000_0000 <= r < 0x8000_0000
    ensures -0x8000_0000 <= v < 0x8000_0000 ==> r == v
  {
    var m := v % 0x1_0000_0000;
    if m >= 0x8000_0000 then m - 0x1_0000_0000 else m
  }

  /** `line.substr(0, maxDigits)`: a negative count converts to a huge
      `size_t`, so it keeps the whole line, like a count past the end. */
  function Prefix(line: string, maxDigits: int): (p: string)
    ensures |p| <= |line| && p == line[..|p|]
    ensures 0 <= maxDigits ==> |p| <= maxDigits
  {
    if maxDigits < 0 || maxDigits >= |line| then line else line[..maxDigits]
  }

  /** Powers of ten up to the ninth stay below 2^31. */
  lemma Pow10AtMostNine(n: nat)
    requires n <= 9
    ensures Pow10(n) <= 1_000_000_000
  {
    Pow10Monotone(n, 9);
    Pow10Nine();
  }

  /** What `strtol` reads from at most nine characters stays strictly
      between -10^n and 10^n, where n bounds the length. */
  lemma StrtolShortBound(s: string, n: nat)
    requires |s| <= n <= 9
    ensures -(Pow10(n) as int) < Strtol(s) < Pow10(n)
  {
    var t := SkipSpace(s);
    var d := LeadingDigits(Unsigned(t));
    Pow10Monotone(|d|, n);
    Pow10AtMostNine(n);
    assert Magnitude(Unsigned(t)) < Pow10(n) <= 1_000_000_000;
    assert -(Pow10(n) as int) < SignedValue(t) < Pow10(n);
  }

  /** Magnitude of what `strtol` reads from a prefix: fewer digits than
      characters, so below 10^maxDigits. */
  lemma StrtolPrefixBound(line: string, maxDigits: int)
    requires 0 <= maxDigits <= 9
    ensures -(Pow10(maxDigits) as int) < Strtol(Prefix(line, maxDigits)) < Pow10(maxDigits)
  {
    StrtolShortBound(Prefix(line, maxDigits), maxDigits);
  }

  /** `safeParse`: parse the first `maxDigits` characters of the line as a
      decimal integer, then raise a negative result to 0 and a result below
      `minValue` to `minValue`. */
  function SafeParse(line: string, maxDigits: int, minValue: int): (r: int)
    ensures r >= 0 && r >= minValue
    ensures 0 <= maxDigits <= 9 ==> r <= Max(Pow10(maxDigits) - 1, minValue)
  {
    var parsed := Strtol(Prefix(line, maxDigits));
    if 0 <= maxDigits <= 9 then
      ParsedPrefixFits(line, maxDigits);
      Raise(ToInt32(parsed), minValue)
    else
      Raise(ToInt32(parsed), minValue)
  }

  /** A prefix of at most nine characters reads as a value below
      10^maxDigits in magnitude, which the `(int)` cast keeps. */
  lemma ParsedPrefixFits(line: string, maxDigits: int)
    requires 0 <= maxDigits <= 9
    ensures ToInt32(Strtol(Prefix(line, maxDigits))) == Strtol(Prefix(line, maxDigits))
    ensures Strtol(Prefix(line, maxDigits)) < Pow10(maxDigits) <= 1_000_000_000
  {
    StrtolPrefixBound(line, maxDigits);
    Pow10AtMostNine(maxDigits);
  }

  /** The two clamps of `safeParse`: negative to 0, then up to `minValue`. */
  function Raise(value: int, minValue: int): (r: int)
    ensures r >= 0 && r >= minValue
    ensures value >= 0 && value >= minValue ==> r == value
    ensures r == value || r == 0 || r == minValue
    ensures r == Max(Max(value, 0), minValue)
  {
    var nonNegative := if value < 0 then 0 else value;
    if nonNegative < minValue then minValue else nonNegative
  }

  /** When `strtol` reads a value that fits in an `int` and is not
      negative, `safeParse` yields that value raised to `minValue`. */
  lemma SafeParseOfStrtol(line: string, maxDigits: int, minValue: int)
    requires 0 <= Strtol(Prefix(line, maxDigits)) < 0x8000_0000
    ensures SafeParse(line, maxDigits, minValue) == Max(Strtol(Prefix(line, maxDigits)), minValue)
  {
    var parsed := Strtol(Prefix(line, maxDigits));
    assert ToInt32(parsed) == parsed;
  }

  /** Only the first `maxDigits` characters of the line are looked at. */
  lemma SafeParseReadsOnlyPrefix(line: string, rest: string, maxDigits: int, minValue: int)
    requires 0 <= maxDigits <= |line|
    ensures SafeParse(line + rest, maxDigits, minValue) == SafeParse(line, maxDigits, minValue)
  {
    assert Prefix(line + rest, maxDigits) == Prefix(line, maxDigits);
  }

  /** The digit run of a string that starts with the digits `d` and then
      has no further digit is exactly `d`. */
  lemma {:induction false} LeadingDigitsStop(d: string, rest: string)
    requires AllDigits(d)
    requires rest == [] || !IsDigit(rest[0])
    ensures LeadingDigits(d + rest) == d
  {
    if d != [] {
      assert (d + rest)[1..] == d[1..] + rest;
      LeadingDigitsStop(d[1..], rest);
    }
  }

  /** A string that starts with the digits `d` has no sign and reads as
      the decimal value of `d`. */
  lemma SignedValueOfDigits(d: string, rest: string)
    requires AllDigits(d) && 1 <= |d|
    requires rest == [] || !IsDigit(rest[0])
    ensures SignedValue(d + rest) == DecimalValue(d)
  {
    var s := d + rest;
    assert s[0] == d[0];
    assert Unsigned(s) == s;
    LeadingDigitsStop(d, rest);
  }

  /** `strtol` reads such a string as the decimal value of `d`. */
  lemma StrtolOfDigits(d: string, rest: string)
    requires AllDigits(d) && 1 <= |d| <= 9
    requires rest == [] || !IsDigit(rest[0])
    ensures Strtol(d + rest) == DecimalValue(d)
  {
    var s := d + rest;
    assert s[0] == d[0];
    assert SkipSpace(s) == s by {
      assert !IsSpace(s[0]);
    }
    SignedValueOfDigits(d, rest);
    Pow10AtMostNine(|d|);
    assert Saturate(DecimalValue(d)) == DecimalValue(d);
  }

  /** A line that starts with a number of at most nine digits, all inside
      the parsed prefix, parses to that number, raised to `minValue`. */
  lemma SafeParseDecimal(d: string, rest: string, maxDigits: int, minValue: int)
    requires AllDigits(d) && 1 <= |d| <= 9
    requires rest == [] || !IsDigit(rest[0])
    requires maxDigits < 0 || |d| <= maxDigits
    ensures SafeParse(d + rest, maxDigits, minValue) == Max(DecimalValue(d), minValue)
  {
    var p := Prefix(d + rest, maxDigits);
    assert Strtol(p) == DecimalValue(d) by {
      assert p == d + p[|d|..];
      StrtolOfDigits(d, p[|d|..]);
    }
    assert DecimalValue(d) < 1_000_000_000 by {
      Pow10AtMostNine(|d|);
    }
    SafeParseOfStrtol(d + rest, maxDigits, minValue);
  }

  /** A minus sign ahead of the digits in the parsed prefix always yields 0,
      or `minValue` when that is larger. */
  lemma SafeParseNegative(line: string, maxDigits: int, minValue: int)
    requires 0 <= maxDigits <= 9
    requires SkipSpace(Prefix(line, maxDigits)) != []
    requires SkipSpace(Prefix(line, maxDigits))[0] == '-'
    ensures SafeParse(line, maxDigits, minValue) == Max(0, minValue)
  {
    var parsed := Strtol(Prefix(line, maxDigits));
    StrtolPrefixBound(line, maxDigits);
    Pow10AtMostNine(maxDigits);
    assert parsed <= 0 by {
      assert SignedValue(SkipSpace(Prefix(line, maxDigits))) <= 0;
    }
    assert ToInt32(parsed) == parsed;
  }

  // ---------------------------------------------------------------------
  // Reading lines with std::getline

  /** A text file as its lines, and whether its last line ends with a newline. */
  datatype TextFile = TextFile(lines: seq<string>, endsWithNewline: bool)

  /** The state flags of the input stream and how far it has read. */
  datatype Reader = Reader(next: nat, eof: bool, fail: bool)

  /** One `std::getline(infile, line)`. A stream whose eofbit or failbit is
      set only gains failbit and leaves `line` as it was; otherwise `line` is
      replaced by the next line, reaching the end of the text sets eofbit,
      and reading nothing at all sets failbit as well and leaves `line`
      empty. */
  function GetLine(f: TextFile, r: Reader, line: string): (result: (Reader, string))
    ensures !result.0.fail <==> !r.eof && !r.fail && r.next < |f.lines|
    ensures !result.0.fail ==> result.1 == f.lines[r.next] && result.0.next == r.next + 1
    ensures result.0.fail ==> result.0.next == r.next && (result.1 == line || result.1 == "")
    ensures r.eof ==> result.0.eof
  {
    if r.eof || r.fail then (r.(fail := true), line)
    else if r.next < |f.lines| then
      var atEnd := r.next + 1 == |f.lines| && !f.endsWithNewline;
      (Reader(r.next + 1, atEnd, false), f.lines[r.next])
    else (Reader(r.next, true, true), "")
  }

  /** The stream and the successive values of `line`. */
  datatype Progress = Progress(reader: Reader, values: seq<string>)

  /** The stream and the values of `line` after `n` calls of getline on a
      freshly opened file, starting from an empty `line`. */
  function ReadLines(f: TextFile, n: nat): (p: Progress)
    ensures |p.values| == n
    ensures p.reader.next <= n && p.reader.next <= |f.lines|
    ensures p.reader.fail ==> p.reader.eof
  {
    if n == 0 then Progress(Reader(0, false, false), [])
    else
      var prev := ReadLines(f, n - 1);
      var step := GetLine(f, prev.reader, if n == 1 then "" else prev.values[n - 2]);
      Progress(step.0, prev.values + [step.1])
  }

  /** What the k-th getline leaves in `line`, in closed form: the k-th line
      while there is one; past the end, the empty string when the file is
      empty or ends with a newline, and otherwise the last line again. */
  function LineRead(f: TextFile, k: nat): string
  {
    if k < |f.lines| then f.lines[k]
    else if |f.lines| == 0 || f.endsWithNewline then ""
    else f.lines[|f.lines| - 1]
  }

  /** After n getline calls: the values read are the closed-form lines, the
      position stops at the last line, eofbit is set once the text is
      exhausted, and failbit only after a call that read nothing. */
  predicate Consistent(f: TextFile, n: nat, p: Progress)
  {
    && |p.values| == n
    && (forall k :: 0 <= k < n ==> p.values[k] == LineRead(f, k))
    && p.reader.next == (if n < |f.lines| then n else |f.lines|)
    && (p.reader.eof <==> (n > |f.lines| || (n == |f.lines| && n > 0 && !f.endsWithNewline)))
    && (p.reader.fail ==> n > |f.lines|)
  }

  /** One more getline keeps the progress consistent. */
  lemma GetLineConsistent(f: TextFile, n: nat, p: Progress)
    requires Consistent(f, n, p)
    ensures var step := GetLine(f, p.reader, if n == 0 then "" else p.values[n - 1]);
      Consistent(f, n + 1, Progress(step.0, p.values + [step.1]))
  {
    var step := GetLine(f, p.reader, if n == 0 then "" else p.values[n - 1]);
    var values := p.values + [step.1];
    assert step.1 == LineRead(f, n);
    forall k | 0 <= k < n + 1
      ensures values[k] == LineRead(f, k)
    {
      if k < n {
        assert values[k] == p.values[k];
      }
    }
  }

  /** The getline sequence reads exactly the closed-form lines, and the
      stream's position and flags are as stated. */
  lemma {:induction false} ReadLinesMatchLineRead(f: TextFile, n: nat)
    ensures Consistent(f, n, ReadLines(f, n))
  {
    if n > 0 {
      ReadLinesMatchLineRead(f, n - 1);
      GetLineConsistent(f, n - 1, ReadLines(f, n - 1));
    }
  }

  // ---------------------------------------------------------------------
  // read_config_file

  /** The run parameters `read_config_file` sets, one per line of the file. */
  datatype Settings = Settings(
    width: int,               // window width
    height: int,              // window height
    fullscreen: int,
    recordMetrics: bool,      // g_recordMetrics
    offscreen: int,
    frameSync: int,           // vsync
    noSwapbufferCall: bool,
    drawCase: DrawCase,       // g_draw_case
    textureFlatNoRotate: bool,
    textureFetchRadius: int,  // a float holding a whole number
    xCount: int,
    yCount: int,
    zCount: int,
    batchSize: int,
    shortLoops: int,          // pyramid shader loop count (a float holding a whole number)
    dialsLoops: int,          // dials shader loop count
    longLoops: int,           // long shader loop count
    framesToRender: int)      // 0 renders forever

  /** The ranges the parsing leaves every parameter in: numbers have at
      most five digits, flags one, and the grid and batch sizes are at
      least 1. */
  predicate InRange(s: Settings)
  {
    && 0 <= s.width <= 99999 && 0 <= s.height <= 99999
    && 0 <= s.fullscreen <= 9 && 0 <= s.offscreen <= 9 && 0 <= s.frameSync <= 9
    && s.drawCase.Selectable()
    && 1 <= s.textureFetchRadius <= 99999
    && 1 <= s.xCount <= 99999 && 1 <= s.yCount <= 99999 && 1 <= s.zCount <= 99999
    && 1 <= s.batchSize <= 99999
    && 0 <= s.shortLoops <= 99999 && 0 <= s.dialsLoops <= 99999 && 0 <= s.longLoops <= 99999
    && 0 <= s.framesToRender <= 99999
  }

  /** The number of lines `read_config_file` reads. */
  const ConfigLines: nat := 18

  /** The parameters parsed from a file: each field from its own line,
      numbers from the first five characters and flags from the first one. */
  function ParseSettings(line: seq<string>): (s: Settings)
    requires |line| == ConfigLines
    ensures InRange(s)
  {
    var maxDigits := 5;
    assert Pow10(1) == 10 && Pow10(5) == 100_000;
    var radius := SafeParse(line[9], maxDigits, 0);
    Settings(
      width := SafeParse(line[0], maxDigits, 0),
      height := SafeParse(line[1], maxDigits, 0),
      fullscreen := SafeParse(line[2], 1, 0),
      recordMetrics := SafeParse(line[3], 1, 0) != 0,
      offscreen := SafeParse(line[4], 1, 0),
      frameSync := SafeParse(line[5], 1, 0),
      noSwapbufferCall := SafeParse(line[6], 1, 0) != 0,
      drawCase := SceneFromConfig(SafeParse(line[7], 1, 0)),
      textureFlatNoRotate := SafeParse(line[8], 1, 0) != 0,
      textureFetchRadius := if radius < 1 then 1 else radius,
      xCount := SafeParse(line[10], maxDigits, 1),
      yCount := SafeParse(line[11], maxDigits, 1),
      zCount := SafeParse(line[12], maxDigits, 1),
      batchSize := SafeParse(line[13], maxDigits, 1),
      shortLoops := SafeParse(line[14], maxDigits, 0),
      dialsLoops := SafeParse(line[15], maxDigits, 0),
      longLoops := SafeParse(line[16], maxDigits, 0),
      framesToRender := SafeParse(line[17], maxDigits, 0))
  }

  /** The parameters parsed from a file: the eighteen values getline
      leaves in `line`, one field each. */
  function ReadConfig(f: TextFile): (s: Settings)
    ensures InRange(s)
  {
    ParseSettings(ReadLines(f, ConfigLines).values)
  }

  /** An empty line parses to the clamp alone. */
  lemma SafeParseEmpty(maxDigits: int, minValue: int)
    ensures SafeParse("", maxDigits, minValue) == Max(0, minValue)
  {
    assert Prefix("", maxDigits) == "";
    assert SkipSpace("") == "";
    assert LeadingDigits(Unsigned("")) == "";
    assert SignedValue("") == 0;
    assert Strtol("") == 0;
  }

  /** An empty parameter file gives every field its clamp: a 0 x 0 window,
      every flag off, the dial scene, a fetch radius of 1, a 1 x 1 x 1
      pyramid grid in batches of 1, no shader loops, and endless rendering. */
  lemma EmptyConfig(endsWithNewline: bool)
    ensures ReadConfig(TextFile([], endsWithNewline))
      == Settings(0, 0, 0, false, 0, 0, false, SimpleDial, false, 1, 1, 1, 1, 1, 0, 0, 0, 0)
  {
    var f := TextFile([], endsWithNewline);
    ReadLinesMatchLineRead(f, ConfigLines);
    var line := ReadLines(f, ConfigLines).values;
    assert line == seq(ConfigLines, _ => "");
    SafeParseEmpty(5, 0);
    SafeParseEmpty(5, 1);
    SafeParseEmpty(1, 0);
  }

  /** A file whose last line has no newline and that stops before the
      eighteenth line fills every missing field from that last line. */
  lemma TruncatedConfigRepeatsLastLine(f: TextFile, k: nat)
    requires 0 < |f.lines| <= k < ConfigLines && !f.endsWithNewline
    ensures ReadLines(f, ConfigLines).values[k] == f.lines[|f.lines| - 1]
  {
    ReadLinesMatchLineRead(f, ConfigLines);
  }
}
