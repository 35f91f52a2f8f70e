/** Embedding a file as C++ text: the bytes are printed as adjacent string literals of sixteen hex
    escapes, followed by their number. The text is read back by the literal rules of sections 2.14.3
    and 2.14.5 and the concatenation phase of section 2.2 of ISO/IEC 14882:2011. */
module EmbeddedFile {
  import opened Optional
  import opened Decimals

  type Byte = b: nat | b < 256

  // ---------- the printer ----------

  function HexDigit(d: nat): (c: char)
    requires d < 16
  {
    if d < 10 then '0' + d as char else 'a' + (d - 10) as char
  }

  function Escape(b: Byte): string {
    "\\x" + [HexDigit(b / 16), HexDigit(b % 16)]
  }

  function DecimalText(n: nat): (s: string)
    ensures s != ""
  {
    if n < 10 then [Digit(n)] else DecimalText(n / 10) + [Digit(n % 10)]
  }

  /** What is printed before byte `j`: every sixteenth byte starts a literal on a line of its own. */
  function Separator(j: nat): string {
    if j % 16 != 0 then "" else if j > 0 then "\"\n  \"" else "\n  \""
  }

  /** The text from byte `j` on, up to and including the last closing quote. */
  function EmitFrom(bytes: seq<Byte>, j: nat): string
    requires j <= |bytes|
    decreases |bytes| - j
  {
    if j == |bytes| then "\"" else Separator(j) + Escape(bytes[j]) + EmitFrom(bytes, j + 1)
  }

  function EmitText(bytes: seq<Byte>): string {
    EmitFrom(bytes, 0) + ",\n  " + DecimalText(|bytes|) + ");\n\n"
  }

  lemma EmitStep(before: string, file: seq<Byte>, j: nat)
    requires j < |file|
    ensures before + Separator(j) + Escape(file[j]) + EmitFrom(file, j + 1) == before + EmitFrom(file, j)
  {
    var sep, esc, rest := Separator(j), Escape(file[j]), EmitFrom(file, j + 1);
    assert before + sep + esc + rest == before + (sep + esc + rest);
  }

  method StartLine(j: nat) returns (separator: string)
    ensures separator == Separator(j)
  {
    separator := "";
    if j % 16 == 0 {
      if j > 0 {
        separator := separator + "\"";
      }
      separator := separator + "\n  \"";
    }
  }

  /** The printing loop. */
  method Emit(file: seq<Byte>) returns (output: string)
    ensures output == EmitText(file)
  {
    output := "";
    var j := 0;
    while j < |file|
      invariant 0 <= j <= |file|
      invariant output + EmitFrom(file, j) == EmitFrom(file, 0)
    {
      EmitStep(output, file, j);
      var separator := StartLine(j);
      output := output + separator;
      output := output + Escape(file[j]);
      j := j + 1;
    }
    output := output + "\"";
    output := output + ",\n  " + DecimalText(j) + ");\n\n";
  }

  // ---------- what it looks like ----------

  lemma HexDigits(d: nat)
    requires d < 16
    ensures HexDigit(d) == "0123456789abcdef"[d]
  {
  }

  function EscapeAll(bytes: seq<Byte>): string {
    if bytes == [] then "" else Escape(bytes[0]) + EscapeAll(bytes[1..])
  }

  /** A literal on a line of its own. */
  function Line(bytes: seq<Byte>): string {
    "\n  \"" + EscapeAll(bytes) + "\""
  }

  /** Sixteen bytes to a line. */
  function Lines(bytes: seq<Byte>): string {
    if |bytes| <= 16 then Line(bytes) else Line(bytes[..16]) + Lines(bytes[16..])
  }

  lemma WithinLine(j: nat, k: nat)
    requires j % 16 == 0 && j < k < j + 16
    ensures k % 16 != 0
  {
  }

  lemma EscapeFirst(bytes: seq<Byte>, j: nat, end: nat)
    requires j < end <= |bytes|
    ensures EscapeAll(bytes[j..end]) == Escape(bytes[j]) + EscapeAll(bytes[j + 1..end])
  {
    assert bytes[j..end][1..] == bytes[j + 1..end];
  }

  lemma Regroup(a: string, b: string, c: string, d: string)
    ensures a + b + (c + d) == a + (b + c) + d
  {
  }

  lemma EmitEscape(bytes: seq<Byte>, j: nat)
    requires j < |bytes| && j % 16 != 0
    ensures EmitFrom(bytes, j) == Escape(bytes[j]) + EmitFrom(bytes, j + 1)
  {
    assert Separator(j) + Escape(bytes[j]) == Escape(bytes[j]);
  }

  lemma Prepend(first: string, more: string, rest: string, all: string, escapes: string)
    requires all == more + rest && escapes == first + more
    ensures first + all == escapes + rest
  {
  }

  lemma NoEscapes(bytes: seq<Byte>, j: nat, rest: string)
    requires j <= |bytes|
    ensures EscapeAll(bytes[j..j]) + rest == rest
  {
  }

  /** Up to the end of a line only escapes are printed. */
  lemma {:induction false} EmitWithinLine(bytes: seq<Byte>, j: nat, end: nat)
    requires j <= end <= |bytes| && forall k | j <= k < end :: k % 16 != 0
    ensures EmitFrom(bytes, j) == EscapeAll(bytes[j..end]) + EmitFrom(bytes, end)
    decreases end - j
  {
    var rest := EmitFrom(bytes, end);
    if j == end {
      NoEscapes(bytes, j, rest);
    } else {
      var next, more := EmitFrom(bytes, j + 1), EscapeAll(bytes[j + 1..end]);
      EmitWithinLine(bytes, j + 1, end);
      EmitEscape(bytes, j);
      EscapeFirst(bytes, j, end);
      Prepend(Escape(bytes[j]), more, rest, next, EscapeAll(bytes[j..end]));
    }
  }

  lemma LineEnd(bytes: seq<Byte>, j: nat, end: nat)
    requires j < |bytes| && j % 16 == 0 && end == if j + 16 < |bytes| then j + 16 else |bytes|
    ensures EmitFrom(bytes, j) == Separator(j) + EscapeAll(bytes[j..end]) + EmitFrom(bytes, end)
  {
    forall k | j + 1 <= k < end ensures k % 16 != 0 {
      WithinLine(j, k);
    }
    EmitWithinLine(bytes, j + 1, end);
    EscapeFirst(bytes, j, end);
    Regroup(Separator(j), Escape(bytes[j]), EscapeAll(bytes[j + 1..end]), EmitFrom(bytes, end));
  }

  lemma CloseLine(separator: string, quote: string, escapes: string, line: string, rest: string)
    requires separator == quote + "\n  \"" && line == "\n  \"" + escapes + "\""
    ensures separator + escapes + ("\"" + rest) == quote + (line + rest)
  {
  }

  lemma LinesStep(bytes: seq<Byte>)
    requires |bytes| > 16
    ensures Lines(bytes) == Line(bytes[..16]) + Lines(bytes[16..])
  {
  }

  lemma LastLine(bytes: seq<Byte>, j: nat, quote: string)
    requires j < |bytes| <= j + 16 && j % 16 == 0 && Separator(j) == quote + "\n  \""
    ensures EmitFrom(bytes, j) == quote + Lines(bytes[j..])
  {
    LineEnd(bytes, j, |bytes|);
    var line := Line(bytes[j..]);
    assert bytes[j..|bytes|] == bytes[j..] && Lines(bytes[j..]) == line;
    CloseLine(Separator(j), quote, EscapeAll(bytes[j..]), line, "");
    assert "\"" + "" == "\"" && line + "" == line;
  }

  lemma FullLine(bytes: seq<Byte>, j: nat, quote: string)
    requires j + 16 < |bytes| && j % 16 == 0 && Separator(j) == quote + "\n  \""
    requires EmitFrom(bytes, j + 16) == "\"" + Lines(bytes[j + 16..])
    ensures EmitFrom(bytes, j) == quote + Lines(bytes[j..])
  {
    LineEnd(bytes, j, j + 16);
    var chunk, rest := bytes[j..j + 16], Lines(bytes[j + 16..]);
    CloseLine(Separator(j), quote, EscapeAll(chunk), Line(chunk), rest);
    assert bytes[j..][..16] == chunk && bytes[j..][16..] == bytes[j + 16..];
    LinesStep(bytes[j..]);
  }

  lemma {:induction false} EmitLines(bytes: seq<Byte>, j: nat)
    requires j < |bytes| && j % 16 == 0
    ensures EmitFrom(bytes, j) == (if j == 0 then "" else "\"") + Lines(bytes[j..])
    decreases |bytes| - j
  {
    var quote := if j == 0 then "" else "\"";
    assert Separator(j) == quote + "\n  \"";
    if |bytes| <= j + 16 {
      LastLine(bytes, j, quote);
    } else {
      EmitLines(bytes, j + 16);
      FullLine(bytes, j, quote);
    }
  }

  /** The bytes of a file that is not empty stand sixteen to a line, each line a literal. */
  lemma PrintedInLines(bytes: seq<Byte>)
    requires bytes != []
    ensures EmitText(bytes) == Lines(bytes) + ",\n  " + DecimalText(|bytes|) + ");\n\n"
  {
    EmitLines(bytes, 0);
    assert bytes[0..] == bytes && "" + Lines(bytes) == Lines(bytes);
  }

  // ---------- the reader ----------

  function HexValue(c: char): Option<nat> {
    if '0' <= c <= '9' then Some((c - '0') as nat)
    else if 'a' <= c <= 'f' then Some((c - 'a') as nat + 10)
    else if 'A' <= c <= 'F' then Some((c - 'A') as nat + 10)
    else None
  }

  predicate IsOctal(c: char) {
    '0' <= c <= '7'
  }

  function SimpleEscape(c: char): Option<nat> {
    match c
    case '\'' => Some(39)
    case '"' => Some(34)
    case '?' => Some(63)
    case '\\' => Some(92)
    case 'a' => Some(7)
    case 'b' => Some(8)
    case 'f' => Some(12)
    case 'n' => Some(10)
    case 'r' => Some(13)
    case 't' => Some(9)
    case 'v' => Some(11)
    case _ => None
  }

  /** The longest run of hex digits at the start of `s`: all of them belong to one escape. */
  function HexRun(s: string): (n: nat)
    ensures n <= |s|
  {
    if s == "" || HexValue(s[0]).None? then 0 else 1 + HexRun(s[1..])
  }

  function HexNumber(s: string): nat {
    if s == "" then 0
    else HexNumber(s[..|s| - 1]) * 16 + (match HexValue(s[|s| - 1]) case None => 0 case Some(v) => v)
  }

  function OctalRun(s: string): (n: nat)
    ensures n <= |s| && n <= 3
  {
    if s == "" || !IsOctal(s[0]) then 0
    else if |s| == 1 || !IsOctal(s[1]) then 1
    else if |s| == 2 || !IsOctal(s[2]) then 2
    else 3
  }

  function OctalNumber(s: string): nat {
    if s == "" then 0
    else OctalNumber(s[..|s| - 1]) * 8 + (if IsOctal(s[|s| - 1]) then (s[|s| - 1] - '0') as nat else 0)
  }

  /** One escape sequence after its backslash: its value and how many characters it takes. */
  function ReadEscape(s: string): (r: Option<(nat, nat)>)
    ensures r.Some? ==> 0 < r.value.1 <= |s|
  {
    if s == "" then None
    else if s[0] == 'x' then
      var n := HexRun(s[1..]);
      if n == 0 || HexNumber(s[1..][..n]) > 255 then None else Some((HexNumber(s[1..][..n]), n + 1))
    else if IsOctal(s[0]) then
      if OctalNumber(s[..OctalRun(s)]) > 255 then None else Some((OctalNumber(s[..OctalRun(s)]), OctalRun(s)))
    else match SimpleEscape(s[0])
      case None => None
      case Some(v) => Some((v, 1))
  }

  predicate IsSpace(c: char) {
    c == ' ' || c == '\n' || c == '\t'
  }

  datatype Place = Before | Inside | After

  /** Reads adjacent string literals and joins them; stops at the first other character. */
  function ReadLiterals(place: Place, bytes: seq<nat>, s: string): Option<(seq<nat>, string)>
    decreases |s|
  {
    if s == "" then None
    else match place
      case Inside =>
        if s[0] == '"' then ReadLiterals(After, bytes, s[1..])
        else if s[0] == '\n' then None
        else if s[0] == '\\' then
          (match ReadEscape(s[1..])
           case None => None
           case Some(e) => ReadLiterals(Inside, bytes + [e.0], s[1 + e.1..]))
        else ReadLiterals(Inside, bytes + [s[0] as nat], s[1..])
      case _ =>
        if IsSpace(s[0]) then ReadLiterals(place, bytes, s[1..])
        else if s[0] == '"' then ReadLiterals(Inside, bytes, s[1..])
        else if place == After then Some((bytes, s))
        else None
  }

  function DigitRun(s: string): (n: nat)
    ensures n <= |s|
    ensures forall i | 0 <= i < n :: '0' <= s[i] <= '9'
  {
    if s == "" || !('0' <= s[0] <= '9') then 0 else 1 + DigitRun(s[1..])
  }

  function SkipSpace(s: string): string {
    if s != "" && IsSpace(s[0]) then SkipSpace(s[1..]) else s
  }

  /** The two arguments of `std::string(literals, count);`. A literal with a leading zero would be
      octal, so only zero itself may start with one. */
  function ReadArguments(s: string): Option<(seq<nat>, nat)> {
    match ReadLiterals(Before, [], s)
    case None => None
    case Some(r) =>
      if r.1 == "" || r.1[0] != ',' then None
      else
        var t := SkipSpace(r.1[1..]);
        var n := DigitRun(t);
        if n == 0 || (n > 1 && t[0] == '0') || !(");" <= t[n..]) then None
        else Some((r.0, DecimalValue(t[..n])))
  }

  // ---------- reading back what was printed ----------

  lemma HexDigitRead(d: nat)
    requires d < 16
    ensures HexValue(HexDigit(d)) == Some(d)
  {
  }

  lemma HexRunTwo(h: char, l: char, rest: string)
    requires HexValue(h).Some? && HexValue(l).Some?
    requires rest != "" && (rest[0] == '\\' || rest[0] == '"')
    ensures HexRun([h, l] + rest) == 2
  {
    assert ([h, l] + rest)[1..] == [l] + rest;
    assert ([l] + rest)[1..] == rest;
    assert HexRun(rest) == 0;
  }

  /** After a hex escape comes a backslash or a quote, so the escape takes exactly its two digits. */
  lemma EscapeRead(b: Byte, rest: string)
    requires rest != "" && (rest[0] == '\\' || rest[0] == '"')
    ensures ReadEscape((Escape(b) + rest)[1..]) == Some((b, 3))
  {
    var h, l := HexDigit(b / 16), HexDigit(b % 16);
    var s := (Escape(b) + rest)[1..];
    HexDigitRead(b / 16);
    HexDigitRead(b % 16);
    assert s[0] == 'x' && s[1..] == [h, l] + rest;
    HexRunTwo(h, l, rest);
    assert s[1..][..2] == [h, l];
    assert [h, l][..1] == [h] && [h][..0] == "";
    assert HexNumber([h]) == b / 16;
    assert HexNumber([h, l]) == b / 16 * 16 + b % 16 == b;
  }

  /** One escape inside a literal contributes its byte. */
  lemma ReadOneByte(bytes: seq<nat>, b: Byte, rest: string)
    requires rest != "" && (rest[0] == '\\' || rest[0] == '"')
    ensures ReadLiterals(Inside, bytes, Escape(b) + rest) == ReadLiterals(Inside, bytes + [b], rest)
  {
    var s := Escape(b) + rest;
    EscapeRead(b, rest);
    assert s[0] == '\\' && s[4..] == rest;
  }

  lemma ReadSpace(place: Place, bytes: seq<nat>, c: char, rest: string)
    requires place != Inside && IsSpace(c)
    ensures ReadLiterals(place, bytes, [c] + rest) == ReadLiterals(place, bytes, rest)
  {
    assert ([c] + rest)[1..] == rest;
  }

  lemma ReadQuote(place: Place, bytes: seq<nat>, rest: string)
    ensures ReadLiterals(place, bytes, ['"'] + rest) ==
            ReadLiterals(if place == Inside then After else Inside, bytes, rest)
  {
    assert (['"'] + rest)[1..] == rest;
  }

  lemma ReadOpening(place: Place, bytes: seq<nat>, rest: string)
    requires place != Inside
    ensures ReadLiterals(place, bytes, "\n  \"" + rest) == ReadLiterals(Inside, bytes, rest)
  {
    var quoted := ['"'] + rest;
    assert "\n  \"" + rest == ['\n'] + ([' '] + ([' '] + quoted));
    ReadSpace(place, bytes, '\n', [' '] + ([' '] + quoted));
    ReadSpace(place, bytes, ' ', [' '] + quoted);
    ReadSpace(place, bytes, ' ', quoted);
    ReadQuote(place, bytes, rest);
  }

  /** Between two bytes the reader ends up inside a literal again, with nothing added. */
  lemma ReadSeparator(bytes: seq<nat>, j: nat, rest: string)
    requires j > 0
    ensures ReadLiterals(Inside, bytes, Separator(j) + rest) == ReadLiterals(Inside, bytes, rest)
  {
    if j % 16 == 0 {
      assert Separator(j) + rest == ['"'] + ("\n  \"" + rest);
      ReadQuote(Inside, bytes, "\n  \"" + rest);
      ReadOpening(After, bytes, rest);
    } else {
      assert Separator(j) + rest == rest;
    }
  }

  lemma EmitStarts(bytes: seq<Byte>, j: nat, tail: string)
    requires 0 < j <= |bytes|
    ensures var s := EmitFrom(bytes, j) + tail; s != "" && (s[0] == '\\' || s[0] == '"')
  {
  }

  lemma EmitParts(bytes: seq<Byte>, j: nat, tail: string)
    requires j < |bytes|
    ensures EmitFrom(bytes, j) + tail == Separator(j) + (Escape(bytes[j]) + (EmitFrom(bytes, j + 1) + tail))
  {
    var sep, esc, rest := Separator(j), Escape(bytes[j]), EmitFrom(bytes, j + 1);
    assert sep + esc + rest + tail == sep + (esc + (rest + tail));
  }

  lemma BytesFrom(read: seq<nat>, bytes: seq<Byte>, j: nat)
    requires j < |bytes|
    ensures read + [bytes[j]] + bytes[j + 1..] == read + bytes[j..]
  {
  }

  lemma {:induction false} ReadEmitted(bytes: seq<Byte>, j: nat, read: seq<nat>, tail: string)
    requires 0 < j <= |bytes| && tail != "" && tail[0] == ','
    ensures ReadLiterals(Inside, read, EmitFrom(bytes, j) + tail) == Some((read + bytes[j..], tail))
    decreases |bytes| - j
  {
    if j == |bytes| {
      assert EmitFrom(bytes, j) + tail == ['"'] + tail;
      ReadQuote(Inside, read, tail);
      assert read + bytes[j..] == read;
    } else {
      var rest := EmitFrom(bytes, j + 1) + tail;
      EmitParts(bytes, j, tail);
      ReadSeparator(read, j, Escape(bytes[j]) + rest);
      EmitStarts(bytes, j + 1, tail);
      ReadOneByte(read, bytes[j], rest);
      ReadEmitted(bytes, j + 1, read + [bytes[j]], tail);
      BytesFrom(read, bytes, j);
    }
  }

  lemma ReadAll(bytes: seq<Byte>, tail: string)
    requires bytes != [] && tail != "" && tail[0] == ','
    ensures ReadLiterals(Before, [], EmitFrom(bytes, 0) + tail) == Some((bytes, tail))
  {
    var rest := EmitFrom(bytes, 1) + tail;
    EmitParts(bytes, 0, tail);
    ReadOpening(Before, [], Escape(bytes[0]) + rest);
    EmitStarts(bytes, 1, tail);
    ReadOneByte([], bytes[0], rest);
    ReadEmitted(bytes, 1, [bytes[0]], tail);
    assert [] + [bytes[0]] == [bytes[0]] && [bytes[0]] + bytes[1..] == bytes;
  }

  lemma {:induction false} DecimalDigits(n: nat)
    ensures AllDigits(DecimalText(n))
    ensures DecimalValue(DecimalText(n)) == n
    ensures n > 0 ==> DecimalText(n)[0] != '0'
    ensures n == 0 ==> DecimalText(n) == "0"
  {
    if n < 10 {
      assert DecimalText(n)[..0] == "";
    } else {
      DecimalDigits(n / 10);
      assert DecimalText(n)[..|DecimalText(n)| - 1] == DecimalText(n / 10);
    }
  }

  lemma {:induction false} DigitRunOf(digits: string, rest: string)
    requires AllDigits(digits)
    requires rest != "" && rest[0] == ')'
    ensures DigitRun(digits + rest) == |digits|
  {
    if digits == "" {
      assert digits + rest == rest;
    } else {
      assert (digits + rest)[1..] == digits[1..] + rest;
      DigitRunOf(digits[1..], rest);
    }
  }

  lemma DecimalRead(n: nat, rest: string)
    requires rest != "" && rest[0] == ')'
    ensures DigitRun(DecimalText(n) + rest) == |DecimalText(n)|
    ensures AllDigits(DecimalText(n))
    ensures DecimalValue(DecimalText(n)) == n
    ensures |DecimalText(n)| > 1 ==> DecimalText(n)[0] != '0'
  {
    DecimalDigits(n);
    DigitRunOf(DecimalText(n), rest);
  }

  lemma SkipOne(c: char, rest: string)
    requires IsSpace(c)
    ensures SkipSpace([c] + rest) == SkipSpace(rest)
  {
    assert ([c] + rest)[1..] == rest;
  }

  lemma SkipToCount(count: string, closing: string)
    requires count != "" && '0' <= count[0] <= '9'
    ensures SkipSpace("\n  " + (count + closing)) == count + closing
  {
    var rest := count + closing;
    assert "\n  " + rest == ['\n'] + ([' '] + ([' '] + rest));
    SkipOne('\n', [' '] + ([' '] + rest));
    SkipOne(' ', [' '] + rest);
    SkipOne(' ', rest);
  }

  lemma ReadCount(n: nat, tail: string)
    requires tail == ",\n  " + DecimalText(n) + ");\n\n"
    ensures var t := SkipSpace(tail[1..]);
            var k := DigitRun(t);
            && k > 0 && (k > 1 ==> t[0] != '0') && ");" <= t[k..]
            && DecimalValue(t[..k]) == n
  {
    var count, closing := DecimalText(n), ");\n\n";
    DecimalRead(n, closing);
    assert tail[1..] == "\n  " + (count + closing);
    SkipToCount(count, closing);
    assert (count + closing)[..|count|] == count && (count + closing)[|count|..] == closing;
  }

  lemma ReadNothing(tail: string)
    requires |tail| > 1 && tail[0] == ',' && tail[1] == '\n'
    ensures ReadLiterals(Before, [], EmitFrom([], 0) + tail) == None
  {
    assert EmitFrom([], 0) + tail == ['"'] + tail;
    ReadQuote(Before, [], tail);
    assert tail[1..][0] == '\n';
  }

  /** Reading the printed text gives back the bytes and their number, except that an empty file is
      printed as text that does not read as a literal at all. */
  lemma RoundTrip(bytes: seq<Byte>)
    ensures ReadArguments(EmitText(bytes)) == if bytes == [] then None else Some((bytes, |bytes|))
  {
    var count := DecimalText(|bytes|);
    var tail := ",\n  " + count + ");\n\n";
    assert EmitText(bytes) == EmitFrom(bytes, 0) + tail;
    if bytes == [] {
      ReadNothing(tail);
    } else {
      ReadAll(bytes, tail);
      ReadCount(|bytes|, tail);
    }
  }
}
