/** The text form of the log filter's rules: a hand-written scanner for `pattern:LEVEL,...`. */
module CategoryRules {

  datatype Level = Global | Debug | Info | Warning | Error | Fatal | Verbose | Trace | Unknown

  datatype Rule = Rule(pattern: string, level: Level)

  function LevelName(level: Level): string {
    match level
    case Global => "GLOBAL"
    case Debug => "DEBUG"
    case Info => "INFO"
    case Warning => "WARNING"
    case Error => "ERROR"
    case Fatal => "FATAL"
    case Verbose => "VERBOSE"
    case Trace => "TRACE"
    case Unknown => "UNKNOWN"
  }

  function LowerName(level: Level): string {
    match level
    case Global => "global"
    case Debug => "debug"
    case Info => "info"
    case Warning => "warning"
    case Error => "error"
    case Fatal => "fatal"
    case Verbose => "verbose"
    case Trace => "trace"
    case Unknown => "unknown"
  }

  predicate StartsWith(s: string, level: Level) {
    LevelName(level) <= s || LowerName(level) <= s
  }

  /** The first of `levels` whose name, all in upper or all in lower case, `s` starts with. */
  function FirstLevel(s: string, levels: seq<Level>): (level: Level)
    ensures level != Unknown ==> |LevelName(level)| <= |s|
  {
    if levels == [] then Unknown
    else if StartsWith(s, levels[0]) then levels[0]
    else FirstLevel(s, levels[1..])
  }

  const LEVELS := [Global, Debug, Info, Warning, Error, Fatal, Verbose, Trace]

  function LevelPrefix(s: string): (level: Level)
    ensures level != Unknown ==> |LevelName(level)| <= |s|
  {
    FirstLevel(s, LEVELS)
  }

  /** The scanner between two characters: the rules found, whether it reads a pattern or a level, and
      what it has of the rule in progress. */
  datatype Scanner = Scanner(rules: seq<Rule>, inPattern: bool, pattern: string, level: Level)

  const START := Scanner([], true, "", Unknown)

  /** Emits the rule in progress if it has both parts; otherwise keeps what there is. */
  function Flush(sc: Scanner): Scanner {
    if sc.pattern == "" || sc.level == Unknown then sc
    else Scanner(sc.rules + [Rule(sc.pattern, sc.level)], sc.inPattern, "", Unknown)
  }

  /** How far a level attempt moves on: past the name, or past one character. */
  function LevelWidth(level: Level): (n: nat)
    ensures n >= 1
  {
    if level == Unknown then 1 else |LevelName(level)|
  }

  function Scan(sc: Scanner, s: string): Scanner
    decreases |s|
  {
    if s == "" then sc
    else if s[0] == ':' then Scan(sc.(inPattern := false), s[1..])
    else if s[0] == ',' then Scan(Flush(sc).(inPattern := true), s[1..])
    else if sc.inPattern then Scan(sc.(pattern := sc.pattern + [s[0]]), s[1..])
    else
      var level := LevelPrefix(s);
      Scan(sc.(level := level), s[LevelWidth(level)..])
  }

  function Parse(s: string): seq<Rule> {
    Flush(Scan(START, s)).rules
  }

  /** Scanning `s` leaves no half a rule behind: a pattern waits for its level, or neither is there. */
  predicate Complete(s: string) {
    var sc := Scan(START, s);
    sc.pattern == "" <==> sc.level == Unknown
  }

  // ---------- scanning in two parts ----------

  lemma PrefixBeforeComma(name: string, x: string, b: string)
    requires ',' !in name
    ensures name <= x + "," + b <==> name <= x
  {
    assert (x + "," + b)[|x|] == ',';
    if name <= x + "," + b && |name| <= |x| {
      assert forall i | 0 <= i < |name| :: name[i] == (x + "," + b)[i] == x[i];
    }
  }

  /** Level names hold no comma, so the look-ahead never crosses one. */
  lemma {:induction false} FirstBeforeComma(x: string, b: string, levels: seq<Level>)
    ensures FirstLevel(x + "," + b, levels) == FirstLevel(x, levels)
  {
    if levels != [] {
      PrefixBeforeComma(LevelName(levels[0]), x, b);
      PrefixBeforeComma(LowerName(levels[0]), x, b);
      FirstBeforeComma(x, b, levels[1..]);
    }
  }

  function AfterComma(sc: Scanner): Scanner {
    Flush(sc).(inPattern := true)
  }

  lemma SuffixBeforeComma(a: string, b: string, n: nat)
    requires n <= |a|
    ensures (a + "," + b)[n..] == a[n..] + "," + b
  {
  }

  lemma {:induction false} ScanComma(sc: Scanner, a: string, b: string)
    ensures Scan(sc, a + "," + b) == Scan(AfterComma(Scan(sc, a)), b)
    decreases |a|
  {
    var s := a + "," + b;
    if a == "" {
      assert s[0] == ',' && s[1..] == b;
    } else {
      assert s[0] == a[0];
      SuffixBeforeComma(a, b, 1);
      if a[0] == ':' {
        ScanComma(sc.(inPattern := false), a[1..], b);
      } else if a[0] == ',' {
        ScanComma(AfterComma(sc), a[1..], b);
      } else if sc.inPattern {
        ScanComma(sc.(pattern := sc.pattern + [a[0]]), a[1..], b);
      } else {
        FirstBeforeComma(a, b, LEVELS);
        var level := LevelPrefix(a);
        SuffixBeforeComma(a, b, LevelWidth(level));
        ScanComma(sc.(level := level), a[LevelWidth(level)..], b);
      }
    }
  }

  lemma FlushRules(rules: seq<Rule>, sc: Scanner)
    ensures Flush(sc.(rules := rules + sc.rules)) == Flush(sc).(rules := rules + Flush(sc).rules)
  {
    assert rules + (sc.rules + [Rule(sc.pattern, sc.level)]) == rules + sc.rules + [Rule(sc.pattern, sc.level)];
  }

  /** Rules found earlier ride along unchanged. */
  lemma {:induction false} ScanRules(rules: seq<Rule>, sc: Scanner, s: string)
    ensures Scan(sc.(rules := rules + sc.rules), s) == Scan(sc, s).(rules := rules + Scan(sc, s).rules)
    decreases |s|
  {
    var sc' := sc.(rules := rules + sc.rules);
    if s != "" {
      if s[0] == ':' {
        ScanRules(rules, sc.(inPattern := false), s[1..]);
      } else if s[0] == ',' {
        FlushRules(rules, sc);
        ScanRules(rules, AfterComma(sc), s[1..]);
      } else if sc.inPattern {
        ScanRules(rules, sc.(pattern := sc.pattern + [s[0]]), s[1..]);
      } else {
        var level := LevelPrefix(s);
        ScanRules(rules, sc.(level := level), s[LevelWidth(level)..]);
      }
    }
  }

  /** Joining two texts with a comma joins their rules, if the first leaves nothing half done. */
  lemma ParseJoined(a: string, b: string)
    requires Complete(a)
    ensures Parse(a + "," + b) == Parse(a) + Parse(b)
    ensures Complete(b) ==> Complete(a + "," + b)
  {
    var rules := Parse(a);
    ScanComma(START, a, b);
    assert AfterComma(Scan(START, a)) == START.(rules := rules + START.rules);
    ScanRules(rules, START, b);
    FlushRules(rules, Scan(START, b));
  }

  lemma ScanX(sc: Scanner)
    requires sc.inPattern
    ensures Scan(sc, "x") == sc.(pattern := sc.pattern + "x")
  {
    assert "x"[1..] == "";
  }

  // ---------- which texts are levels ----------

  /** Every spelling of every level. */
  const SPELLINGS: seq<(string, Level)> :=
    [("GLOBAL", Global), ("global", Global), ("DEBUG", Debug), ("debug", Debug),
     ("INFO", Info), ("info", Info), ("WARNING", Warning), ("warning", Warning),
     ("ERROR", Error), ("error", Error), ("FATAL", Fatal), ("fatal", Fatal),
     ("VERBOSE", Verbose), ("verbose", Verbose), ("TRACE", Trace), ("trace", Trace)]

  /** `s` starts with a spelling of `level`. */
  predicate Spelled(s: string, level: Level) {
    exists i :: 0 <= i < |SPELLINGS| && SPELLINGS[i].0 <= s && SPELLINGS[i].1 == level
  }

  lemma SpellingOf(i: nat)
    requires i < |SPELLINGS|
    ensures var (name, level) := SPELLINGS[i];
            level != Unknown && name in {LevelName(level), LowerName(level)} && |name| == |LevelName(level)| >= 1
  {
  }

  lemma SpellingPlace(level: Level) returns (upper: nat, lower: nat)
    requires level != Unknown
    ensures upper < |SPELLINGS| && SPELLINGS[upper] == (LevelName(level), level)
    ensures lower < |SPELLINGS| && SPELLINGS[lower] == (LowerName(level), level)
  {
    match level
    case Global => upper, lower := 0, 1;
    case Debug => upper, lower := 2, 3;
    case Info => upper, lower := 4, 5;
    case Warning => upper, lower := 6, 7;
    case Error => upper, lower := 8, 9;
    case Fatal => upper, lower := 10, 11;
    case Verbose => upper, lower := 12, 13;
    case Trace => upper, lower := 14, 15;
  }

  lemma SpelledNames(s: string, level: Level)
    requires level != Unknown
    ensures StartsWith(s, level) <==> Spelled(s, level)
  {
    if Spelled(s, level) {
      var i :| 0 <= i < |SPELLINGS| && SPELLINGS[i].0 <= s && SPELLINGS[i].1 == level;
      SpellingOf(i);
    }
    if StartsWith(s, level) {
      var upper, lower := SpellingPlace(level);
      assert SPELLINGS[upper].0 <= s || SPELLINGS[lower].0 <= s;
    }
  }

  /** Names differ in their first letters, so a text starts with at most one of them. */
  lemma OneName(s: string, level: Level, other: Level)
    requires level != Unknown && other != Unknown && StartsWith(s, level) && StartsWith(s, other)
    ensures level == other
  {
    assert s[0] in {LevelName(level)[0], LowerName(level)[0]} && s[0] in {LevelName(other)[0], LowerName(other)[0]};
  }

  lemma {:induction false} FirstLevelStarts(s: string, levels: seq<Level>)
    requires Unknown !in levels
    ensures FirstLevel(s, levels) != Unknown ==> StartsWith(s, FirstLevel(s, levels))
    ensures FirstLevel(s, levels) == Unknown <==> forall i | 0 <= i < |levels| :: !StartsWith(s, levels[i])
  {
    if levels != [] && !StartsWith(s, levels[0]) {
      FirstLevelStarts(s, levels[1..]);
      assert forall i | 0 < i < |levels| :: levels[i] == levels[1..][i - 1];
    }
  }

  lemma AllLevels(level: Level)
    ensures level in LEVELS <==> level != Unknown
  {
    assert LEVELS[0] == Global && LEVELS[1] == Debug && LEVELS[2] == Info && LEVELS[3] == Warning
        && LEVELS[4] == Error && LEVELS[5] == Fatal && LEVELS[6] == Verbose && LEVELS[7] == Trace;
  }

  /** A level is read exactly if the text starts with one of the sixteen spellings, and then it is the
      level spelled, in upper or in lower case. */
  lemma LevelNamesRead(s: string, level: Level)
    requires level != Unknown
    ensures LevelPrefix(s) == level <==> Spelled(s, level)
  {
    AllLevels(Unknown);
    FirstLevelStarts(s, LEVELS);
    SpelledNames(s, level);
    var read := LevelPrefix(s);
    if StartsWith(s, level) {
      AllLevels(level);
      assert read != Unknown;
      OneName(s, level, read);
    }
  }

  lemma ScanSpelled(sc: Scanner, i: nat)
    requires i < |SPELLINGS| && !sc.inPattern
    ensures Scan(sc, SPELLINGS[i].0) == sc.(level := SPELLINGS[i].1)
  {
    var (s, level) := SPELLINGS[i];
    SpellingOf(i);
    assert Spelled(s, level);
    LevelNamesRead(s, level);
    assert s[0] != ':' && s[0] != ',' && s[|s|..] == "";
  }

  lemma ScanLevel(sc: Scanner, level: Level)
    requires level != Unknown && !sc.inPattern
    ensures Scan(sc, LevelName(level)) == sc.(level := level)
  {
    var upper, _ := SpellingPlace(level);
    ScanSpelled(sc, upper);
  }

  lemma ScanInfo(sc: Scanner)
    ensures Scan(sc, ":INFO") == sc.(inPattern := false, level := Info)
  {
    ScanLevel(sc.(inPattern := false), Info);
    assert ":INFO"[1..] == "INFO";
  }

  /** ...and only then: a half rule is taken up by whatever comes after the comma. */
  lemma JoinNeedsComplete(a: string)
    requires forall b :: Parse(a + "," + b) == Parse(a) + Parse(b)
    ensures Complete(a)
  {
    var sc := Scan(START, a);
    if !Complete(a) {
      var b := if sc.pattern == "" then "x" else ":INFO";
      assert Parse(a + "," + b) == Parse(a) + Parse(b);
      ScanComma(START, a, b);
      assert AfterComma(sc) == sc.(inPattern := true);
      if sc.pattern == "" {
        ScanX(AfterComma(sc));
        ScanX(START);
      } else {
        ScanInfo(AfterComma(sc));
        ScanInfo(START);
      }
      assert false;
    }
  }

  datatype Turn = Turn(sc: Scanner, next: nat)

  /** One step of the scanner at position `i` of the text, and the position it moves on to. */
  function StepAt(sc: Scanner, s: string, i: nat): (turn: Turn)
    requires i < |s|
    ensures i < turn.next <= |s|
  {
    if s[i] == ':' then Turn(sc.(inPattern := false), i + 1)
    else if s[i] == ',' then Turn(AfterComma(sc), i + 1)
    else if sc.inPattern then Turn(sc.(pattern := sc.pattern + [s[i]]), i + 1)
    else
      var level := LevelPrefix(s[i..]);
      Turn(sc.(level := level), i + LevelWidth(level))
  }

  /** Taking steps by position is scanning. */
  lemma ScanAt(sc: Scanner, s: string, i: nat)
    requires i < |s|
    ensures var turn := StepAt(sc, s, i); Scan(sc, s[i..]) == Scan(turn.sc, s[turn.next..])
  {
    var turn := StepAt(sc, s, i);
    assert s[i..][turn.next - i..] == s[turn.next..];
  }

  // ---------- printing rules ----------

  /** A rule that can be written down. */
  predicate Writable(r: Rule) {
    r.pattern != "" && ':' !in r.pattern && ',' !in r.pattern && r.level != Unknown
  }

  function PrintRule(r: Rule): string {
    r.pattern + ":" + LevelName(r.level)
  }

  function Print(rules: seq<Rule>): string {
    if rules == [] then ""
    else if |rules| == 1 then PrintRule(rules[0])
    else Print(rules[..|rules| - 1]) + "," + PrintRule(rules[|rules| - 1])
  }

  lemma {:induction false} ScanPattern(sc: Scanner, pattern: string, rest: string)
    requires sc.inPattern && ':' !in pattern && ',' !in pattern
    ensures Scan(sc, pattern + rest) == Scan(sc.(pattern := sc.pattern + pattern), rest)
    decreases |pattern|
  {
    if pattern == "" {
      assert pattern + rest == rest && sc.pattern + pattern == sc.pattern;
    } else {
      assert (pattern + rest)[1..] == pattern[1..] + rest;
      assert sc.pattern + [pattern[0]] + pattern[1..] == sc.pattern + pattern;
      ScanPattern(sc.(pattern := sc.pattern + [pattern[0]]), pattern[1..], rest);
    }
  }

  lemma ParsePrintedRule(r: Rule)
    requires Writable(r)
    ensures Parse(PrintRule(r)) == [r] && Complete(PrintRule(r))
  {
    var name := LevelName(r.level);
    var read := START.(pattern := r.pattern);
    assert "" + r.pattern == r.pattern;
    assert PrintRule(r) == r.pattern + (":" + name);
    ScanPattern(START, r.pattern, ":" + name);
    assert (":" + name)[1..] == name;
    ScanLevel(read.(inPattern := false), r.level);
  }

  lemma ScanAfterPattern(pattern: string, text: string)
    requires ':' !in pattern && ',' !in pattern
    ensures Scan(START, pattern + ":" + text) == Scan(Scanner([], false, pattern, Unknown), text)
  {
    assert "" + pattern == pattern;
    assert pattern + ":" + text == pattern + (":" + text);
    ScanPattern(START, pattern, ":" + text);
    assert (":" + text)[1..] == text;
  }

  /** A pattern with any spelling of a level is that one rule. */
  lemma ParseSpelled(pattern: string, i: nat)
    requires pattern != "" && ':' !in pattern && ',' !in pattern && i < |SPELLINGS|
    ensures Parse(pattern + ":" + SPELLINGS[i].0) == [Rule(pattern, SPELLINGS[i].1)]
  {
    ScanAfterPattern(pattern, SPELLINGS[i].0);
    ScanSpelled(Scanner([], false, pattern, Unknown), i);
    SpellingOf(i);
  }

  predicate EndsWith(s: string, name: string) {
    |name| <= |s| && s[|s| - |name|..] == name
  }

  /** No spelling stands at the end of `s`. */
  predicate EndsInNoLevel(s: string) {
    forall i | 0 <= i < |SPELLINGS| :: !EndsWith(s, SPELLINGS[i].0)
  }

  lemma SuffixEnds(s: string, n: nat)
    requires n <= |s| && EndsInNoLevel(s)
    ensures EndsInNoLevel(s[n..])
  {
    forall i | 0 <= i < |SPELLINGS| ensures !EndsWith(s[n..], SPELLINGS[i].0) {
      var name := SPELLINGS[i].0;
      assert !EndsWith(s, name);
      if |name| <= |s[n..]| {
        assert s[n..][|s[n..]| - |name|..] == s[|s| - |name|..];
      }
    }
  }

  lemma LevelNotLast(s: string)
    requires EndsInNoLevel(s) && LevelPrefix(s) != Unknown
    ensures LevelWidth(LevelPrefix(s)) < |s|
  {
    var level := LevelPrefix(s);
    LevelNamesRead(s, level);
    var i :| 0 <= i < |SPELLINGS| && SPELLINGS[i].0 <= s && SPELLINGS[i].1 == level;
    SpellingOf(i);
    assert !EndsWith(s, SPELLINGS[i].0);
  }

  lemma ScanAttempt(sc: Scanner, s: string)
    requires !sc.inPattern && s != "" && s[0] != ':' && s[0] != ','
    ensures var level := LevelPrefix(s); Scan(sc, s) == Scan(sc.(level := level), s[LevelWidth(level)..])
  {
  }

  /** A text in place of a level that does not end in one leaves no level behind. */
  lemma {:induction false} ScanUnfinished(sc: Scanner, s: string)
    requires !sc.inPattern && s != "" && ':' !in s && ',' !in s && EndsInNoLevel(s)
    ensures Scan(sc, s) == sc.(level := Unknown)
    decreases |s|
  {
    var level := LevelPrefix(s);
    var rest := s[LevelWidth(level)..];
    ScanAttempt(sc, s);
    SuffixEnds(s, LevelWidth(level));
    if level != Unknown {
      LevelNotLast(s);
    }
    if rest != "" {
      ScanUnfinished(sc.(level := level), rest);
    }
  }

  /** Such a rule is dropped, whatever levels stand earlier in the text. */
  lemma UnfinishedLevel(pattern: string, text: string)
    requires ':' !in pattern && ',' !in pattern && ':' !in text && ',' !in text && EndsInNoLevel(text)
    ensures Parse(pattern + ":" + text) == []
  {
    ScanAfterPattern(pattern, text);
    if text != "" {
      ScanUnfinished(Scanner([], false, pattern, Unknown), text);
    }
  }

  lemma ParseTwo(a: string, xs: seq<Rule>, b: string, x: Rule, text: string)
    requires text == a + "," + b
    requires Parse(a) == xs && Complete(a) && Parse(b) == [x] && Complete(b)
    ensures Parse(text) == xs + [x] && Complete(text)
  {
    ParseJoined(a, b);
  }

  /** Reading back a printed list of rules gives the list. */
  lemma {:induction false} ParsePrinted(rules: seq<Rule>)
    requires forall i | 0 <= i < |rules| :: Writable(rules[i])
    ensures Parse(Print(rules)) == rules && Complete(Print(rules))
  {
    if |rules| == 1 {
      ParsePrintedRule(rules[0]);
    } else if |rules| > 1 {
      var init, last := rules[..|rules| - 1], rules[|rules| - 1];
      assert init + [last] == rules;
      ParsePrinted(init);
      ParsePrintedRule(last);
      ParseTwo(Print(init), init, PrintRule(last), last, Print(rules));
    }
  }
}
