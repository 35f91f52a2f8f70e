/** The registry that decides which log categories are shown: a list of rules of which the last match
    counts, a memo of past decisions, and the text the rules were given as. */
module LogFilter {
  import opened Optional
  import opened Wildcard
  import opened CategoryRules

  /** The levels from the most to the least severe. */
  const SEVERITY := [Fatal, Error, Warning, Info, Debug, Verbose, Trace]

  /** The place of a level in the order of severity; whatever is not in it comes last. */
  function Priority(level: Level): (p: int)
    ensures if level in SEVERITY then 0 <= p < |SEVERITY| && SEVERITY[p] == level else p == |SEVERITY|
  {
    match level
    case Fatal => 0
    case Error => 1
    case Warning => 2
    case Info => 3
    case Debug => 4
    case Verbose => 5
    case Trace => 6
    case _ => 7
  }

  /** The threshold of the last rule whose pattern matches; -1 if none does. */
  ghost function Verdict(rules: seq<Rule>, category: string): int {
    if rules == [] then -1
    else if InLanguage(category, rules[|rules| - 1].pattern) then Priority(rules[|rules| - 1].level)
    else Verdict(rules[..|rules| - 1], category)
  }

  ghost predicate LastMatch(rules: seq<Rule>, category: string, i: nat) {
    && i < |rules| && InLanguage(category, rules[i].pattern)
    && forall j | i < j < |rules| :: !InLanguage(category, rules[j].pattern)
  }

  /** What the filter is for: some rule matches, and the last one to match lets the level through. */
  ghost predicate Shown(rules: seq<Rule>, level: Level, category: string) {
    exists i: nat :: LastMatch(rules, category, i) && Priority(level) <= Priority(rules[i].level)
  }

  lemma LastMatchInit(rules: seq<Rule>, category: string, i: nat)
    requires rules != [] && !InLanguage(category, rules[|rules| - 1].pattern)
    ensures LastMatch(rules, category, i) <==> LastMatch(rules[..|rules| - 1], category, i)
  {
    var n := |rules| - 1;
    assert forall j | 0 <= j < n :: rules[..n][j] == rules[j];
    if LastMatch(rules[..n], category, i) {
      forall j | i < j < |rules| ensures !InLanguage(category, rules[j].pattern) {
        if j < n {
          assert !InLanguage(category, rules[..n][j].pattern);
        }
      }
    }
  }

  lemma ShownInit(rules: seq<Rule>, level: Level, category: string)
    requires rules != [] && !InLanguage(category, rules[|rules| - 1].pattern)
    ensures Shown(rules, level, category) <==> Shown(rules[..|rules| - 1], level, category)
  {
    var init := rules[..|rules| - 1];
    forall i: nat ensures LastMatch(rules, category, i) <==> LastMatch(init, category, i) {
      LastMatchInit(rules, category, i);
    }
    assert forall i: nat | i < |init| :: init[i] == rules[i];
  }

  lemma ShownLast(rules: seq<Rule>, level: Level, category: string)
    requires rules != [] && InLanguage(category, rules[|rules| - 1].pattern)
    ensures Shown(rules, level, category) <==> Priority(level) <= Priority(rules[|rules| - 1].level)
  {
    assert LastMatch(rules, category, |rules| - 1);
    assert forall i: nat | LastMatch(rules, category, i) :: i == |rules| - 1;
  }

  lemma {:induction false} VerdictDecides(rules: seq<Rule>, level: Level, category: string)
    ensures Shown(rules, level, category) <==> Priority(level) <= Verdict(rules, category)
  {
    if rules != [] {
      if InLanguage(category, rules[|rules| - 1].pattern) {
        ShownLast(rules, level, category);
      } else {
        ShownInit(rules, level, category);
        VerdictDecides(rules[..|rules| - 1], level, category);
      }
    }
  }

  /** `level` stands no later than `threshold` in the order of severity; a threshold that is not in it
      lets everything through, and a level that is not in it passes no other threshold. */
  ghost predicate AsSevere(level: Level, threshold: Level) {
    threshold in SEVERITY ==>
      exists i, j :: 0 <= i <= j < |SEVERITY| && SEVERITY[i] == level && SEVERITY[j] == threshold
  }

  lemma AsSevereMeaning(level: Level, threshold: Level)
    ensures Priority(level) <= Priority(threshold) <==> AsSevere(level, threshold)
  {
    if threshold in SEVERITY && Priority(level) <= Priority(threshold) {
      assert SEVERITY[Priority(level)] == level && SEVERITY[Priority(threshold)] == threshold;
    }
  }

  /** A rule given last decides about the categories it matches and leaves all others alone. */
  lemma LastRuleDecides(rules: seq<Rule>, r: Rule, level: Level, category: string)
    ensures !Shown([], level, category)
    ensures Shown(rules + [r], level, category) <==>
            if InLanguage(category, r.pattern) then AsSevere(level, r.level) else Shown(rules, level, category)
  {
    var all := rules + [r];
    assert all[..|rules|] == rules;
    AsSevereMeaning(level, r.level);
    VerdictDecides(all, level, category);
    VerdictDecides(rules, level, category);
  }

  ghost predicate CacheAgrees(rules: seq<Rule>, cached: map<string, int>) {
    forall c | c in cached :: cached[c] == Verdict(rules, c)
  }

  // ---------- the text behind the rules ----------

  datatype Call = Call(text: Option<string>, clear: bool)

  function TextAfter(text: string, c: Call): string {
    var before := if c.clear then "" else text;
    match c.text
    case None => before
    case Some(s) => (if before == "" then "" else before + ",") + s
  }

  function RulesAfter(rules: seq<Rule>, c: Call): seq<Rule> {
    (if c.clear then [] else rules) + (if c.text.Some? then Parse(c.text.value) else [])
  }

  /** One call keeps the text and the rules in step, as long as no earlier text ended in half a rule. */
  lemma CallInStep(text: string, rules: seq<Rule>, c: Call)
    requires Parse(text) == rules && Complete(text)
    ensures Parse(TextAfter(text, c)) == RulesAfter(rules, c)
    ensures (c.text.Some? ==> Complete(c.text.value)) ==> Complete(TextAfter(text, c))
  {
    var before := if c.clear then "" else text;
    if c.text.Some? {
      if before == "" {
        assert "" + c.text.value == c.text.value;
      } else {
        ParseJoined(before, c.text.value);
      }
    }
  }

  function TextOf(calls: seq<Call>): string {
    if calls == [] then "" else TextAfter(TextOf(calls[..|calls| - 1]), calls[|calls| - 1])
  }

  function RulesOf(calls: seq<Call>): seq<Rule> {
    if calls == [] then [] else RulesAfter(RulesOf(calls[..|calls| - 1]), calls[|calls| - 1])
  }

  /** After any sequence of calls with complete texts, parsing the accumulated text from scratch gives
      exactly the rules in force. */
  lemma {:induction false} TextParsesToRules(calls: seq<Call>)
    requires forall i | 0 <= i < |calls| && calls[i].text.Some? :: Complete(calls[i].text.value)
    ensures Parse(TextOf(calls)) == RulesOf(calls) && Complete(TextOf(calls))
  {
    if calls != [] {
      var n := |calls| - 1;
      TextParsesToRules(calls[..n]);
      CallInStep(TextOf(calls[..n]), RulesOf(calls[..n]), calls[n]);
    }
  }

  lemma SinceInit(calls: seq<Call>, i: nat, n: nat)
    requires i <= n && |calls| == n + 1
    ensures calls[i..][..n - i] == calls[..n][i..]
    ensures |calls[i..]| == n - i + 1 && calls[i..][n - i] == calls[n]
  {
  }

  /** A call that clears makes everything before it irrelevant. */
  lemma {:induction false} ClearForgets(calls: seq<Call>, i: nat)
    requires i < |calls| && calls[i].clear
    ensures TextOf(calls) == TextOf(calls[i..]) && RulesOf(calls) == RulesOf(calls[i..])
    decreases |calls|
  {
    var n := |calls| - 1;
    if i == n {
      assert calls[n..] == [calls[n]] && [calls[n]][..0] == [];
    } else {
      ClearForgets(calls[..n], i);
      SinceInit(calls, i, n);
    }
  }

  /** The texts with a comma between each two of them. */
  function CommaJoined(texts: seq<string>): string {
    if texts == [] then "" else if |texts| == 1 then texts[0] else texts[0] + "," + CommaJoined(texts[1..])
  }

  lemma {:induction false} CommaJoinedSnoc(texts: seq<string>, s: string)
    requires texts != []
    ensures CommaJoined(texts + [s]) == CommaJoined(texts) + "," + s
  {
    var all := texts + [s];
    if |texts| == 1 {
      assert all[1..] == [s];
    } else {
      assert all[1..] == texts[1..] + [s];
      CommaJoinedSnoc(texts[1..], s);
      var rest := CommaJoined(texts[1..]);
      assert texts[0] + "," + (rest + "," + s) == texts[0] + "," + rest + "," + s;
    }
  }

  function Adding(texts: seq<string>): (calls: seq<Call>)
    ensures |calls| == |texts|
  {
    seq(|texts|, i requires 0 <= i < |texts| => Call(Some(texts[i]), false))
  }

  /** Texts given one after the other are kept with commas between them. */
  lemma {:induction false} TextIsJoined(texts: seq<string>)
    requires forall i | 0 <= i < |texts| :: texts[i] != ""
    ensures TextOf(Adding(texts)) == CommaJoined(texts)
    ensures texts != [] ==> CommaJoined(texts) != ""
  {
    if texts != [] {
      var n := |texts| - 1;
      var init, last := texts[..n], texts[n];
      TextIsJoined(init);
      assert Adding(texts)[..n] == Adding(init);
      assert texts == init + [last];
      if n == 0 {
        assert "" + last == last;
      } else {
        CommaJoinedSnoc(init, last);
      }
    }
  }

  lemma ScanOne(sc: Scanner, c: char)
    requires sc.inPattern && c != ':' && c != ','
    ensures Scan(sc, [c]) == sc.(pattern := sc.pattern + [c])
  {
    assert [c][1..] == "";
  }

  lemma ScanB(sc: Scanner)
    requires sc.inPattern
    ensures Scan(sc, "b:INFO") == Scanner(sc.rules, false, sc.pattern + "b", Info)
  {
    assert "b:INFO"[1..] == ":INFO";
    ScanInfo(sc.(pattern := sc.pattern + "b"));
  }

  /** A text that ends in half a rule breaks this: the next pattern swallows it. */
  lemma IncompleteTextDrifts()
    ensures var calls := [Call(Some("a"), false), Call(Some("b:INFO"), false)];
            Parse(TextOf(calls)) == [Rule("ab", Info)] && RulesOf(calls) == [Rule("b", Info)]
  {
    var first, second := Call(Some("a"), false), Call(Some("b:INFO"), false);
    var calls := [first, second];
    assert calls[..1] == [first] && [first][..0] == [];
    assert TextOf([first]) == "" + "a" == "a";
    assert TextOf(calls) == "a" + "," + "b:INFO";
    ScanOne(START, 'a');
    ScanB(START);
    ScanComma(START, "a", "b:INFO");
    var half := Scanner([], true, "a", Unknown);
    assert Scan(START, "a") == half == AfterComma(half);
    ScanB(half);
    assert "a" + "b" == "ab" && "" + "b" == "b";
    assert Scan(START, "a" + "," + "b:INFO") == Scanner([], false, "ab", Info);
    assert Parse("a") == [] && Parse("b:INFO") == [Rule("b", Info)];
    assert RulesOf([first]) == [];
  }

  // ---------- the registry ----------

  /** The variables of the scanning loop. */
  datatype Cursor = Cursor(isCat: bool, isLevel: bool, pattern: string, level: Level) {
    function At(rules: seq<Rule>): Scanner {
      Scanner(rules, isCat, pattern, level)
    }
  }

  class Registry {
    var categories: seq<Rule>
    var cached: map<string, int>
    var categoriesString: string

    constructor ()
      ensures Valid() && InStep() && categories == [] && categoriesString == ""
    {
      categories, cached, categoriesString := [], map[], "";
    }

    /** Every remembered decision is the one the rules would give now. */
    ghost predicate Valid()
      reads this
    {
      CacheAgrees(categories, cached)
    }

    ghost predicate InStep()
      reads this
    {
      Parse(categoriesString) == categories && Complete(categoriesString)
    }

    method Insert(pattern: string, level: Level)
      modifies this`categories, this`cached
      ensures cached == map[]
      ensures categories == old(categories) + [Rule(pattern, level)]
    {
      categories := categories + [Rule(pattern, level)];
      cached := map[];
    }

    /** Turns the rule in progress into a rule, if it has both parts. */
    method Emit(pattern: string, level: Level) returns (pattern': string, level': Level)
      modifies this`categories, this`cached
      ensures cached == map[] || (cached == old(cached) && categories == old(categories))
      ensures var sc := Flush(Scanner(old(categories), true, pattern, level));
              categories == sc.rules && pattern' == sc.pattern && level' == sc.level
    {
      pattern', level' := pattern, level;
      if pattern != "" && level != Unknown {
        Insert(pattern, level);
        pattern', level' := "", Unknown;
      }
    }

    method SetCategories(text: Option<string>, clear: bool)
      requires Valid()
      modifies this
      ensures Valid()
      ensures categories == RulesAfter(old(categories), Call(text, clear))
      ensures categoriesString == TextAfter(old(categoriesString), Call(text, clear))
      ensures old(InStep()) ==> Parse(categoriesString) == categories
      ensures old(InStep()) && (text.Some? ==> Complete(text.value)) ==> InStep()
    {
      if old(InStep()) {
        CallInStep(old(categoriesString), old(categories), Call(text, clear));
      }
      if clear {
        categories, cached, categoriesString := [], map[], "";
      }
      if text.None? {
        return;
      }
      if categoriesString != "" {
        categoriesString := categoriesString + ",";
      }
      categoriesString := categoriesString + text.value;
      ScanText(text.value);
    }

    /** One turn of the scanning loop: a separator, a pattern character, or an attempt at a level,
        which jumps over the name it finds. */
    method ScanChar(s: string, i: nat, cur: Cursor, ghost rules: seq<Rule>) returns (next: nat, cur': Cursor)
      requires i < |s| && cur.isCat == !cur.isLevel
      modifies this`categories, this`cached
      ensures cached == map[] || (cached == old(cached) && categories == old(categories))
      ensures var turn := StepAt(cur.At(rules), s, i);
              && turn == Turn(cur'.At(turn.sc.rules), next) && cur'.isCat == !cur'.isLevel
              && rules <= turn.sc.rules && categories == old(categories) + turn.sc.rules[|rules|..]
    {
      next, cur' := i + 1, cur;
      if s[i] == ':' {
        cur' := cur.(isLevel := true, isCat := false);
      } else if s[i] == ',' {
        var pattern, level := Emit(cur.pattern, cur.level);
        cur' := Cursor(true, false, pattern, level);
      } else if cur.isCat {
        cur' := cur.(pattern := cur.pattern + [s[i]]);
      } else if cur.isLevel {
        var level := LevelPrefix(s[i..]);
        if level != Unknown {
          next := i + |LevelName(level)|;
        }
        cur' := cur.(level := level);
      }
    }

    method ScanText(s: string)
      requires Valid()
      modifies this`categories, this`cached
      ensures Valid()
      ensures categories == old(categories) + Parse(s)
    {
      var cur, i := Cursor(true, false, "", Unknown), 0;
      ghost var rules: seq<Rule>, goal := [], Scan(START, s);
      assert s[0..] == s;
      while i < |s|
        invariant 0 <= i <= |s| && cur.isCat == !cur.isLevel
        invariant cached == map[] || (cached == old(cached) && categories == old(categories))
        invariant categories == old(categories) + rules
        invariant goal == Scan(cur.At(rules), s[i..])
        decreases |s| - i
      {
        ScanAt(cur.At(rules), s, i);
        ghost var turn := StepAt(cur.At(rules), s, i);
        i, cur := ScanChar(s, i, cur, rules);
        rules := turn.sc.rules;
      }
      FlushRules(old(categories), cur.At(rules));
      var _, _ := Emit(cur.pattern, cur.level);
    }

    /** Decides from the memo if it can, else from the rules, and the answer is the same. */
    method Allowed(level: Level, category: string) returns (r: bool)
      requires Valid()
      modifies this`cached
      ensures Valid()
      ensures r <==> Shown(categories, level, category)
      ensures cached == if category in old(cached) || categories == [] then old(cached)
                        else old(cached)[category := Verdict(categories, category)]
    {
      VerdictDecides(categories, level, category);
      if category in cached {
        return Priority(level) <= cached[category];
      }
      if categories == [] {
        return false;
      }
      var i := |categories|;
      assert categories[..i] == categories;
      while i > 0
        invariant 0 <= i <= |categories|
        invariant cached == old(cached)
        invariant Verdict(categories, category) == Verdict(categories[..i], category)
      {
        i := i - 1;
        assert categories[..i + 1][..i] == categories[..i];
        var matched := WildCardMatch(category, categories[i].pattern);
        if matched {
          var p := Priority(categories[i].level);
          cached := cached[category := p];
          return Priority(level) <= p;
        }
      }
      cached := cached[category := -1];
      return false;
    }

    /** Clears the rules and the memo, and leaves the text behind. */
    method ClearCategories()
      modifies this`categories, this`cached
      ensures Valid() && categories == []
      ensures old(InStep()) ==> (InStep() <==> old(categories) == [])
    {
      categories, cached := [], map[];
    }
  }
}
