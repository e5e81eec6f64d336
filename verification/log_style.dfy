/** How `BackupApp.update_log` marks each log line: the first of seven
    rules that matches decides the glyph. The two bracketed
    prefixes are case-sensitive; the keyword rules compare in lower case. */
module LogStyle {
  import opened Text

  datatype Kind =
    | ErrorLine | WarningLine | SuccessLine | ActivityLine
    | DeviceLine | ConnectionLine | InfoLine

  /** The `if`/`elif` chain of `update_log`. */
  function Classify(message: string): Kind
  {
    if StartsWith(message, "[ERROR]") then ErrorLine
    else if StartsWith(message, "[WARNING]") then WarningLine
    else if ContainsIgnoringCase(message, "successfully")
         || ContainsIgnoringCase(message, "completed") then SuccessLine
    else if ContainsIgnoringCase(message, "starting")
         || ContainsIgnoringCase(message, "attempting") then ActivityLine
    else if ContainsIgnoringCase(message, "found device") then DeviceLine
    else if ContainsIgnoringCase(message, "connecting")
         || ContainsIgnoringCase(message, "establishing") then ConnectionLine
    else InfoLine
  }

  // ---------------------------------------------------------------------
  // Reference: an ordered rule table

  datatype Test = Prefix(text: string) | AnyWord(words: seq<string>)

  datatype Rule = Rule(test: Test, kind: Kind)

  predicate Matches(t: Test, message: string) {
    match t
    case Prefix(p) => StartsWith(message, p)
    case AnyWord(ws) => exists i :: 0 <= i < |ws| && ContainsIgnoringCase(message, ws[i])
  }

  const Rules: seq<Rule> := [
    Rule(Prefix("[ERROR]"), ErrorLine),
    Rule(Prefix("[WARNING]"), WarningLine),
    Rule(AnyWord(["successfully", "completed"]), SuccessLine),
    Rule(AnyWord(["starting", "attempting"]), ActivityLine),
    Rule(AnyWord(["found device"]), DeviceLine),
    Rule(AnyWord(["connecting", "establishing"]), ConnectionLine)]

  /** The kind of the first matching rule; `InfoLine` when none matches. */
  function FirstMatch(rules: seq<Rule>, message: string): Kind
  {
    if |rules| == 0 then InfoLine
    else if Matches(rules[0].test, message) then rules[0].kind
    else FirstMatch(rules[1..], message)
  }

  /** The chain is the rule table read top to bottom. */
  lemma ClassifyFollowsRules(message: string)
    ensures Classify(message) == FirstMatch(Rules, message)
  {
    var r2 := Rules[2..];
    assert r2[0] == Rule(AnyWord(["successfully", "completed"]), SuccessLine);
    assert r2[1] == Rule(AnyWord(["starting", "attempting"]), ActivityLine);
    assert r2[2] == Rule(AnyWord(["found device"]), DeviceLine);
    assert r2[3] == Rule(AnyWord(["connecting", "establishing"]), ConnectionLine);
    MatchesEitherWord("successfully", "completed", message);
    MatchesEitherWord("starting", "attempting", message);
    MatchesEitherWord("connecting", "establishing", message);
    assert Matches(r2[2].test, message) <==> ContainsIgnoringCase(message, "found device") by {
      var ws := ["found device"];
      if ContainsIgnoringCase(message, "found device") {
        assert ContainsIgnoringCase(message, ws[0]);
      }
    }
    assert FirstMatch(Rules, message) ==
      if StartsWith(message, "[ERROR]") then ErrorLine else FirstMatch(Rules[1..], message);
    assert FirstMatch(Rules[1..], message) ==
      if StartsWith(message, "[WARNING]") then WarningLine else FirstMatch(r2, message);
    assert FirstMatch(r2, message) ==
      if Matches(r2[0].test, message) then SuccessLine else FirstMatch(r2[1..], message);
    assert FirstMatch(r2[1..], message) ==
      if Matches(r2[1].test, message) then ActivityLine else FirstMatch(r2[2..], message);
    assert FirstMatch(r2[2..], message) ==
      if Matches(r2[2].test, message) then DeviceLine else FirstMatch(r2[3..], message);
    assert FirstMatch(r2[3..], message) ==
      if Matches(r2[3].test, message) then ConnectionLine else FirstMatch(r2[4..], message);
    assert r2[4..] == [];
  }

  lemma MatchesEitherWord(a: string, b: string, message: string)
    ensures Matches(AnyWord([a, b]), message) <==>
      ContainsIgnoringCase(message, a) || ContainsIgnoringCase(message, b)
  {
    var ws := [a, b];
    if ContainsIgnoringCase(message, a) {
      assert ContainsIgnoringCase(message, ws[0]);
    }
    if ContainsIgnoringCase(message, b) {
      assert ContainsIgnoringCase(message, ws[1]);
    }
  }

  /** The first-match result is the kind of some rule, or `InfoLine`. */
  lemma {:induction false} FirstMatchIsSomeKind(rules: seq<Rule>, message: string)
    ensures FirstMatch(rules, message) == InfoLine
      || exists j :: 0 <= j < |rules| && FirstMatch(rules, message) == rules[j].kind
    decreases |rules|
  {
    if |rules| > 0 && !Matches(rules[0].test, message) {
      FirstMatchIsSomeKind(rules[1..], message);
      assert forall j :: 1 <= j < |rules| ==> rules[j] == rules[1..][j - 1];
    }
  }

  /** First match wins, in both directions: rule `i` decides exactly when it
      matches and no earlier rule does; `InfoLine` exactly when none does. */
  lemma {:induction false} FirstMatchWins(rules: seq<Rule>, message: string, i: nat)
    requires i < |rules|
    requires forall j, k :: 0 <= j < k < |rules| ==> rules[j].kind != rules[k].kind
    requires forall j :: 0 <= j < |rules| ==> rules[j].kind != InfoLine
    ensures FirstMatch(rules, message) == rules[i].kind <==>
      Matches(rules[i].test, message) && forall j :: 0 <= j < i ==> !Matches(rules[j].test, message)
    ensures FirstMatch(rules, message) == InfoLine <==>
      forall j :: 0 <= j < |rules| ==> !Matches(rules[j].test, message)
    decreases |rules|
  {
    var tail := rules[1..];
    assert forall j :: 1 <= j < |rules| ==> rules[j] == tail[j - 1];
    if i > 0 {
      FirstMatchWins(tail, message, i - 1);
    } else {
      FirstMatchIsSomeKind(tail, message);
      if |tail| > 0 {
        FirstMatchWins(tail, message, 0);
      }
    }
  }

  /** `update_log` is total and first-match-wins over the seven rules: a
      line gets the kind of rule `i` exactly when that rule matches and no
      earlier one does, and is plain information exactly when none matches. */
  lemma ClassifyIsFirstMatchingRule(message: string, i: nat)
    requires i < |Rules|
    ensures Classify(message) == Rules[i].kind <==>
      Matches(Rules[i].test, message) && forall j :: 0 <= j < i ==> !Matches(Rules[j].test, message)
    ensures Classify(message) == InfoLine <==>
      forall j :: 0 <= j < |Rules| ==> !Matches(Rules[j].test, message)
  {
    ClassifyFollowsRules(message);
    FirstMatchWins(Rules, message, i);
  }

  /** The prefixes are case-sensitive: a lower-case `[error]` is plain
      information. */
  lemma PrefixIsCaseSensitive()
    ensures Classify("[error]") == InfoLine
  {
    var m := "[error]";
    assert m[1] != "[ERROR]"[1];
    assert Lower(m) == m;
    NotContainsLonger(m, "successfully");
    NotContainsLonger(m, "completed");
    NotContainsLonger(m, "starting");
    NotContainsLonger(m, "attempting");
    NotContainsLonger(m, "found device");
    NotContainsLonger(m, "connecting");
    NotContainsLonger(m, "establishing");
  }

  // ---------------------------------------------------------------------
  // Formatting

  /** Glyph chosen for each kind. */
  function Glyph(k: Kind): string {
    match k
    case ErrorLine => "\U{1F534} "
    case WarningLine => "\U{1F7E1} "
    case SuccessLine => "\U{2705} "
    case ActivityLine => "\U{1F504} "
    case DeviceLine => "\U{1F4F1} "
    case ConnectionLine => "\U{1F517} "
    case InfoLine => "\U{2139}\U{FE0F}  "
  }

  /** The line appended to the log box: glyph, time stamp, `|`, message. */
  function FormatLine(message: string, timestamp: string): (line: string)
    ensures StartsWith(line, Glyph(Classify(message)) + timestamp + " | ")
    ensures |line| == |Glyph(Classify(message))| + |timestamp| + 3 + |message|
    ensures line[|line| - |message|..] == message
  {
    var head := Glyph(Classify(message)) + timestamp + " | ";
    assert (head + message)[..|head|] == head;
    head + message
  }

  /** Different kinds get different glyphs, so the glyph identifies the kind. */
  lemma GlyphsDistinct(a: Kind, b: Kind)
    requires a != b
    ensures Glyph(a) != Glyph(b)
  {
    if a == InfoLine || b == InfoLine {
      assert |Glyph(a)| != |Glyph(b)|;
    } else {
      assert Glyph(a)[0] != Glyph(b)[0];
    }
  }
}
