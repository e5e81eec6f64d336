/** The progress estimate `TaskWorker.run_backup` keeps while it reads the
    output of the command-line backup, one line at a time. Progress starts
    at 50; a `N%` in a line rescales N into 50..90, and keywords then
    override the estimate. */
module BackupProgress {
  import opened Wrappers
  import opened Text

  const StartProgress := 50

  // ---------------------------------------------------------------------
  // `re.search(r'(\d+)%', line)`

  /** `(\d+)%` matches `s` with its digits at `[i, j)` and the `%` at `j`. */
  predicate MatchAt(s: string, i: int, j: int) {
    0 <= i < j < |s| && (forall k :: i <= k < j ==> IsDigit(s[k])) && s[j] == '%'
  }

  /** End of the run of digits that starts at `i`. */
  function DigitRunEnd(s: string, i: nat): (j: nat)
    requires i <= |s|
    ensures i <= j <= |s|
    ensures forall k :: i <= k < j ==> IsDigit(s[k])
    ensures j < |s| ==> !IsDigit(s[j])
    decreases |s| - i
  {
    if i < |s| && IsDigit(s[i]) then DigitRunEnd(s, i + 1) else i
  }

  /** The regular-expression search from position `i`: each start position
      in turn, with `\d+` taking the longest run of digits. The result is the
      leftmost match. */
  function SearchFrom(s: string, i: nat): (m: Option<(nat, nat)>)
    requires i <= |s|
    ensures m.Some? ==> i <= m.value.0 && MatchAt(s, m.value.0, m.value.1)
    ensures m.Some? ==> forall a, b :: i <= a < m.value.0 ==> !MatchAt(s, a, b)
    ensures m.None? ==> forall a, b :: i <= a ==> !MatchAt(s, a, b)
    decreases |s| - i
  {
    if i == |s| then None
    else
      var j := DigitRunEnd(s, i);
      RunEndIsOnlyMatchEnd(s, i);
      if i < j < |s| && s[j] == '%' then Some((i, j))
      else
        SearchFrom(s, i + 1)
  }

  /** A match starting at `i` ends where the run of digits from `i` ends. */
  lemma RunEndIsOnlyMatchEnd(s: string, i: nat)
    requires i <= |s|
    ensures forall b :: MatchAt(s, i, b) ==> b == DigitRunEnd(s, i)
  {
  }

  /** The percentage a line reports, if any: `int(match.group(1))`, reached
      only when the line contains a `%`. */
  function Percent(line: string): (n: Option<nat>)
    ensures n.Some? <==> exists i, j :: MatchAt(line, i, j)
    ensures n.Some? ==> var m := SearchFrom(line, 0);
      m.Some? && n.value == DigitsValue(line[m.value.0..m.value.1])
  {
    if '%' !in line then None
    else match SearchFrom(line, 0)
      case None => None
      case Some((i, j)) => Some(DigitsValue(line[i..j]))
  }

  /** `50 + int((percent / 100) * 40)`, in integer arithmetic. */
  function Scale(percent: nat): int {
    50 + percent * 40 / 100
  }

  /** The least percentage for which the double `(percent / 100) * 40` is
      infinite, so that `int()` raises `OverflowError` before anything is
      emitted and the `except: pass` skips the update. It has 309 digits;
      the limit `int()` puts on a digit string (4300 digits) lies beyond it.
      This is the arithmetic bound only: the 32-bit range of the emitted
      signal is a separate, lower bound that the model does not follow. */
  const ScaleOverflow: nat := 449423283715578970695325330401256771978329516495456124222790014033526872318292275215484031215506134474806642535191917489951828033934493918818249862868705121134507863922065524690737821030972496181327327866578179476303636879156394724526000104099348127630703562811327753390115280859461660629718093229235529318400

  /** The line's percentage is read and scaled without raising. */
  predicate Scales(line: string) {
    Percent(line).Some? && Percent(line).value < ScaleOverflow
  }

  /** For a percentage up to 100 the scaled estimate lies in 50..90 and grows
      with the percentage. */
  lemma ScaleBounds(n: nat, m: nat)
    requires n <= m
    ensures Scale(n) <= Scale(m)
    ensures m <= 100 ==> 50 <= Scale(n) <= Scale(m) <= 90
  {
    assert n * 40 <= m * 40;
  }

  /** A percentage above 100 is not clamped. */
  lemma ScaleNotClamped()
    ensures Scale(200) == 130
  {
  }

  // ---------------------------------------------------------------------
  // Keyword overrides

  predicate Connecting(line: string) { ContainsIgnoringCase(line, "connecting") }

  predicate Starting(line: string) {
    ContainsIgnoringCase(line, "starting") || ContainsIgnoringCase(line, "began")
  }

  predicate Copying(line: string) {
    ContainsIgnoringCase(line, "copying") || ContainsIgnoringCase(line, "backing up")
  }

  predicate Finishing(line: string) {
    ContainsIgnoringCase(line, "finalizing") || ContainsIgnoringCase(line, "finishing")
  }

  predicate AnyKeyword(line: string) {
    Connecting(line) || Starting(line) || Copying(line) || Finishing(line)
  }

  function Min(a: int, b: int): int { if a <= b then a else b }

  /** Result of one line: the new estimate, and the values sent to the
      progress bar while handling it. */
  datatype Update = Update(progress: int, emitted: seq<int>)

  /** Handle one line of backup output. */
  function Step(p: int, line: string): (u: Update)
    // the estimate is reported once more after every line, and once before when a percentage is read
    ensures |u.emitted| == (if Scales(line) then 2 else 1)
    ensures u.emitted[|u.emitted| - 1] == u.progress
    ensures Scales(line) ==> u.emitted[0] == Scale(Percent(line).value)
    // keywords win over the percentage, tested in order
    ensures Connecting(line) ==> u.progress == 55
    ensures !Connecting(line) && Starting(line) ==> u.progress == 60
    ensures !Connecting(line) && !Starting(line) && Copying(line) ==>
      u.progress == Min((if Scales(line) then Scale(Percent(line).value) else p) + 2, 85)
    ensures !Connecting(line) && !Starting(line) && Finishing(line) && !Copying(line) ==> u.progress == 88
    // without a keyword, the percentage alone decides; without either, or
    // when scaling it overflows, nothing changes
    ensures !AnyKeyword(line) && Scales(line) ==> u.progress == Scale(Percent(line).value)
    ensures !AnyKeyword(line) && !Scales(line) ==> u.progress == p
  {
    var scaled := if Scales(line) then Some(Percent(line).value) else None;
    var base := if scaled.Some? then Scale(scaled.value) else p;
    var next :=
      if Connecting(line) then 55
      else if Starting(line) then 60
      else if Copying(line) then Min(base + 2, 85)
      else if Finishing(line) then 88
      else base;
    Update(next, (if scaled.Some? then [base] else []) + [next])
  }

  /** The estimate after a run of lines. */
  function Track(p: int, lines: seq<string>): int
    decreases |lines|
  {
    if |lines| == 0 then p else Track(Step(p, lines[0]).progress, lines[1..])
  }

  predicate InRange(p: int) { 50 <= p <= 90 }

  /** As long as no line reports more than 100%, the estimate stays in
      50..90 from the starting value on. */
  lemma {:induction false} TrackStaysInRange(p: int, lines: seq<string>)
    requires InRange(p)
    requires forall i :: 0 <= i < |lines| ==> Percent(lines[i]).None? || Percent(lines[i]).value <= 100
    ensures InRange(Track(p, lines))
    decreases |lines|
  {
    if |lines| > 0 {
      var line := lines[0];
      if Percent(line).Some? {
        ScaleBounds(Percent(line).value, 100);
      }
      assert InRange(Step(p, line).progress);
      assert forall i :: 1 <= i < |lines| ==> lines[i] == lines[1..][i - 1];
      TrackStaysInRange(Step(p, line).progress, lines[1..]);
    }
  }

  /** From the starting estimate of 50, the bar stays in 50..90 while no line
      reports more than 100%. */
  lemma TrackFromStart(lines: seq<string>)
    requires forall i :: 0 <= i < |lines| ==> Percent(lines[i]).None? || Percent(lines[i]).value <= 100
    ensures InRange(Track(StartProgress, lines))
  {
    TrackStaysInRange(StartProgress, lines);
  }

  /** Lower-casing the line changes nothing: the percentage is read from
      digits and `%`, and the keywords are compared in lower case. */
  lemma StepIgnoresCase(p: int, line: string)
    ensures Step(p, Lower(line)) == Step(p, line)
  {
    PercentIgnoresCase(line);
    LowerIdempotent(line);
  }

  lemma LowerIdempotent(s: string)
    ensures Lower(Lower(s)) == Lower(s)
  {
  }

  lemma PercentIgnoresCase(s: string)
    ensures Percent(Lower(s)) == Percent(s)
  {
    var l := Lower(s);
    assert forall k :: 0 <= k < |s| ==> (IsDigit(l[k]) <==> IsDigit(s[k])) && (l[k] == '%' <==> s[k] == '%');
    assert forall i, j :: MatchAt(l, i, j) <==> MatchAt(s, i, j);
    assert ('%' in l) <==> ('%' in s);
    SearchIgnoresCase(s, 0);
    match SearchFrom(s, 0)
    case None =>
    case Some((i, j)) =>
      assert l[i..j] == s[i..j];
  }

  lemma {:induction false} SearchIgnoresCase(s: string, i: nat)
    requires i <= |s|
    ensures SearchFrom(Lower(s), i) == SearchFrom(s, i)
    decreases |s| - i
  {
    var l := Lower(s);
    assert forall k :: 0 <= k < |s| ==> (IsDigit(l[k]) <==> IsDigit(s[k])) && (l[k] == '%' <==> s[k] == '%');
    if i < |s| {
      RunEndIgnoresCase(s, i);
      SearchIgnoresCase(s, i + 1);
    }
  }

  lemma {:induction false} RunEndIgnoresCase(s: string, i: nat)
    requires i <= |s|
    ensures DigitRunEnd(Lower(s), i) == DigitRunEnd(s, i)
    decreases |s| - i
  {
    if i < |s| && IsDigit(s[i]) {
      RunEndIgnoresCase(s, i + 1);
    }
  }

  /** `re.search` takes the leftmost match: in `12a34%` the digits `12` are
      not followed by `%`, so the line reports 34. */
  lemma LeftmostGreedyMatch()
    ensures Percent("12a34% done") == Some(34)
  {
    var s := "12a34% done";
    assert s[5] == '%';
    assert DigitRunEnd(s, 2) == 2;
    assert DigitRunEnd(s, 1) == 2;
    assert DigitRunEnd(s, 0) == 2;
    assert DigitRunEnd(s, 5) == 5;
    assert DigitRunEnd(s, 4) == 5;
    assert DigitRunEnd(s, 3) == 5;
    assert SearchFrom(s, 3) == Some((3, 5));
    assert SearchFrom(s, 2) == SearchFrom(s, 3);
    assert SearchFrom(s, 1) == SearchFrom(s, 2);
    assert SearchFrom(s, 0) == SearchFrom(s, 1);
    assert s[3..5] == "34";
    assert "34"[..1] == "3";
    assert DigitsValue("34") == 34;
  }

  /** "copying" caps the estimate at 85, so it can move the bar backwards. */
  lemma CopyingCanLowerProgress()
    ensures Step(88, "copying").progress == 85
  {
    var line := "copying";
    assert '%' !in line;
    assert Lower(line) == line;
    assert StartsWith(line, "copying");
    NotContainsLonger(line, "connecting");
    NotContainsLonger(line, "starting");
    NotContainsWithoutFirst(line, "began");
  }
}
