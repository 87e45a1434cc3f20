/** Seasonality rules: what the compiler demands of one rule's windows, and what evaluating rules then returns. */
module Seasonality {
  import opened Basics
  import opened Text
  import opened Calendar

  datatype Availability = Available | Limited | Unavailable

  datatype Window = Window(startInclusive: string, endExclusive: string, availability: Availability)

  datatype Subject = Subject(kind: nat, id: string, version: nat)

  datatype Rule = Rule(subject: Subject, region: string, windows: seq<Window>)

  datatype Outcome = Unspecified | Season(availability: Availability)

  datatype Fault = InvalidDate | Contradiction

  // ---------------------------------------------------------------- compiling one rule

  function Start(w: Window): Option<int> { StrictDateOrdinal(w.startInclusive) }
  function End(w: Window): Option<int> { StrictDateOrdinal(w.endExclusive) }

  /** Valid dates, positive length. */
  predicate Positive(w: Window) {
    Start(w).Some? && End(w).Some? && Start(w).value < End(w).value
  }

  /** The day lies in the window's half-open range of days. */
  predicate OnDay(w: Window, day: int) {
    Positive(w) && Start(w).value <= day < End(w).value
  }

  predicate Overlap(w: Window, x: Window)
    requires Positive(w) && Positive(x)
  {
    Start(w).value < End(x).value && Start(x).value < End(w).value
  }

  /** The design of a rule: positive windows in order of their starts, any two that overlap saying the same. */
  predicate WellFormedRule(windows: seq<Window>) {
    && (forall i :: 0 <= i < |windows| ==> Positive(windows[i]))
    && (forall i, j :: 0 <= i < j < |windows| ==> Start(windows[i]).value <= Start(windows[j]).value)
    && (forall i, j :: 0 <= i < j < |windows| && Overlap(windows[i], windows[j]) ==> windows[i].availability == windows[j].availability)
  }

  /** The compiler's pass over a rule's windows reports nothing exactly on well-formed rules. */
  method CountIssues(windows: seq<Window>) returns (issues: nat)
    ensures issues == 0 <==> WellFormedRule(windows)
  {
    assert WellFormedRule([]) && LastStart([]) == None;
    hide WellFormedRule, LastStart, Start;
    issues := 0;
    var previousStart: Option<int> := None;
    var index := 0;
    while index < |windows|
      invariant index <= |windows|
      invariant issues == 0 <==> WellFormedRule(windows[..index])
      invariant issues == 0 ==> previousStart == LastStart(windows[..index])
    {
      assert windows[..index + 1] == windows[..index] + [windows[index]];
      var found := CheckWindow(windows[..index], windows[index], previousStart);
      if Start(windows[index]).Some? { previousStart := Start(windows[index]); }
      issues := issues + found;
      index := index + 1;
    }
    assert windows[..|windows|] == windows;
  }

  /** Both checks on one window, given the windows before it. */
  method CheckWindow(earlier: seq<Window>, window: Window, previousStart: Option<int>) returns (found: nat)
    ensures WellFormedRule(earlier + [window]) ==> WellFormedRule(earlier)
    ensures WellFormedRule(earlier) && previousStart == LastStart(earlier) ==> (found == 0 <==> WellFormedRule(earlier + [window]))
    ensures WellFormedRule(earlier + [window]) ==> Start(window) == LastStart(earlier + [window]) && Start(window).Some?
  {
    hide WellFormedRule, JoinsOn, LastStart, Positive, Start, End, Clashes;
    var issue := Misplaced(window, previousStart);
    var clashes := CountClashes(earlier, window);
    WhenJoining(earlier, window);
    if WellFormedRule(earlier + [window]) { JoinedWas(earlier, window); }
    if WellFormedRule(earlier) && JoinsOn(earlier, window) { JoiningKeeps(earlier, window); }
    found := issue + clashes;
  }

  function LastStart(windows: seq<Window>): Option<int> {
    if windows == [] then None else Start(windows[|windows| - 1])
  }

  /** The first check on a window: valid dates, positive length, no earlier than the last valid start. */
  method Misplaced(window: Window, previousStart: Option<int>) returns (issue: nat)
    ensures issue == 0 <==> Positive(window) && (previousStart.Some? ==> previousStart.value <= Start(window).value)
  {
    var start, end := Start(window), End(window);
    var placed := start.Some? && end.Some? && start.value < end.value && !(previousStart.Some? && start.value < previousStart.value);
    issue := if placed then 0 else 1;
  }

  /** How many earlier windows reach past the start of the window and disagree with it. */
  method CountClashes(earlier: seq<Window>, window: Window) returns (clashes: nat)
    ensures clashes == 0 <==> forall e :: 0 <= e < |earlier| ==> !Clashes(earlier[e], window)
  {
    hide Clashes;
    clashes := 0;
    var index := 0;
    while index < |earlier|
      invariant index <= |earlier|
      invariant clashes == 0 <==> forall e :: 0 <= e < index ==> !Clashes(earlier[e], window)
    {
      if Clashes(earlier[index], window) { clashes := clashes + 1; }
      index := index + 1;
    }
  }

  predicate Clashes(earlier: Window, window: Window) {
    Start(window).Some? && End(earlier).Some? && Start(window).value < End(earlier).value && earlier.availability != window.availability
  }

  /** A window the compiler finds nothing to say about after the windows before it. */
  predicate JoinsOn(windows: seq<Window>, w: Window) {
    && Positive(w)
    && (windows != [] ==> Start(windows[|windows| - 1]).Some? && Start(windows[|windows| - 1]).value <= Start(w).value)
    && forall e :: 0 <= e < |windows| ==> !Clashes(windows[e], w)
  }

  /** After a well-formed rule, the two checks on the next window find nothing just when it joins on. */
  lemma WhenJoining(windows: seq<Window>, w: Window)
    ensures LastStart(windows + [w]) == Start(w)
    ensures WellFormedRule(windows) ==>
      (JoinsOn(windows, w) <==>
        && Positive(w) && (LastStart(windows).Some? ==> LastStart(windows).value <= Start(w).value)
        && forall e :: 0 <= e < |windows| ==> !Clashes(windows[e], w))
    ensures Positive(w) ==> Start(w).Some?
  {
    hide StrictDateOrdinal, Clashes;
    if WellFormedRule(windows) && windows != [] { assert Positive(windows[|windows| - 1]); }
    hide Positive, Start, WellFormedRule;
  }

  lemma JoinedWas(windows: seq<Window>, w: Window)
    requires WellFormedRule(windows + [w])
    ensures WellFormedRule(windows) && JoinsOn(windows, w)
  {
    hide StrictDateOrdinal;
    var b, n := windows + [w], |windows|;
    assert b[n] == w && forall i :: 0 <= i < n ==> b[i] == windows[i];
    forall e | 0 <= e < n ensures !Clashes(windows[e], w) {
      assert Positive(b[e]) && Positive(b[n]) && Start(b[e]).value <= Start(b[n]).value;
      assert Overlap(b[e], b[n]) ==> b[e].availability == b[n].availability;
    }
    if n > 0 { assert Positive(b[n - 1]) && Start(b[n - 1]).value <= Start(b[n]).value; }
    hide Start, End;
  }

  lemma JoiningKeeps(windows: seq<Window>, w: Window)
    requires WellFormedRule(windows) && JoinsOn(windows, w)
    ensures WellFormedRule(windows + [w])
  {
    hide StrictDateOrdinal;
    var b, n := windows + [w], |windows|;
    forall i | 0 <= i < n
      ensures Positive(windows[i]) && Start(windows[i]).value <= Start(w).value
      ensures Overlap(windows[i], w) ==> windows[i].availability == w.availability
    {
      assert i < n - 1 ==> Start(windows[i]).value <= Start(windows[n - 1]).value;
      assert !Clashes(windows[i], w);
    }
    hide Start, End, Clashes;
    assert b[n] == w && forall i :: 0 <= i < n ==> b[i] == windows[i];
  }

  // ---------------------------------------------------------------- evaluating

  /** The platform's string comparison `a <= b`. */
  predicate AtMost(a: string, b: string) { !Less(b, a) }

  predicate Covers(w: Window, date: string) {
    AtMost(w.startInclusive, date) && Less(date, w.endExclusive)
  }

  function Covering(windows: seq<Window>, date: string): seq<Window> {
    if windows == [] then [] else (if Covers(windows[0], date) then [windows[0]] else []) + Covering(windows[1..], date)
  }

  predicate Matches(rule: Rule, subject: Subject, region: string) {
    rule.subject == subject && rule.region == region
  }

  function Matching(rules: seq<Rule>, subject: Subject, region: string): seq<Rule> {
    if rules == [] then [] else (if Matches(rules[0], subject, region) then [rules[0]] else []) + Matching(rules[1..], subject, region)
  }

  function Active(rules: seq<Rule>, date: string): seq<Window> {
    if rules == [] then [] else Covering(rules[0].windows, date) + Active(rules[1..], date)
  }

  function Availabilities(windows: seq<Window>): set<Availability> {
    set w | w in windows :: w.availability
  }

  function Evaluate(rules: seq<Rule>, subject: Subject, region: string, date: string): Result<Outcome, Fault> {
    if !ValidDate(date) then Failure(InvalidDate)
    else
      var matching := Matching(rules, subject, region);
      var active := Active(matching, date);
      if matching == [] then Success(Unspecified)
      else if |Availabilities(active)| > 1 then Failure(Contradiction)
      else if active == [] then Success(Season(Unavailable))
      else Success(Season(active[0].availability))
  }

  lemma {:induction false} CoveringIs(windows: seq<Window>, date: string)
    ensures forall w :: w in Covering(windows, date) <==> w in windows && Covers(w, date)
  {
    if windows != [] {
      CoveringIs(windows[1..], date);
      assert windows == [windows[0]] + windows[1..];
      hide Covers;
    }
  }

  lemma {:induction false} ActiveIs(rules: seq<Rule>, date: string)
    ensures forall w :: w in Active(rules, date) <==> exists r :: r in rules && w in r.windows && Covers(w, date)
  {
    if rules != [] {
      ActiveIs(rules[1..], date);
      CoveringIs(rules[0].windows, date);
      assert rules == [rules[0]] + rules[1..];
      hide Covers;
    }
  }

  lemma {:induction false} MatchingIs(rules: seq<Rule>, subject: Subject, region: string)
    ensures forall r :: r in Matching(rules, subject, region) <==> r in rules && Matches(r, subject, region)
  {
    if rules != [] {
      MatchingIs(rules[1..], subject, region);
      assert rules == [rules[0]] + rules[1..];
      hide Matches;
    }
  }

  /** A window some matching rule has in force on the date. */
  predicate InForce(rules: seq<Rule>, subject: Subject, region: string, date: string, w: Window) {
    exists r :: r in rules && Matches(r, subject, region) && w in r.windows && Covers(w, date)
  }

  lemma ManyDiffer(windows: seq<Window>)
    ensures |Availabilities(windows)| > 1 <==> exists w, x :: w in windows && x in windows && w.availability != x.availability
  {
    var s := Availabilities(windows);
    if |s| > 1 {
      TwoMembers(s);
      var a, b :| a in s && b in s && a != b;
    } else {
      forall w, x | w in windows && x in windows ensures w.availability == x.availability { OneMember(s, w.availability, x.availability); }
    }
  }

  lemma TwoMembers<T>(s: set<T>)
    requires |s| > 1
    ensures exists a, b :: a in s && b in s && a != b
  {
    var a :| a in s;
    assert |s - {a}| > 0;
    var b :| b in s - {a};
  }

  lemma OneMember<T>(s: set<T>, a: T, b: T)
    requires a in s && b in s && |s| <= 1
    ensures a == b
  {
    assert |s - {a}| == 0;
    assert b !in s - {a};
  }

  lemma NoneMatching(rules: seq<Rule>, subject: Subject, region: string)
    ensures Matching(rules, subject, region) == [] <==> !exists rule :: rule in rules && Matches(rule, subject, region)
  {
    MatchingIs(rules, subject, region);
    var matching := Matching(rules, subject, region);
    assert matching != [] ==> matching[0] in matching;
    hide Matching, Matches;
  }

  /** Evaluation fails on a valid date exactly when two windows in force disagree, and otherwise says what they say. */
  lemma EvaluationMeans(rules: seq<Rule>, subject: Subject, region: string, date: string)
    requires ValidDate(date)
    ensures var r := Evaluate(rules, subject, region, date);
      && (r == Failure(Contradiction) <==> exists w, x :: InForce(rules, subject, region, date, w) && InForce(rules, subject, region, date, x) && w.availability != x.availability)
      && r != Failure(InvalidDate)
      && (r == Success(Unspecified) <==> !exists rule :: rule in rules && Matches(rule, subject, region))
      && (r.Success? ==> forall w :: InForce(rules, subject, region, date, w) ==> r.value == Season(w.availability))
      && (r.Success? && r.value.Season? && (forall w :: !InForce(rules, subject, region, date, w)) ==> r.value == Season(Unavailable))
  {
    var matching := Matching(rules, subject, region);
    var active := Active(matching, date);
    MatchingIs(rules, subject, region);
    ActiveIs(matching, date);
    ManyDiffer(active);
    assert forall w :: w in active <==> InForce(rules, subject, region, date, w);
    NoneMatching(rules, subject, region);
    hide Matching, Active, Availabilities, Covers, ValidDate, InForce, Matches;
    assert active != [] ==> active[0] in active;
  }

  /** A window of a rule for just this subject and region, from its start on and before its end. */
  predicate Applies(rules: seq<Rule>, subject: Subject, region: string, date: string, w: Window) {
    exists r :: r in rules && r.subject == subject && r.region == region && w in r.windows
      && (w.startInclusive == date || Less(w.startInclusive, date)) && Less(date, w.endExclusive)
  }

  lemma AppliesMeans(rules: seq<Rule>, subject: Subject, region: string, date: string, w: Window)
    ensures Applies(rules, subject, region, date, w) <==> InForce(rules, subject, region, date, w)
  {
    LessIsStrictOrder(date, w.startInclusive, date);
    hide Less;
  }

  predicate NoRuleFor(rules: seq<Rule>, subject: Subject, region: string) {
    forall r :: r in rules ==> !(r.subject == subject && r.region == region)
  }

  /** The answer for every date: an invalid one, no rule, windows that disagree, the availability they share, or none in force. */
  lemma EvaluationExactly(rules: seq<Rule>, subject: Subject, region: string, date: string, r: Result<Outcome, Fault>)
    ensures Evaluate(rules, subject, region, date) == r <==>
      if !ValidDate(date) then r == Failure(InvalidDate)
      else if NoRuleFor(rules, subject, region) then r == Success(Unspecified)
      else if exists w, x :: Applies(rules, subject, region, date, w) && Applies(rules, subject, region, date, x) && w.availability != x.availability
      then r == Failure(Contradiction)
      else if exists w :: Applies(rules, subject, region, date, w)
      then exists w :: Applies(rules, subject, region, date, w) && r == Success(Season(w.availability))
      else r == Success(Season(Unavailable))
  {
    if ValidDate(date) {
      EvaluationMeans(rules, subject, region, date);
      forall w ensures Applies(rules, subject, region, date, w) <==> InForce(rules, subject, region, date, w) {
        AppliesMeans(rules, subject, region, date, w);
      }
      assert NoRuleFor(rules, subject, region) <==> !exists rule :: rule in rules && Matches(rule, subject, region);
      OnlyAnswers(rules, subject, region, date);
      hide Evaluate, Applies, InForce, NoRuleFor, Matches, ValidDate;
    }
  }

  lemma OnlyAnswers(rules: seq<Rule>, subject: Subject, region: string, date: string)
    requires ValidDate(date)
    ensures var r := Evaluate(rules, subject, region, date); r.Success? || r == Failure(Contradiction)
  {
    hide ValidDate, Matching, Active, Availabilities;
  }

  /** On valid dates a window covers a date just when the day lies in its half-open range of days. */
  lemma CoversByDay(w: Window, date: string)
    requires Positive(w) && ValidDate(date)
    ensures Covers(w, date) <==> OnDay(w, StrictDateOrdinal(date).value)
  {
    StringOrderIsDateOrder(date, w.startInclusive);
    StringOrderIsDateOrder(date, w.endExclusive);
  }

  /**
   * A rule that compiles never contradicts itself: on every valid date it yields the availability of any window
   * covering the day, and is unavailable on the days no window covers.
   */
  lemma CompiledRuleAnswers(rule: Rule, date: string)
    requires WellFormedRule(rule.windows) && ValidDate(date)
    ensures var day, r := StrictDateOrdinal(date).value, Evaluate([rule], rule.subject, rule.region, date);
      && r.Success? && r.value.Season?
      && (forall w :: w in rule.windows && OnDay(w, day) ==> r.value == Season(w.availability))
      && ((forall w :: w in rule.windows ==> !OnDay(w, day)) ==> r.value == Season(Unavailable))
  {
    EvaluationMeans([rule], rule.subject, rule.region, date);
    forall w | w in rule.windows ensures Covers(w, date) <==> OnDay(w, StrictDateOrdinal(date).value) {
      CoversByDay(w, date);
    }
    hide StrictDateOrdinal, Covers, Evaluate, ValidDate;
    forall w, x | InForce([rule], rule.subject, rule.region, date, w) && InForce([rule], rule.subject, rule.region, date, x)
      ensures w.availability == x.availability
    {
      CoveringAgree(rule.windows, w, x, StrictDateOrdinal(date).value);
    }
    forall w | w in rule.windows && Covers(w, date) ensures InForce([rule], rule.subject, rule.region, date, w) { assert rule in [rule]; }
  }

  lemma CoveringAgree(windows: seq<Window>, w: Window, x: Window, day: int)
    requires WellFormedRule(windows) && w in windows && x in windows
    requires OnDay(w, day) && OnDay(x, day)
    ensures w.availability == x.availability
  {
    hide StrictDateOrdinal, Start, End;
    var i :| 0 <= i < |windows| && windows[i] == w;
    var j :| 0 <= j < |windows| && windows[j] == x;
    assert Overlap(w, x) && Overlap(x, w);
    hide Positive, OnDay, Overlap;
  }
}
