/**
 * The component extractor of the backend AI service: `detectComponentType`,
 * a first-match-wins keyword classifier, and `parseComponents`, a line-by-line
 * brace-depth scanner that cuts a model reply into `{ name, code }` records.
 *
 * The scanner is specified by a step function over lines (`Step`, `Run`,
 * `Trace`); the method `ParseComponents` is the source's loop, proved to
 * compute `Parse`. `TraceShape` then says exactly which lines make up each
 * record and why it was closed.
 */
module Extractor {
  import opened Text

  /** One extracted component: a role label and its source text. */
  datatype Record = Record(name: string, code: string)

  /** A record starts at a line whose trimmed text begins with this marker. */
  const StartMarker: string := "() =>"

  // ===========================================================================
  // detectComponentType
  // ===========================================================================

  /** The role label of a piece of component text (ai.service.ts `detectComponentType`). */
  function DetectComponentType(code: string): string {
    var lower := Lower(code);
    if Contains(lower, "<button") then "Button"
    else if Contains(lower, "<input") then "Input"
    else if Contains(lower, "<textarea") then "Textarea"
    else if Contains(lower, "<header") || Contains(lower, "<nav") then "Navbar"
    else if Contains(lower, "modal") || Contains(lower, "dialog") then "Modal"
    else if Contains(lower, "<span") && Contains(lower, "badge") then "Badge"
    else if Contains(lower, "card") || (Contains(lower, "<div") && Contains(lower, "rounded")) then "Card"
    else "Component"
  }

  /**
   * The classifier as data: a rule fires when all keywords of one of its
   * alternatives occur in the lower-cased text; the first rule that fires wins.
   */
  datatype Rule = Rule(role: string, alternatives: seq<seq<string>>)

  const Rules: seq<Rule> := [
    Rule("Button", [["<button"]]),
    Rule("Input", [["<input"]]),
    Rule("Textarea", [["<textarea"]]),
    Rule("Navbar", [["<header"], ["<nav"]]),
    Rule("Modal", [["modal"], ["dialog"]]),
    Rule("Badge", [["<span", "badge"]]),
    Rule("Card", [["card"], ["<div", "rounded"]])
  ]

  /** The label given when no rule fires. */
  const Fallback: string := "Component"

  predicate AllOccur(text: string, keys: seq<string>) {
    keys == [] || (Contains(text, keys[0]) && AllOccur(text, keys[1..]))
  }

  predicate AnyAlternative(text: string, alternatives: seq<seq<string>>) {
    alternatives != [] && (AllOccur(text, alternatives[0]) || AnyAlternative(text, alternatives[1..]))
  }

  predicate Fires(rule: Rule, text: string) {
    AnyAlternative(text, rule.alternatives)
  }

  /** The index of the first rule that fires, or `|rules|` when none does. */
  function FirstFiring(rules: seq<Rule>, text: string): (i: nat)
    ensures i <= |rules|
    ensures i < |rules| ==> Fires(rules[i], text)
    ensures forall j :: 0 <= j < i ==> !Fires(rules[j], text)
  {
    if rules == [] then 0
    else if Fires(rules[0], text) then 0
    else 1 + FirstFiring(rules[1..], text)
  }

  /** The role the rule table assigns to an already lower-cased text. */
  function RoleByTable(text: string): string {
    var i := FirstFiring(Rules, text);
    if i < |Rules| then Rules[i].role else Fallback
  }

  lemma AllOccurOne(text: string, a: string)
    ensures AllOccur(text, [a]) == Contains(text, a)
  {
    assert [a][1..] == [];
  }

  lemma AllOccurTwo(text: string, a: string, b: string)
    ensures AllOccur(text, [a, b]) == (Contains(text, a) && Contains(text, b))
  {
    assert [a, b][1..] == [b];
    AllOccurOne(text, b);
  }

  lemma AnyOne(text: string, x: seq<string>)
    ensures AnyAlternative(text, [x]) == AllOccur(text, x)
  {
    assert [x][1..] == [];
  }

  lemma AnyTwo(text: string, x: seq<string>, y: seq<string>)
    ensures AnyAlternative(text, [x, y]) == (AllOccur(text, x) || AllOccur(text, y))
  {
    assert [x, y][1..] == [y];
    AnyOne(text, y);
  }

  /** Each rule of the table fires exactly when the classifier's condition for its role holds. */
  lemma RulesFire(lower: string)
    ensures Fires(Rules[0], lower) == Contains(lower, "<button")
    ensures Fires(Rules[1], lower) == Contains(lower, "<input")
    ensures Fires(Rules[2], lower) == Contains(lower, "<textarea")
    ensures Fires(Rules[3], lower) == (Contains(lower, "<header") || Contains(lower, "<nav"))
    ensures Fires(Rules[4], lower) == (Contains(lower, "modal") || Contains(lower, "dialog"))
    ensures Fires(Rules[5], lower) == (Contains(lower, "<span") && Contains(lower, "badge"))
    ensures Fires(Rules[6], lower) == (Contains(lower, "card") || (Contains(lower, "<div") && Contains(lower, "rounded")))
  {
    AnyOne(lower, ["<button"]);
    AllOccurOne(lower, "<button");
    AnyOne(lower, ["<input"]);
    AllOccurOne(lower, "<input");
    AnyOne(lower, ["<textarea"]);
    AllOccurOne(lower, "<textarea");
    AnyTwo(lower, ["<header"], ["<nav"]);
    AllOccurOne(lower, "<header");
    AllOccurOne(lower, "<nav");
    AnyTwo(lower, ["modal"], ["dialog"]);
    AllOccurOne(lower, "modal");
    AllOccurOne(lower, "dialog");
    AnyOne(lower, ["<span", "badge"]);
    AllOccurTwo(lower, "<span", "badge");
    AnyTwo(lower, ["card"], ["<div", "rounded"]);
    AllOccurOne(lower, "card");
    AllOccurTwo(lower, "<div", "rounded");
  }

  /** `detectComponentType` is the rule table read top to bottom on the lower-cased text. */
  lemma DetectFollowsRuleTable(code: string)
    ensures DetectComponentType(code) == RoleByTable(Lower(code))
  {
    var lower := Lower(code);
    RulesFire(lower);
    // The first firing index is pinned down by its contract alone.
    var i := FirstFiring(Rules, lower);
    forall k | 0 <= k < |Rules| && Fires(Rules[k], lower)
      ensures i <= k
    {
    }
  }

  /**
   * The role is always one of the eight labels; it is the role of rule `i`
   * exactly when rule `i` fires and no earlier rule does, and `Component`
   * exactly when no rule fires.
   */
  lemma DetectFirstMatchWins(code: string)
    ensures DetectComponentType(code) in {"Button", "Input", "Textarea", "Navbar", "Modal", "Badge", "Card", "Component"}
    ensures forall i :: 0 <= i < |Rules| ==>
      (DetectComponentType(code) == Rules[i].role <==>
        Fires(Rules[i], Lower(code)) && forall j :: 0 <= j < i ==> !Fires(Rules[j], Lower(code)))
    ensures DetectComponentType(code) == Fallback <==> forall j :: 0 <= j < |Rules| ==> !Fires(Rules[j], Lower(code))
  {
    DetectFollowsRuleTable(code);
    var lower := Lower(code);
    var k := FirstFiring(Rules, lower);
    forall i | 0 <= i < |Rules|
      ensures DetectComponentType(code) == Rules[i].role <==>
        Fires(Rules[i], lower) && forall j :: 0 <= j < i ==> !Fires(Rules[j], lower)
    {
      if k < |Rules| && k != i {
        assert Rules[k].role != Rules[i].role;
      }
    }
  }

  /** Classification ignores case: classifying the lower-cased text gives the same role. */
  lemma DetectIgnoresCase(code: string)
    ensures DetectComponentType(Lower(code)) == DetectComponentType(code)
  {
    LowerIdempotent(code);
  }

  /** Classification ignores surrounding whitespace, since no keyword starts or ends with it. */
  lemma DetectIgnoresTrim(code: string)
    ensures DetectComponentType(Trim(code)) == DetectComponentType(code)
  {
    DetectFollowsRuleTable(code);
    DetectFollowsRuleTable(Trim(code));
    forall i | 0 <= i < |Rules|
      ensures Fires(Rules[i], Lower(Trim(code))) == Fires(Rules[i], Lower(code))
    {
      RuleIgnoresTrim(code, i);
    }
  }

  /** Every keyword of the rule table is solid: it neither starts nor ends with whitespace. */
  lemma RuleKeywordsSolid(i: int, a: int, k: int)
    requires 0 <= i < |Rules| && 0 <= a < |Rules[i].alternatives| && 0 <= k < |Rules[i].alternatives[a]|
    ensures SolidKey(Rules[i].alternatives[a][k])
  {
  }

  lemma {:induction false} AllOccurIgnoresTrim(code: string, keys: seq<string>)
    requires forall k :: 0 <= k < |keys| ==> SolidKey(keys[k])
    ensures AllOccur(Lower(Trim(code)), keys) == AllOccur(Lower(code), keys)
  {
    if keys != [] {
      ContainsLowerTrim(code, keys[0]);
      AllOccurIgnoresTrim(code, keys[1..]);
    }
  }

  lemma {:induction false} AnyAlternativeIgnoresTrim(code: string, alternatives: seq<seq<string>>)
    requires forall a, k :: 0 <= a < |alternatives| && 0 <= k < |alternatives[a]| ==> SolidKey(alternatives[a][k])
    ensures AnyAlternative(Lower(Trim(code)), alternatives) == AnyAlternative(Lower(code), alternatives)
  {
    if alternatives != [] {
      AllOccurIgnoresTrim(code, alternatives[0]);
      AnyAlternativeIgnoresTrim(code, alternatives[1..]);
    }
  }

  /** Trimming the text does not change whether a rule of the table fires. */
  lemma RuleIgnoresTrim(code: string, i: int)
    requires 0 <= i < |Rules|
    ensures Fires(Rules[i], Lower(Trim(code))) == Fires(Rules[i], Lower(code))
  {
    forall a, k | 0 <= a < |Rules[i].alternatives| && 0 <= k < |Rules[i].alternatives[a]|
      ensures SolidKey(Rules[i].alternatives[a][k])
    {
      RuleKeywordsSolid(i, a, k);
    }
    AnyAlternativeIgnoresTrim(code, Rules[i].alternatives);
  }

  // ===========================================================================
  // parseComponents: the scan as a step function over lines
  // ===========================================================================

  predicate IsStart(line: string) {
    StartMarker <= Trim(line)
  }

  /** The running brace count of a text: `{` minus `}`. */
  function BraceDelta(s: string): int {
    Count(s, '{') - Count(s, '}')
  }

  /** Lines accumulated into a record, each followed by a newline. */
  function Lines(ls: seq<string>): string {
    if ls == [] then [] else Lines(ls[..|ls| - 1]) + ls[|ls| - 1] + "\n"
  }

  /** The number of start lines. */
  function StartCount(ls: seq<string>): nat {
    if ls == [] then 0 else StartCount(ls[..|ls| - 1]) + (if IsStart(ls[|ls| - 1]) then 1 else 0)
  }

  /** Why a record was emitted. */
  datatype Closing =
    | Balanced     // its braces came back to zero on a line holding a `}`
    | Superseded   // a new start line arrived while it was open
    | EndOfText    // the text ended while it was open
    | WholeText    // no start line at all: the whole text is the record

  /** An emitted record, with the line range `[first, last)` it was built from. */
  datatype Emitted = Emitted(text: string, how: Closing, first: nat, last: nat)

  /** The record made from accumulated text: its classification and its trimmed form. */
  function Made(text: string): Record {
    Record(DetectComponentType(text), Trim(text))
  }

  /** The variables of the source loop, plus the index of the open record's start line. */
  datatype ScanState = ScanState(emitted: seq<Emitted>, current: string, braceCount: int, inFunction: bool, openedAt: nat)

  const Initial: ScanState := ScanState([], [], 0, false, 0)

  function Close(st: ScanState, how: Closing, last: nat): Emitted {
    Emitted(st.current, how, st.openedAt, last)
  }

  /** One iteration of the source loop on line number `k`: its two halves in turn. */
  function Step(st: ScanState, line: string, k: nat): ScanState {
    Tally(Enter(st, line, k), line, k)
  }

  /** The first half: a start line flushes the open record and opens a new one; another line joins the open record. */
  function Enter(st: ScanState, line: string, k: nat): ScanState {
    if IsStart(line) then
      var flushed := if Trim(st.current) != [] && st.inFunction then [Close(st, Superseded, k)] else [];
      ScanState(st.emitted + flushed, line + "\n", 0, true, k)
    else if st.inFunction then st.(current := st.current + line + "\n")
    else st
  }

  /** The second half: inside a record, count the line's braces and close it as balanced when they come back to zero on a `}`. */
  function Tally(st: ScanState, line: string, k: nat): ScanState {
    if !st.inFunction then st
    else
      var count := st.braceCount + BraceDelta(line);
      if count == 0 && '}' in line then
        ScanState(st.emitted + [Close(st, Balanced, k + 1)], [], count, false, st.openedAt)
      else
        st.(braceCount := count)
  }

  /** The state after the loop has processed all of `ls`. */
  function Run(ls: seq<string>): ScanState {
    if ls == [] then Initial else Step(Run(ls[..|ls| - 1]), ls[|ls| - 1], |ls| - 1)
  }

  /** The records after the loop, with the one still open at end of text. */
  function Finish(st: ScanState, n: nat): seq<Emitted> {
    st.emitted + (if Trim(st.current) != [] && st.inFunction then [Close(st, EndOfText, n)] else [])
  }

  function SplitLines(code: string): seq<string> {
    Split(code, '\n')
  }

  /** Every record `parseComponents` returns, with how and from which lines it was made. */
  function Trace(code: string): seq<Emitted> {
    var lines := SplitLines(code);
    var found := Finish(Run(lines), |lines|);
    if found == [] then [Emitted(code, WholeText, 0, |lines|)]
    else found
  }

  function Records(es: seq<Emitted>): (rs: seq<Record>)
    ensures |rs| == |es| && forall i :: 0 <= i < |es| ==> rs[i] == Made(es[i].text)
  {
    seq(|es|, i requires 0 <= i < |es| => Made(es[i].text))
  }

  /** What `parseComponents(code)` returns. */
  function Parse(code: string): seq<Record> {
    Records(Trace(code))
  }

  // ===========================================================================
  // What each record is
  // ===========================================================================

  /** Line `j` would close a record opened at line `f`: balance zero and a `}` on the line. */
  predicate ClosesAt(ls: seq<string>, f: nat, j: nat)
    requires f <= j < |ls|
  {
    BraceDelta(Lines(ls[f..j + 1])) == 0 && '}' in ls[j]
  }

  predicate NeverClosed(ls: seq<string>, f: nat, upto: nat)
    requires f <= upto <= |ls|
  {
    forall j :: f <= j < upto ==> !ClosesAt(ls, f, j)
  }

  /**
   * `e` is the `i`-th record found by the scan of `ls`: it is made of lines
   * `first` to `last - 1`, the first is the `i`-th start line, no later one
   * in the range is a start line, and it closed for the reason `how` says.
   */
  ghost predicate Scanned(ls: seq<string>, e: Emitted, i: nat) {
    && e.first < e.last <= |ls|
    && IsStart(ls[e.first])
    && StartCount(ls[..e.first]) == i
    && (forall j {:trigger IsStart(ls[j])} :: e.first < j < e.last ==> !IsStart(ls[j]))
    && e.text == Lines(ls[e.first..e.last])
    && ClosedAsSaid(ls, e)
  }

  /** The record closed for the reason its tag gives. */
  ghost predicate ClosedAsSaid(ls: seq<string>, e: Emitted)
    requires e.first < e.last <= |ls|
  {
    match e.how
    case Balanced => ClosesAt(ls, e.first, e.last - 1) && NeverClosed(ls, e.first, e.last - 1)
    case Superseded => e.last < |ls| && IsStart(ls[e.last]) && NeverClosed(ls, e.first, e.last)
    case EndOfText => e.last == |ls| && NeverClosed(ls, e.first, e.last)
    case WholeText => false
  }

  /** Records already emitted are the first `|es|` records of the scan of `ls`. */
  ghost predicate AllScanned(ls: seq<string>, es: seq<Emitted>) {
    forall i :: 0 <= i < |es| ==> Scanned(ls, es[i], i) && es[i].how != EndOfText
  }

  /**
   * The open record started at line `o`, holds lines `o..` of `ls`, and the
   * loop's brace count for it is `count` once the last line's braces are
   * added (`pending` is that last line's contribution still to be counted).
   */
  ghost predicate OpenRecord(ls: seq<string>, o: nat, current: string, count: int, done: nat, pending: int, checkedUpTo: nat)
  {
    && o < |ls| && checkedUpTo <= |ls|
    && IsStart(ls[o])
    && StartCount(ls[..o]) == done
    && StartCount(ls) == done + 1
    && (forall j {:trigger IsStart(ls[j])} :: o < j < |ls| ==> !IsStart(ls[j]))
    && current == Lines(ls[o..])
    && count + pending == BraceDelta(current)
    && o <= checkedUpTo
    && NeverClosed(ls, o, checkedUpTo)
  }

  /** What holds of the loop's variables after each line. */
  ghost predicate Inv(ls: seq<string>, st: ScanState) {
    && AllScanned(ls, st.emitted)
    && (st.inFunction ==> OpenRecord(ls, st.openedAt, st.current, st.braceCount, |st.emitted|, 0, |ls|))
    && (!st.inFunction ==> st.current == [] && StartCount(ls) == |st.emitted|)
  }

  lemma LinesSnoc(ls: seq<string>, x: string)
    ensures Lines(ls + [x]) == Lines(ls) + x + "\n"
  {
    assert (ls + [x])[..|ls|] == ls;
  }

  lemma StartCountSnoc(ls: seq<string>, x: string)
    ensures StartCount(ls + [x]) == StartCount(ls) + (if IsStart(x) then 1 else 0)
  {
    assert (ls + [x])[..|ls|] == ls;
  }

  lemma BraceDeltaAppend(a: string, b: string)
    ensures BraceDelta(a + b) == BraceDelta(a) + BraceDelta(b)
  {
    CountAppend(a, b, '{');
    CountAppend(a, b, '}');
  }

  lemma BraceDeltaLine(cur: string, x: string)
    ensures BraceDelta(cur + x + "\n") == BraceDelta(cur) + BraceDelta(x)
  {
    BraceDeltaAppend(cur + x, "\n");
    BraceDeltaAppend(cur, x);
  }

  /** A record that has begun at a start line is never blank. */
  lemma OpenRecordNotBlank(start: string, rest: string)
    requires IsStart(start)
    ensures Trim(start + rest) != [] && StartMarker <= Trim(start + rest)
  {
    TrimKeepsTrimmedHead(start, rest);
  }

  lemma LinesFrom(ls: seq<string>, o: nat)
    requires o < |ls|
    ensures Lines(ls[o..]) == ls[o] + ("\n" + Lines(ls[o + 1..]))
    decreases |ls|
  {
    if o + 1 == |ls| {
      assert ls[o..][..0] == [];
      assert Lines(ls[o + 1..]) == [];
    } else {
      var init := ls[..|ls| - 1];
      LinesFrom(init, o);
      assert ls[o..][..|ls[o..]| - 1] == init[o..];
      assert ls[o + 1..][..|ls[o + 1..]| - 1] == init[o + 1..];
    }
  }

  /** The text of lines from a start line on is never blank and begins, once trimmed, with the marker. */
  lemma LinesFromStartNotBlank(ls: seq<string>, o: nat)
    requires o < |ls| && IsStart(ls[o])
    ensures Trim(Lines(ls[o..])) != [] && StartMarker <= Trim(Lines(ls[o..]))
  {
    LinesFrom(ls, o);
    OpenRecordNotBlank(ls[o], "\n" + Lines(ls[o + 1..]));
  }

  lemma ExtendNeverClosed(ls: seq<string>, x: string, f: nat, upto: nat)
    requires f <= upto <= |ls|
    ensures NeverClosed(ls + [x], f, upto) == NeverClosed(ls, f, upto)
  {
    forall j | f <= j < upto
      ensures ClosesAt(ls + [x], f, j) == ClosesAt(ls, f, j)
    {
      assert (ls + [x])[f..j + 1] == ls[f..j + 1];
    }
  }

  /** Facts about the lines `ls` stay true when a line is appended. */
  lemma ExtendScanned(ls: seq<string>, x: string, e: Emitted, i: nat)
    requires Scanned(ls, e, i) && e.how != EndOfText
    ensures Scanned(ls + [x], e, i)
  {
    var ls' := ls + [x];
    assert ls'[..e.first] == ls[..e.first];
    assert ls'[e.first..e.last] == ls[e.first..e.last];
    ExtendNeverClosed(ls, x, e.first, e.last - 1);
    if e.how != Balanced {
      ExtendNeverClosed(ls, x, e.first, e.last);
    } else {
      assert ls'[e.first..e.last - 1 + 1] == ls[e.first..e.last - 1 + 1];
    }
  }

  lemma ExtendAllScanned(ls: seq<string>, x: string, es: seq<Emitted>)
    requires AllScanned(ls, es)
    ensures AllScanned(ls + [x], es)
  {
    forall i | 0 <= i < |es|
      ensures Scanned(ls + [x], es[i], i)
    {
      ExtendScanned(ls, x, es[i], i);
    }
  }

  lemma AppendScanned(ls: seq<string>, es: seq<Emitted>, e: Emitted)
    requires AllScanned(ls, es) && Scanned(ls, e, |es|) && e.how != EndOfText
    ensures AllScanned(ls, es + [e])
  {
  }

  /** A start line closes the open record as superseded. */
  lemma SupersededScanned(ls: seq<string>, x: string, o: nat, current: string, count: int, done: nat)
    requires OpenRecord(ls, o, current, count, done, 0, |ls|) && IsStart(x)
    ensures Trim(current) != []
    ensures Scanned(ls + [x], Emitted(current, Superseded, o, |ls|), done)
  {
    var ls' := ls + [x];
    LinesFromStartNotBlank(ls, o);
    assert ls'[o..|ls|] == ls[o..];
    assert ls'[..o] == ls[..o];
    ExtendNeverClosed(ls, x, o, |ls|);
  }

  /** A start line opens a record of its own. */
  lemma StartOpens(ls: seq<string>, x: string, done: nat)
    requires IsStart(x) && StartCount(ls) == done
    ensures OpenRecord(ls + [x], |ls|, x + "\n", 0, done, BraceDelta(x), |ls|)
  {
    var ls' := ls + [x];
    StartCountSnoc(ls, x);
    assert ls'[..|ls|] == ls;
    assert ls'[|ls|] == x;
    assert Lines(ls'[|ls|..]) == x + "\n" by {
      assert ls'[|ls|..] == [x];
      assert Lines([x]) == Lines([]) + x + "\n";
    }
    BraceDeltaLine([], x);
  }

  /** A line that is not a start line joins the open record. */
  lemma LineJoins(ls: seq<string>, x: string, o: nat, current: string, count: int, done: nat)
    requires OpenRecord(ls, o, current, count, done, 0, |ls|) && !IsStart(x)
    ensures OpenRecord(ls + [x], o, current + x + "\n", count, done, BraceDelta(x), |ls|)
  {
    var ls' := ls + [x];
    StartCountSnoc(ls, x);
    assert ls'[o..] == ls[o..] + [x];
    LinesSnoc(ls[o..], x);
    BraceDeltaLine(current, x);
    assert ls'[..o] == ls[..o];
    ExtendNeverClosed(ls, x, o, |ls|);
  }

  lemma NeverClosedExtend(ls: seq<string>, f: nat, upto: nat)
    requires f <= upto < |ls| && NeverClosed(ls, f, upto) && !ClosesAt(ls, f, upto)
    ensures NeverClosed(ls, f, upto + 1)
  {
  }

  /** Counting the last line's braces closes the record as balanced when they come back to zero on a `}`. */
  lemma LastLineCloses(ls: seq<string>, o: nat, current: string, count: int, done: nat)
    requires |ls| > 0 && OpenRecord(ls, o, current, count, done, BraceDelta(ls[|ls| - 1]), |ls| - 1)
    requires count + BraceDelta(ls[|ls| - 1]) == 0 && '}' in ls[|ls| - 1]
    ensures Scanned(ls, Emitted(current, Balanced, o, |ls|), done)
    ensures StartCount(ls) == done + 1
  {
    SliceToEnd(ls, o);
    ClosesAtEnd(ls, o, current);
  }

  lemma SliceToEnd(ls: seq<string>, o: nat)
    requires o <= |ls|
    ensures ls[o..|ls|] == ls[o..]
  {
  }

  /** The last line closes a record whose text so far is balanced and which has a `}` on it. */
  lemma ClosesAtEnd(ls: seq<string>, o: nat, current: string)
    requires o < |ls| && current == Lines(ls[o..])
    requires BraceDelta(current) == 0 && '}' in ls[|ls| - 1]
    ensures ClosesAt(ls, o, |ls| - 1)
  {
    assert ls[o..|ls| - 1 + 1] == ls[o..];
  }

  /** Otherwise the record stays open with the updated count. */
  lemma LastLineContinues(ls: seq<string>, o: nat, current: string, count: int, done: nat)
    requires |ls| > 0 && OpenRecord(ls, o, current, count, done, BraceDelta(ls[|ls| - 1]), |ls| - 1)
    requires !(count + BraceDelta(ls[|ls| - 1]) == 0 && '}' in ls[|ls| - 1])
    ensures OpenRecord(ls, o, current, count + BraceDelta(ls[|ls| - 1]), done, 0, |ls|)
  {
    var n := |ls| - 1;
    assert ls[o..n + 1] == ls[o..];
    NeverClosedExtend(ls, o, n);
  }

  /** Counting the last line's braces either closes the record as balanced or keeps it open. */
  lemma CountLastLine(ls: seq<string>, o: nat, current: string, count: int, done: nat)
    requires |ls| > 0 && OpenRecord(ls, o, current, count, done, BraceDelta(ls[|ls| - 1]), |ls| - 1)
    ensures var c := count + BraceDelta(ls[|ls| - 1]);
      if c == 0 && '}' in ls[|ls| - 1] then
        Scanned(ls, Emitted(current, Balanced, o, |ls|), done) &&
        StartCount(ls) == done + 1
      else
        OpenRecord(ls, o, current, c, done, 0, |ls|)
  {
    if count + BraceDelta(ls[|ls| - 1]) == 0 && '}' in ls[|ls| - 1] {
      LastLineCloses(ls, o, current, count, done);
    } else {
      LastLineContinues(ls, o, current, count, done);
    }
  }

  /** What holds between the two halves of an iteration on the last line of `ls`. */
  ghost predicate Entered(ls: seq<string>, st: ScanState)
    requires |ls| > 0
  {
    && AllScanned(ls, st.emitted)
    && (st.inFunction ==> OpenRecord(ls, st.openedAt, st.current, st.braceCount, |st.emitted|, BraceDelta(ls[|ls| - 1]), |ls| - 1))
    && (!st.inFunction ==> st.current == [] && StartCount(ls) == |st.emitted|)
  }

  /** A start line flushes the open record, if any, and opens its own. */
  lemma EnterStart(ls: seq<string>, x: string, st: ScanState)
    requires Inv(ls, st) && IsStart(x)
    ensures Entered(ls + [x], Enter(st, x, |ls|))
  {
    var ls' := ls + [x];
    var n := |ls|;
    assert ls'[|ls'| - 1] == x;
    ExtendAllScanned(ls, x, st.emitted);
    var es := st.emitted;
    if st.inFunction {
      SupersededScanned(ls, x, st.openedAt, st.current, st.braceCount, |st.emitted|);
      es := es + [Close(st, Superseded, n)];
      AppendScanned(ls', st.emitted, Close(st, Superseded, n));
    } else {
      assert Trim(st.current) == [];
    }
    assert Enter(st, x, n) == ScanState(es, x + "\n", 0, true, n);
    StartOpens(ls, x, |es|);
  }

  /** A line that is not a start line joins the open record. */
  lemma EnterJoin(ls: seq<string>, x: string, st: ScanState)
    requires Inv(ls, st) && !IsStart(x) && st.inFunction
    ensures Entered(ls + [x], Enter(st, x, |ls|))
  {
    assert (ls + [x])[|ls|] == x;
    ExtendAllScanned(ls, x, st.emitted);
    LineJoins(ls, x, st.openedAt, st.current, st.braceCount, |st.emitted|);
  }

  /** A line outside every record is dropped. */
  lemma EnterIdle(ls: seq<string>, x: string, st: ScanState)
    requires Inv(ls, st) && !IsStart(x) && !st.inFunction
    ensures Entered(ls + [x], Enter(st, x, |ls|))
  {
    ExtendAllScanned(ls, x, st.emitted);
    StartCountSnoc(ls, x);
  }

  /** Counting the last line's braces restores the invariant. */
  lemma TallyPreserves(ls: seq<string>, st: ScanState)
    requires |ls| > 0 && Entered(ls, st)
    ensures Inv(ls, Tally(st, ls[|ls| - 1], |ls| - 1))
  {
    if st.inFunction {
      var x := ls[|ls| - 1];
      CountLastLine(ls, st.openedAt, st.current, st.braceCount, |st.emitted|);
      if st.braceCount + BraceDelta(x) == 0 && '}' in x {
        AppendScanned(ls, st.emitted, Close(st, Balanced, |ls|));
      }
    }
  }

  lemma StepPreserves(ls: seq<string>, x: string, st: ScanState)
    requires Inv(ls, st)
    ensures Inv(ls + [x], Step(st, x, |ls|))
  {
    if IsStart(x) {
      EnterStart(ls, x, st);
    } else if st.inFunction {
      EnterJoin(ls, x, st);
    } else {
      EnterIdle(ls, x, st);
    }
    assert (ls + [x])[|ls|] == x;
    TallyPreserves(ls + [x], Enter(st, x, |ls|));
  }

  /** The invariant of the lines with the last split off is the invariant of the lines. */
  lemma InvOfSnoc(ls: seq<string>, init: seq<string>, x: string, st: ScanState)
    requires |ls| > 0 && init == ls[..|ls| - 1] && x == ls[|ls| - 1]
    requires Inv(init + [x], st)
    ensures Inv(ls, st)
  {
    assert init + [x] == ls;
  }

  lemma {:induction false} RunInv(ls: seq<string>)
    ensures Inv(ls, Run(ls))
  {
    if ls != [] {
      var init, x := ls[..|ls| - 1], ls[|ls| - 1];
      RunInv(init);
      StepPreserves(init, x, Run(init));
      InvOfSnoc(ls, init, x, Step(Run(init), x, |init|));
    }
  }

  /**
   * The complete description of `parseComponents`. With no start line the
   * result is the single fallback record: the classification and the trimmed
   * form of the whole text. Otherwise there is exactly one record per start
   * line, in order; record `i` is the trimmed text of the lines from the
   * `i`-th start line up to where it closed, named by the classification of
   * those lines, and it closed on the first line that brought its brace count
   * back to zero with a `}` on it, or else at the next start line, or else at
   * the end of the text. Lines outside every record's range are dropped.
   */
  lemma TraceShape(code: string)
    ensures var ls := SplitLines(code);
      var t := Trace(code);
      && (StartCount(ls) == 0 ==>
            t == [Emitted(code, WholeText, 0, |ls|)])
      && (StartCount(ls) > 0 ==>
            && |t| == StartCount(ls)
            && forall i :: 0 <= i < |t| ==> Scanned(ls, t[i], i))
  {
    var ls := SplitLines(code);
    RunInv(ls);
    FinishScanned(ls, Run(ls));
  }

  /** Closing the record still open at the end of the text gives one record per start line. */
  lemma FinishScanned(ls: seq<string>, st: ScanState)
    requires Inv(ls, st)
    ensures var es := Finish(st, |ls|);
      |es| == StartCount(ls) && forall i :: 0 <= i < |es| ==> Scanned(ls, es[i], i)
  {
    if st.inFunction {
      var o := st.openedAt;
      LinesFromStartNotBlank(ls, o);
      SliceToEnd(ls, o);
      assert Scanned(ls, Close(st, EndOfText, |ls|), |st.emitted|);
    }
  }

  // ===========================================================================
  // Consequences stated record by record
  // ===========================================================================

  /** The number of records is the number of start lines, or 1 when there are none: never zero, even for empty input. */
  lemma ParseCount(code: string)
    ensures var n := StartCount(SplitLines(code));
      |Parse(code)| == (if n == 0 then 1 else n)
  {
    TraceShape(code);
  }

  /** Records closed by the balance rule hold as many `{` as `}`. */
  lemma BalancedRecordsAreBalanced(code: string)
    ensures forall i :: 0 <= i < |Parse(code)| && Trace(code)[i].how == Balanced ==>
      Count(Parse(code)[i].code, '{') == Count(Parse(code)[i].code, '}')
  {
    TraceShape(code);
    var ls := SplitLines(code);
    var t := Trace(code);
    forall i | 0 <= i < |t| && t[i].how == Balanced
      ensures Count(Trim(t[i].text), '{') == Count(Trim(t[i].text), '}')
    {
      assert Scanned(ls, t[i], i);
      assert ls[t[i].first..t[i].last - 1 + 1] == ls[t[i].first..t[i].last];
      CountTrim(t[i].text, '{');
      CountTrim(t[i].text, '}');
    }
  }

  /** The code of a scanned record is trimmed and begins with `() =>`. */
  lemma ScannedCodeMarked(ls: seq<string>, e: Emitted, i: nat)
    requires Scanned(ls, e, i)
    ensures StartMarker <= Trim(e.text) && Trim(Trim(e.text)) == Trim(e.text)
  {
    var prefix := ls[..e.last];
    assert prefix[e.first..] == ls[e.first..e.last];
    LinesFromStartNotBlank(prefix, e.first);
    TrimIdempotent(e.text);
  }

  /** Scanned records are trimmed and begin with `() =>`; the fallback record is made from the whole text. */
  lemma RecordsTrimmedAndMarked(code: string)
    ensures forall i :: 0 <= i < |Parse(code)| && Trace(code)[i].how != WholeText ==>
      StartMarker <= Parse(code)[i].code && Trim(Parse(code)[i].code) == Parse(code)[i].code
    ensures forall i :: 0 <= i < |Parse(code)| && Trace(code)[i].how == WholeText ==>
      Parse(code) == [Record(DetectComponentType(code), Trim(code))]
  {
    TraceShape(code);
    var ls := SplitLines(code);
    var t := Trace(code);
    forall i | 0 <= i < |t| && t[i].how != WholeText
      ensures StartMarker <= Trim(t[i].text) && Trim(Trim(t[i].text)) == Trim(t[i].text)
    {
      assert Scanned(ls, t[i], i);
      ScannedCodeMarked(ls, t[i], i);
    }
  }

  /** Every record's name is the classification of its own (trimmed) code. */
  lemma NamesClassifyCode(code: string)
    ensures forall r :: r in Parse(code) ==> r.name == DetectComponentType(r.code)
  {
    var t := Trace(code);
    forall i | 0 <= i < |t|
      ensures Made(t[i].text).name == DetectComponentType(Made(t[i].text).code)
    {
      DetectIgnoresTrim(t[i].text);
    }
  }

  /** Records appear in input order and their line ranges do not overlap. */
  lemma RecordsInOrder(code: string)
    ensures forall i, j :: 0 <= i < j < |Trace(code)| ==> Trace(code)[i].last <= Trace(code)[j].first
  {
    TraceShape(code);
    var ls := SplitLines(code);
    var t := Trace(code);
    forall i, j | 0 <= i < j < |t|
      ensures t[i].last <= t[j].first
    {
      assert Scanned(ls, t[i], i) && Scanned(ls, t[j], j);
      if t[j].first < t[i].last {
        if t[j].first <= t[i].first {
          StartCountMonotone(ls, t[j].first, t[i].first);
        }
      }
    }
  }

  lemma {:induction false} StartCountMonotone(ls: seq<string>, a: nat, b: nat)
    requires a <= b <= |ls|
    ensures StartCount(ls[..a]) <= StartCount(ls[..b])
    decreases b - a
  {
    if a < b {
      StartCountMonotone(ls, a, b - 1);
      assert ls[..b] == ls[..b - 1] + [ls[b - 1]];
      StartCountSnoc(ls[..b - 1], ls[b - 1]);
    }
  }

  // ===========================================================================
  // The source loop
  // ===========================================================================

  lemma RecordsSnoc(es: seq<Emitted>, e: Emitted)
    ensures Records(es + [e]) == Records(es) + [Made(e.text)]
  {
  }

  /** The state after line `k` is one iteration on from the state before it. */
  lemma RunNext(lines: seq<string>, k: nat)
    requires k < |lines|
    ensures Run(lines[..k + 1]) == Tally(Enter(Run(lines[..k]), lines[k], k), lines[k], k)
  {
    assert lines[..k + 1][..k] == lines[..k];
  }

  /** `parseComponents` returns the records of the finished scan, or the whole text when there are none. */
  lemma ParseOfRun(code: string)
    ensures var ls := SplitLines(code);
      var es := Finish(Run(ls), |ls|);
      Parse(code) == if es == [] then [Made(code)] else Records(es)
  {
  }

  /** The inner loop over a line's characters: `count` moved by the line's braces. */
  method CountBraces(line: string, count0: int) returns (count: int)
    ensures count == count0 + BraceDelta(line)
  {
    count := count0;
    for j := 0 to |line|
      invariant count == count0 + BraceDelta(line[..j])
    {
      assert line[..j + 1] == line[..j] + [line[j]];
      CountAppend(line[..j], [line[j]], '{');
      CountAppend(line[..j], [line[j]], '}');
      if line[j] == '{' { count := count + 1; }
      if line[j] == '}' { count := count - 1; }
    }
    assert line[..|line|] == line;
  }

  /** The loop's variables hold the scan state `st`. */
  predicate Holds(st: ScanState, components: seq<Record>, currentComponent: string, braceCount: int, inFunction: bool) {
    components == Records(st.emitted) && currentComponent == st.current &&
    braceCount == st.braceCount && inFunction == st.inFunction
  }

  /** One pass of the loop body on line number `k`. */
  method ScanLine(ghost st: ScanState, line: string, k: nat,
                  components0: seq<Record>, current0: string, count0: int, inFunction0: bool)
    returns (components: seq<Record>, currentComponent: string, braceCount: int, inFunction: bool)
    requires Holds(st, components0, current0, count0, inFunction0)
    ensures Holds(Step(st, line, k), components, currentComponent, braceCount, inFunction)
  {
    components, currentComponent, braceCount, inFunction := components0, current0, count0, inFunction0;
    // the state after the first half of the body
    ghost var st1 := Enter(st, line, k);
    if IsStart(line) {
      if Trim(currentComponent) != [] && inFunction {
        RecordsSnoc(st.emitted, Close(st, Superseded, k));
        components := components + [Made(currentComponent)];
      }
      currentComponent := line + "\n";
      inFunction := true;
      braceCount := 0;
    } else if inFunction {
      currentComponent := currentComponent + line + "\n";
    }
    assert Holds(st1, components, currentComponent, braceCount, inFunction);
    if inFunction {
      braceCount := CountBraces(line, braceCount);
      if braceCount == 0 && '}' in line {
        RecordsSnoc(st1.emitted, Close(st1, Balanced, k + 1));
        components := components + [Made(currentComponent)];
        currentComponent := [];
        inFunction := false;
      }
    }
  }

  /** `AIService.parseComponents`: the brace-depth line scanner. */
  method ParseComponents(code: string) returns (components: seq<Record>)
    ensures components == Parse(code)
    ensures |components| >= 1
  {
    components := [];
    var lines := SplitLines(code);
    var currentComponent: string := [];
    var braceCount := 0;
    var inFunction := false;
    for k := 0 to |lines|
      invariant Holds(Run(lines[..k]), components, currentComponent, braceCount, inFunction)
    {
      RunNext(lines, k);
      components, currentComponent, braceCount, inFunction :=
        ScanLine(Run(lines[..k]), lines[k], k, components, currentComponent, braceCount, inFunction);
    }
    assert lines[..|lines|] == lines;
    ghost var st := Run(lines);
    if Trim(currentComponent) != [] && inFunction {
      RecordsSnoc(st.emitted, Close(st, EndOfText, |lines|));
      components := components + [Made(currentComponent)];
    }
    assert components == Records(Finish(st, |lines|));
    ParseOfRun(code);
    if |components| == 0 {
      components := components + [Made(code)];
    }
  }
}
