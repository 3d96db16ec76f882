/**
 * The two name lists the preview is built from: the icon names imported from
 * `lucide-react`, and the names the previewed code exports with
 * `export { ... }`. Both come from a global regular-expression scan; the
 * patterns used have exactly one way to match at a position, so the scan is
 * written out as a deterministic function.
 */
module ExportNames {
  import opened Wrappers
  import opened Text

  // ===========================================================================
  // Scanning primitives
  // ===========================================================================

  /** `s` holds `lit` at position `i`. */
  predicate At(s: string, i: nat, lit: string) {
    i + |lit| <= |s| && s[i..i + |lit|] == lit
  }

  /** The end of the run of whitespace starting at `i` (what a greedy `\s*` consumes). */
  function SkipWs(s: string, i: nat): (j: nat)
    requires i <= |s|
    ensures i <= j <= |s|
    ensures forall k :: i <= k < j ==> IsWs(s[k])
    ensures j == |s| || !IsWs(s[j])
    decreases |s| - i
  {
    if i < |s| && IsWs(s[i]) then SkipWs(s, i + 1) else i
  }

  /** The first `}` at or after `i`, or `|s|` when there is none. */
  function NextBrace(s: string, i: nat): (j: nat)
    requires i <= |s|
    ensures i <= j <= |s|
    ensures forall k :: i <= k < j ==> s[k] != '}'
    ensures j == |s| || s[j] == '}'
    decreases |s| - i
  {
    if i < |s| && s[i] != '}' then NextBrace(s, i + 1) else i
  }

  /** A match of a pattern: its capture group and where the match ends. */
  datatype Match = Match(group: string, end: nat)

  /**
   * `\{([^}]+)\}` at `j`: the group runs up to the first `}` after the
   * brace and must not be empty.
   */
  function BracedAt(s: string, j: nat): Option<Match> {
    if j < |s| && s[j] == '{' then
      var k := NextBrace(s, j + 1);
      if k < |s| && k > j + 1 then Some(Match(s[j + 1..k], k + 1)) else None
    else None
  }

  /** `export\s*\{([^}]+)\}` matched at position `i`. */
  function ExportAt(s: string, i: nat): (m: Option<Match>)
    ensures m.Some? ==> i < m.value.end <= |s|
  {
    if At(s, i, "export") then BracedAt(s, SkipWs(s, i + 6)) else None
  }

  /** A `"` or `'`. */
  predicate IsQuote(c: char) {
    c == '"' || c == '\''
  }

  /** `["']<name>["']` at position `q`: the name between two quotes of either kind. */
  predicate QuotedAt(s: string, q: nat, name: string) {
    q < |s| && IsQuote(s[q]) && At(s, q + 1, name) && q + |name| + 1 < |s| && IsQuote(s[q + |name| + 1])
  }

  /** `\s*from\s*["']lucide-react["']` matched at position `e`: where the match ends. */
  function FromLucideAt(s: string, e: nat): (end: Option<nat>)
    requires e <= |s|
    ensures end.Some? ==> e < end.value <= |s|
  {
    var f := SkipWs(s, e);
    if !At(s, f, "from") then None
    else
      var q := SkipWs(s, f + 4);
      if QuotedAt(s, q, "lucide-react") then Some(q + 14) else None
  }

  /** `import\s*\{([^}]+)\}\s*from\s*["']lucide-react["']` matched at position `i`. */
  function IconImportAt(s: string, i: nat): (m: Option<Match>)
    ensures m.Some? ==> i < m.value.end <= |s|
  {
    if !At(s, i, "import") then None
    else match BracedAt(s, SkipWs(s, i + 6))
      case None => None
      case Some(braced) =>
        match FromLucideAt(s, braced.end)
        case None => None
        case Some(end) => Some(Match(braced.group, end))
  }

  /** The capture groups of a global `matchAll` of `export\s*\{([^}]+)\}`, from position `i` on. */
  function ExportGroups(s: string, i: nat): seq<string>
    decreases |s| - i
  {
    if i >= |s| then []
    else match ExportAt(s, i)
      case Some(m) => [m.group] + ExportGroups(s, m.end)
      case None => ExportGroups(s, i + 1)
  }

  /** The capture groups of a global `matchAll` of the `lucide-react` import pattern. */
  function IconImportGroups(s: string, i: nat): seq<string>
    decreases |s| - i
  {
    if i >= |s| then []
    else match IconImportAt(s, i)
      case Some(m) => [m.group] + IconImportGroups(s, m.end)
      case None => IconImportGroups(s, i + 1)
  }

  /** `.split(",").map(token => token.trim()).filter(Boolean)` on one group. */
  function Tokens(group: string): seq<string> {
    NonEmptyTrimmed(Split(group, ','))
  }

  function NonEmptyTrimmed(parts: seq<string>): (r: seq<string>)
    ensures forall i :: 0 <= i < |r| ==> r[i] != []
  {
    if parts == [] then []
    else (if Trim(parts[0]) != [] then [Trim(parts[0])] else []) + NonEmptyTrimmed(parts[1..])
  }

  /** `.flatMap(match => tokens of match[1])`. */
  function AllTokens(groups: seq<string>): (r: seq<string>)
    ensures forall i :: 0 <= i < |r| ==> r[i] != []
  {
    if groups == [] then [] else Tokens(groups[0]) + AllTokens(groups[1..])
  }

  // ===========================================================================
  // The two pipelines
  // ===========================================================================

  /** `iconImports`: every name listed in a `lucide-react` import, in order (duplicates kept). */
  function IconNames(code: string): (r: seq<string>)
    ensures forall i :: 0 <= i < |r| ==> r[i] != [] && Trim(r[i]) == r[i]
  {
    var r := AllTokens(IconImportGroups(code, 0));
    TokensTrimmed(IconImportGroups(code, 0));
    r
  }

  /** `name.replace(/^type\s+/i, "")`. */
  function StripType(name: string): string {
    if |name| > 4 && Lower(name[..4]) == "type" && IsWs(name[4]) then TrimStart(name[4..]) else name
  }

  /** `\s+as\s+` (case-insensitive) matched at position `p`. */
  predicate AsAt(name: string, p: nat) {
    p < |name| && IsWs(name[p]) &&
    var q := SkipWs(name, p);
    q + 2 < |name| && Lower(name[q..q + 2]) == "as" && IsWs(name[q + 2])
  }

  /** The first position from `p` on where `\s+as\s+` matches, or `|name|`. */
  function FirstAs(name: string, p: nat): (r: nat)
    requires p <= |name|
    ensures p <= r <= |name|
    ensures r < |name| ==> AsAt(name, r)
    ensures forall k :: p <= k < r ==> !AsAt(name, k)
    decreases |name| - p
  {
    if p == |name| then p else if AsAt(name, p) then p else FirstAs(name, p + 1)
  }

  /** `name.split(/\s+as\s+/i)[0].trim()`: what comes before the first ` as `, trimmed. */
  function BeforeAs(name: string): string {
    Trim(name[..FirstAs(name, 0)])
  }

  /** One exported name as the pipeline cleans it. */
  function CleanName(name: string): string {
    BeforeAs(StripType(name))
  }

  function CleanAll(names: seq<string>): (r: seq<string>)
    ensures |r| == |names| && forall i :: 0 <= i < |names| ==> r[i] == CleanName(names[i])
  {
    if names == [] then [] else [CleanName(names[0])] + CleanAll(names[1..])
  }

  /** `self.indexOf(x)`: the first index holding `x`, or `|xs|`. */
  function IndexOf(xs: seq<string>, x: string): (r: nat)
    ensures r <= |xs|
    ensures r < |xs| ==> xs[r] == x
    ensures forall k :: 0 <= k < r ==> xs[k] != x
  {
    if xs == [] then 0 else if xs[0] == x then 0 else 1 + IndexOf(xs[1..], x)
  }

  /** `.filter((name, index, self) => name && self.indexOf(name) === index)`, over indices `from..`. */
  function FirstOnly(xs: seq<string>, from: nat): seq<string>
    decreases |xs| - from
  {
    if from >= |xs| then []
    else (if xs[from] != [] && IndexOf(xs, xs[from]) == from then [xs[from]] else []) + FirstOnly(xs, from + 1)
  }

  /** The names before de-duplication. */
  function RawExportedNames(code: string): seq<string> {
    CleanAll(AllTokens(ExportGroups(code, 0)))
  }

  /** `exportedNames`. */
  function ExportedNames(code: string): seq<string> {
    FirstOnly(RawExportedNames(code), 0)
  }

  // ===========================================================================
  // Properties
  // ===========================================================================

  lemma {:induction false} TokensTrimmed(groups: seq<string>)
    ensures forall i :: 0 <= i < |AllTokens(groups)| ==> Trim(AllTokens(groups)[i]) == AllTokens(groups)[i]
  {
    if groups != [] {
      TokensTrimmed(groups[1..]);
      PiecesTrimmed(Split(groups[0], ','));
    }
  }

  lemma {:induction false} PiecesTrimmed(parts: seq<string>)
    ensures forall i :: 0 <= i < |NonEmptyTrimmed(parts)| ==> Trim(NonEmptyTrimmed(parts)[i]) == NonEmptyTrimmed(parts)[i]
  {
    if parts != [] {
      PiecesTrimmed(parts[1..]);
      TrimIdempotent(parts[0]);
    }
  }

  /** Every group the scan captures is non-empty and holds no `}`. */
  lemma {:induction false} ExportGroupsShape(s: string, i: nat)
    ensures forall k :: 0 <= k < |ExportGroups(s, i)| ==> ExportGroups(s, i)[k] != [] && '}' !in ExportGroups(s, i)[k]
    decreases |s| - i
  {
    if i < |s| {
      match ExportAt(s, i)
      case Some(m) =>
        ExportGroupsShape(s, m.end);
        var j := SkipWs(s, i + 6);
        var b := NextBrace(s, j + 1);
        assert m.group == s[j + 1..b];
        assert forall t :: 0 <= t < |m.group| ==> m.group[t] == s[j + 1 + t];
      case None =>
        ExportGroupsShape(s, i + 1);
    }
  }

  lemma {:induction false} FirstOnlyMembers(xs: seq<string>, from: nat, x: string)
    ensures x in FirstOnly(xs, from) <==> x != [] && from <= IndexOf(xs, x) < |xs|
    decreases |xs| - from
  {
    if from < |xs| {
      FirstOnlyMembers(xs, from + 1, x);
    }
  }

  lemma {:induction false} FirstOnlyBounds(xs: seq<string>, from: nat)
    ensures forall i :: 0 <= i < |FirstOnly(xs, from)| ==> from <= IndexOf(xs, FirstOnly(xs, from)[i]) < |xs|
    decreases |xs| - from
  {
    if from < |xs| {
      FirstOnlyBounds(xs, from + 1);
      var rest := FirstOnly(xs, from + 1);
      if xs[from] != [] && IndexOf(xs, xs[from]) == from {
        var r := [xs[from]] + rest;
        assert FirstOnly(xs, from) == r;
        forall i | 0 <= i < |r|
          ensures from <= IndexOf(xs, r[i]) < |xs|
        {
          if i > 0 {
            assert r[i] == rest[i - 1];
          }
        }
      } else {
        assert FirstOnly(xs, from) == rest;
      }
    }
  }

  /** A name placed before names that all rank later keeps the ranking increasing. */
  lemma ConsIncreasing(rank: string -> int, x: string, rest: seq<string>)
    requires forall i, j :: 0 <= i < j < |rest| ==> rank(rest[i]) < rank(rest[j])
    requires forall i :: 0 <= i < |rest| ==> rank(x) < rank(rest[i])
    ensures forall i, j :: 0 <= i < j < |[x] + rest| ==> rank(([x] + rest)[i]) < rank(([x] + rest)[j])
  {
    var r := [x] + rest;
    forall i, j | 0 <= i < j < |r|
      ensures rank(r[i]) < rank(r[j])
    {
      assert r[j] == rest[j - 1];
      if i > 0 {
        assert r[i] == rest[i - 1];
      }
    }
  }

  lemma {:induction false} FirstOnlyOrder(xs: seq<string>, from: nat)
    ensures forall i, j :: 0 <= i < j < |FirstOnly(xs, from)| ==>
      IndexOf(xs, FirstOnly(xs, from)[i]) < IndexOf(xs, FirstOnly(xs, from)[j])
    decreases |xs| - from
  {
    if from < |xs| {
      FirstOnlyOrder(xs, from + 1);
      var rest := FirstOnly(xs, from + 1);
      if xs[from] != [] && IndexOf(xs, xs[from]) == from {
        FirstOnlyBounds(xs, from + 1);
        assert FirstOnly(xs, from) == [xs[from]] + rest;
        ConsIncreasing(y => IndexOf(xs, y), xs[from], rest);
      } else {
        assert FirstOnly(xs, from) == rest;
      }
    }
  }

  /**
   * `exportedNames` holds each non-empty cleaned name exactly once, in the
   * order of first appearance, and nothing else.
   */
  lemma ExportedNamesDistinctInOrder(code: string)
    ensures var raw := RawExportedNames(code);
      var names := ExportedNames(code);
      && (forall x :: x in names <==> x in raw && x != [])
      && (forall i, j :: 0 <= i < j < |names| ==> IndexOf(raw, names[i]) < IndexOf(raw, names[j]))
      && (forall i, j :: 0 <= i < j < |names| ==> names[i] != names[j])
  {
    var raw := RawExportedNames(code);
    var names := ExportedNames(code);
    forall x
      ensures x in names <==> x in raw && x != []
    {
      FirstOnlyMembers(raw, 0, x);
    }
    FirstOnlyOrder(raw, 0);
  }

  lemma TrimOfUnspaced(a: string)
    requires NoWs(a)
    ensures Trim(a) == a
  {
    TrimStartOfUnspaced(a);
    TrimEndOfUnspaced(a);
  }

  lemma BeforeAsOfUnspaced(a: string)
    requires NoWs(a)
    ensures BeforeAs(a) == a
  {
    assert a[..|a|] == a;
    TrimOfUnspaced(a);
  }

  /** `type X` (any casing of `type`) exports `X`. */
  lemma TypePrefixDropped(w: string, c: char, a: string)
    requires |w| == 4 && Lower(w) == "type" && IsWs(c)
    requires a != [] && NoWs(a)
    ensures CleanName(w + [c] + a) == a
  {
    var name := w + [c] + a;
    assert name[..4] == w;
    assert name[4..] == [c] + a;
    assert TrimStart([c] + a) == TrimStart(a);
    TrimStartOfUnspaced(a);
    BeforeAsOfUnspaced(a);
  }

  /** A name without spaces other than `type` itself loses no `type ` prefix. */
  lemma NoTypePrefix(a: string, alias: string)
    requires a != [] && NoWs(a) && Lower(a) != "type"
    ensures StripType(a + " as " + alias) == a + " as " + alias
  {
    var name := a + " as " + alias;
    if |a| > 4 {
      assert name[4] == a[4];
    } else if |a| == 4 {
      assert name[..4] == a;
    } else {
      assert name[|a|] == ' ';
      assert Lower(name[..4])[|a|] == ' ';
    }
  }

  /** `X as Y` exports `X`, for a name `X` without spaces other than `type` itself. */
  lemma AliasDropped(a: string, alias: string)
    requires a != [] && NoWs(a) && Lower(a) != "type"
    ensures CleanName(a + " as " + alias) == a
  {
    var name := a + " as " + alias;
    NoTypePrefix(a, alias);
    var n := |a|;
    assert IsWs(name[n]) && SkipWs(name, n) == n + 1 by {
      assert name[n] == ' ' && name[n + 1] == 'a';
    }
    assert name[n + 1..n + 3] == "as" && name[n + 3] == ' ';
    assert AsAt(name, n);
    forall k | 0 <= k < n
      ensures !AsAt(name, k)
    {
      assert name[k] == a[k];
    }
    var p := FirstAs(name, 0);
    assert p == n;
    assert name[..n] == a;
    TrimOfUnspaced(a);
  }

  // ---------------------------------------------------------------------------
  // What the icon scan reads from an import
  // ---------------------------------------------------------------------------

  /** A name as it can stand in a `{ ... }` import list: non-empty, trimmed, and free of `,` and `}`. */
  predicate ListableName(n: string) {
    n != [] && Trim(n) == n && ',' !in n && '}' !in n
  }

  lemma TrimSpaced(a: string)
    requires a != [] && Trim(a) == a
    ensures Trim(" " + a) == a
  {
    assert (" " + a)[1..] == a;
    TrimShape(a);
    TrimStartOfUnspaced(a);
  }

  /** Splitting a `, `-separated list at `,` and trimming gives the names back, in order. */
  lemma {:induction false} SpacedListTokens(names: seq<string>, pad: string)
    requires |names| >= 1 && forall i :: 0 <= i < |names| ==> ListableName(names[i])
    requires pad == [] || pad == " "
    ensures NonEmptyTrimmed(Split(pad + Join(names, ", "), ',')) == names
  {
    var head := pad + names[0];
    assert Trim(head) == names[0] by {
      if pad != [] {
        TrimSpaced(names[0]);
      } else {
        assert head == names[0];
      }
    }
    assert ',' !in head;
    if |names| == 1 {
      SplitFree(head, ',');
      assert NonEmptyTrimmed([head]) == [Trim(head)] + NonEmptyTrimmed([]);
    } else {
      var rest := " " + Join(names[1..], ", ");
      var parts := Split(pad + Join(names, ", "), ',');
      assert parts == [head] + Split(rest, ',') by {
        assert pad + Join(names, ", ") == head + [','] + rest;
        SplitPrefix(head, rest, ',');
      }
      assert parts[1..] == Split(rest, ',');
      SpacedListTokens(names[1..], " ");
      assert names == [names[0]] + names[1..];
    }
  }

  /** The text after an import's `{ ... }`: `} from '<source>'`. */
  function FromClause(quote: char, source: string): string {
    "} from " + [quote] + source + [quote]
  }

  /** The whole import statement the icon scan reads. */
  function IconImport(body: string, quote: char, source: string): string {
    "import {" + body + FromClause(quote, source)
  }

  /** Where the import pattern finds the `{ ... }` group of an import. */
  lemma IconImportHeader(body: string, quote: char, source: string)
    requires body != [] && '}' !in body
    ensures var s := IconImport(body, quote, source);
      At(s, 0, "import") && BracedAt(s, SkipWs(s, 6)) == Some(Match(body, 9 + |body|))
  {
    var s := IconImport(body, quote, source);
    var post := FromClause(quote, source);
    var n := |body|;
    assert s[..6] == "import";
    assert SkipWs(s, 6) == 7 by {
      assert s[6] == ' ' && s[7] == '{';
    }
    assert NextBrace(s, 8) == 8 + n by {
      forall k | 8 <= k < 8 + n
        ensures s[k] != '}'
      {
        assert s[k] == body[k - 8];
      }
      assert s[8 + n] == post[0] == '}';
    }
    assert s[8..8 + n] == body;
  }

  /** Scanning whitespace in a suffix does not depend on what precedes it. */
  lemma {:induction false} SkipWsShift(x: string, t: string, i: nat)
    requires i <= |t|
    ensures SkipWs(x + t, |x| + i) == |x| + SkipWs(t, i)
    decreases |t| - i
  {
    if i < |t| {
      assert (x + t)[|x| + i] == t[i];
      if IsWs(t[i]) {
        SkipWsShift(x, t, i + 1);
      }
    }
  }

  /** Nor does matching a literal in a suffix. */
  lemma AtShift(x: string, t: string, i: nat, lit: string)
    ensures At(x + t, |x| + i, lit) <==> At(t, i, lit)
  {
    if i + |lit| <= |t| {
      assert (x + t)[|x| + i..|x| + i + |lit|] == t[i..i + |lit|];
    }
  }

  /** Nor does matching a quoted name. */
  lemma QuotedShift(x: string, t: string, q: nat, name: string)
    ensures QuotedAt(x + t, |x| + q, name) <==> QuotedAt(t, q, name)
  {
    AtShift(x, t, q + 1, name);
    if q < |t| {
      assert (x + t)[|x| + q] == t[q];
    }
    if q + |name| + 1 < |t| {
      assert (x + t)[|x| + q + |name| + 1] == t[q + |name| + 1];
    }
  }

  /** What the `from` part of the pattern reads in a `from` clause: its whitespace runs, `from`, and the quoted source. */
  lemma FromClauseParts(quote: char, source: string)
    requires IsQuote(quote) && forall k :: 0 <= k < |source| ==> !IsQuote(source[k])
    ensures var post := FromClause(quote, source);
      && SkipWs(post, 1) == 2 && At(post, 2, "from") && SkipWs(post, 6) == 7
      && (QuotedAt(post, 7, "lucide-react") <==> source == "lucide-react")
  {
    var post := FromClause(quote, source);
    assert post[1] == ' ' && post[2] == 'f';
    assert post[2..6] == "from";
    assert post[6] == ' ' && post[7] == quote;
    assert post[8..|post| - 1] == source;
    if QuotedAt(post, 7, "lucide-react") {
      assert source == post[8..20];
    }
  }

  /** The `from` part of the pattern, once its whitespace runs are known. */
  lemma FromLucideAtFacts(s: string, e: nat, f: nat, q: nat)
    requires e <= |s| && SkipWs(s, e) == f && At(s, f, "from") && SkipWs(s, f + 4) == q
    ensures FromLucideAt(s, e) == if QuotedAt(s, q, "lucide-react") then Some(q + 14) else None
  {
  }

  /** The `from` part of an import statement matches exactly when the source is `lucide-react`. */
  lemma IconImportFrom(body: string, quote: char, source: string)
    requires IsQuote(quote) && forall k :: 0 <= k < |source| ==> !IsQuote(source[k])
    ensures var s := IconImport(body, quote, source);
      FromLucideAt(s, 9 + |body|) == if source == "lucide-react" then Some(|s|) else None
  {
    var x := "import {" + body;
    var post := FromClause(quote, source);
    var s := x + post;
    assert IconImport(body, quote, source) == s;
    FromClauseParts(quote, source);
    SkipWsShift(x, post, 1);
    AtShift(x, post, 2, "from");
    SkipWsShift(x, post, 6);
    QuotedShift(x, post, 7, "lucide-react");
    FromLucideAtFacts(s, |x| + 1, |x| + 2, |x| + 7);
  }

  /** The whole pattern, once its `{ ... }` group and its `from` part are known. */
  lemma IconImportAtFacts(s: string, i: nat, braced: Match, end: Option<nat>)
    requires At(s, i, "import") && BracedAt(s, SkipWs(s, i + 6)) == Some(braced)
    requires braced.end <= |s| && FromLucideAt(s, braced.end) == end
    ensures IconImportAt(s, i) == if end.Some? then Some(Match(braced.group, end.value)) else None
  {
  }

  /** The import pattern at the start of an import statement: a match exactly when the source is `lucide-react`. */
  lemma IconImportAtStart(body: string, quote: char, source: string)
    requires body != [] && '}' !in body
    requires IsQuote(quote) && forall k :: 0 <= k < |source| ==> !IsQuote(source[k])
    ensures var s := IconImport(body, quote, source);
      IconImportAt(s, 0) == if source == "lucide-react" then Some(Match(body, |s|)) else None
  {
    var s := IconImport(body, quote, source);
    IconImportHeader(body, quote, source);
    IconImportFrom(body, quote, source);
    IconImportAtFacts(s, 0, Match(body, 9 + |body|), FromLucideAt(s, 9 + |body|));
  }

  /** The scan over a `lucide-react` import statement captures its `{ ... }` group and nothing else. */
  lemma IconGroupsOfImport(body: string, quote: char)
    requires body != [] && '}' !in body && IsQuote(quote)
    ensures IconImportGroups(IconImport(body, quote, "lucide-react"), 0) == [body]
  {
    var s := IconImport(body, quote, "lucide-react");
    IconImportAtStart(body, quote, "lucide-react");
    assert IconImportGroups(s, |s|) == [];
  }

  /** A `, `-separated list of names is a non-empty group free of `}` whose tokens are those names. */
  lemma ListedNames(names: seq<string>)
    requires |names| >= 1 && forall i :: 0 <= i < |names| ==> ListableName(names[i])
    ensures var body := Join(names, ", ");
      body != [] && '}' !in body && Tokens(body) == names
  {
    var body := Join(names, ", ");
    JoinAvoids(names, ", ", '}');
    if |names| > 1 {
      assert body == names[0] + ", " + Join(names[1..], ", ");
    }
    SpacedListTokens(names, []);
    assert [] + body == body;
  }

  /** A text whose scan captures one group yields that group's tokens. */
  lemma IconNamesOfGroup(code: string, group: string)
    requires IconImportGroups(code, 0) == [group]
    ensures IconNames(code) == Tokens(group)
  {
    assert AllTokens([group]) == Tokens(group) + AllTokens([]);
  }

  /**
   * `import { A, B, ... } from 'lucide-react'`, with either quote, yields
   * exactly the listed names, in order.
   */
  lemma IconNamesOfImport(names: seq<string>, quote: char)
    requires |names| >= 1 && forall i :: 0 <= i < |names| ==> ListableName(names[i])
    requires IsQuote(quote)
    ensures IconNames(IconImport(Join(names, ", "), quote, "lucide-react")) == names
  {
    var body := Join(names, ", ");
    ListedNames(names);
    IconGroupsOfImport(body, quote);
    IconNamesOfGroup(IconImport(body, quote, "lucide-react"), body);
  }

  /** A scan over text where the pattern matches nowhere captures nothing. */
  lemma {:induction false} NoIconImports(s: string, i: nat)
    requires forall k :: i <= k < |s| ==> IconImportAt(s, k).None?
    ensures IconImportGroups(s, i) == []
    decreases |s| - i
  {
    if i < |s| {
      NoIconImports(s, i + 1);
    }
  }

  /** An import statement whose names and source hold no `{` has its only `{` at position 7. */
  lemma IconImportBraces(body: string, quote: char, source: string)
    requires '{' !in body && forall k :: 0 <= k < |source| ==> source[k] != '{'
    requires IsQuote(quote)
    ensures var s := IconImport(body, quote, source);
      && s[1] == 'm' && s[6] == ' ' && s[7] == '{' && s[8] == (if body == [] then '}' else body[0])
      && forall k :: 8 <= k < |s| ==> s[k] != '{'
  {
    var x := "import {" + body;
    var post := FromClause(quote, source);
    var s := x + post;
    assert IconImport(body, quote, source) == s;
    assert forall k :: 0 <= k < |post| ==> post[k] != '{' by {
      forall k | 0 <= k < |post|
        ensures post[k] != '{'
      {
        if 8 <= k < |post| - 1 {
          assert post[k] == source[k - 8];
        }
      }
    }
    forall k | 8 <= k < |s|
      ensures s[k] != '{'
    {
      if k < |x| {
        assert s[k] == body[k - 8];
      } else {
        assert s[k] == post[k - |x|];
      }
    }
  }

  /** With the only `{` at position 7, the import pattern cannot match past the start. */
  lemma NoImportPastBrace(s: string, k: nat)
    requires 0 < k && |s| > 1 && s[1] != 'i'
    requires forall j :: 8 <= j < |s| ==> s[j] != '{'
    ensures IconImportAt(s, k).None?
  {
    if At(s, k, "import") {
      assert s[k] == s[k..k + 6][0] == 'i';
      assert SkipWs(s, k + 6) >= 8;
    }
  }

  /** `import {}`: the pattern needs at least one character between the braces. */
  lemma EmptyBracesNoImport(s: string)
    requires |s| > 8 && s[6] == ' ' && s[7] == '{' && s[8] == '}'
    ensures IconImportAt(s, 0).None?
  {
    assert SkipWs(s, 6) == 7;
    assert NextBrace(s, 8) == 8;
  }

  /**
   * An import from any other source contributes no icon names, even one
   * that lists names in the same form.
   */
  lemma OtherModuleIconsIgnored(body: string, quote: char, source: string)
    requires '}' !in body && '{' !in body
    requires IsQuote(quote) && forall k :: 0 <= k < |source| ==> !IsQuote(source[k]) && source[k] != '{'
    requires source != "lucide-react"
    ensures IconNames(IconImport(body, quote, source)) == []
  {
    var s := IconImport(body, quote, source);
    IconImportBraces(body, quote, source);
    forall k | 0 <= k < |s|
      ensures IconImportAt(s, k).None?
    {
      if k > 0 {
        NoImportPastBrace(s, k);
      } else if body != [] {
        IconImportAtStart(body, quote, source);
      } else {
        EmptyBracesNoImport(s);
      }
    }
    NoIconImports(s, 0);
  }
}
