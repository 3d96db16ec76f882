/**
 * The JavaScript string operations the core relies on: `trim`, `toLowerCase`,
 * `includes`, `startsWith`, `split` on one character and `join`.
 *
 * Strings are sequences of UTF-16 code units in the source; here they are
 * sequences of `char`, one element per code unit.
 */
module Text {

  /** ECMAScript WhiteSpace and LineTerminator code points: what `trim()` removes and `\s` matches. */
  predicate IsWs(c: char) {
    var n := c as int;
    n == 0x09 || n == 0x0A || n == 0x0B || n == 0x0C || n == 0x0D || n == 0x20 || n == 0xA0 ||
    n == 0x1680 || (0x2000 <= n <= 0x200A) || n == 0x2028 || n == 0x2029 || n == 0x202F ||
    n == 0x205F || n == 0x3000 || n == 0xFEFF
  }

  /** No character of `s` is whitespace. */
  predicate NoWs(s: string) {
    forall i :: 0 <= i < |s| ==> !IsWs(s[i])
  }

  /** A search key whose ends are not whitespace: trimming a text never creates or destroys an occurrence of it. */
  predicate SolidKey(k: string) {
    k != [] && !IsWs(k[0]) && !IsWs(k[|k| - 1])
  }

  // ---------------------------------------------------------------------------
  // Case mapping (ASCII letters only)
  // ---------------------------------------------------------------------------

  function LowerChar(c: char): char {
    if 'A' <= c <= 'Z' then (c as int + 32) as char else c
  }

  function UpperChar(c: char): char {
    if 'a' <= c <= 'z' then (c as int - 32) as char else c
  }

  /** `s.toLowerCase()`, restricted to the ASCII letters. */
  function Lower(s: string): (r: string)
    ensures |r| == |s|
    ensures forall i :: 0 <= i < |s| ==> r[i] == LowerChar(s[i])
  {
    seq(|s|, i requires 0 <= i < |s| => LowerChar(s[i]))
  }

  lemma LowerIdempotent(s: string)
    ensures Lower(Lower(s)) == Lower(s)
  {
  }

  lemma LowerAppend(a: string, b: string)
    ensures Lower(a + b) == Lower(a) + Lower(b)
  {
  }

  // ---------------------------------------------------------------------------
  // trim
  // ---------------------------------------------------------------------------

  function TrimStart(s: string): string {
    if s != [] && IsWs(s[0]) then TrimStart(s[1..]) else s
  }

  function TrimEnd(s: string): string {
    if s != [] && IsWs(s[|s| - 1]) then TrimEnd(s[..|s| - 1]) else s
  }

  /** `s.trim()`. */
  function Trim(s: string): string {
    TrimEnd(TrimStart(s))
  }

  lemma {:induction false} TrimStartShape(s: string)
    ensures |TrimStart(s)| <= |s| && TrimStart(s) == s[|s| - |TrimStart(s)|..]
    ensures TrimStart(s) != [] ==> !IsWs(TrimStart(s)[0])
    ensures forall i :: 0 <= i < |s| - |TrimStart(s)| ==> IsWs(s[i])
  {
    if s != [] && IsWs(s[0]) {
      var t := TrimStart(s[1..]);
      TrimStartShape(s[1..]);
      assert s[1..][|s| - 1 - |t|..] == s[|s| - |t|..];
      forall i | 0 < i < |s| - |t|
        ensures IsWs(s[i])
      {
        assert s[i] == s[1..][i - 1];
      }
    }
  }

  lemma {:induction false} TrimEndShape(s: string)
    ensures TrimEnd(s) <= s
    ensures TrimEnd(s) != [] ==> !IsWs(TrimEnd(s)[|TrimEnd(s)| - 1])
    ensures forall i :: |TrimEnd(s)| <= i < |s| ==> IsWs(s[i])
  {
    if s != [] && IsWs(s[|s| - 1]) {
      TrimEndShape(s[..|s| - 1]);
    }
  }

  /** A trimmed string neither starts nor ends with whitespace. */
  lemma TrimShape(s: string)
    ensures Trim(s) != [] ==> !IsWs(Trim(s)[0]) && !IsWs(Trim(s)[|Trim(s)| - 1])
  {
    TrimStartShape(s);
    TrimEndShape(TrimStart(s));
  }

  lemma {:induction false} TrimStartOfUnspaced(s: string)
    requires s == [] || !IsWs(s[0])
    ensures TrimStart(s) == s
  {
  }

  lemma {:induction false} TrimEndOfUnspaced(s: string)
    requires s == [] || !IsWs(s[|s| - 1])
    ensures TrimEnd(s) == s
  {
  }

  /** `trim` is idempotent. */
  lemma TrimIdempotent(s: string)
    ensures Trim(Trim(s)) == Trim(s)
  {
    TrimShape(s);
    TrimStartOfUnspaced(Trim(s));
    TrimEndOfUnspaced(Trim(s));
  }

  /** Leading whitespace of a string that is not all whitespace is all that `TrimStart` removes, whatever follows. */
  lemma {:induction false} TrimStartAppend(a: string, b: string)
    requires TrimStart(a) != []
    ensures TrimStart(a + b) == TrimStart(a) + b
  {
    if a != [] && IsWs(a[0]) {
      assert (a + b)[1..] == a[1..] + b;
      TrimStartAppend(a[1..], b);
    }
  }

  /** A prefix that ends in a non-whitespace character survives `TrimEnd`. */
  lemma {:induction false} PrefixSurvivesTrimEnd(p: string, s: string)
    requires p <= s && p != [] && !IsWs(p[|p| - 1])
    ensures p <= TrimEnd(s)
  {
    if s != [] && IsWs(s[|s| - 1]) {
      assert |p| < |s|;
      PrefixSurvivesTrimEnd(p, s[..|s| - 1]);
    }
  }

  /** Trimming a string whose trimmed head `p` is known keeps `p` at its front. */
  lemma TrimKeepsTrimmedHead(line: string, rest: string)
    requires Trim(line) != []
    ensures Trim(line) <= Trim(line + rest)
  {
    TrimStartShape(line);
    TrimEndShape(TrimStart(line));
    assert TrimStart(line) != [];
    TrimStartAppend(line, rest);
    TrimShape(line);
    PrefixSurvivesTrimEnd(Trim(line), TrimStart(line + rest));
  }

  // ---------------------------------------------------------------------------
  // Counting characters
  // ---------------------------------------------------------------------------

  /** The number of occurrences of `c` in `s`. */
  function Count(s: string, c: char): nat {
    if s == [] then 0 else Count(s[..|s| - 1], c) + (if s[|s| - 1] == c then 1 else 0)
  }

  lemma {:induction false} CountAppend(a: string, b: string, c: char)
    ensures Count(a + b, c) == Count(a, c) + Count(b, c)
  {
    if b == [] {
      assert a + b == a;
    } else {
      assert (a + b)[..|a + b| - 1] == a + b[..|b| - 1];
      CountAppend(a, b[..|b| - 1], c);
    }
  }

  lemma {:induction false} CountFront(s: string, c: char)
    requires s != []
    ensures Count(s, c) == (if s[0] == c then 1 else 0) + Count(s[1..], c)
  {
    assert s == [s[0]] + s[1..];
    CountAppend([s[0]], s[1..], c);
  }

  lemma {:induction false} CountPositive(s: string, c: char)
    ensures Count(s, c) > 0 <==> c in s
  {
    if s != [] {
      CountPositive(s[..|s| - 1], c);
      assert s == s[..|s| - 1] + [s[|s| - 1]];
    }
  }

  /** Trimming removes whitespace only, so the count of any other character is unchanged. */
  lemma {:induction false} CountTrim(s: string, c: char)
    requires !IsWs(c)
    ensures Count(Trim(s), c) == Count(s, c)
  {
    CountTrimStart(s, c);
    CountTrimEnd(TrimStart(s), c);
  }

  lemma {:induction false} CountTrimStart(s: string, c: char)
    requires !IsWs(c)
    ensures Count(TrimStart(s), c) == Count(s, c)
  {
    if s != [] && IsWs(s[0]) {
      CountFront(s, c);
      CountTrimStart(s[1..], c);
    }
  }

  lemma {:induction false} CountTrimEnd(s: string, c: char)
    requires !IsWs(c)
    ensures Count(TrimEnd(s), c) == Count(s, c)
  {
    if s != [] && IsWs(s[|s| - 1]) {
      CountTrimEnd(s[..|s| - 1], c);
    }
  }

  // ---------------------------------------------------------------------------
  // includes
  // ---------------------------------------------------------------------------

  /** `s.includes(k)`. */
  function Contains(s: string, k: string): bool {
    k <= s || (s != [] && Contains(s[1..], k))
  }

  /** `includes` agrees with the index-based reading: some window of `s` equals `k`. */
  lemma {:induction false} ContainsAt(s: string, k: string, i: nat)
    requires i + |k| <= |s| && s[i..i + |k|] == k
    ensures Contains(s, k)
  {
    if i > 0 {
      assert s[1..][i - 1..i - 1 + |k|] == k;
      ContainsAt(s[1..], k, i - 1);
    }
  }

  lemma {:induction false} ContainsAppendWs(t: string, c: char, k: string)
    requires SolidKey(k) && IsWs(c)
    ensures Contains(t + [c], k) == Contains(t, k)
  {
    if t == [] {
      assert !(k <= [c]);
      assert (t + [c])[1..] == [];
    } else {
      assert (t + [c])[1..] == t[1..] + [c];
      ContainsAppendWs(t[1..], c, k);
      if |k| <= |t| {
        assert (t + [c])[..|k|] == t[..|k|];
      }
    }
  }

  lemma {:induction false} ContainsLowerTrimStart(s: string, k: string)
    requires SolidKey(k)
    ensures Contains(Lower(TrimStart(s)), k) == Contains(Lower(s), k)
  {
    if s != [] && IsWs(s[0]) {
      assert Lower(s)[1..] == Lower(s[1..]);
      assert !(k <= Lower(s));
      ContainsLowerTrimStart(s[1..], k);
    }
  }

  lemma {:induction false} ContainsLowerTrimEnd(s: string, k: string)
    requires SolidKey(k)
    ensures Contains(Lower(TrimEnd(s)), k) == Contains(Lower(s), k)
  {
    if s != [] && IsWs(s[|s| - 1]) {
      var t := s[..|s| - 1];
      assert Lower(s) == Lower(t) + [s[|s| - 1]];
      ContainsAppendWs(Lower(t), s[|s| - 1], k);
      ContainsLowerTrimEnd(t, k);
    }
  }

  /** A case-insensitive search for a key with solid ends sees the same in a string and in its trimmed form. */
  lemma ContainsLowerTrim(s: string, k: string)
    requires SolidKey(k)
    ensures Contains(Lower(Trim(s)), k) == Contains(Lower(s), k)
  {
    ContainsLowerTrimEnd(TrimStart(s), k);
    ContainsLowerTrimStart(s, k);
  }

  // ---------------------------------------------------------------------------
  // split and join
  // ---------------------------------------------------------------------------

  /** `s.split(sep)` for a one-character separator: always at least one piece, `""` for the empty string. */
  function Split(s: string, sep: char): (r: seq<string>)
    ensures |r| >= 1
  {
    if s == [] then [[]]
    else
      var rest := Split(s[1..], sep);
      if s[0] == sep then [[]] + rest else [[s[0]] + rest[0]] + rest[1..]
  }

  /** `parts.join(sep)`. */
  function Join(parts: seq<string>, sep: string): string {
    if |parts| == 0 then []
    else if |parts| == 1 then parts[0]
    else parts[0] + sep + Join(parts[1..], sep)
  }

  /** A join holds a character only if the separator or one of the parts does. */
  lemma {:induction false} JoinAvoids(parts: seq<string>, sep: string, c: char)
    requires c !in sep && forall i :: 0 <= i < |parts| ==> c !in parts[i]
    ensures c !in Join(parts, sep)
  {
    if |parts| > 1 {
      JoinAvoids(parts[1..], sep, c);
    }
  }

  /** No piece of a split contains the separator. */
  lemma {:induction false} SplitPiecesFree(s: string, sep: char)
    ensures forall i :: 0 <= i < |Split(s, sep)| ==> sep !in Split(s, sep)[i]
  {
    if s != [] {
      SplitPiecesFree(s[1..], sep);
    }
  }

  /** Joining the pieces of a split with the separator restores the string. */
  lemma {:induction false} JoinSplit(s: string, sep: char)
    ensures Join(Split(s, sep), [sep]) == s
  {
    if s != [] {
      var rest := Split(s[1..], sep);
      JoinSplit(s[1..], sep);
      if s[0] == sep {
        assert Split(s, sep) == [[]] + rest;
        assert ([[]] + rest)[1..] == rest;
      } else {
        var r := Split(s, sep);
        assert r == [[s[0]] + rest[0]] + rest[1..];
        if |rest| == 1 {
          assert Join(r, [sep]) == [s[0]] + rest[0];
        } else {
          assert r[1..] == rest[1..];
          assert Join(rest, [sep]) == rest[0] + [sep] + Join(rest[1..], [sep]);
        }
      }
    }
  }

  /** Splitting a join of separator-free pieces, at least one, gives the pieces back. */
  lemma {:induction false} SplitJoin(parts: seq<string>, sep: char)
    requires |parts| >= 1
    requires forall i :: 0 <= i < |parts| ==> sep !in parts[i]
    ensures Split(Join(parts, [sep]), sep) == parts
  {
    if |parts| == 1 {
      SplitFree(parts[0], sep);
    } else {
      SplitJoin(parts[1..], sep);
      SplitPrefix(parts[0], Join(parts[1..], [sep]), sep);
      assert [parts[0]] + parts[1..] == parts;
    }
  }

  lemma {:induction false} SplitFree(s: string, sep: char)
    requires sep !in s
    ensures Split(s, sep) == [s]
  {
    if s != [] {
      SplitFree(s[1..], sep);
      assert [s[0]] + s[1..] == s;
    }
  }

  lemma {:induction false} SplitPrefix(a: string, b: string, sep: char)
    requires sep !in a
    ensures Split(a + [sep] + b, sep) == [a] + Split(b, sep)
  {
    if a == [] {
      assert ([sep] + b)[1..] == b;
    } else {
      assert (a + [sep] + b)[1..] == a[1..] + [sep] + b;
      SplitPrefix(a[1..], b, sep);
      assert [a[0]] + a[1..] == a;
    }
  }

  // ---------------------------------------------------------------------------
  // Numbers as text
  // ---------------------------------------------------------------------------

  function DigitChar(d: nat): char
    requires d < 10
  {
    ('0' as int + d) as char
  }

  /** The decimal form of a natural number, as JavaScript's template literals print it. */
  function NatToString(n: nat): (r: string)
    ensures r != [] && NoWs(r)
    decreases n
  {
    if n < 10 then [DigitChar(n)] else NatToString(n / 10) + [DigitChar(n % 10)]
  }

  /** The decimal form of an integer, with a leading `-` for negatives. */
  function IntToString(n: int): (r: string)
    ensures r != []
  {
    if n < 0 then "-" + NatToString(-n) else NatToString(n)
  }
}
