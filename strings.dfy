/** String operations the pipeline borrows from JavaScript: whitespace and
    trimming, substring search, `substring(0, n)`, `split`/`join`, ASCII case
    mapping, and the small regular-expression replacements that are simple
    enough to state exactly. Characters stand for UTF-16 code units. */
module Strings {

  /** JavaScript's WhiteSpace and LineTerminator characters: the set that
      `trim` removes and that `\s` matches. */
  predicate IsJsSpace(c: char)
  {
    c == '\t' || c == '\n' || c == '\U{B}' || c == '\U{C}' || c == '\r' || c == ' ' ||
    c == '\U{A0}' || c == '\U{1680}' || ('\U{2000}' <= c <= '\U{200A}') ||
    c == '\U{2028}' || c == '\U{2029}' || c == '\U{202F}' || c == '\U{205F}' ||
    c == '\U{3000}' || c == '\U{FEFF}'
  }

  /** The characters of the class `[\r\n]`. */
  predicate IsLineBreak(c: char)
  {
    c == '\r' || c == '\n'
  }

  /** The characters a regular-expression `.` refuses to match. */
  predicate IsLineTerminator(c: char)
  {
    c == '\n' || c == '\r' || c == '\U{2028}' || c == '\U{2029}'
  }

  predicate NoLineTerminator(s: string)
  {
    forall k :: 0 <= k < |s| ==> !IsLineTerminator(s[k])
  }

  // ---------------------------------------------------------------------------
  // Substrings

  /** `s.includes(t)`. */
  predicate Contains(s: string, t: string)
  {
    t <= s || (|s| > 0 && Contains(s[1..], t))
  }

  lemma {:induction false} ContainsAt(s: string, t: string, i: nat)
    requires i + |t| <= |s| && s[i..i + |t|] == t
    ensures Contains(s, t)
  {
    if i == 0 {
      assert s[..|t|] == t;
    } else {
      assert s[1..][i - 1..i - 1 + |t|] == s[i..i + |t|];
      ContainsAt(s[1..], t, i - 1);
    }
  }

  lemma ContainsInfix(a: string, t: string, b: string)
    ensures Contains(a + t + b, t)
  {
    var s := a + t + b;
    assert s[|a|..|a| + |t|] == t;
    ContainsAt(s, t, |a|);
  }

  /** A string found inside a substring is found inside the whole. */
  lemma {:induction false} ContainsTransitive(s: string, t: string, u: string)
    requires Contains(s, t) && Contains(t, u)
    ensures Contains(s, u)
  {
    var i := ContainsIndex(s, t);
    var j := ContainsIndex(t, u);
    forall k | 0 <= k < |u|
      ensures s[i + j + k] == u[k]
    {
      assert s[i + j + k] == s[i..i + |t|][j + k] == t[j + k];
      assert t[j + k] == t[j..j + |u|][k];
    }
    assert s[i + j..i + j + |u|] == u;
    ContainsAt(s, u, i + j);
  }

  lemma {:induction false} ContainsIndex(s: string, t: string) returns (i: nat)
    requires Contains(s, t)
    ensures i + |t| <= |s| && s[i..i + |t|] == t
  {
    if t <= s {
      i := 0;
    } else {
      var j := ContainsIndex(s[1..], t);
      i := j + 1;
      assert s[i..i + |t|] == s[1..][j..j + |t|];
    }
  }

  /** `t` occurs in `s` starting at index `k`. */
  predicate OccursAt(s: string, t: string, k: int)
  {
    0 <= k && k + |t| <= |s| && s[k..k + |t|] == t
  }

  /** The end of the run of class characters that starts at `k`. */
  function RunEnd(s: string, k: nat, inRun: char -> bool): (e: nat)
    requires k <= |s|
    ensures k <= e <= |s|
    ensures forall m :: k <= m < e ==> inRun(s[m])
    ensures e < |s| ==> !inRun(s[e])
    decreases |s| - k
  {
    if k == |s| || !inRun(s[k]) then k else RunEnd(s, k + 1, inRun)
  }

  /** The least position in `i..n` where `at` holds, or `n`: where a
      regular-expression search first succeeds. */
  function FirstWhere(n: nat, at: nat -> bool, i: nat): (k: nat)
    requires i <= n
    ensures i <= k <= n
    ensures k < n ==> at(k)
    ensures forall m :: i <= m < k ==> !at(m)
    decreases n - i
  {
    if i == n || at(i) then i else FirstWhere(n, at, i + 1)
  }

  /** The first index at which `t` occurs in `s` at or after `from`, or -1
      (`s.indexOf(t, from)`). */
  function IndexOf(s: string, t: string, from: nat): (r: int)
    ensures r == -1 || (from <= r && OccursAt(s, t, r))
    ensures r == -1 ==> forall k :: from <= k ==> !OccursAt(s, t, k)
    ensures r >= 0 ==> forall k :: from <= k < r ==> !OccursAt(s, t, k)
    decreases |s| - from
  {
    if from + |t| > |s| then -1
    else if s[from..from + |t|] == t then from
    else IndexOf(s, t, from + 1)
  }

  /** `s.substring(0, n)`: the whole string when it is shorter than `n`. */
  function Take(s: string, n: nat): (r: string)
    ensures |r| <= n && r <= s
    ensures |s| <= n ==> r == s
  {
    if |s| <= n then s else s[..n]
  }

  // ---------------------------------------------------------------------------
  // Trimming

  function TrimStart(s: string): (r: string)
    ensures |r| <= |s| && r == s[|s| - |r|..]
    ensures forall k :: 0 <= k < |s| - |r| ==> IsJsSpace(s[k])
    ensures r == [] || !IsJsSpace(r[0])
  {
    if |s| > 0 && IsJsSpace(s[0]) then TrimStart(s[1..]) else s
  }

  function TrimEnd(s: string): (r: string)
    ensures |r| <= |s| && r == s[..|r|]
    ensures forall k :: |r| <= k < |s| ==> IsJsSpace(s[k])
    ensures r == [] || !IsJsSpace(r[|r| - 1])
  {
    if |s| > 0 && IsJsSpace(s[|s| - 1]) then TrimEnd(s[..|s| - 1]) else s
  }

  /** `s.trim()`. */
  function Trim(s: string): (r: string)
    ensures |r| <= |s|
    ensures r == [] || (!IsJsSpace(r[0]) && !IsJsSpace(r[|r| - 1]))
  {
    TrimEnd(TrimStart(s))
  }

  /** Trimming keeps a piece of the string. */
  lemma TrimIsInfix(s: string)
    ensures Contains(s, Trim(s))
  {
    var t := TrimStart(s);
    var a := |s| - |t|;
    assert Trim(s) == s[a..a + |Trim(s)|];
    ContainsAt(s, Trim(s), a);
  }

  // ---------------------------------------------------------------------------
  // The replacement `/```json|```/g` -> ""

  const Fence: string := "```"
  const JsonFence: string := "```json"

  /** Removes, left to right, every "```json" and every other "```". */
  function StripFences(s: string): (r: string)
    ensures |r| <= |s|
    decreases |s|
  {
    if s == [] then []
    else if JsonFence <= s then StripFences(s[7..])
    else if Fence <= s then StripFences(s[3..])
    else [s[0]] + StripFences(s[1..])
  }

  lemma StripFencesHead(t: string)
    requires t != [] && t[0] != '`'
    ensures StripFences(t) == [t[0]] + StripFences(t[1..])
  {
  }

  /** After the replacement no "```" is left, so no fence survives into the
      text handed to the JSON parser. */
  lemma {:induction false} StripFencesLeavesNoFence(s: string)
    ensures !Contains(StripFences(s), Fence)
    decreases |s|
  {
    if s == [] {
    } else if JsonFence <= s {
      StripFencesLeavesNoFence(s[7..]);
    } else if Fence <= s {
      StripFencesLeavesNoFence(s[3..]);
    } else {
      var t := s[1..];
      var rest := StripFences(t);
      StripFencesLeavesNoFence(t);
      assert StripFences(s) == [s[0]] + rest;
      if s[0] == '`' && |rest| >= 2 && rest[0] == '`' && rest[1] == '`' {
        if t[0] != '`' {
          StripFencesHead(t);
        } else {
          assert !(Fence <= t) by { assert |s| < 3 || s[2] != '`'; }
          assert !(JsonFence <= t);
          assert rest == [t[0]] + StripFences(t[1..]);
          if t[1..] == [] {
          } else {
            assert t[1..][0] == s[2];
            StripFencesHead(t[1..]);
          }
        }
      }
      assert !(Fence <= [s[0]] + rest);
    }
  }

  /** Text without backticks passes through the fence removal unchanged. */
  lemma {:induction false} StripFencesPlainPrefix(a: string, t: string)
    requires '`' !in a
    ensures StripFences(a + t) == a + StripFences(t)
  {
    if a != [] {
      assert (a + t)[1..] == a[1..] + t;
      assert !(Fence <= a + t) && !(JsonFence <= a + t) by { assert (a + t)[0] == a[0]; }
      StripFencesPlainPrefix(a[1..], t);
      StripFencesHead(a + t);
      assert a == [a[0]] + a[1..];
    } else {
      assert a + t == t;
    }
  }

  /** A string without white space at either end is its own trim. */
  lemma TrimUnchanged(s: string)
    requires s == [] || (!IsJsSpace(s[0]) && !IsJsSpace(s[|s| - 1]))
    ensures Trim(s) == s
  {
  }

  // ---------------------------------------------------------------------------
  // Replacing every maximal run of a character class by one space

  /** `s.replace(/[class]+/g, " ")` for the class `inRun`. */
  function ReplaceRuns(s: string, inRun: char -> bool): (r: string)
    ensures forall k :: 0 <= k < |r| ==> r[k] == ' ' || !inRun(r[k])
    decreases |s|
  {
    if s == [] then []
    else if inRun(s[0]) then [' '] + ReplaceRuns(DropRun(s, inRun), inRun)
    else [s[0]] + ReplaceRuns(s[1..], inRun)
  }

  function DropRun(s: string, inRun: char -> bool): (r: string)
    ensures |r| < |s| || s == [] || !inRun(s[0])
    ensures |r| <= |s| && r == s[|s| - |r|..]
  {
    if s != [] && inRun(s[0]) then DropRun(s[1..], inRun) else s
  }

  /** A text whose class characters are single spaces, never two in a row,
      is left unchanged. */
  lemma {:induction false} ReplaceRunsUnchanged(s: string, inRun: char -> bool)
    requires forall k :: 0 <= k < |s| && inRun(s[k]) ==> s[k] == ' ' && (k + 1 < |s| ==> !inRun(s[k + 1]))
    ensures ReplaceRuns(s, inRun) == s
    decreases |s|
  {
    if s != [] {
      if inRun(s[0]) {
        assert DropRun(s[1..], inRun) == s[1..];
        assert DropRun(s, inRun) == s[1..];
      }
      ReplaceRunsUnchanged(s[1..], inRun);
      assert s == [s[0]] + s[1..];
    }
  }

  /** The aggressive clean-up of the salvage path leaves no line terminator,
      so a `.` in a later pattern matches every remaining character. */
  lemma CollapsedHasNoLineTerminator(s: string)
    ensures NoLineTerminator(ReplaceRuns(ReplaceRuns(s, IsLineBreak), IsJsSpace))
  {
  }

  /** `s.replace(/c/g, d)` for one character. */
  function ReplaceChar(s: string, c: char, d: char): (r: string)
    ensures |r| == |s|
    ensures forall k :: 0 <= k < |s| ==> r[k] == if s[k] == c then d else s[k]
  {
    seq(|s|, k requires 0 <= k < |s| => if s[k] == c then d else s[k])
  }

  // ---------------------------------------------------------------------------
  // ASCII case mapping

  function UpperChar(c: char): (d: char)
    ensures d == c || ('a' <= c <= 'z' && 'A' <= d <= 'Z')
  {
    if 'a' <= c <= 'z' then (c as int - 32) as char else c
  }

  function LowerChar(c: char): char
  {
    if 'A' <= c <= 'Z' then (c as int + 32) as char else c
  }

  /** Upper-casing changes only the case. */
  lemma UpperLower(c: char)
    ensures LowerChar(UpperChar(c)) == LowerChar(c)
  {
  }

  /** `s.toLowerCase()` on ASCII text. */
  function Lower(s: string): (r: string)
    ensures |r| == |s|
  {
    seq(|s|, k requires 0 <= k < |s| => LowerChar(s[k]))
  }

  /** `\w`: ASCII letters, digits and underscore. */
  predicate IsWordChar(c: char)
  {
    ('a' <= c <= 'z') || ('A' <= c <= 'Z') || ('0' <= c <= '9') || c == '_'
  }

  /** `s.replace(/\b\w/g, l => l.toUpperCase())`: every word character that
      starts a word is upper-cased; nothing else changes. */
  function UpperWordStarts(s: string): (r: string)
    ensures |r| == |s|
    ensures forall k :: 0 <= k < |s| ==> r[k] == s[k] || (IsWordChar(s[k]) && r[k] == UpperChar(s[k]))
  {
    seq(|s|, k requires 0 <= k < |s| =>
      if IsWordChar(s[k]) && (k == 0 || !IsWordChar(s[k - 1])) then UpperChar(s[k]) else s[k])
  }

  // ---------------------------------------------------------------------------
  // split / join

  /** `s.split(c)` for a one-character separator: always at least one part. */
  function Split(s: string, c: char): (parts: seq<string>)
    ensures |parts| >= 1
    ensures forall i :: 0 <= i < |parts| ==> c !in parts[i]
  {
    if s == [] then [[]]
    else if s[0] == c then [[]] + Split(s[1..], c)
    else
      var rest := Split(s[1..], c);
      [[s[0]] + rest[0]] + rest[1..]
  }

  /** `parts.join(sep)`. */
  function Join(parts: seq<string>, sep: string): string
  {
    if |parts| == 0 then []
    else if |parts| == 1 then parts[0]
    else parts[0] + sep + Join(parts[1..], sep)
  }

  lemma {:induction false} JoinSplit(s: string, c: char)
    ensures Join(Split(s, c), [c]) == s
  {
    if s == [] {
    } else if s[0] == c {
      JoinSplit(s[1..], c);
    } else {
      var rest := Split(s[1..], c);
      JoinSplit(s[1..], c);
      if |rest| > 1 {
        assert Join(rest, [c]) == rest[0] + [c] + Join(rest[1..], [c]);
      }
    }
  }

  /** Splitting the joined parts at the separator gives the parts back,
      when there is at least one and none holds the separator. */
  lemma {:induction false} SplitJoin(parts: seq<string>, c: char)
    requires |parts| >= 1
    requires forall i :: 0 <= i < |parts| ==> c !in parts[i]
    ensures Split(Join(parts, [c]), c) == parts
  {
    if |parts| == 1 {
      SplitFirstWord(parts[0], [], c);
    } else {
      var rest := Join(parts[1..], [c]);
      SplitJoin(parts[1..], c);
      assert Join(parts, [c]) == parts[0] + [c] + rest;
      SplitFirstWord(parts[0], rest, c);
      assert parts == [parts[0]] + parts[1..];
    }
  }

  lemma {:induction false} SplitFirstWord(w: string, t: string, c: char)
    requires c !in w
    ensures Split(w + [c] + t, c) == [w] + Split(t, c)
    ensures Split(w, c) == [w]
  {
    if w != [] {
      SplitFirstWord(w[1..], t, c);
      assert (w + [c] + t)[1..] == w[1..] + [c] + t;
      assert (w + [c] + t)[0] == w[0];
      assert [w[0]] + w[1..] == w;
    } else {
      assert w + [c] + t == [c] + t;
    }
  }

  /** `w.charAt(0).toUpperCase() + w.slice(1)`. */
  function Capitalize(w: string): (r: string)
    ensures |r| == |w|
    ensures forall k :: 1 <= k < |w| ==> r[k] == w[k]
  {
    if w == [] then [] else [UpperChar(w[0])] + w[1..]
  }

  function MapCapitalize(ws: seq<string>): (r: seq<string>)
    ensures |r| == |ws|
    ensures forall i :: 0 <= i < |ws| ==> r[i] == Capitalize(ws[i])
  {
    if ws == [] then [] else [Capitalize(ws[0])] + MapCapitalize(ws[1..])
  }

  /** `s.split(" ").map(capitalize).join(" ")`. */
  function TitleCase(s: string): string
  {
    Join(MapCapitalize(Split(s, ' ')), " ")
  }

  lemma CapitalizeNoSpace(w: string)
    requires ' ' !in w
    ensures ' ' !in Capitalize(w)
  {
    if w != [] {
      assert Capitalize(w)[0] == UpperChar(w[0]);
      forall k | 0 <= k < |w| ensures Capitalize(w)[k] != ' ' {
        if k > 0 { assert Capitalize(w)[k] == w[k]; }
      }
    }
  }

  /** Title-casing keeps the number of words and, on ASCII text, the length. */
  lemma {:induction false} TitleCasePreservesShape(s: string)
    ensures |TitleCase(s)| == |s|
    ensures |Split(TitleCase(s), ' ')| == |Split(s, ' ')|
    decreases |s|
  {
    var ws := Split(s, ' ');
    JoinSplit(s, ' ');
    var w := ws[0];
    CapitalizeNoSpace(w);
    if |ws| == 1 {
      SplitFirstWord(Capitalize(w), [], ' ');
    } else {
      var t := Join(ws[1..], " ");
      assert s == w + [' '] + t;
      SplitFirstWord(w, t, ' ');
      assert Split(t, ' ') == ws[1..];
      assert MapCapitalize(ws) == [Capitalize(w)] + MapCapitalize(ws[1..]);
      assert TitleCase(s) == Capitalize(w) + [' '] + TitleCase(t);
      TitleCasePreservesShape(t);
      SplitFirstWord(Capitalize(w), TitleCase(t), ' ');
    }
  }

  /** `r` is `s` with the characters that start a word upper-cased. */
  predicate WordStartsUpper(s: string, r: string)
  {
    |r| == |s| &&
    forall k :: 0 <= k < |s| ==> r[k] == if k == 0 || s[k - 1] == ' ' then UpperChar(s[k]) else s[k]
  }

  /** Title-casing upper-cases exactly the characters that start a word
      (the first one, and each one after a space) and keeps the rest. */
  lemma {:induction false} TitleCaseChars(s: string)
    ensures WordStartsUpper(s, TitleCase(s))
    decreases |s|
  {
    var i := FirstSpace(s, 0);
    var w := s[..i];
    if i == |s| {
      assert w == s;
      SplitFirstWord(w, [], ' ');
      assert TitleCase(s) == Capitalize(w);
    } else {
      var t := s[i + 1..];
      assert s == w + [' '] + t;
      SplitFirstWord(w, t, ' ');
      TitleCaseCons(w, t);
      TitleCaseChars(t);
      ConsWordStartsUpper(w, t, TitleCase(t));
    }
  }

  function FirstSpace(s: string, i: nat): (k: nat)
    requires i <= |s|
    ensures i <= k <= |s| && (k < |s| ==> s[k] == ' ')
    ensures forall m :: i <= m < k ==> s[m] != ' '
    decreases |s| - i
  {
    if i == |s| || s[i] == ' ' then i else FirstSpace(s, i + 1)
  }

  lemma TitleCaseCons(w: string, t: string)
    requires ' ' !in w
    ensures TitleCase(w + [' '] + t) == Capitalize(w) + [' '] + TitleCase(t)
  {
    SplitFirstWord(w, t, ' ');
    var ws := Split(w + [' '] + t, ' ');
    assert MapCapitalize(ws) == [Capitalize(w)] + MapCapitalize(Split(t, ' '));
  }

  lemma WordStartAt(s: string, r: string, j: int)
    requires WordStartsUpper(s, r) && 0 <= j < |s|
    ensures r[j] == if j == 0 || s[j - 1] == ' ' then UpperChar(s[j]) else s[j]
  {
  }

  lemma ConsWordStartsUpper(w: string, t: string, rt: string)
    requires ' ' !in w && WordStartsUpper(t, rt)
    ensures WordStartsUpper(w + [' '] + t, Capitalize(w) + [' '] + rt)
  {
    var s := w + [' '] + t;
    var r := Capitalize(w) + [' '] + rt;
    forall k | 0 <= k < |s|
      ensures r[k] == if k == 0 || s[k - 1] == ' ' then UpperChar(s[k]) else s[k]
    {
      if k < |w| {
        assert r[k] == Capitalize(w)[k] && s[k] == w[k];
        if k > 0 { assert s[k - 1] == w[k - 1]; } else { assert Capitalize(w)[0] == UpperChar(w[0]); }
      } else if k == |w| {
        assert r[k] == ' ' && s[k] == ' ';
        if k > 0 { assert s[k - 1] == w[k - 1]; }
      } else {
        var j := k - |w| - 1;
        assert 0 <= j < |t| == |rt|;
        assert r[k] == rt[j] && s[k] == t[j];
        WordStartAt(t, rt, j);
        if j > 0 { assert s[k - 1] == t[j - 1]; } else { assert s[k - 1] == ' '; }
      }
    }
  }

  // ---------------------------------------------------------------------------
  // Subsequences: what a deleting replacement leaves behind

  /** `a` is obtained from `b` by deleting characters. */
  predicate IsSubsequence(a: string, b: string)
  {
    a == [] ||
    (b != [] && ((a[0] == b[0] && IsSubsequence(a[1..], b[1..])) || IsSubsequence(a, b[1..])))
  }

  lemma {:induction false} SubsequenceLength(a: string, b: string)
    requires IsSubsequence(a, b)
    ensures |a| <= |b|
  {
    if a != [] {
      if a[0] == b[0] && IsSubsequence(a[1..], b[1..]) {
        SubsequenceLength(a[1..], b[1..]);
      } else {
        SubsequenceLength(a, b[1..]);
      }
    }
  }

  lemma {:induction false} SubsequenceTransitive(a: string, b: string, c: string)
    requires IsSubsequence(a, b) && IsSubsequence(b, c)
    ensures IsSubsequence(a, c)
    decreases |c|
  {
    if a == [] {
    } else if b[0] == c[0] && IsSubsequence(b[1..], c[1..]) {
      if a[0] == b[0] && IsSubsequence(a[1..], b[1..]) {
        SubsequenceTransitive(a[1..], b[1..], c[1..]);
      } else {
        SubsequenceTransitive(a, b[1..], c[1..]);
      }
    } else {
      SubsequenceTransitive(a, b, c[1..]);
    }
  }

  lemma {:induction false} PrefixIsSubsequence(a: string, b: string)
    requires a <= b
    ensures IsSubsequence(a, b)
  {
    if a != [] { PrefixIsSubsequence(a[1..], b[1..]); }
  }

  lemma {:induction false} InfixIsSubsequence(s: string, t: string)
    requires Contains(s, t)
    ensures IsSubsequence(t, s)
  {
    if t <= s {
      PrefixIsSubsequence(t, s);
    } else {
      InfixIsSubsequence(s[1..], t);
    }
  }

  // ---------------------------------------------------------------------------
  // Numbers as text

  function DigitChar(d: nat): (c: char)
    requires d < 10
    ensures '0' <= c <= '9'
  {
    ('0' as int + d) as char
  }

  /** The decimal text of a natural number, as `String(n)` prints it. */
  function NatToString(n: nat): (r: string)
    ensures |r| >= 1
    ensures forall k :: 0 <= k < |r| ==> '0' <= r[k] <= '9'
  {
    if n < 10 then [DigitChar(n)] else NatToString(n / 10) + [DigitChar(n % 10)]
  }

  /** Distinct numbers print differently. */
  lemma {:induction false} NatToStringInjective(n: nat, m: nat)
    requires n != m
    ensures NatToString(n) != NatToString(m)
  {
    if n >= 10 && m >= 10 {
      var a, b := NatToString(n), NatToString(m);
      if a == b {
        assert a[|a| - 1] == b[|b| - 1];
        assert n % 10 == m % 10;
        assert a[..|a| - 1] == NatToString(n / 10);
        assert b[..|b| - 1] == NatToString(m / 10);
        NatToStringInjective(n / 10, m / 10);
      }
    } else if n >= 10 {
      assert |NatToString(n)| >= 2;
    } else if m >= 10 {
      assert |NatToString(m)| >= 2;
    }
  }

  predicate AllDigits(s: string)
  {
    forall k :: 0 <= k < |s| ==> '0' <= s[k] <= '9'
  }

  /** The number a string of decimal digits denotes. */
  function DecimalValue(s: string): nat
    requires AllDigits(s)
  {
    if s == [] then 0 else 10 * DecimalValue(s[..|s| - 1]) + (s[|s| - 1] as int - '0' as int)
  }

  lemma {:induction false} DecimalPositive(s: string)
    requires AllDigits(s) && s != [] && s[0] != '0'
    ensures DecimalValue(s) >= 1
  {
    if |s| > 1 {
      DecimalPositive(s[..|s| - 1]);
    }
  }

  /** Digit strings with no leading zero denote distinct numbers. */
  lemma {:induction false} DecimalValueInjective(a: string, b: string)
    requires AllDigits(a) && AllDigits(b)
    requires (a == [] || a[0] != '0') && (b == [] || b[0] != '0')
    requires DecimalValue(a) == DecimalValue(b)
    ensures a == b
  {
    if a == [] && b != [] {
      DecimalPositive(b);
    } else if a != [] && b == [] {
      DecimalPositive(a);
    } else if a != [] {
      var a', b' := a[..|a| - 1], b[..|b| - 1];
      assert a[|a| - 1] == b[|b| - 1] by {
        assert DecimalValue(a) % 10 == a[|a| - 1] as int - '0' as int;
        assert DecimalValue(b) % 10 == b[|b| - 1] as int - '0' as int;
      }
      assert DecimalValue(a') == DecimalValue(a) / 10 == DecimalValue(b) / 10 == DecimalValue(b');
      DecimalValueInjective(a', b');
      assert a == a' + [a[|a| - 1]] && b == b' + [b[|b| - 1]];
    }
  }

  function IntToString(n: int): string
  {
    if n < 0 then "-" + NatToString(-n) else NatToString(n)
  }
}
