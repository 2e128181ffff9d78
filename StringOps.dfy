/** The Python `str` operations the tools rely on, on `seq<char>`:
    `in` (substring test), `startswith`/`endswith`, `count`, `replace`,
    `split`, `strip`, and `str()` of a natural number. */
module StringOps {

  datatype Option<T> = None | Some(value: T)

  /** `t` is a prefix of `s` (Python `s.startswith(t)`). */
  predicate StartsWith(s: string, t: string) {
    |t| <= |s| && s[..|t|] == t
  }

  /** `t` is a suffix of `s` (Python `s.endswith(t)`; the empty suffix always matches). */
  predicate EndsWith(s: string, t: string) {
    |t| <= |s| && s[|s| - |t|..] == t
  }

  /** Python `t in s` for two strings: `t` occurs somewhere in `s`.
      The empty string occurs in every string. */
  predicate IsSubstring(t: string, s: string)
    decreases |s|
  {
    StartsWith(s, t) || (s != [] && IsSubstring(t, s[1..]))
  }

  lemma {:induction false} SubstringOfChar(c: char, s: string)
    ensures IsSubstring([c], s) <==> c in s
    decreases |s|
  {
    if s != [] {
      SubstringOfChar(c, s[1..]);
      assert s == [s[0]] + s[1..];
    }
  }

  lemma {:induction false} SubstringAt(t: string, s: string, i: nat)
    requires i + |t| <= |s| && s[i..i + |t|] == t
    ensures IsSubstring(t, s)
    decreases i
  {
    if i > 0 {
      assert s[1..][i - 1..i - 1 + |t|] == s[i..i + |t|];
      SubstringAt(t, s[1..], i - 1);
    }
  }

  lemma {:induction false} SubstringOfPrefix(t: string, s: string, n: nat)
    requires n <= |s| && IsSubstring(t, s[..n])
    ensures IsSubstring(t, s)
    decreases n
  {
    if StartsWith(s[..n], t) {
      SubstringAt(t, s, 0);
    } else {
      assert s[..n][1..] == s[1..][..n - 1];
      SubstringOfPrefix(t, s[1..], n - 1);
    }
  }

  /** A non-empty piece of `s` begins with a character of `s`. */
  lemma {:induction false} SubstringHead(t: string, s: string)
    requires t != [] && IsSubstring(t, s)
    ensures t[0] in s
    decreases |s|
  {
    if !StartsWith(s, t) {
      SubstringHead(t, s[1..]);
    }
  }

  /** Number of occurrences of the character `c` in `s` (Python `s.count(c)`). */
  function Count(s: string, c: char): nat
    decreases |s|
  {
    if s == [] then 0 else (if s[0] == c then 1 else 0) + Count(s[1..], c)
  }

  lemma {:induction false} CountConcat(a: string, b: string, c: char)
    ensures Count(a + b, c) == Count(a, c) + Count(b, c)
    decreases |a|
  {
    if a != [] {
      assert (a + b)[0] == a[0] && (a + b)[1..] == a[1..] + b;
      CountConcat(a[1..], b, c);
    } else {
      assert a + b == b;
    }
  }

  lemma {:induction false} CountAbsent(s: string, c: char)
    requires c !in s
    ensures Count(s, c) == 0
    decreases |s|
  {
    if s != [] {
      CountAbsent(s[1..], c);
    }
  }

  /** Parenthesis balance: number of '(' minus number of ')'. */
  function Balance(s: string): int {
    Count(s, '(') - Count(s, ')')
  }

  /** Python `s.replace(pat, rep)` for a non-empty pattern: every leftmost,
      non-overlapping occurrence of `pat`, scanning left to right, becomes `rep`. */
  function Replace(s: string, pat: string, rep: string): (r: string)
    requires pat != ""
    ensures !IsSubstring(pat, s) ==> r == s
    decreases |s|
  {
    if |s| < |pat| then s
    else if s[..|pat|] == pat then rep + Replace(s[|pat|..], pat, rep)
    else [s[0]] + Replace(s[1..], pat, rep)
  }

  /** A chain of `replace` calls, one (pattern, replacement) pair after the other. */
  function ApplyRules(s: string, rules: seq<(string, string)>): string
    requires forall k :: 0 <= k < |rules| ==> rules[k].0 != ""
    decreases |rules|
  {
    if rules == [] then s else ApplyRules(Replace(s, rules[0].0, rules[0].1), rules[1..])
  }

  /** Replacing a pattern by a text with the same parenthesis balance keeps the balance. */
  lemma {:induction false} ReplaceKeepsBalance(s: string, pat: string, rep: string)
    requires pat != "" && Balance(pat) == Balance(rep)
    ensures Balance(Replace(s, pat, rep)) == Balance(s)
    decreases |s|
  {
    if |s| < |pat| {
    } else if s[..|pat|] == pat {
      ReplaceKeepsBalance(s[|pat|..], pat, rep);
      CountConcat(rep, Replace(s[|pat|..], pat, rep), '(');
      CountConcat(rep, Replace(s[|pat|..], pat, rep), ')');
      assert s == pat + s[|pat|..];
      CountConcat(pat, s[|pat|..], '(');
      CountConcat(pat, s[|pat|..], ')');
    } else {
      ReplaceKeepsBalance(s[1..], pat, rep);
      CountConcat([s[0]], Replace(s[1..], pat, rep), '(');
      CountConcat([s[0]], Replace(s[1..], pat, rep), ')');
      assert s == [s[0]] + s[1..];
      CountConcat([s[0]], s[1..], '(');
      CountConcat([s[0]], s[1..], ')');
    }
  }

  /** Appending one character commutes with replacing a one-character pattern. */
  lemma {:induction false} ReplaceCharAppend(s: string, c: char, rep: string, x: char)
    ensures Replace(s + [x], [c], rep) == Replace(s, [c], rep) + (if x == c then rep else [x])
    decreases |s|
  {
    var t := s + [x];
    if s == [] {
      assert t == [x] && t[1..] == [];
    } else {
      assert t[..1] == [s[0]] && t[1..] == s[1..] + [x];
      ReplaceCharAppend(s[1..], c, rep, x);
    }
  }

  /** A character absent from the subject and from the replacement is absent from the result. */
  lemma {:induction false} ReplaceAvoidsChar(s: string, pat: string, rep: string, c: char)
    requires pat != "" && c !in s && c !in rep
    ensures c !in Replace(s, pat, rep)
    decreases |s|
  {
    if |s| < |pat| {
    } else if s[..|pat|] == pat {
      ReplaceAvoidsChar(s[|pat|..], pat, rep, c);
    } else {
      ReplaceAvoidsChar(s[1..], pat, rep, c);
    }
  }

  /** A character absent from the subject and from every replacement is absent
      from the result of the chain. */
  lemma {:induction false} ApplyRulesAvoidsChar(s: string, rules: seq<(string, string)>, c: char)
    requires forall k :: 0 <= k < |rules| ==> rules[k].0 != "" && c !in rules[k].1
    requires c !in s
    ensures c !in ApplyRules(s, rules)
    decreases |rules|
  {
    if rules != [] {
      ReplaceAvoidsChar(s, rules[0].0, rules[0].1, c);
      ApplyRulesAvoidsChar(Replace(s, rules[0].0, rules[0].1), rules[1..], c);
    }
  }

  // ---------------------------------------------------------------------------
  // Whitespace and strip

  /** Python's `str.isspace` for one character: the ASCII controls TAB..CR and
      FS..US, space, NEL, NBSP, and the Unicode space separators. */
  predicate IsSpace(c: char) {
    ('\t' <= c <= '\r') || ('\U{1c}' <= c <= '\U{1f}') || c == ' ' || c == '\U{85}'
    || c == '\U{a0}' || c == '\U{1680}' || ('\U{2000}' <= c <= '\U{200a}')
    || c == '\U{2028}' || c == '\U{2029}' || c == '\U{202f}' || c == '\U{205f}'
    || c == '\U{3000}'
  }

  /** Every character of `s` is whitespace (Python `not s.strip()`). */
  predicate IsBlank(s: string) {
    forall i :: 0 <= i < |s| ==> IsSpace(s[i])
  }

  function TrimStart(s: string): (r: string)
    ensures r == [] || !IsSpace(r[0])
    ensures |r| <= |s| && r == s[|s| - |r|..]
    ensures IsBlank(s[..|s| - |r|])
    decreases |s|
  {
    if s != [] && IsSpace(s[0]) then
      var r := TrimStart(s[1..]);
      assert s[1..][|s| - 1 - |r|..] == s[|s| - |r|..];
      assert s[..|s| - |r|] == [s[0]] + s[1..][..|s| - 1 - |r|];
      r
    else s
  }

  function TrimEnd(s: string): (r: string)
    ensures r == [] || !IsSpace(r[|r| - 1])
    ensures |r| <= |s| && r == s[..|r|]
    ensures IsBlank(s[|r|..])
    decreases |s|
  {
    if s != [] && IsSpace(s[|s| - 1]) then
      var r := TrimEnd(s[..|s| - 1]);
      assert s[..|s| - 1][..|r|] == s[..|r|];
      assert s[|r|..] == s[..|s| - 1][|r|..] + [s[|s| - 1]];
      r
    else s
  }

  /** Python `s.strip()`: drop leading and trailing whitespace. */
  function Strip(s: string): string {
    TrimEnd(TrimStart(s))
  }

  /** The stripped text is a piece of the input. */
  lemma StripIsPiece(s: string)
    ensures IsSubstring(Strip(s), s)
  {
    var t := TrimStart(s);
    var r := TrimEnd(t);
    var k := |s| - |t|;
    assert t == s[k..] && r == t[..|r|];
    assert s[k..][..|r|] == s[k..k + |r|];
    SubstringAt(r, s, k);
  }

  /** Stripping leaves nothing exactly when the input is blank; otherwise the
      result begins and ends with a non-space character. */
  lemma StripEmptyIffBlank(s: string)
    ensures Strip(s) == [] <==> IsBlank(s)
    ensures Strip(s) != [] ==> !IsSpace(Strip(s)[0]) && !IsSpace(Strip(s)[|Strip(s)| - 1])
  {
    var t := TrimStart(s);
    TrimStartEmptyIffBlank(s);
    TrimEndEmptyIffBlank(t);
    if t != [] {
      assert !IsSpace(t[0]);
    }
    var r := TrimEnd(t);
    if r != [] {
      assert r[0] == t[0];
    }
  }

  /** Trimming the start leaves nothing exactly when the text is blank. */
  lemma TrimStartEmptyIffBlank(s: string)
    ensures TrimStart(s) == [] <==> IsBlank(s)
  {
    var t := TrimStart(s);
    if t == [] {
      assert s[..|s|] == s;
    } else {
      assert t[0] == s[|s| - |t|];
    }
  }

  /** Trimming the end leaves nothing exactly when the text is blank. */
  lemma TrimEndEmptyIffBlank(s: string)
    ensures TrimEnd(s) == [] <==> IsBlank(s)
  {
    var r := TrimEnd(s);
    if r == [] {
      assert s[0..] == s;
    } else {
      assert r[|r| - 1] == s[|r| - 1];
    }
  }

  /** Leading blanks are all that trimming the start removes. */
  lemma TrimStartBlankPrefix(a: string, u: string)
    requires IsBlank(a) && (u == [] || !IsSpace(u[0]))
    ensures TrimStart(a + u) == u
  {
    var s := a + u;
    var r := TrimStart(s);
    assert s[|s| - |u|..] == u;
  }

  /** Trailing blanks are all that trimming the end removes. */
  lemma TrimEndBlankSuffix(u: string, b: string)
    requires IsBlank(b) && (u == [] || !IsSpace(u[|u| - 1]))
    ensures TrimEnd(u + b) == u
  {
    var s := u + b;
    var r := TrimEnd(s);
    assert s[..|u|] == u;
  }

  /** Stripping text that neither starts nor ends with whitespace changes nothing. */
  lemma StripTrimmed(s: string)
    requires s == [] || (!IsSpace(s[0]) && !IsSpace(s[|s| - 1]))
    ensures Strip(s) == s
  {
  }
  /** A piece of two or more characters begins before the last character of `s`. */
  lemma {:induction false} SubstringHeadBeforeLast(t: string, s: string)
    requires |t| >= 2 && IsSubstring(t, s)
    ensures |s| >= 1 && t[0] in s[..|s| - 1]
    decreases |s|
  {
    if StartsWith(s, t) {
      assert s[..|s| - 1][0] == t[0];
    } else {
      SubstringHeadBeforeLast(t, s[1..]);
      assert s[1..][..|s| - 2] == s[1..|s| - 1];
    }
  }


  // ---------------------------------------------------------------------------
  // split

  /** Python `s.split(sep)` for a non-empty separator: the pieces between the
      leftmost, non-overlapping occurrences of `sep`. */
  function Split(s: string, sep: string): (r: seq<string>)
    requires sep != ""
    ensures |r| >= 1
    ensures Join(r, sep) == s
    decreases |s|
  {
    if |s| < |sep| then [s]
    else if s[..|sep|] == sep then
      assert s == sep + s[|sep|..];
      [""] + Split(s[|sep|..], sep)
    else
      var rest := Split(s[1..], sep);
      JoinConsHead(s[0], rest, sep);
      [[s[0]] + rest[0]] + rest[1..]
  }

  /** Python `sep.join(parts)`. */
  function Join(parts: seq<string>, sep: string): string
    decreases |parts|
  {
    if parts == [] then ""
    else if |parts| == 1 then parts[0]
    else parts[0] + sep + Join(parts[1..], sep)
  }

  lemma JoinConsHead(c: char, parts: seq<string>, sep: string)
    requires |parts| >= 1
    ensures Join([[c] + parts[0]] + parts[1..], sep) == [c] + Join(parts, sep)
  {
    var q := [[c] + parts[0]] + parts[1..];
    if |parts| > 1 {
      assert q[1..] == parts[1..];
    }
  }

  /** `s.replace(pat, rep)` is `rep.join(s.split(pat))`: the pieces between the
      occurrences of `pat` are kept, and each occurrence becomes `rep`. */
  lemma {:induction false} ReplaceJoinsPieces(s: string, pat: string, rep: string)
    requires pat != ""
    ensures Replace(s, pat, rep) == Join(Split(s, pat), rep)
    decreases |s|
  {
    if |s| < |pat| {
    } else if s[..|pat|] == pat {
      var rest := Split(s[|pat|..], pat);
      ReplaceJoinsPieces(s[|pat|..], pat, rep);
      assert ([""] + rest)[1..] == rest;
      assert Join([""] + rest, rep) == "" + rep + Join(rest, rep);
    } else {
      var rest := Split(s[1..], pat);
      ReplaceJoinsPieces(s[1..], pat, rep);
      JoinConsHead(s[0], rest, rep);
    }
  }

  /** Text without the separator splits into itself alone. */
  lemma {:induction false} SplitWithoutSeparator(s: string, sep: string)
    requires sep != "" && !IsSubstring(sep, s)
    ensures Split(s, sep) == [s]
    decreases |s|
  {
    if |s| >= |sep| {
      assert !StartsWith(s, sep);
      SplitWithoutSeparator(s[1..], sep);
      assert [s[0]] + s[1..] == s;
    }
  }

  /** Text holding the separator splits into at least two pieces. */
  lemma {:induction false} SplitFindsSeparator(s: string, sep: string)
    requires sep != "" && IsSubstring(sep, s)
    ensures |Split(s, sep)| >= 2
    decreases |s|
  {
    SubstringNoLonger(sep, s);
    if s[..|sep|] != sep {
      SplitFindsSeparator(s[1..], sep);
    }
  }

  lemma {:induction false} SubstringNoLonger(t: string, s: string)
    requires IsSubstring(t, s)
    ensures |t| <= |s|
    decreases |s|
  {
    if !StartsWith(s, t) {
      SubstringNoLonger(t, s[1..]);
    }
  }

  /** When the first occurrence of `sep` in `a + sep + b` is the one after `a`,
      splitting yields `a` followed by the pieces of `b`. */
  lemma {:induction false} SplitAfterPiece(a: string, sep: string, b: string)
    requires sep != "" && !IsSubstring(sep, a + sep[..|sep| - 1])
    ensures Split(a + sep + b, sep) == [a] + Split(b, sep)
    decreases |a|
  {
    var s := a + sep + b;
    if a == [] {
      assert s == sep + b;
      assert s[..|sep|] == sep && s[|sep|..] == b;
    } else {
      var w := a + sep[..|sep| - 1];
      assert |s| >= |sep|;
      assert w[..|sep|] == s[..|sep|];
      assert s[..|sep|] != sep;
      assert w[1..] == a[1..] + sep[..|sep| - 1];
      assert !IsSubstring(sep, w[1..]);
      SplitAfterPiece(a[1..], sep, b);
      assert s[1..] == a[1..] + sep + b;
      assert [s[0]] + a[1..] == a;
    }
  }

  // ---------------------------------------------------------------------------
  // str(n)

  function DigitChar(d: nat): (c: char)
    requires d < 10
    ensures '0' <= c <= '9' && c as int - '0' as int == d
  {
    "0123456789"[d]
  }

  /** The number a string of decimal digits denotes, most significant first. */
  function DigitsValue(s: string): nat
    requires forall i :: 0 <= i < |s| ==> '0' <= s[i] <= '9'
  {
    if s == [] then 0 else DigitsValue(s[..|s| - 1]) * 10 + (s[|s| - 1] as int - '0' as int)
  }

  /** Python `str(n)` for a natural number: its decimal digits, no sign, no
      leading zero, denoting `n`. */
  function Decimal(n: nat): (r: string)
    ensures r != []
    ensures forall i :: 0 <= i < |r| ==> '0' <= r[i] <= '9'
    ensures |r| > 1 ==> r[0] != '0'
    ensures DigitsValue(r) == n
    decreases n
  {
    if n < 10 then [DigitChar(n)]
    else
      var r := Decimal(n / 10) + [DigitChar(n % 10)];
      assert r[..|r| - 1] == Decimal(n / 10);
      r
  }
}
