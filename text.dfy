/** Character classes and the handful of Python `str` operations the tool relies on:
    `strip`/`lstrip`/`rstrip`, `lower`/`upper`, `split`, `join`, `replace(pat, repl, 1)`,
    `str(int)`, and the regular-expression pieces `\b`, `\s+`, `\d+` used by the SQL
    guards. Case mapping and word characters are ASCII (see README, "Left out");
    whitespace is the full set Python's `str.isspace` and the regex `\s` accept. */
module Text {
  import opened Wrappers

  // ---------------------------------------------------------------- characters

  /** The characters for which Python's `str.isspace()` is true (also regex `\s`):
      U+0009..U+000D, U+001C..U+0020, U+0085, U+00A0, U+1680, U+2000..U+200A, U+2028,
      U+2029, U+202F, U+205F and U+3000. */
  predicate IsSpace(c: char)
  {
    || '\t' <= c <= '\r'
    || '\U{1C}' <= c <= ' '
    || c == '\U{85}' || c == '\U{A0}' || c == '\U{1680}'
    || '\U{2000}' <= c <= '\U{200A}'
    || c == '\U{2028}' || c == '\U{2029}' || c == '\U{202F}' || c == '\U{205F}' || c == '\U{3000}'
  }

  predicate IsDigit(c: char) { '0' <= c <= '9' }

  predicate IsUpperAscii(c: char) { 'A' <= c <= 'Z' }

  predicate IsLowerAscii(c: char) { 'a' <= c <= 'z' }

  /** Regex `\w`: letters, digits and underscore. */
  predicate IsWordChar(c: char) { IsUpperAscii(c) || IsLowerAscii(c) || IsDigit(c) || c == '_' }

  function LowerChar(c: char): char
  {
    if IsUpperAscii(c) then (c as int - 'A' as int + 'a' as int) as char else c
  }

  function UpperChar(c: char): char
  {
    if IsLowerAscii(c) then (c as int - 'a' as int + 'A' as int) as char else c
  }

  /** `s.lower()` */
  function Lower(s: string): (r: string)
  {
    seq(|s|, i requires 0 <= i < |s| => LowerChar(s[i]))
  }

  /** `s.upper()` */
  function Upper(s: string): (r: string)
  {
    seq(|s|, i requires 0 <= i < |s| => UpperChar(s[i]))
  }

  /** Case mapping never turns a space into a non-space or back. */
  lemma SpaceLower(c: char)
    ensures IsSpace(LowerChar(c)) == IsSpace(c)
  {
  }

  lemma LowerSlice(s: string, a: nat, b: nat)
    requires a <= b <= |s|
    ensures Lower(s[a..b]) == Lower(s)[a..b]
  {
  }

  lemma LowerAppend(s: string, t: string)
    ensures Lower(s + t) == Lower(s) + Lower(t)
  {
  }

  // ---------------------------------------------------------------- strip

  /** `s.lstrip()` */
  function LStrip(s: string): (r: string)
    ensures |r| <= |s| && r == s[|s| - |r|..]
    ensures r == [] || !IsSpace(r[0])
    ensures forall i :: 0 <= i < |s| - |r| ==> IsSpace(s[i])
  {
    if |s| > 0 && IsSpace(s[0]) then LStrip(s[1..]) else s
  }

  /** `s.rstrip()` */
  function RStrip(s: string): (r: string)
    ensures |r| <= |s| && r == s[..|r|]
    ensures r == [] || !IsSpace(r[|r| - 1])
    ensures forall i :: |r| <= i < |s| ==> IsSpace(s[i])
  {
    if |s| > 0 && IsSpace(s[|s| - 1]) then RStrip(s[..|s| - 1]) else s
  }

  /** `s.strip()` */
  function Strip(s: string): string
  {
    RStrip(LStrip(s))
  }

  predicate AllSpace(s: string) { forall i :: 0 <= i < |s| ==> IsSpace(s[i]) }

  /** Right-stripping leaves nothing only from whitespace. */
  lemma RStripEmpty(s: string)
    requires RStrip(s) == []
    ensures AllSpace(s)
  {
  }

  /** Stripping leaves nothing exactly when the text is all whitespace. */
  lemma StripEmptyIff(s: string)
    ensures Strip(s) == "" <==> AllSpace(s)
  {
    var l := LStrip(s);
    if Strip(s) == "" {
      RStripEmpty(l);
    } else {
      var r := Strip(s);
      assert r[0] == l[0];
      assert !IsSpace(l[0]);
      assert l[0] == s[|s| - |l|];
    }
  }

  /** Stripping keeps only characters of the text, so it adds no separator. */
  lemma StripNoneIn(s: string, seps: set<char>)
    requires NoneIn(s, seps)
    ensures NoneIn(Strip(s), seps)
  {
    var l := LStrip(s);
    var r := RStrip(l);
    var a := |s| - |l|;
    assert r == s[a..a + |r|];
    SliceNoneIn(s, a, a + |r|, seps);
  }

  /** A slice of a text without separators has none either. */
  lemma SliceNoneIn(s: string, a: nat, b: nat, seps: set<char>)
    requires a <= b <= |s| && NoneIn(s, seps)
    ensures NoneIn(s[a..b], seps)
  {
    assert forall j :: 0 <= j < b - a ==> s[a..b][j] == s[a + j];
  }

  /** A text with no space at either end is its own strip. */
  lemma StripTrimmed(s: string)
    requires s != [] && !IsSpace(s[0]) && !IsSpace(s[|s| - 1])
    ensures Strip(s) == s
  {
  }

  /** A stripped text neither starts nor ends with whitespace, so stripping again changes nothing. */
  lemma StripIdempotent(s: string)
    ensures Strip(Strip(s)) == Strip(s)
  {
    var r := Strip(s);
    if r != [] {
      var l := LStrip(s);
      assert r[0] == l[0];
      assert LStrip(r) == r;
    }
  }

  /** `s.rstrip(c)` for a single character. */
  function RStripChar(s: string, c: char): (r: string)
    ensures |r| <= |s| && r == s[..|r|]
    ensures r == [] || r[|r| - 1] != c
    ensures forall i :: |r| <= i < |s| ==> s[i] == c
  {
    if |s| > 0 && s[|s| - 1] == c then RStripChar(s[..|s| - 1], c) else s
  }

  /** `s.lstrip(c)` for a single character. */
  function LStripChar(s: string, c: char): (r: string)
    ensures |r| <= |s| && r == s[|s| - |r|..]
    ensures r == [] || r[0] != c
    ensures forall i :: 0 <= i < |s| - |r| ==> s[i] == c
  {
    if |s| > 0 && s[0] == c then LStripChar(s[1..], c) else s
  }

  // ---------------------------------------------------------------- split and join

  predicate NoneIn(s: string, seps: set<char>)
  {
    forall j :: 0 <= j < |s| ==> s[j] !in seps
  }

  /** Position of the first separator, or |s| when there is none. */
  function IndexOfAny(s: string, seps: set<char>): (i: nat)
    ensures i <= |s|
    ensures i < |s| ==> s[i] in seps
    ensures NoneIn(s[..i], seps)
  {
    if |s| == 0 then 0
    else if s[0] in seps then 0
    else
      var k := 1 + IndexOfAny(s[1..], seps);
      assert s[..k] == [s[0]] + s[1..][..k - 1];
      k
  }

  /** `s.split(c)` when `seps == {c}`; `re.split("[...]", s)` for a character class.
      Empty pieces are kept, and there is always at least one piece. */
  function Split(s: string, seps: set<char>): (r: seq<string>)
    ensures |r| >= 1
    ensures forall k :: 0 <= k < |r| ==> NoneIn(r[k], seps)
    decreases |s|
  {
    var i := IndexOfAny(s, seps);
    if i == |s| then
      assert s[..i] == s;
      [s]
    else [s[..i]] + Split(s[i + 1..], seps)
  }

  /** `sep.join(xs)` */
  function Join(sep: string, xs: seq<string>): string
  {
    if |xs| == 0 then "" else if |xs| == 1 then xs[0] else xs[0] + sep + Join(sep, xs[1..])
  }

  /** A join with a non-empty separator is empty only for no pieces or one empty piece. */
  lemma JoinEmpty(sep: string, xs: seq<string>)
    requires sep != ""
    ensures Join(sep, xs) == "" <==> xs == [] || xs == [""]
  {
    if |xs| >= 2 {
      assert |Join(sep, xs)| >= |sep|;
    }
  }

  /** A join begins with its first piece. */
  lemma JoinPrefix(sep: string, xs: seq<string>)
    requires |xs| >= 1
    ensures |xs[0]| <= |Join(sep, xs)| && Join(sep, xs)[..|xs[0]|] == xs[0]
  {
    if |xs| > 1 {
      assert Join(sep, xs) == xs[0] + (sep + Join(sep, xs[1..]));
    }
  }

  lemma IndexOfAnyConcat(a: string, c: char, b: string, seps: set<char>)
    requires NoneIn(a, seps) && c in seps
    ensures IndexOfAny(a + [c] + b, seps) == |a|
  {
    if |a| > 0 {
      assert (a + [c] + b)[1..] == a[1..] + [c] + b;
      IndexOfAnyConcat(a[1..], c, b, seps);
    }
  }

  /** Splitting cuts off the text before the first separator as the first piece. */
  lemma SplitFirst(s: string, seps: set<char>)
    requires IndexOfAny(s, seps) < |s|
    ensures var i := IndexOfAny(s, seps);
            Split(s, seps) == [s[..i]] + Split(s[i + 1..], seps)
  {
  }

  /** Without a separator the text is its only piece. */
  lemma SplitNone(s: string, seps: set<char>)
    requires IndexOfAny(s, seps) == |s|
    ensures Split(s, seps) == [s]
  {
  }

  /** Joining a piece in front of at least one more puts a separator after it. */
  lemma JoinCons(sep: string, x: string, xs: seq<string>)
    requires |xs| >= 1
    ensures Join(sep, [x] + xs) == x + sep + Join(sep, xs)
  {
    assert ([x] + xs)[1..] == xs;
  }

  /** Splitting on one character and joining with it again gives back the text. */
  lemma {:induction false} JoinSplit(s: string, c: char)
    ensures Join([c], Split(s, {c})) == s
    decreases |s|
  {
    var i := IndexOfAny(s, {c});
    if i < |s| {
      JoinSplit(s[i + 1..], c);
      JoinSplitStep(s, c);
    } else {
      SplitNone(s, {c});
    }
  }

  /** One step of the round trip: the first piece, the separator, and the rest rejoined. */
  lemma JoinSplitStep(s: string, c: char)
    requires IndexOfAny(s, {c}) < |s|
    requires Join([c], Split(s[IndexOfAny(s, {c}) + 1..], {c})) == s[IndexOfAny(s, {c}) + 1..]
    ensures Join([c], Split(s, {c})) == s
  {
    var i := IndexOfAny(s, {c});
    var pre, post := s[..i], s[i + 1..];
    SplitFirst(s, {c});
    JoinCons([c], pre, Split(post, {c}));
    assert s[i] in {c};
    Around(s, i);
  }

  /** A text is what comes before a position, the character there, and what follows. */
  lemma Around(s: string, i: nat)
    requires i < |s|
    ensures s == s[..i] + [s[i]] + s[i + 1..]
  {
  }

  /** Joining pieces free of every separator with one of them, and splitting again,
      gives back the pieces. */
  lemma {:induction false} SplitJoin(xs: seq<string>, c: char, seps: set<char>)
    requires |xs| >= 1 && c in seps
    requires forall k :: 0 <= k < |xs| ==> NoneIn(xs[k], seps)
    ensures Split(Join([c], xs), seps) == xs
  {
    if |xs| == 1 {
      assert IndexOfAny(xs[0], seps) == |xs[0]|;
    } else {
      var s := Join([c], xs);
      var tail := Join([c], xs[1..]);
      assert s == xs[0] + [c] + tail;
      IndexOfAnyConcat(xs[0], c, tail, seps);
      assert s[..|xs[0]|] == xs[0];
      assert s[|xs[0]| + 1..] == tail;
      SplitJoin(xs[1..], c, seps);
      assert xs == [xs[0]] + xs[1..];
    }
  }

  /** Splitting on a character gives one piece more than the character has occurrences. */
  lemma {:induction false} SplitCount(s: string, c: char)
    ensures |Split(s, {c})| == multiset(s)[c] + 1
    decreases |s|
  {
    var i := IndexOfAny(s, {c});
    if i == |s| {
      SplitLast(s, c);
    } else {
      SplitStep(s, c);
      SplitCount(s[i + 1..], c);
    }
  }

  /** Without the separator there is one piece and no occurrence. */
  lemma SplitLast(s: string, c: char)
    requires IndexOfAny(s, {c}) == |s|
    ensures |Split(s, {c})| == 1 && multiset(s)[c] == 0
  {
    assert s[..|s|] == s;
    assert c !in s;
  }

  /** The first separator ends the first piece and is one occurrence. */
  lemma SplitStep(s: string, c: char)
    requires IndexOfAny(s, {c}) < |s|
    ensures var i := IndexOfAny(s, {c});
            && |Split(s, {c})| == 1 + |Split(s[i + 1..], {c})|
            && multiset(s)[c] == multiset(s[i + 1..])[c] + 1
  {
    var i := IndexOfAny(s, {c});
    var pre := s[..i];
    assert c !in pre;
    assert s == pre + [c] + s[i + 1..];
    CountAcross(pre, c, s[i + 1..]);
  }

  lemma CountAcross(pre: string, c: char, post: string)
    requires c !in pre
    ensures multiset(pre + [c] + post)[c] == multiset(post)[c] + 1
  {
    assert multiset(pre + [c] + post) == multiset(pre) + multiset{c} + multiset(post);
  }

  // ---------------------------------------------------------------- substrings

  predicate StartsWith(s: string, p: string) { |p| <= |s| && s[..|p|] == p }

  predicate EndsWith(s: string, p: string) { |p| <= |s| && s[|s| - |p|..] == p }

  lemma StartsWithAppend(a: string, b: string)
    ensures StartsWith(a + b, a)
  {
    assert (a + b)[..|a|] == a;
  }

  lemma StartsWithTrans(s: string, p: string, q: string)
    requires StartsWith(s, p) && StartsWith(p, q)
    ensures StartsWith(s, q)
  {
    assert s[..|q|] == s[..|p|][..|q|];
  }

  lemma EndsWithAppend(a: string, b: string)
    ensures EndsWith(a + b, b)
  {
    assert (a + b)[|a|..] == b;
  }

  lemma EndsWithPrepend(a: string, s: string, p: string)
    requires EndsWith(s, p)
    ensures EndsWith(a + s, p)
  {
    assert (a + s)[|a + s| - |p|..] == s[|s| - |p|..];
  }

  /** A text put between two others occurs in the result. */
  lemma ContainsMiddle(a: string, b: string, c: string)
    ensures Contains(a + b + c, b)
  {
    assert (a + b + c)[|a|..|a| + |b|] == b;
    assert MatchesAt(a + b + c, |a|, b, false);
  }

  /** `sub` occurs at position i, exactly or (when `ci`) ignoring case. */
  predicate MatchesAt(s: string, i: nat, sub: string, ci: bool)
  {
    i + |sub| <= |s| && (if ci then Lower(s[i..i + |sub|]) == Lower(sub) else s[i..i + |sub|] == sub)
  }

  predicate Contains(s: string, sub: string)
  {
    exists i :: 0 <= i <= |s| && MatchesAt(s, i, sub, false)
  }

  /** `s.find(sub, from)`, exact or ignoring case. */
  function Find(s: string, sub: string, from: nat, ci: bool): (r: Option<nat>)
    ensures r.Some? ==> from <= r.value && MatchesAt(s, r.value, sub, ci)
    ensures r.Some? ==> forall j :: from <= j < r.value ==> !MatchesAt(s, j, sub, ci)
    ensures r.None? ==> forall j :: from <= j ==> !MatchesAt(s, j, sub, ci)
    decreases |s| - from
  {
    if from + |sub| > |s| then None
    else if MatchesAt(s, from, sub, ci) then Some(from)
    else Find(s, sub, from + 1, ci)
  }

  /** The first match at or after `from` is what `find` returns. */
  lemma FindAt(s: string, sub: string, from: nat, ci: bool, p: nat)
    requires from <= p && MatchesAt(s, p, sub, ci)
    requires forall q :: from <= q < p ==> !MatchesAt(s, q, sub, ci)
    ensures Find(s, sub, from, ci) == Some(p)
  {
  }

  /** `s.replace(pat, repl, 1)`: only the first occurrence is replaced; no occurrence, no change. */
  function ReplaceFirst(s: string, pat: string, repl: string): (r: string)
    ensures Find(s, pat, 0, false).None? ==> r == s
    ensures Find(s, pat, 0, false).Some? ==>
              var i := Find(s, pat, 0, false).value;
              r == s[..i] + repl + s[i + |pat|..]
  {
    match Find(s, pat, 0, false)
    case None => s
    case Some(i) => s[..i] + repl + s[i + |pat|..]
  }

  // ---------------------------------------------------------------- numbers

  function DigitChar(d: nat): (c: char)
    requires d < 10
    ensures IsDigit(c)
  {
    "0123456789"[d]
  }

  /** `str(n)` for a non-negative integer. */
  function NatToString(n: nat): (r: string)
    ensures |r| >= 1
    ensures forall i :: 0 <= i < |r| ==> IsDigit(r[i])
    ensures (|r| == 1) == (n < 10)
  {
    if n < 10 then [DigitChar(n)] else NatToString(n / 10) + [DigitChar(n % 10)]
  }

  /** `str(i)` for any integer. */
  function IntToString(i: int): (r: string)
    ensures |r| >= 1
    ensures i >= 0 ==> r == NatToString(i)
    ensures IsDigit(r[|r| - 1])
  {
    if i < 0 then "-" + NatToString(-i) else NatToString(i)
  }

  /** Different numbers print differently, so ordinal ids never collide. */
  lemma {:induction false} NatToStringInjective(a: nat, b: nat)
    requires NatToString(a) == NatToString(b)
    ensures a == b
    decreases a
  {
    var ra, rb := NatToString(a), NatToString(b);
    if a < 10 && b < 10 {
      assert ra[0] == "0123456789"[a] && rb[0] == "0123456789"[b];
    } else if a >= 10 && b >= 10 {
      assert ra[|ra| - 1] == DigitChar(a % 10) && rb[|rb| - 1] == DigitChar(b % 10);
      assert a % 10 == b % 10;
      assert NatToString(a / 10) == ra[..|ra| - 1] == rb[..|rb| - 1] == NatToString(b / 10);
      NatToStringInjective(a / 10, b / 10);
    }
  }

  /** `f"{n:3d}"`: right-aligned in a field of width 3, never truncated. */
  function PadLeft3(s: string): (r: string)
    ensures |r| == if |s| < 3 then 3 else |s|
    ensures EndsWith(r, s)
  {
    if |s| >= 3 then s else if |s| == 2 then " " + s else if |s| == 1 then "  " + s else "   "
  }

  // ---------------------------------------------------------------- regex pieces

  /** Regex `\b` at position i (0 <= i <= |s|): word-ness changes across i. */
  predicate Boundary(s: string, i: nat)
    requires i <= |s|
  {
    (i > 0 && IsWordChar(s[i - 1])) != (i < |s| && IsWordChar(s[i]))
  }

  /** `\b` + re.escape(w) + `\b` with IGNORECASE matches at position i. */
  predicate WordAt(s: string, w: string, i: nat)
  {
    i + |w| <= |s| && Lower(s[i..i + |w|]) == Lower(w) && Boundary(s, i) && Boundary(s, i + |w|)
  }

  /** `re.search(r"\b" + re.escape(w) + r"\b", s, re.IGNORECASE)` finds something. */
  predicate ContainsWord(s: string, w: string)
  {
    exists i :: 0 <= i <= |s| && WordAt(s, w, i)
  }

  /** The first position at or after i that is not whitespace (the end of a greedy `\s*`). */
  function SkipSpaces(s: string, i: nat): (j: nat)
    requires i <= |s|
    ensures i <= j <= |s|
    ensures j < |s| ==> !IsSpace(s[j])
    ensures forall k :: i <= k < j ==> IsSpace(s[k])
    decreases |s| - i
  {
    if i < |s| && IsSpace(s[i]) then SkipSpaces(s, i + 1) else i
  }

  /** The first position at or after i that is not an ASCII digit (the end of a greedy `\d*`). */
  function SkipDigits(s: string, i: nat): (j: nat)
    requires i <= |s|
    ensures i <= j <= |s|
    ensures j < |s| ==> !IsDigit(s[j])
    ensures forall k :: i <= k < j ==> IsDigit(s[k])
    decreases |s| - i
  {
    if i < |s| && IsDigit(s[i]) then SkipDigits(s, i + 1) else i
  }

  /** Two texts that agree below m: a run of spaces from i stops before m in both or in
      neither, and where it stops before m it stops at the same place. */
  lemma {:induction false} SkipSpacesAgree(s: string, t: string, i: nat, m: nat)
    requires i <= m <= |s| && m <= |t| && s[..m] == t[..m]
    ensures SkipSpaces(s, i) < m <==> SkipSpaces(t, i) < m
    ensures SkipSpaces(s, i) < m ==> SkipSpaces(t, i) == SkipSpaces(s, i)
    decreases m - i
  {
    if i < m {
      assert s[i] == s[..m][i] == t[..m][i] == t[i];
      if IsSpace(s[i]) {
        SkipSpacesAgree(s, t, i + 1, m);
      }
    }
  }

  /** A run of spaces that reaches k lands where the run from k lands. */
  lemma {:induction false} SkipSpacesThrough(s: string, i: nat, k: nat)
    requires i <= k <= |s| && SkipSpaces(s, i) >= k
    ensures SkipSpaces(s, i) == SkipSpaces(s, k)
    decreases k - i
  {
    if i < k {
      assert IsSpace(s[i]);
      SkipSpacesThrough(s, i + 1, k);
    }
  }

  /** Two texts that agree below m, with no digit at m in either, skip the same digits from i. */
  lemma {:induction false} SkipDigitsLocal(s: string, t: string, i: nat, m: nat)
    requires i <= m <= |s| && m <= |t| && s[..m] == t[..m]
    requires (m == |s| || !IsDigit(s[m])) && (m == |t| || !IsDigit(t[m]))
    ensures SkipDigits(t, i) == SkipDigits(s, i) <= m
    decreases m - i
  {
    if i < m {
      assert s[i] == s[..m][i] == t[..m][i] == t[i];
      if IsDigit(s[i]) {
        SkipDigitsLocal(s, t, i + 1, m);
      }
    }
  }

  /** d digits from i followed by a non-digit or the end: the run ends at i + d. */
  lemma {:induction false} SkipDigitsOver(s: string, i: nat, d: nat)
    requires i + d <= |s|
    requires forall k :: i <= k < i + d ==> IsDigit(s[k])
    requires i + d == |s| || !IsDigit(s[i + d])
    ensures SkipDigits(s, i) == i + d
    decreases d
  {
    if d > 0 {
      SkipDigitsOver(s, i + 1, d - 1);
    }
  }

  // ---------------------------------------------------------------- sequences

  predicate NoDup<T(==)>(xs: seq<T>)
  {
    forall i, j :: 0 <= i < j < |xs| ==> xs[i] != xs[j]
  }

  lemma NoDupSnoc<T>(xs: seq<T>, x: T)
    requires NoDup(xs) && x !in xs
    ensures NoDup(xs + [x])
  {
    forall i, j | 0 <= i < j < |xs| + 1
      ensures (xs + [x])[i] != (xs + [x])[j]
    {
      if j == |xs| {
        assert xs[i] in xs;
      }
    }
  }
}
