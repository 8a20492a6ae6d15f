/**
  String helpers shared by every script: Python's `str.strip`, `str.lower`,
  `str.split()` (no separator), `" ".join`, prefix tests, `rsplit("/", 1)[-1]`,
  code-point ordering of strings, and the repository's `normalize`.
*/
module Text {
  import opened Wrappers

  /** Python's `str.isspace` for one character (Unicode White_Space plus the ASCII separators 0x1C-0x1F). */
  predicate IsSpace(c: char) {
    var n := c as int;
    (9 <= n <= 13) || (28 <= n <= 32) || n == 0x85 || n == 0xA0 || n == 0x1680
    || (0x2000 <= n <= 0x200A) || n == 0x2028 || n == 0x2029 || n == 0x202F
    || n == 0x205F || n == 0x3000
  }

  predicate IsUpper(c: char) { 'A' <= c <= 'Z' }

  function LowerChar(c: char): char {
    if IsUpper(c) then (c as int + 32) as char else c
  }

  /** `s.lower()` on the ASCII letters. */
  function Lower(s: string): (r: string)
    ensures |r| == |s|
    ensures forall i :: 0 <= i < |s| ==> r[i] == LowerChar(s[i])
  {
    seq(|s|, i requires 0 <= i < |s| => LowerChar(s[i]))
  }

  predicate NoUpper(s: string) {
    forall i :: 0 <= i < |s| ==> !IsUpper(s[i])
  }

  predicate AllSpace(s: string) {
    forall i :: 0 <= i < |s| ==> IsSpace(s[i])
  }

  /** A word of `str.split()`: non-empty, no whitespace. */
  predicate IsWord(w: string) {
    w != [] && forall i :: 0 <= i < |w| ==> !IsSpace(w[i])
  }

  function StripLeft(s: string): (r: string)
    ensures |r| <= |s| && r == s[|s| - |r|..]
    ensures AllSpace(s[..|s| - |r|])
    ensures r != [] ==> !IsSpace(r[0])
  {
    if s != [] && IsSpace(s[0]) then
      var r := StripLeft(s[1..]);
      assert s[..|s| - |r|] == [s[0]] + s[1..][..|s[1..]| - |r|];
      r
    else s
  }

  function StripRight(s: string): (r: string)
    ensures |r| <= |s| && r == s[..|r|]
    ensures AllSpace(s[|r|..])
    ensures r != [] ==> !IsSpace(r[|r| - 1])
  {
    if s != [] && IsSpace(s[|s| - 1]) then
      var r := StripRight(s[..|s| - 1]);
      assert s[|r|..] == s[..|s| - 1][|r|..] + [s[|s| - 1]];
      r
    else s
  }

  /** `s.strip()`. */
  function Strip(s: string): string {
    StripRight(StripLeft(s))
  }

  /** Strip removes exactly a whitespace prefix and a whitespace suffix, and leaves no whitespace at either end. */
  lemma StripSpec(s: string)
    ensures exists i, j :: 0 <= i <= j <= |s| && Strip(s) == s[i..j] && AllSpace(s[..i]) && AllSpace(s[j..])
    ensures Strip(s) != [] ==> !IsSpace(Strip(s)[0]) && !IsSpace(Strip(s)[|Strip(s)| - 1])
    ensures Strip(s) == [] <==> AllSpace(s)
  {
    var l := StripLeft(s);
    var i := |s| - |l|;
    var j := i + |StripRight(l)|;
    assert Strip(s) == s[i..j];
    assert s[j..] == l[|StripRight(l)|..];
    if Strip(s) == [] {
      assert s == s[..i] + s[i..j] + s[j..];
      forall k | 0 <= k < |s| ensures IsSpace(s[k]) {
        assert s[..i][k] == s[k];
      }
    }
  }

  lemma {:induction false} StripLeftPadded(sp: string, u: string)
    requires AllSpace(sp) && (u == [] || !IsSpace(u[0]))
    ensures StripLeft(sp + u) == u
    decreases |sp|
  {
    if sp == [] {
      assert sp + u == u;
    } else {
      assert (sp + u)[1..] == sp[1..] + u;
      StripLeftPadded(sp[1..], u);
    }
  }

  lemma {:induction false} StripRightPadded(u: string, sp: string)
    requires AllSpace(sp) && (u == [] || !IsSpace(u[|u| - 1]))
    ensures StripRight(u + sp) == u
    decreases |sp|
  {
    if sp == [] {
      assert u + sp == u;
    } else {
      assert (u + sp)[..|u + sp| - 1] == u + sp[..|sp| - 1];
      StripRightPadded(u, sp[..|sp| - 1]);
    }
  }

  /** Stripping whitespace padding off a text with non-blank ends gives the text back. */
  lemma StripPadded(sp1: string, t: string, sp2: string)
    requires AllSpace(sp1) && AllSpace(sp2)
    requires t != [] && !IsSpace(t[0]) && !IsSpace(t[|t| - 1])
    ensures Strip(sp1 + t + sp2) == t
  {
    assert sp1 + t + sp2 == sp1 + (t + sp2);
    StripLeftPadded(sp1, t + sp2);
    StripRightPadded(t, sp2);
  }

  /** A text whose first and last characters are not whitespace is its own strip. */
  lemma StripOfNonBlankEnds(s: string)
    requires s != [] && !IsSpace(s[0]) && !IsSpace(s[|s| - 1])
    ensures Strip(s) == s
  {
  }

  /** A text with non-blank ends followed by a stripped text is already stripped. */
  lemma StripAfterPrefix(p: string, t: string)
    requires p != [] && !IsSpace(p[0]) && !IsSpace(p[|p| - 1])
    requires t != [] ==> !IsSpace(t[|t| - 1])
    ensures Strip(p + t) == p + t
  {
    var s := p + t;
    assert s[0] == p[0];
    assert s[|s| - 1] == if t == [] then p[|p| - 1] else t[|t| - 1];
    StripOfNonBlankEnds(s);
  }

  /** Stripping twice is stripping once. */
  lemma StripIdempotent(s: string)
    ensures Strip(Strip(s)) == Strip(s)
  {
    StripSpec(s);
    var t := Strip(s);
    if t != [] {
      StripOfNonBlankEnds(t);
    }
  }

  /** Length of the leading run of non-whitespace characters. */
  function WordLen(s: string): (n: nat)
    ensures n <= |s|
    ensures forall i :: 0 <= i < n ==> !IsSpace(s[i])
    ensures n < |s| ==> IsSpace(s[n])
  {
    if s == [] || IsSpace(s[0]) then 0 else 1 + WordLen(s[1..])
  }

  /** `s.split()`: the maximal runs of non-whitespace characters, in order. */
  function Words(s: string): seq<string>
    decreases |s|
  {
    if s == [] then []
    else if IsSpace(s[0]) then Words(s[1..])
    else var n := WordLen(s); [s[..n]] + Words(s[n..])
  }

  /** `sep.join(ws)`. */
  function JoinWith(sep: string, ws: seq<string>): string {
    if ws == [] then []
    else if |ws| == 1 then ws[0]
    else ws[0] + sep + JoinWith(sep, ws[1..])
  }

  /** The repository's `normalize`: lower-case, trim, and collapse whitespace runs to one space. */
  function Normalize(s: string): string {
    JoinWith(" ", Words(Lower(s)))
  }

  /** `normalize(s)` where `s` may be `None` (`s or ""`). */
  function NormalizeOpt(s: Option<string>): (r: string)
    ensures s == None ==> r == []
  {
    Normalize(s.GetOr([]))
  }

  /** What `normalize` promises of its output: lower case, whitespace only as single inner spaces. */
  predicate IsNormalized(r: string) {
    && NoUpper(r)
    && (forall i :: 0 <= i < |r| && IsSpace(r[i]) ==> r[i] == ' ')
    && (r != [] ==> r[0] != ' ' && r[|r| - 1] != ' ')
    && (forall i :: 0 <= i < |r| - 1 && r[i] == ' ' ==> r[i + 1] != ' ')
  }

  lemma {:induction false} WordsAreWords(s: string)
    ensures forall k :: 0 <= k < |Words(s)| ==> IsWord(Words(s)[k])
    ensures NoUpper(s) ==> forall k :: 0 <= k < |Words(s)| ==> NoUpper(Words(s)[k])
    decreases |s|
  {
    if s == [] {
    } else if IsSpace(s[0]) {
      WordsAreWords(s[1..]);
      assert NoUpper(s) ==> NoUpper(s[1..]);
    } else {
      var n := WordLen(s);
      WordsAreWords(s[n..]);
      assert NoUpper(s) ==> NoUpper(s[n..]);
      assert NoUpper(s) ==> NoUpper(s[..n]);
    }
  }

  lemma {:induction false} LowerNoUpper(s: string)
    ensures NoUpper(Lower(s))
  {
  }

  lemma {:induction false} LowerOfNoUpper(s: string)
    requires NoUpper(s)
    ensures Lower(s) == s
  {
  }

  lemma {:induction false} WordLenOfWord(w: string, t: string)
    requires forall i :: 0 <= i < |w| ==> !IsSpace(w[i])
    requires t == [] || IsSpace(t[0])
    ensures WordLen(w + t) == |w|
    decreases |w|
  {
    if w != [] {
      assert (w + t)[1..] == w[1..] + t;
      WordLenOfWord(w[1..], t);
    } else {
      assert w + t == t;
    }
  }

  /** Splitting a space-joined list of words gives the words back. */
  lemma {:induction false} WordsOfJoin(ws: seq<string>)
    requires forall k :: 0 <= k < |ws| ==> IsWord(ws[k])
    ensures Words(JoinWith(" ", ws)) == ws
  {
    if ws == [] {
    } else if |ws| == 1 {
      var w := ws[0];
      WordLenOfWord(w, []);
      assert w + [] == w;
      assert w[|w|..] == [];
    } else {
      var w := ws[0];
      var rest := JoinWith(" ", ws[1..]);
      var j := w + (" " + rest);
      assert JoinWith(" ", ws) == j;
      WordLenOfWord(w, " " + rest);
      assert j[..|w|] == w;
      assert j[|w|..] == " " + rest;
      assert (" " + rest)[1..] == rest;
      WordsOfJoin(ws[1..]);
    }
  }

  lemma {:induction false} JoinIsNormalized(ws: seq<string>)
    requires forall k :: 0 <= k < |ws| ==> IsWord(ws[k]) && NoUpper(ws[k])
    ensures IsNormalized(JoinWith(" ", ws))
    ensures ws != [] ==> JoinWith(" ", ws) != []
  {
    if |ws| > 1 {
      JoinIsNormalized(ws[1..]);
      var w := ws[0];
      var rest := JoinWith(" ", ws[1..]);
      var j := w + " " + rest;
      assert JoinWith(" ", ws) == j;
      forall i | 0 <= i < |j| - 1 && j[i] == ' ' ensures j[i + 1] != ' ' {
        if i == |w| { assert j[i + 1] == rest[0]; }
        else { assert j[i] == rest[i - |w| - 1] && j[i + 1] == rest[i - |w|]; }
      }
      forall i | 0 <= i < |j| ensures !IsUpper(j[i]) && (IsSpace(j[i]) ==> j[i] == ' ') {
        if i < |w| { assert j[i] == w[i]; }
        else if i > |w| { assert j[i] == rest[i - |w| - 1]; }
      }
    }
  }

  /** `normalize` returns lower-case text with no outer whitespace and single spaces between words. */
  lemma NormalizeIsNormalized(s: string)
    ensures IsNormalized(Normalize(s))
    ensures Normalize(s) == [] <==> Words(s) == []
  {
    LowerNoUpper(s);
    WordsAreWords(Lower(s));
    JoinIsNormalized(Words(Lower(s)));
    LowerKeepsWordCount(s);
  }

  lemma {:induction false} LowerKeepsWordCount(s: string)
    ensures Words(Lower(s)) == [] <==> Words(s) == []
    decreases |s|
  {
    if s != [] {
      assert Lower(s)[1..] == Lower(s[1..]);
      if IsSpace(s[0]) {
        LowerKeepsWordCount(s[1..]);
      }
    }
  }

  /** `normalize` is idempotent. */
  lemma NormalizeIdempotent(s: string)
    ensures Normalize(Normalize(s)) == Normalize(s)
  {
    var ws := Words(Lower(s));
    LowerNoUpper(s);
    WordsAreWords(Lower(s));
    JoinIsNormalized(ws);
    LowerOfNoUpper(Normalize(s));
    WordsOfJoin(ws);
  }

  /** Two strings normalize alike exactly when their lower-cased word lists agree. */
  lemma NormalizeEqualIffSameWords(a: string, b: string)
    ensures Normalize(a) == Normalize(b) <==> Words(Lower(a)) == Words(Lower(b))
  {
    WordsAreWords(Lower(a));
    WordsAreWords(Lower(b));
    WordsOfJoin(Words(Lower(a)));
    WordsOfJoin(Words(Lower(b)));
  }

  lemma {:induction false} WordsSkipSpaces(sp: string, t: string)
    requires AllSpace(sp)
    ensures Words(sp + t) == Words(t)
    decreases |sp|
  {
    if sp != [] {
      assert (sp + t)[1..] == sp[1..] + t;
      WordsSkipSpaces(sp[1..], t);
    } else {
      assert sp + t == t;
    }
  }

  lemma {:induction false} WordsDropSpaces(t: string, sp: string)
    requires AllSpace(sp)
    ensures Words(t + sp) == Words(t)
    decreases |t|
  {
    if t == [] {
      assert t + sp == sp;
      WordsSkipSpaces(sp, []);
      assert sp + [] == sp;
    } else if IsSpace(t[0]) {
      assert (t + sp)[1..] == t[1..] + sp;
      WordsDropSpaces(t[1..], sp);
    } else {
      var n := WordLen(t);
      WordLenOfWord(t[..n], t[n..] + sp);
      assert t + sp == t[..n] + (t[n..] + sp);
      assert (t + sp)[..n] == t[..n];
      assert (t + sp)[n..] == t[n..] + sp;
      WordsDropSpaces(t[n..], sp);
    }
  }

  /** Surrounding whitespace does not change what `normalize` returns. */
  lemma NormalizeIgnoresPadding(sp1: string, t: string, sp2: string)
    requires AllSpace(sp1) && AllSpace(sp2)
    ensures Normalize(sp1 + t + sp2) == Normalize(t)
  {
    assert Lower(sp1 + t + sp2) == Lower(sp1) + (Lower(t) + Lower(sp2));
    assert AllSpace(Lower(sp1)) && AllSpace(Lower(sp2));
    WordsSkipSpaces(Lower(sp1), Lower(t) + Lower(sp2));
    WordsDropSpaces(Lower(t), Lower(sp2));
  }

  /** `s.startswith(p)`. */
  predicate StartsWith(s: string, p: string) {
    p <= s
  }

  /** `s.rsplit(c, 1)[-1]`: the text after the last `c`, or all of `s` when there is none. */
  function AfterLast(s: string, c: char): (r: string)
    ensures |r| <= |s| && r == s[|s| - |r|..]
    ensures c !in r
    ensures |r| < |s| ==> s[|s| - |r| - 1] == c
  {
    if s == [] then []
    else if s[|s| - 1] == c then []
    else AfterLast(s[..|s| - 1], c) + [s[|s| - 1]]
  }

  /** The text after the last `c` of `p + [c] + t` is `t`, when `t` has no `c`. */
  lemma AfterLastOfSuffix(p: string, c: char, t: string)
    requires c !in t
    ensures AfterLast(p + [c] + t, c) == t
  {
    var s := p + [c] + t;
    var r := AfterLast(s, c);
    assert s[|p|] == c;
    assert r == s[|s| - |t|..] == t;
  }

  /** Python's `str` comparison: lexicographic by code point. */
  predicate StrLe(a: string, b: string) {
    a == [] || (b != [] && (a[0] < b[0] || (a[0] == b[0] && StrLe(a[1..], b[1..]))))
  }

  lemma {:induction false} StrLeRefl(a: string)
    ensures StrLe(a, a)
  {
    if a != [] { StrLeRefl(a[1..]); }
  }

  lemma {:induction false} StrLeAntisym(a: string, b: string)
    requires StrLe(a, b) && StrLe(b, a)
    ensures a == b
  {
    if a != [] && b != [] {
      StrLeAntisym(a[1..], b[1..]);
      assert a == [a[0]] + a[1..] && b == [b[0]] + b[1..];
    }
  }

  lemma {:induction false} StrLeTrans(a: string, b: string, c: string)
    requires StrLe(a, b) && StrLe(b, c)
    ensures StrLe(a, c)
  {
    if a != [] && b != [] && c != [] && a[0] == b[0] == c[0] {
      StrLeTrans(a[1..], b[1..], c[1..]);
    }
  }

  lemma {:induction false} StrLeTotal(a: string, b: string)
    ensures StrLe(a, b) || StrLe(b, a)
  {
    if a != [] && b != [] && a[0] == b[0] {
      StrLeTotal(a[1..], b[1..]);
    }
  }
}
