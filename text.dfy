/**
  String operations the server (Python) and the two browser clients
  (JavaScript) apply to user text: whitespace tests, strip/trim, the
  `re.sub(r'\s+', ' ', ...)` collapse, `str.split()`, `' '.join(...)`,
  substring tests, ASCII lower-casing, decimal rendering of a number and
  the UTF-16 length that JavaScript's `.length` reports.
*/
module Text {

  /** Whose idea of "whitespace" applies. */
  datatype Lang = Python | JavaScript

  /**
    Python's `str.isspace()` (also what `\s`, `strip()` and `split()` use on
    `str`), and JavaScript's WhiteSpace plus LineTerminator code points
    (what `String.prototype.trim` removes).
  */
  predicate IsSpace(lang: Lang, c: char)
  {
    || c == '\t' || c == '\n' || c == '\U{0B}' || c == '\U{0C}' || c == '\r'
    || c == ' ' || c == '\U{A0}' || c == '\U{1680}'
    || ('\U{2000}' <= c <= '\U{200A}')
    || c == '\U{2028}' || c == '\U{2029}' || c == '\U{202F}' || c == '\U{205F}' || c == '\U{3000}'
    || (lang == Python && (('\U{1C}' <= c <= '\U{1F}') || c == '\U{85}'))
    || (lang == JavaScript && c == '\U{FEFF}')
  }

  predicate AllSpace(lang: Lang, s: string)
  {
    forall i :: 0 <= i < |s| ==> IsSpace(lang, s[i])
  }

  /** Drops leading whitespace. */
  function TrimStart(lang: Lang, s: string): (r: string)
    ensures |r| <= |s| && r == s[|s| - |r|..]
    ensures AllSpace(lang, s[..|s| - |r|])
    ensures r == [] || !IsSpace(lang, r[0])
  {
    if s != [] && IsSpace(lang, s[0]) then
      var r := TrimStart(lang, s[1..]);
      TrimStartStep(lang, s, r);
      r
    else
      s
  }

  /** A suffix of `s[1..]` with whitespace cut off before it is one of `s`
      when `s` starts with whitespace. */
  lemma TrimStartStep(lang: Lang, s: string, r: string)
    requires s != [] && IsSpace(lang, s[0])
    requires |r| <= |s[1..]| && r == s[1..][|s[1..]| - |r|..]
    requires AllSpace(lang, s[1..][..|s[1..]| - |r|])
    ensures |r| <= |s| && r == s[|s| - |r|..]
    ensures AllSpace(lang, s[..|s| - |r|])
  {
    var cut := s[1..][..|s[1..]| - |r|];
    assert s[..|s| - |r|] == [s[0]] + cut;
    AllSpaceCons(lang, s[0], cut);
    assert s[1..][|s[1..]| - |r|..] == s[|s| - |r|..];
  }

  lemma AllSpaceCons(lang: Lang, c: char, x: string)
    requires IsSpace(lang, c) && AllSpace(lang, x)
    ensures AllSpace(lang, [c] + x)
  {
    assert forall i :: 0 < i < |[c] + x| ==> ([c] + x)[i] == x[i - 1];
  }

  /** Concatenation regrouped. */
  lemma Regroup(x: string, y: string, z: string)
    ensures x + (y + z) == (x + y) + z
  {
  }

  /** Drops trailing whitespace. */
  function TrimEnd(lang: Lang, s: string): (r: string)
    ensures |r| <= |s| && r == s[..|r|]
    ensures AllSpace(lang, s[|r|..])
    ensures r == [] || !IsSpace(lang, r[|r| - 1])
  {
    if s != [] && IsSpace(lang, s[|s| - 1]) then
      var r := TrimEnd(lang, s[..|s| - 1]);
      assert s[|r|..] == s[..|s| - 1][|r|..] + [s[|s| - 1]];
      r
    else
      s
  }

  /** `r` is `s` with a whitespace prefix and a whitespace suffix cut off. */
  ghost predicate IsCore(lang: Lang, s: string, r: string)
  {
    exists k :: 0 <= k && k + |r| <= |s| && s[k..k + |r|] == r
                && AllSpace(lang, s[..k]) && AllSpace(lang, s[k + |r|..])
  }

  /** Python's `str.strip()` / JavaScript's `String.prototype.trim()`. */
  function Strip(lang: Lang, s: string): (r: string)
    ensures |r| <= |s|
    ensures IsCore(lang, s, r)
    ensures r == [] <==> AllSpace(lang, s)
    ensures r != [] ==> !IsSpace(lang, r[0]) && !IsSpace(lang, r[|r| - 1])
  {
    var t := TrimStart(lang, s);
    var r := TrimEnd(lang, t);
    StripFacts(lang, s, t, r);
    r
  }

  lemma StripFacts(lang: Lang, s: string, t: string, r: string)
    requires t == TrimStart(lang, s) && r == TrimEnd(lang, t)
    ensures IsCore(lang, s, r)
    ensures r == [] <==> AllSpace(lang, s)
    ensures r != [] ==> !IsSpace(lang, r[0]) && !IsSpace(lang, r[|r| - 1])
  {
    StripCore(lang, s, t, r);
    StripBlank(lang, s, t, r);
    StripEnds(lang, s, t, r);
  }

  lemma StripCore(lang: Lang, s: string, t: string, r: string)
    requires t == TrimStart(lang, s) && r == TrimEnd(lang, t)
    ensures IsCore(lang, s, r)
  {
    var k := |s| - |t|;
    MiddleSlice(s, t, r, k);
    CoreWitness(lang, s, r, k);
  }

  /** Cutting a prefix off a suffix of `s` is a middle slice of `s`. */
  lemma MiddleSlice(s: string, t: string, r: string, k: nat)
    requires k <= |s| && t == s[k..] && |r| <= |t| && r == t[..|r|]
    ensures k + |r| <= |s| && s[k..k + |r|] == r && s[k + |r|..] == t[|r|..]
  {
  }

  lemma CoreWitness(lang: Lang, s: string, r: string, k: nat)
    requires k + |r| <= |s| && s[k..k + |r|] == r
    requires AllSpace(lang, s[..k]) && AllSpace(lang, s[k + |r|..])
    ensures IsCore(lang, s, r)
  {
  }

  lemma StripBlank(lang: Lang, s: string, t: string, r: string)
    requires t == TrimStart(lang, s) && r == TrimEnd(lang, t)
    ensures r == [] ==> AllSpace(lang, s)
  {
    var k := |s| - |t|;
    if r == [] {
      assert t[|r|..] == t;
      assert |t| == 0;
      assert s[..k] == s;
    }
  }

  lemma StripEnds(lang: Lang, s: string, t: string, r: string)
    requires t == TrimStart(lang, s) && r == TrimEnd(lang, t)
    ensures AllSpace(lang, s) ==> r == []
    ensures r != [] ==> !IsSpace(lang, r[0]) && !IsSpace(lang, r[|r| - 1])
  {
    var k := |s| - |t|;
    if t != [] {
      assert t[0] == s[k];
    }
    if r != [] {
      assert r[0] == t[0];
    }
  }

  /** Stripping twice is stripping once: the server strips the message and the
      session namer strips it again. */
  lemma StripIdempotent(lang: Lang, s: string)
    ensures Strip(lang, Strip(lang, s)) == Strip(lang, s)
  {
    var r := Strip(lang, s);
    if r != [] {
      assert TrimStart(lang, r) == r;
      assert TrimEnd(lang, r) == r;
    }
  }

  /** Two spaces in a row start at index `i`. */
  predicate DoubleSpaceAt(s: string, i: int)
  {
    0 <= i && i + 1 < |s| && s[i] == ' ' && s[i + 1] == ' '
  }

  ghost predicate NoDoubleSpace(s: string)
  {
    forall i :: !DoubleSpaceAt(s, i)
  }

  lemma NoDoubleSpaceCons(c: char, t: string)
    requires NoDoubleSpace(t) && (c == ' ' ==> t == [] || t[0] != ' ')
    ensures NoDoubleSpace([c] + t)
  {
    forall i ensures !DoubleSpaceAt([c] + t, i) {
      if i > 0 {
        assert DoubleSpaceAt([c] + t, i) ==> DoubleSpaceAt(t, i - 1);
      }
    }
  }

  // ---------------------------------------------------------------------
  // re.sub(r'\s+', ' ', s): every maximal run of whitespace becomes one space

  function Collapse(s: string): (r: string)
    decreases |s|
    ensures r == [] <==> s == []
    ensures forall i :: 0 <= i < |r| && IsSpace(Python, r[i]) ==> r[i] == ' '
    ensures NoDoubleSpace(r)
    ensures r != [] ==> (r[0] == ' ' <==> IsSpace(Python, s[0]))
    ensures r != [] ==> (r[|r| - 1] == ' ' <==> IsSpace(Python, s[|s| - 1]))
  {
    if s == [] then []
    else if IsSpace(Python, s[0]) then
      var rest := TrimStart(Python, s[1..]);
      var tail := Collapse(rest);
      RunEnd(s, rest);
      ConsCollapsed(' ', tail);
      [' '] + tail
    else
      var tail := Collapse(s[1..]);
      assert tail != [] ==> s[1..][|s[1..]| - 1] == s[|s| - 1];
      ConsCollapsed(s[0], tail);
      [s[0]] + tail
  }

  /** After a leading whitespace run is skipped, the last character of what
      is left is the last of the whole text; if nothing is left, the text
      ends in whitespace. */
  lemma RunEnd(s: string, rest: string)
    requires s != [] && IsSpace(Python, s[0]) && rest == TrimStart(Python, s[1..])
    ensures rest != [] ==> rest[|rest| - 1] == s[|s| - 1]
    ensures rest == [] ==> IsSpace(Python, s[|s| - 1])
  {
    if rest == [] && |s| > 1 {
      assert AllSpace(Python, s[1..]);
      assert s[|s| - 1] == s[1..][|s| - 2];
    }
  }

  /** One character in front of a collapsed tail keeps it collapsed. */
  lemma ConsCollapsed(c: char, tail: string)
    requires IsSpace(Python, c) ==> c == ' '
    requires forall i :: 0 <= i < |tail| && IsSpace(Python, tail[i]) ==> tail[i] == ' '
    requires NoDoubleSpace(tail) && (c == ' ' ==> tail == [] || tail[0] != ' ')
    ensures forall i :: 0 <= i < |[c] + tail| && IsSpace(Python, ([c] + tail)[i]) ==> ([c] + tail)[i] == ' '
    ensures NoDoubleSpace([c] + tail)
  {
    NoDoubleSpaceCons(c, tail);
    forall i | 0 < i < |[c] + tail| ensures ([c] + tail)[i] == tail[i - 1] {
    }
  }

  /** The shape of `re.sub(r'\s+', ' ', s.strip())`: single spaces between
      non-whitespace runs, no other whitespace, no space at either end. */
  ghost predicate Normalized(c: string)
  {
    && (c != [] ==> c[0] != ' ' && c[|c| - 1] != ' ')
    && (forall i :: 0 <= i < |c| && IsSpace(Python, c[i]) ==> c[i] == ' ')
    && NoDoubleSpace(c)
  }

  /** Python's clean-up `re.sub(r'\s+', ' ', s.strip())`. */
  function Clean(s: string): (c: string)
    ensures Normalized(c)
    ensures c == [] <==> AllSpace(Python, s)
  {
    var t := Strip(Python, s);
    var c := Collapse(t);
    CollapseOfStripped(t, c);
    c
  }

  /** Text with no whitespace at either end collapses to a cleaned string. */
  lemma CollapseOfStripped(t: string, c: string)
    requires t == [] || (!IsSpace(Python, t[0]) && !IsSpace(Python, t[|t| - 1]))
    requires c == Collapse(t)
    ensures Normalized(c) && (c == [] <==> t == [])
  {
  }

  // ---------------------------------------------------------------------
  // str.split() and ' '.join(...)

  predicate NoSpace(w: string)
  {
    forall i :: 0 <= i < |w| ==> !IsSpace(Python, w[i])
  }

  /** Length of the run of non-whitespace characters that starts `s`. */
  function WordLength(s: string): (n: nat)
    ensures n <= |s| && NoSpace(s[..n])
    ensures n < |s| ==> IsSpace(Python, s[n])
  {
    if s == [] || IsSpace(Python, s[0]) then 0
    else
      var n := WordLength(s[1..]);
      assert s[..n + 1] == [s[0]] + s[1..][..n];
      n + 1
  }

  /** Python's `s.split()` with no argument: whitespace runs separate words and
      no word is empty. */
  function Words(s: string): (ws: seq<string>)
    decreases |s|
    ensures forall i :: 0 <= i < |ws| ==> ws[i] != []
  {
    var t := TrimStart(Python, s);
    if t == [] then []
    else
      var n := WordLength(t);
      assert n > 0 && |t[n..]| < |s|;
      var rest := Words(t[n..]);
      var w := t[..n];
      assert w != [] by { assert |w| == n; }
      NoEmptyWordCons(w, rest);
      [w] + rest
  }

  lemma NoEmptyWordCons(w: string, rest: seq<string>)
    requires w != [] && forall i :: 0 <= i < |rest| ==> rest[i] != []
    ensures forall i :: 0 <= i < |[w] + rest| ==> ([w] + rest)[i] != []
  {
    forall i | 0 < i < |[w] + rest| ensures ([w] + rest)[i] != [] {
      assert ([w] + rest)[i] == rest[i - 1];
    }
  }

  /** Python's `' '.join(ws)`. */
  function Join(ws: seq<string>): string
  {
    if |ws| == 0 then []
    else if |ws| == 1 then ws[0]
    else ws[0] + " " + Join(ws[1..])
  }

  /** Splitting a cleaned string and joining with single spaces gives it back. */
  lemma {:induction false} JoinWords(c: string)
    requires Normalized(c)
    ensures Join(Words(c)) == c
    ensures c != [] <==> Words(c) != []
    decreases |c|
  {
    if c != [] {
      assert TrimStart(Python, c) == c;
      var n := WordLength(c);
      var rest := c[n..];
      if rest != [] {
        var next := NormalizedAfterSpace(c, n);
        JoinWords(next);
        WordsSkipSpace(rest);
        assert Words(c) == [c[..n]] + Words(next);
        JoinStep(c, n, Words(next));
      } else {
        assert Words(c) == [c[..n]];
      }
    }
  }

  /** Leading whitespace does not change the word list. */
  lemma WordsSkipSpace(s: string)
    ensures Words(s) == Words(TrimStart(Python, s))
  {
    var t := TrimStart(Python, s);
    assert TrimStart(Python, t) == t;
  }

  lemma JoinStep(c: string, n: nat, ws: seq<string>)
    requires n < |c| && c[n] == ' ' && ws != [] && Join(ws) == c[n + 1..]
    ensures Join([c[..n]] + ws) == c
  {
    assert ([c[..n]] + ws)[1..] == ws;
    assert c == c[..n] + " " + c[n + 1..];
  }

  /** In a cleaned string, the character after a word is a single space that is
      followed by another cleaned, non-empty string. */
  lemma NormalizedAfterSpace(c: string, n: nat) returns (next: string)
    requires Normalized(c) && n < |c| && IsSpace(Python, c[n])
    ensures n + 2 <= |c| && c[n] == ' ' && next == c[n + 1..] && next == c[n..][1..]
    ensures Normalized(next) && next != [] && !IsSpace(Python, next[0])
    ensures TrimStart(Python, c[n..]) == next
  {
    next := c[n + 1..];
    SpaceThenWord(c, n);
    NormalizedTail(c, n + 1);
    TrimOneSpace(c[n..], next);
  }

  /** A whitespace character in a cleaned string is a single space with a
      non-whitespace character after it. */
  lemma SpaceThenWord(c: string, n: nat)
    requires Normalized(c) && n < |c| && IsSpace(Python, c[n])
    ensures n + 1 < |c| && c[n] == ' ' && !IsSpace(Python, c[n + 1])
  {
    assert n + 1 < |c| by { assert c[|c| - 1] != ' '; }
    assert c[n + 1] != ' ' by { assert !DoubleSpaceAt(c, n); }
  }

  lemma TrimOneSpace(x: string, next: string)
    requires |x| >= 2 && IsSpace(Python, x[0]) && next == x[1..] && !IsSpace(Python, next[0])
    ensures TrimStart(Python, x) == next
  {
  }

  /** What follows a space in a cleaned string is cleaned too. */
  lemma NormalizedTail(c: string, j: nat)
    requires Normalized(c) && 0 < j < |c| && c[j - 1] == ' '
    ensures Normalized(c[j..])
  {
    var t := c[j..];
    assert t[0] != ' ' by { assert !DoubleSpaceAt(c, j - 1); }
    assert t[|t| - 1] == c[|c| - 1];
    forall i ensures !DoubleSpaceAt(t, i) {
      assert DoubleSpaceAt(t, i) ==> DoubleSpaceAt(c, j + i);
    }
    forall i | 0 <= i < |t| && IsSpace(Python, t[i]) ensures t[i] == ' ' {
      assert t[i] == c[j + i];
    }
  }

  // ---------------------------------------------------------------------
  // The clean-up keeps the words: `re.sub(r'\s+', ' ', s.strip())` is
  // `' '.join(s.split())`

  /** Collapsing whitespace runs keeps the word list: only the separators
      change, the non-whitespace text stays as it was and in order. */
  lemma {:induction false} CollapseKeepsWords(s: string)
    ensures Words(Collapse(s)) == Words(s)
    decreases |s|
  {
    if s == [] {
    } else if IsSpace(Python, s[0]) {
      var t := TrimStart(Python, s);
      CollapseSkipRun(s);
      WordsSpaceCons(Collapse(t));
      WordsSkipSpace(s);
      if t != [] {
        CollapseKeepsWords(t);
      }
    } else {
      var n := WordLength(s);
      var rest := s[n..];
      CollapseWord(s, n);
      CollapseKeepsWords(rest);
      WordsCons(s[..n], Collapse(rest));
      WordsOfWordStart(s);
    }
  }

  /** `' '.join(s.split())` is the cleaned message, and splitting the cleaned
      message gives the message's own words. */
  lemma CleanIsSplitJoin(s: string)
    ensures Words(Clean(s)) == Words(s)
    ensures Clean(s) == Join(Words(s))
  {
    var t := TrimStart(Python, s);
    var r := TrimEnd(Python, t);
    assert Clean(s) == Collapse(r);
    CollapseKeepsWords(r);
    WordsSkipSpace(s);
    TrimEndKeepsWords(t, r);
    JoinWords(Clean(s));
  }

  lemma TrimEndKeepsWords(t: string, r: string)
    requires r == TrimEnd(Python, t)
    ensures Words(r) == Words(t)
  {
    assert t == r + t[|r|..];
    WordsAppendSpace(r, t[|r|..]);
  }

  /** A text that starts with whitespace collapses to one space and then the
      collapse of what follows the run. */
  lemma CollapseSkipRun(s: string)
    requires s != [] && IsSpace(Python, s[0])
    ensures Collapse(s) == [' '] + Collapse(TrimStart(Python, s))
    ensures |TrimStart(Python, s)| < |s|
  {
  }

  /** A leading word is copied by the collapse. */
  lemma {:induction false} CollapseWord(s: string, n: nat)
    requires n <= |s| && NoSpace(s[..n])
    ensures Collapse(s) == s[..n] + Collapse(s[n..])
  {
    if n > 0 {
      var t := s[1..];
      WordTail(s, n);
      CollapseCons(s);
      CollapseWord(t, n - 1);
      Regroup([s[0]], t[..n - 1], Collapse(s[n..]));
    }
  }

  /** Dropping the first character of a leading word leaves a shorter word. */
  lemma WordTail(s: string, n: nat)
    requires 0 < n <= |s| && NoSpace(s[..n])
    ensures !IsSpace(Python, s[0]) && NoSpace(s[1..][..n - 1])
    ensures s[1..][n - 1..] == s[n..] && s[..n] == [s[0]] + s[1..][..n - 1]
  {
    assert s[..n][0] == s[0];
    assert s[1..][..n - 1] == s[..n][1..];
  }

  lemma CollapseCons(s: string)
    requires s != [] && !IsSpace(Python, s[0])
    ensures Collapse(s) == [s[0]] + Collapse(s[1..])
  {
  }

  /** A space in front does not change the word list. */
  lemma WordsSpaceCons(x: string)
    ensures Words([' '] + x) == Words(x)
  {
    assert ([' '] + x)[1..] == x;
    assert TrimStart(Python, [' '] + x) == TrimStart(Python, x);
    WordsSkipSpace([' '] + x);
    WordsSkipSpace(x);
  }

  /** A text starting with a word splits into that word and the rest's words. */
  lemma WordsOfWordStart(s: string)
    requires s != [] && !IsSpace(Python, s[0])
    ensures Words(s) == [s[..WordLength(s)]] + Words(s[WordLength(s)..])
  {
    assert TrimStart(Python, s) == s;
  }

  /** A word followed by whitespace or nothing is the first word. */
  lemma WordsCons(w: string, x: string)
    requires w != [] && NoSpace(w) && (x == [] || IsSpace(Python, x[0]))
    ensures Words(w + x) == [w] + Words(x)
  {
    var s := w + x;
    assert s[..|w|] == w && s[|w|..] == x;
    WordLengthAppend(w, x);
    assert WordLength(w) == |w|;
    WordsOfWordStart(s);
  }

  /** Text after a leading word that has already ended does not change its length. */
  lemma {:induction false} WordLengthAppend(a: string, b: string)
    requires WordLength(a) < |a| || b == [] || IsSpace(Python, b[0])
    ensures WordLength(a + b) == WordLength(a)
  {
    if a == [] {
    } else if IsSpace(Python, a[0]) {
      assert (a + b)[0] == a[0];
    } else {
      assert (a + b)[1..] == a[1..] + b;
      WordLengthAppend(a[1..], b);
    }
  }

  /** Trailing whitespace does not change the word list. */
  lemma {:induction false} WordsAppendSpace(x: string, y: string)
    requires AllSpace(Python, y)
    ensures Words(x + y) == Words(x)
    decreases |x|
  {
    var t := TrimStart(Python, x);
    WordsSkipSpace(x);
    WordsSkipSpace(x + y);
    if t == [] {
      AllSpaceAppend(x, y);
      BlankHasNoStart(x + y);
    } else {
      TrimStartAppend(x, y);
      var n := WordLength(t);
      WordsAppendSpace(t[n..], y);
      WordWithSpaceAfter(t, y);
    }
  }

  /** The first word of a text is kept when whitespace is appended. */
  lemma WordWithSpaceAfter(t: string, y: string)
    requires t != [] && !IsSpace(Python, t[0]) && AllSpace(Python, y)
    ensures Words(t + y) == [t[..WordLength(t)]] + Words(t[WordLength(t)..] + y)
  {
    var n := WordLength(t);
    WordLengthAppend(t, y);
    ConcatSlices(t, y, n);
    WordsOfWordStart(t + y);
  }

  lemma ConcatSlices(t: string, y: string, n: nat)
    requires 0 < n <= |t|
    ensures (t + y)[0] == t[0] && (t + y)[..n] == t[..n] && (t + y)[n..] == t[n..] + y
  {
  }

  lemma AllSpaceAppend(x: string, y: string)
    requires TrimStart(Python, x) == [] && AllSpace(Python, y)
    ensures AllSpace(Python, x + y)
  {
    assert x[..|x|] == x;
  }

  lemma BlankHasNoStart(x: string)
    requires AllSpace(Python, x)
    ensures TrimStart(Python, x) == []
  {
  }

  /** Trimming the start of a text with a word in it is not affected by what
      comes after. */
  lemma {:induction false} TrimStartAppend(x: string, y: string)
    requires TrimStart(Python, x) != []
    ensures TrimStart(Python, x + y) == TrimStart(Python, x) + y
  {
    if IsSpace(Python, x[0]) {
      assert (x + y)[1..] == x[1..] + y;
      TrimStartAppend(x[1..], y);
    }
  }

  /** Joining a prefix of the word list gives a prefix of the joined string. */
  lemma {:induction false} JoinPrefix(ws: seq<string>, k: nat)
    requires k <= |ws|
    ensures IsPrefix(Join(ws[..k]), Join(ws))
  {
    if k == 0 {
    } else if |ws| == 1 {
      assert ws[..k] == ws;
    } else if k == 1 {
      assert ws[..1] == [ws[0]];
      assert Join(ws) == ws[0] + (" " + Join(ws[1..]));
    } else {
      JoinPrefix(ws[1..], k - 1);
      assert ws[..k][1..] == ws[1..][..k - 1];
      var p := Join(ws[1..][..k - 1]);
      assert Join(ws[..k]) == ws[0] + " " + p;
      assert Join(ws) == ws[0] + " " + Join(ws[1..]);
      var tail := Join(ws[1..]);
      assert tail[..|p|] == p;
      assert (ws[0] + " " + tail)[..|ws[0]| + 1 + |p|] == ws[0] + " " + tail[..|p|];
    }
  }

  // ---------------------------------------------------------------------
  // Prefixes and substrings

  predicate IsPrefix(p: string, s: string)
  {
    |p| <= |s| && s[..|p|] == p
  }

  /** Python's `sub in s` / `s.startswith(...)` at position `i`. */
  predicate OccursAt(sub: string, s: string, i: int)
  {
    0 <= i && i + |sub| <= |s| && s[i..i + |sub|] == sub
  }

  predicate Contains(s: string, sub: string)
  {
    exists i | 0 <= i <= |s| - |sub| :: OccursAt(sub, s, i)
  }

  /** ASCII upper case to lower case; every other character unchanged. */
  function LowerAscii(c: char): (d: char)
    ensures 'A' <= c <= 'Z' ==> d as int == c as int + 32
    ensures !('A' <= c <= 'Z') ==> d == c
  {
    if 'A' <= c <= 'Z' then (c as int + 32) as char else c
  }

  // ---------------------------------------------------------------------
  // Decimal rendering of a whole number (JavaScript template `${n}`)

  function DigitChar(d: nat): (c: char)
    requires d < 10
    ensures '0' <= c <= '9' && c as int - '0' as int == d
  {
    ('0' as int + d) as char
  }

  function Decimal(n: nat): (s: string)
    decreases n
    ensures s != []
    ensures forall i :: 0 <= i < |s| ==> '0' <= s[i] <= '9'
    ensures n > 0 ==> s[0] != '0'
  {
    if n < 10 then [DigitChar(n)] else Decimal(n / 10) + [DigitChar(n % 10)]
  }

  /** Reads a digit string back as a number (reference definition for Decimal). */
  function ParseDecimal(s: string): nat
    requires forall i :: 0 <= i < |s| ==> '0' <= s[i] <= '9'
  {
    if s == [] then 0
    else ParseDecimal(s[..|s| - 1]) * 10 + (s[|s| - 1] as int - '0' as int)
  }

  lemma {:induction false} DecimalRoundTrip(n: nat)
    ensures ParseDecimal(Decimal(n)) == n
    decreases n
  {
    if n >= 10 {
      DecimalRoundTrip(n / 10);
      var s := Decimal(n);
      assert s[..|s| - 1] == Decimal(n / 10);
    }
  }

  /** Distinct numbers render differently. */
  lemma DecimalInjective(m: nat, n: nat)
    requires Decimal(m) == Decimal(n)
    ensures m == n
  {
    DecimalRoundTrip(m);
    DecimalRoundTrip(n);
  }

  // ---------------------------------------------------------------------
  // JavaScript `.length`: UTF-16 code units

  function Utf16Length(s: string): (n: nat)
    ensures |s| <= n <= 2 * |s|
    ensures (forall i :: 0 <= i < |s| ==> s[i] as int <= 0xFFFF) ==> n == |s|
  {
    if s == [] then 0
    else (if s[0] as int > 0xFFFF then 2 else 1) + Utf16Length(s[1..])
  }
}
