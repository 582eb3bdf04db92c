/**
  What the two browser clients share: the `#chat-messages` list as a
  sequence of entries, the outcome of an awaited `fetch`, and
  `formatMessage` (message-handler.js), the markup the newer client puts in
  an entry.
*/
module ChatDisplay {
  import opened Common
  import opened Text

  datatype Sender = User | Bot

  /** One `.message-container`: who sent it and the text or markup shown. */
  datatype Entry = Entry(sender: Sender, content: string)

  /**
    An awaited `fetch` followed by `response.json()`: it threw (network
    failure, unreadable body), answered with a status outside 200-299, or
    answered ok with the decoded body.
  */
  datatype Fetch<T> = Threw | NotOk | Ok(body: T)

  /** The characters a JavaScript `.` does not match. */
  predicate IsLineTerminator(c: char)
  {
    c == '\n' || c == '\r' || c == '\U{2028}' || c == '\U{2029}'
  }

  predicate NoTerminatorIn(s: string, from: int, to: int)
    requires 0 <= from <= to <= |s|
  {
    forall i :: from <= i < to ==> !IsLineTerminator(s[i])
  }

  /**
    The lazy group `(.*?)` followed by the closing delimiter `d`, with the
    group starting at `from`: the first `j` where `d` occurs such that no
    line terminator lies between `from` and `j`. The scan is at `k`.
  */
  function FindClose(s: string, d: string, from: nat, k: nat): (r: Option<nat>)
    requires d != [] && from <= k <= |s|
    requires NoTerminatorIn(s, from, k)
    requires forall j :: from <= j < k ==> !OccursAt(d, s, j)
    decreases |s| - k
    ensures r.Some? ==> && k <= r.value && OccursAt(d, s, r.value) && NoTerminatorIn(s, from, r.value)
                        && forall j :: from <= j < r.value ==> !OccursAt(d, s, j)
    ensures r.None? ==> forall j :: from <= j <= |s| && OccursAt(d, s, j) ==> !NoTerminatorIn(s, from, j)
  {
    if k + |d| > |s| then None
    else if OccursAt(d, s, k) then Some(k)
    else if IsLineTerminator(s[k]) then None
    else FindClose(s, d, from, k + 1)
  }

  /**
    `s.replace(/D(.*?)D/g, open + '$1' + close)` for the delimiter `d`: at
    each position a delimiter with a matching close is rewritten and the
    scan resumes after the close; otherwise one character is copied.
  */
  function ReplacePairs(s: string, d: string, open: string, close: string): string
    requires d != []
    decreases |s|
  {
    if s == [] then []
    else if OccursAt(d, s, 0) then
      match FindClose(s, d, |d|, |d|)
      case Some(j) => open + s[|d|..j] + close + ReplacePairs(s[j + |d|..], d, open, close)
      case None => [s[0]] + ReplacePairs(s[1..], d, open, close)
    else [s[0]] + ReplacePairs(s[1..], d, open, close)
  }

  /** Text without the delimiter's first character passes through unchanged. */
  lemma {:induction false} ReplacePairsIdentity(s: string, d: string, open: string, close: string)
    requires d != [] && d[0] !in s
    ensures ReplacePairs(s, d, open, close) == s
  {
    if s != [] {
      assert !OccursAt(d, s, 0) by { assert s[0] != d[0]; }
      ReplacePairsIdentity(s[1..], d, open, close);
      assert [s[0]] + s[1..] == s;
    }
  }

  /** `s.replace(/\n/g, '<br>')`. */
  function ReplaceNewlines(s: string): (r: string)
    ensures '\n' !in r
    ensures '\n' !in s ==> r == s
  {
    if s == [] then [] else NewlineImage(s[0]) + ReplaceNewlines(s[1..])
  }

  /** What one character becomes in `s.replace(/\n/g, '<br>')`. */
  function NewlineImage(c: char): string
  {
    if c == '\n' then "<br>" else [c]
  }

  /**
    `formatMessage`: `**x**` becomes strong, then `*x*` becomes em, then
    every newline becomes `<br>`. No newline survives, and text with
    neither '*' nor a newline is shown as it is.
  */
  const StrongOpen: string := "<strong>"
  const StrongClose: string := "</strong>"
  const EmOpen: string := "<em>"
  const EmClose: string := "</em>"

  function FormatMessage(s: string): (r: string)
    ensures '\n' !in r
    ensures '*' !in s ==> r == ReplaceNewlines(s)
    ensures '*' !in s && '\n' !in s ==> r == s
  {
    var em := ReplacePairs(ReplacePairs(s, "**", StrongOpen, StrongClose), "*", EmOpen, EmClose);
    NoStarIdentity(s);
    ReplaceNewlines(em)
  }

  lemma NoStarIdentity(s: string)
    ensures '*' !in s ==> ReplacePairs(ReplacePairs(s, "**", StrongOpen, StrongClose), "*", EmOpen, EmClose) == s
  {
    if '*' !in s {
      ReplacePairsIdentity(s, "**", StrongOpen, StrongClose);
      ReplacePairsIdentity(s, "*", EmOpen, EmClose);
    }
  }

  /** Strong emphasis is rewritten before single emphasis. */
  lemma StrongBeforeEm()
    ensures FormatMessage("**a** *b*") == StrongOpen + "a" + StrongClose + " " + EmOpen + "b" + EmClose
  {
    StrongPassOfMixed();
    EmPassOfMixed();
    var em := StrongOpen + "a" + StrongClose + " " + EmOpen + "b" + EmClose;
    assert '\n' !in StrongOpen && '\n' !in StrongClose && '\n' !in EmOpen && '\n' !in EmClose;
    assert '\n' !in em;
  }

  lemma StrongPassOfMixed()
    ensures ReplacePairs("**a** *b*", "**", StrongOpen, StrongClose) == StrongOpen + "a" + StrongClose + " *b*"
  {
    var tail := " *b*";
    assert Plain("a");
    PairRewrite("a", tail, "**", StrongOpen, StrongClose);
    assert "**" + "a" + "**" + tail == "**a** *b*";
    NoAdjacentStars(tail);
    NoOccurrenceIdentity(tail, "**", StrongOpen, StrongClose);
  }

  /** In `**a** *b*` the strong group opened at 0 closes at 3. */
  lemma StrongCloseOfMixed()
    ensures FindClose("**a** *b*", "**", 2, 2) == Some(3)
  {
    var s := "**a** *b*";
    assert s[2..4] == "a*" && s[3..5] == "**";
    assert FindClose(s, "**", 2, 3) == Some(3);
  }

  /** Text where the delimiter occurs nowhere passes through unchanged. */
  lemma {:induction false} NoOccurrenceIdentity(s: string, d: string, open: string, close: string)
    requires d != [] && forall j :: 0 <= j < |s| ==> !OccursAt(d, s, j)
    ensures ReplacePairs(s, d, open, close) == s
  {
    if s != [] {
      assert !OccursAt(d, s, 0);
      forall j | 0 <= j < |s[1..]| ensures !OccursAt(d, s[1..], j) {
        if j + |d| <= |s[1..]| {
          assert s[1..][j..j + |d|] == s[j + 1..j + 1 + |d|];
          assert !OccursAt(d, s, j + 1);
        }
      }
      NoOccurrenceIdentity(s[1..], d, open, close);
      assert [s[0]] + s[1..] == s;
    }
  }

  /** Without two stars side by side, "**" occurs nowhere. */
  lemma NoAdjacentStars(t: string)
    requires forall j :: 0 <= j < |t| - 1 ==> t[j] != '*' || t[j + 1] != '*'
    ensures forall j :: 0 <= j < |t| ==> !OccursAt("**", t, j)
  {
    forall j | 0 <= j < |t| ensures !OccursAt("**", t, j) {
      if j + 2 <= |t| {
        assert t[j..j + 2][0] == t[j] && t[j..j + 2][1] == t[j + 1];
      }
    }
  }

  lemma EmPassOfMixed()
    ensures ReplacePairs(StrongOpen + "a" + StrongClose + " *b*", "*", EmOpen, EmClose)
         == StrongOpen + "a" + StrongClose + " " + EmOpen + "b" + EmClose
  {
    var strong := StrongOpen + "a" + StrongClose;
    var pre := strong + " ";
    assert Plain("b");
    PairRewrite("b", [], "*", EmOpen, EmClose);
    assert "*" + "b" + "*" + [] == "*b*";
    assert ReplacePairs([], "*", EmOpen, EmClose) == [];
    TagsArePlain("a", StrongOpen, StrongClose);
    assert '*' !in pre;
    assert " " + "*b*" == " *b*";
    Regroup(strong, " ", "*b*");
    assert StrongOpen + "a" + StrongClose + " *b*" == pre + "*b*";
    PairsAppend(pre, "*b*", "*", EmOpen, EmClose);
    var em := EmOpen + "b" + EmClose;
    assert ReplacePairs("*b*", "*", EmOpen, EmClose) == em;
    assert pre + em == strong + " " + EmOpen + "b" + EmClose;
  }

  /** A line break ends the lazy group, so emphasis never spans lines. */
  lemma NewlineStopsEmphasis()
    ensures FormatMessage("*a\nb*") == "*a<br>b*"
  {
    var s := "*a\nb*";
    StrongPassUnchanged();
    EmPassUnchanged();
    NewlinePass();
  }

  lemma StrongPassUnchanged()
    ensures ReplacePairs("*a\nb*", "**", "<strong>", "</strong>") == "*a\nb*"
  {
    NoAdjacentStars("*a\nb*");
    NoOccurrenceIdentity("*a\nb*", "**", "<strong>", "</strong>");
  }

  lemma EmPassUnchanged()
    ensures ReplacePairs("*a\nb*", "*", "<em>", "</em>") == "*a\nb*"
  {
    var s := "*a\nb*";
    assert s[1..] == "a\nb*";
    assert "a\nb*"[1..] == "\nb*";
    assert "\nb*"[1..] == "b*";
    assert "b*"[1..] == "*";
    assert FindClose("*", "*", 1, 1) == None;
    assert ReplacePairs("*", "*", "<em>", "</em>") == "*";
    assert ReplacePairs("b*", "*", "<em>", "</em>") == "b*";
    assert ReplacePairs("\nb*", "*", "<em>", "</em>") == "\nb*";
    assert ReplacePairs("a\nb*", "*", "<em>", "</em>") == "a\nb*";
    assert s[1..2] == "a" && s[2..3] == "\n";
    assert FindClose(s, "*", 1, 2) == None;
    assert FindClose(s, "*", 1, 1) == None;
  }

  lemma NewlinePass()
    ensures ReplaceNewlines("*a\nb*") == "*a<br>b*"
  {
    var p, t := "*a", "b*";
    assert p[0] != '\n' && p[1] != '\n' && t[0] != '\n' && t[1] != '\n';
    NewlineSplit(p, t);
    assert ReplaceNewlines(p) == p && ReplaceNewlines(t) == t;
    assert p + "\n" + t == "*a\nb*";
    assert p + "<br>" + t == "*a<br>b*";
  }

  /** A newline becomes `<br>` and the text on either side is rewritten on
      its own. */
  lemma NewlineSplit(p: string, t: string)
    ensures ReplaceNewlines(p + "\n" + t) == ReplaceNewlines(p) + "<br>" + ReplaceNewlines(t)
  {
    var nt := "\n" + t;
    NewlinesAppend(p, nt);
    NewlinesCons(nt);
    assert nt[0] == '\n' && nt[1..] == t;
    Regroup(p, "\n", t);
    Regroup(ReplaceNewlines(p), "<br>", ReplaceNewlines(t));
  }

  lemma NewlinesCons(a: string)
    requires a != []
    ensures ReplaceNewlines(a) == NewlineImage(a[0]) + ReplaceNewlines(a[1..])
  {
  }

  /** The newline rewrite works on each part of a text separately, so every
      newline becomes `<br>` and every other character is kept. */
  lemma {:induction false} NewlinesAppend(a: string, b: string)
    ensures ReplaceNewlines(a + b) == ReplaceNewlines(a) + ReplaceNewlines(b)
  {
    if a == [] {
      assert a + b == b;
    } else {
      NewlinesAppend(a[1..], b);
      NewlinesConsAppend(a, b);
      Regroup(NewlineImage(a[0]), ReplaceNewlines(a[1..]), ReplaceNewlines(b));
    }
  }

  lemma NewlinesConsAppend(a: string, b: string)
    requires a != []
    ensures ReplaceNewlines(a + b) == NewlineImage(a[0]) + ReplaceNewlines(a[1..] + b)
    ensures ReplaceNewlines(a) == NewlineImage(a[0]) + ReplaceNewlines(a[1..])
  {
    assert (a + b)[0] == a[0];
    assert (a + b)[1..] == a[1..] + b;
  }

  /** No star and no line terminator: what `(.*?)` spans inside one pair. */
  predicate Plain(x: string)
  {
    forall i :: 0 <= i < |x| ==> x[i] != '*' && !IsLineTerminator(x[i])
  }

  /** A delimiter, star-free text on one line and another delimiter become
      `open`, the text and `close`; the scan goes on after the pair. */
  lemma PairRewrite(x: string, t: string, d: string, open: string, close: string)
    requires d == "**" || d == "*"
    requires Plain(x)
    ensures ReplacePairs(d + x + d + t, d, open, close) == open + x + close + ReplacePairs(t, d, open, close)
  {
    var s := d + x + d + t;
    var j := |d| + |x|;
    PairLayout(x, t, d);
    CloseAfterPlain(s, d, j);
    assert s[|d|..j] == x && s[j + |d|..] == t;
  }

  lemma PairLayout(x: string, t: string, d: string)
    requires d == "**" || d == "*"
    requires Plain(x)
    ensures var s := d + x + d + t;
            && OccursAt(d, s, 0) && OccursAt(d, s, |d| + |x|)
            && s[|d|..|d| + |x|] == x && s[|d| + |x| + |d|..] == t
            && forall i :: |d| <= i < |d| + |x| ==> s[i] != '*' && !IsLineTerminator(s[i])
  {
    var s := d + x + d + t;
    assert s[..|d|] == d;
    assert s[|d| + |x|..|d| + |x| + |d|] == d;
    forall i | |d| <= i < |d| + |x| ensures s[i] != '*' && !IsLineTerminator(s[i]) {
      assert s[i] == x[i - |d|];
    }
  }

  /** The lazy group opened after `d` at 0 closes at `j` when everything
      before `j` is plain. */
  lemma CloseAfterPlain(s: string, d: string, j: nat)
    requires d == "**" || d == "*"
    requires |d| <= j && OccursAt(d, s, 0) && OccursAt(d, s, j)
    requires forall i :: |d| <= i < j ==> s[i] != '*' && !IsLineTerminator(s[i])
    ensures FindClose(s, d, |d|, |d|) == Some(j)
  {
    ScanPlain(s, d, |d|, j);
  }

  lemma {:induction false} ScanPlain(s: string, d: string, k: nat, j: nat)
    requires d == "**" || d == "*"
    requires |d| <= k <= j && OccursAt(d, s, j)
    requires forall i :: |d| <= i < j ==> s[i] != '*' && !IsLineTerminator(s[i])
    ensures NoTerminatorIn(s, |d|, k) && forall i :: |d| <= i < k ==> !OccursAt(d, s, i)
    ensures FindClose(s, d, |d|, k) == Some(j)
    decreases j - k
  {
    forall i | |d| <= i < k ensures !OccursAt(d, s, i) {
      assert s[i..i + |d|][0] == s[i];
    }
    if k < j {
      assert !OccursAt(d, s, k) by { assert s[k..k + |d|][0] == s[k]; }
      ScanPlain(s, d, k + 1, j);
    }
  }

  /** `**x**` with plain `x` is shown as strong text. */
  lemma FormatStrong(x: string)
    requires Plain(x)
    ensures FormatMessage("**" + x + "**") == StrongOpen + x + StrongClose
  {
    PairRewrite(x, [], "**", StrongOpen, StrongClose);
    assert "**" + x + "**" + [] == "**" + x + "**";
    var strong := StrongOpen + x + StrongClose;
    assert ReplacePairs([], "**", StrongOpen, StrongClose) == [];
    assert strong + [] == strong;
    TagsArePlain(x, StrongOpen, StrongClose);
    ReplacePairsIdentity(strong, "*", EmOpen, EmClose);
    assert ReplaceNewlines(strong) == strong;
  }

  /** `*x*` with plain, non-empty `x` is shown as emphasised text. */
  lemma FormatEm(x: string)
    requires Plain(x) && x != []
    ensures FormatMessage("*" + x + "*") == EmOpen + x + EmClose
  {
    var s := "*" + x + "*";
    NoDoubleStar(x);
    NoOccurrenceIdentity(s, "**", StrongOpen, StrongClose);
    PairRewrite(x, [], "*", EmOpen, EmClose);
    assert "*" + x + "*" + [] == s;
    var em := EmOpen + x + EmClose;
    assert ReplacePairs([], "*", EmOpen, EmClose) == [];
    assert em + [] == em;
    TagsArePlain(x, EmOpen, EmClose);
    assert ReplaceNewlines(em) == em;
  }

  /** Around plain, non-empty text, single stars never stand side by side. */
  lemma NoDoubleStar(x: string)
    requires Plain(x) && x != []
    ensures forall j :: 0 <= j < |"*" + x + "*"| ==> !OccursAt("**", "*" + x + "*", j)
  {
    var s := "*" + x + "*";
    forall j | 0 <= j < |s| - 1 ensures s[j] != '*' || s[j + 1] != '*' {
      if j == 0 { assert s[1] == x[0]; }
      else { assert s[j] == x[j - 1]; }
    }
    NoAdjacentStars(s);
  }

  lemma TagsArePlain(x: string, open: string, close: string)
    requires Plain(x) && (open == StrongOpen || open == EmOpen) && (close == StrongClose || close == EmClose)
    ensures '*' !in open + x + close && '\n' !in open + x + close
  {
    var s := open + x + close;
    forall i | 0 <= i < |s| ensures s[i] != '*' && s[i] != '\n' {
      if |open| <= i < |open| + |x| { assert s[i] == x[i - |open|]; }
    }
  }

  /** A prefix without the delimiter's first character is copied and the
      rest is rewritten on its own. */
  lemma {:induction false} PairsAppend(p: string, t: string, d: string, open: string, close: string)
    requires d != [] && d[0] !in p
    ensures ReplacePairs(p + t, d, open, close) == p + ReplacePairs(t, d, open, close)
  {
    if p != [] {
      var s := p + t;
      assert s[0] == p[0] != d[0];
      assert !OccursAt(d, s, 0) by {
        if |d| <= |s| { assert s[..|d|][0] == s[0]; }
      }
      assert s[1..] == p[1..] + t;
      assert ReplacePairs(s, d, open, close) == [s[0]] + ReplacePairs(s[1..], d, open, close);
      PairsAppend(p[1..], t, d, open, close);
      assert [p[0]] + p[1..] == p;
      assert [s[0]] + (p[1..] + ReplacePairs(t, d, open, close)) == p + ReplacePairs(t, d, open, close);
    } else {
      assert p + t == t;
    }
  }

  /** The newer client's greeting (chat-application.js lines 157-165). */
  const WelcomeText: string :=
    "Hello! I'm Brian, your real estate assistant. I can help you with:\n        \n"
    + "\U{2022} Property valuations and market trends\n"
    + "\U{2022} Mortgage advice and calculations  \n"
    + "\U{2022} Buying and selling process guidance\n"
    + "\U{2022} Investment property analysis\n"
    + "\U{2022} Local market information\n\n"
    + "What would you like to know about real estate today?"

  /** `addWelcomeMessage()`: the greeting as a bot entry. */
  function WelcomeEntry(): Entry
  {
    Entry(Bot, FormatMessage(WelcomeText))
  }
}
