/**
  The server's contextual session name (app.py `generate_contextual_session_name`):
  a real-estate category picked by the first matching keyword pattern, else
  the first words of the cleaned message, followed by " - " and a date stamp.
  The stamp (`datetime.now().strftime('%m/%d %H:%M')`) is a parameter.
*/
module SessionNaming {
  import opened Common
  import opened Text

  /**
    One branch of a keyword regex such as `\bbuy|buying|purchase\b`. In a
    Python regex the alternation binds loosest, so `\b` belongs only to the
    first and last branch: `\bbuy`, `buying`, `purchase\b`. A `.` in a
    literal is the regex dot (any character but a newline); no keyword uses a
    literal dot.
  */
  datatype Alternative = Alternative(wordStart: bool, literal: string, wordEnd: bool)

  /** One entry of the keyword table: its regex branches and its category. */
  datatype Keyword = Keyword(alternatives: seq<Alternative>, category: string)

  function Plain(literal: string): Alternative
  {
    Alternative(false, literal, false)
  }

  /** The table, in the order the loop visits it (dict insertion order). */
  const Keywords: seq<Keyword> := [
    Keyword([Alternative(true, "buy", false), Plain("buying"), Alternative(false, "purchase", true)],
            "Buying Property"),
    Keyword([Alternative(true, "sell", false), Plain("selling"), Alternative(false, "sale", true)],
            "Selling Property"),
    Keyword([Alternative(true, "rent", false), Plain("rental"), Alternative(false, "renting", true)],
            "Rental Inquiry"),
    Keyword([Alternative(true, "invest", false), Plain("investment"), Alternative(false, "investing", true)],
            "Investment Advice"),
    Keyword([Alternative(true, "market", false), Plain("price"), Plain("value"), Alternative(false, "appraisal", true)],
            "Market Analysis"),
    Keyword([Alternative(true, "mortgage", false), Plain("loan"), Alternative(false, "financing", true)],
            "Financing Help"),
    Keyword([Alternative(true, "condo", false), Plain("apartment"), Plain("house"), Alternative(false, "home", true)],
            "Property Search"),
    Keyword([Alternative(true, "neighborhood", false), Plain("area"), Alternative(false, "location", true)],
            "Location Guide"),
    Keyword([Alternative(true, "commercial", false), Plain("office"), Alternative(false, "retail", true)],
            "Commercial Real Estate"),
    Keyword([Alternative(true, "first.time", false), Alternative(false, "first time", true)],
            "First-Time Buyer")
  ]

  /** A regex word character (`\w`), restricted to ASCII. */
  predicate IsWordChar(c: char)
  {
    ('a' <= c <= 'z') || ('A' <= c <= 'Z') || ('0' <= c <= '9') || c == '_'
  }

  /** `\b` at position `i`: a word character on exactly one side. */
  predicate AtBoundary(s: string, i: int)
    requires 0 <= i <= |s|
  {
    (i > 0 && IsWordChar(s[i - 1])) != (i < |s| && IsWordChar(s[i]))
  }

  /** One pattern character against one text character under `re.IGNORECASE`. */
  predicate CharMatches(c: char, p: char)
  {
    if p == '.' then c != '\n' else LowerAscii(c) == p
  }

  /** The branch matches the text starting at position `i`. */
  predicate MatchesAt(s: string, alt: Alternative, i: int)
  {
    && 0 <= i && i + |alt.literal| <= |s|
    && (alt.wordStart ==> AtBoundary(s, i))
    && (forall k | 0 <= k < |alt.literal| :: CharMatches(s[i + k], alt.literal[k]))
    && (alt.wordEnd ==> AtBoundary(s, i + |alt.literal|))
  }

  /** `re.search(pattern, s, re.IGNORECASE)` succeeds. */
  predicate PatternMatches(s: string, kw: Keyword)
  {
    exists a, i | a in kw.alternatives && 0 <= i <= |s| :: MatchesAt(s, a, i)
  }

  /** Entry `k` matches and no earlier entry does. */
  ghost predicate FirstMatchAt(kws: seq<Keyword>, s: string, k: int)
  {
    && 0 <= k < |kws| && PatternMatches(s, kws[k])
    && forall j :: 0 <= j < k ==> !PatternMatches(s, kws[j])
  }

  /** The `for pattern, category in ...: if re.search(...): return` loop. */
  function FirstCategory(kws: seq<Keyword>, s: string): (r: Option<string>)
    ensures r.None? <==> forall k :: 0 <= k < |kws| ==> !PatternMatches(s, kws[k])
    ensures r.Some? ==> exists k :: FirstMatchAt(kws, s, k) && kws[k].category == r.value
  {
    if kws == [] then None
    else if PatternMatches(s, kws[0]) then
      assert FirstMatchAt(kws, s, 0);
      Some(kws[0].category)
    else
      FirstMatchShift(kws, s);
      FirstCategory(kws[1..], s)
  }

  lemma FirstMatchShift(kws: seq<Keyword>, s: string)
    requires kws != [] && !PatternMatches(s, kws[0])
    ensures forall k :: FirstMatchAt(kws[1..], s, k) ==> FirstMatchAt(kws, s, k + 1) && kws[k + 1] == kws[1..][k]
    ensures (forall k :: 0 <= k < |kws[1..]| ==> !PatternMatches(s, kws[1..][k]))
            ==> forall k :: 0 <= k < |kws| ==> !PatternMatches(s, kws[k])
  {
    assert forall k :: 1 <= k < |kws| ==> kws[k] == kws[1..][k - 1];
  }

  /** `topic[:22] + "..."` when the topic is longer than 25 characters. */
  function Shorten(topic: string): (r: string)
    ensures |r| <= 25
    ensures |topic| <= 25 ==> r == topic
    ensures |topic| > 25 ==> r == topic[..22] + "..."
  {
    if |topic| > 25 then topic[..22] + "..." else topic
  }

  /** The part of the session name before " - <stamp>". */
  function Topic(message: string): string
  {
    var cleaned := Clean(message);
    TopicOf(cleaned, FirstCategory(Keywords, cleaned))
  }

  /** The topic once the cleaned message and the keyword search are known. */
  function TopicOf(cleaned: string, category: Option<string>): string
  {
    match category
    case Some(c) => c
    case None =>
      var words := Words(cleaned);
      if |words| >= 3 then Shorten(Join(words[..Min(4, |words|)]))
      else if |words| >= 1 then Join(words[..Min(2, |words|)])
      else "Chat"
  }

  function SessionName(message: string, stamp: string): string
  {
    Topic(message) + " - " + stamp
  }

  /** Some keyword pattern matches the cleaned message. */
  ghost predicate HasCategory(message: string)
  {
    exists k :: 0 <= k < |Keywords| && PatternMatches(Clean(message), Keywords[k])
  }

  /** A category wins whenever one matches: the first in table order. */
  lemma TopicIsFirstCategory(message: string)
    requires HasCategory(message)
    ensures exists k :: FirstMatchAt(Keywords, Clean(message), k) && Topic(message) == Keywords[k].category
  {
    var r := FirstCategory(Keywords, Clean(message));
    assert r.Some?;
  }

  /** With one or two words and no category, the topic is the whole cleaned
      message, however long. */
  lemma TopicOfShortMessage(message: string)
    requires !HasCategory(message)
    requires 1 <= |Words(Clean(message))| <= 2
    ensures Topic(message) == Clean(message)
  {
    var cleaned := Clean(message);
    assert FirstCategory(Keywords, cleaned) == None;
    ShortTopic(cleaned);
  }

  lemma ShortTopic(cleaned: string)
    requires Normalized(cleaned) && 1 <= |Words(cleaned)| <= 2
    ensures TopicOf(cleaned, None) == cleaned
  {
    var words := Words(cleaned);
    assert words[..Min(2, |words|)] == words;
    JoinWords(cleaned);
  }

  /** With three words or more and no category, the topic is the first four
      words (a prefix of the cleaned message), cut to 22 characters plus "..."
      when over 25; it never exceeds 25 characters. */
  lemma TopicOfLongMessage(message: string)
    requires !HasCategory(message)
    requires |Words(Clean(message))| >= 3
    ensures |Topic(message)| <= 25
    ensures var words := Words(Clean(message));
            var lead := Join(words[..Min(4, |words|)]);
            && IsPrefix(lead, Clean(message))
            && (|lead| <= 25 ==> Topic(message) == lead)
            && (|lead| > 25 ==> Topic(message) == Clean(message)[..22] + "...")
  {
    var cleaned := Clean(message);
    assert FirstCategory(Keywords, cleaned) == None;
    LongTopic(cleaned);
  }

  lemma LongTopic(cleaned: string)
    requires Normalized(cleaned) && |Words(cleaned)| >= 3
    ensures var words := Words(cleaned);
            var lead := Join(words[..Min(4, |words|)]);
            && IsPrefix(lead, cleaned)
            && (|lead| <= 25 ==> TopicOf(cleaned, None) == lead)
            && (|lead| > 25 ==> TopicOf(cleaned, None) == cleaned[..22] + "...")
            && |TopicOf(cleaned, None)| <= 25
  {
    var words := Words(cleaned);
    var lead := Join(words[..Min(4, |words|)]);
    LeadIsPrefix(cleaned);
    assert TopicOf(cleaned, None) == Shorten(lead);
    ShortenPrefix(lead, cleaned);
  }

  /** The first four words, joined, start the cleaned message. */
  lemma LeadIsPrefix(cleaned: string)
    requires Normalized(cleaned)
    ensures var words := Words(cleaned);
            IsPrefix(Join(words[..Min(4, |words|)]), cleaned)
  {
    var words := Words(cleaned);
    JoinWords(cleaned);
    JoinPrefix(words, Min(4, |words|));
  }

  lemma ShortenPrefix(lead: string, cleaned: string)
    requires IsPrefix(lead, cleaned)
    ensures |lead| > 25 ==> Shorten(lead) == cleaned[..22] + "..."
  {
    if |lead| > 25 {
      assert lead[..22] == cleaned[..22];
    }
  }

  /** A blank message matches no pattern and has no words: "Chat". */
  lemma TopicOfBlankMessage(message: string)
    requires AllSpace(Python, message)
    ensures Topic(message) == "Chat"
  {
    var cleaned := Clean(message);
    assert cleaned == [];
    NoCategoryForEmpty();
    EmptyTopic();
  }

  lemma EmptyTopic()
    ensures TopicOf([], None) == "Chat"
  {
    assert Words([]) == [];
  }

  /** The keyword search finds nothing in the empty text. */
  lemma NoCategoryForEmpty()
    ensures FirstCategory(Keywords, []) == None
  {
    TableBranchesNonEmpty();
    forall k | 0 <= k < |Keywords| ensures !PatternMatches([], Keywords[k]) {
      EmptyMatchesNothing(Keywords[k]);
    }
  }

  /** Every branch of the table spells at least one character. */
  predicate NonEmptyBranches(kw: Keyword)
  {
    forall a | a in kw.alternatives :: a.literal != []
  }

  /** A pattern whose branches all spell something never matches the
      empty text. */
  lemma EmptyMatchesNothing(kw: Keyword)
    requires NonEmptyBranches(kw)
    ensures !PatternMatches([], kw)
  {
  }

  lemma TableBranchesNonEmpty()
    ensures forall k :: 0 <= k < |Keywords| ==> NonEmptyBranches(Keywords[k])
  {
  }

  /** Table order: "purchase" (entry 1) beats "condo" (entry 7). */
  lemma PurchaseBeatsCondo()
    ensures PatternMatches("purchase a condo", Keywords[6])
    ensures FirstCategory(Keywords, "purchase a condo") == Some("Buying Property")
  {
    assert MatchesAt("purchase a condo", Alternative(true, "condo", false), 11);
    assert MatchesAt("purchase a condo", Alternative(false, "purchase", true), 0);
    assert PatternMatches("purchase a condo", Keywords[0]);
  }

  /** Alternation precedence: the middle branch `buying` needs no word
      boundary, so a word that merely contains it matches. */
  lemma EmbeddedBuyingMatches()
    ensures FirstCategory(Keywords, "rebuying") == Some("Buying Property")
  {
    assert MatchesAt("rebuying", Plain("buying"), 2);
    assert PatternMatches("rebuying", Keywords[0]);
  }
}
