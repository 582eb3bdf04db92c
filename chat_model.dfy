/**
  The clean-up that `BrianChatModel.get_response` applies to the generator's
  decoded output (chat_model.py). Tokenising, generation and decoding are
  foreign calls: the decoded text is an input here. The prompt is the user's
  message itself.
*/
module ChatModel {
  import opened Common
  import opened Text

  const Marker: string := "Brian says:"

  const Fallback: string :=
    "As your real estate assistant, I'm here to help with property questions, buying, selling, and investments."

  /**
    Scans `s` from position `i` the way `str.split(sep)` does: an occurrence
    found at `i` ends the current piece and the scan resumes after it.
    Returns where the last piece starts.
  */
  function LastPieceStart(s: string, sep: string, i: nat, start: nat): (r: nat)
    requires sep != [] && start <= i && start <= |s|
    requires forall j :: start <= j < i ==> !OccursAt(sep, s, j)
    requires start > 0 ==> SeparatorEndsAt(s, sep, start)
    requires start == 0 ==> forall j :: 0 <= j < i ==> !OccursAt(sep, s, j)
    decreases |s| - i
    ensures start <= r <= |s|
    ensures forall j :: r <= j ==> !OccursAt(sep, s, j)
    ensures r > 0 ==> SeparatorEndsAt(s, sep, r)
    ensures r == 0 ==> forall j :: !OccursAt(sep, s, j)
  {
    if i + |sep| > |s| then start
    else if OccursAt(sep, s, i) then LastPieceStart(s, sep, i + |sep|, i + |sep|)
    else LastPieceStart(s, sep, i + 1, start)
  }

  /** An occurrence of `sep` ends just before position `p`. */
  predicate SeparatorEndsAt(s: string, sep: string, p: int)
  {
    p >= |sep| && OccursAt(sep, s, p - |sep|)
  }

  /** Python's `s.split(sep)[-1]`. */
  function LastPiece(s: string, sep: string): (r: string)
    requires sep != []
    ensures Contains(s, sep) <==> |r| < |s|
    ensures |r| <= |s| && r == s[|s| - |r|..]
    ensures !Contains(s, sep) ==> r == s
    ensures forall j :: 0 <= j ==> !OccursAt(sep, r, j)
    ensures Contains(s, sep) ==> OccursAt(sep, s, |s| - |r| - |sep|)
  {
    var k := LastPieceStart(s, sep, 0, 0);
    var r := s[k..];
    assert |r| == |s| - k;
    forall j | 0 <= j ensures !OccursAt(sep, r, j) {
      if j + |sep| <= |r| {
        var w, v := r[j..j + |sep|], s[k + j..k + j + |sep|];
        assert forall i :: 0 <= i < |sep| ==> w[i] == v[i];
        assert w == v;
        assert !OccursAt(sep, s, k + j);
      }
    }
    assert k > 0 ==> Contains(s, sep);
    r
  }

  /** The stripped text before the length check (chat_model.py lines 58-61). */
  function Candidate(decoded: string, prompt: string): string
  {
    if Contains(decoded, Marker) then Strip(Python, LastPiece(decoded, Marker))
    else Strip(Python, decoded[Min(|prompt|, |decoded|)..])
  }

  /**
    The reply `get_response(message)` returns for decoded generator output
    `decoded` when the prompt is `message`: the candidate text if it has at
    least 5 characters, else the fixed fallback sentence.
  */
  function Reply(decoded: string, message: string): (r: string)
    ensures |r| >= 5
    ensures |Candidate(decoded, message)| >= 5 ==> r == Candidate(decoded, message)
    ensures |Candidate(decoded, message)| < 5 ==> r == Fallback
  {
    var result := Candidate(decoded, message);
    if result == [] || |result| < 5 then Fallback else result
  }

  /** "Brian says:" cannot overlap itself: 'B' occurs only at its start. */
  lemma MarkerHasNoBorder()
    ensures forall d :: 0 < d < |Marker| ==> Marker[d] != 'B'
  {
    assert Marker == ['B', 'r', 'i', 'a', 'n', ' ', 's', 'a', 'y', 's', ':'];
  }

  /** With the marker present, the reply comes from the text after the marker's
      last occurrence. */
  lemma {:induction false} ReplyFollowsLastMarker(decoded: string, message: string)
    requires Contains(decoded, Marker)
    ensures exists k :: && OccursAt(Marker, decoded, k)
                        && (forall j :: k < j ==> !OccursAt(Marker, decoded, j))
                        && Candidate(decoded, message) == Strip(Python, decoded[k + |Marker|..])
  {
    var piece := LastPiece(decoded, Marker);
    var k := |decoded| - |piece| - |Marker|;
    assert decoded[k + |Marker|..] == piece;
    var start := LastPieceStart(decoded, Marker, 0, 0);
    assert start == k + |Marker|;
    forall j | k < j ensures !OccursAt(Marker, decoded, j) {
      if j < k + |Marker| {
        MarkerHasNoBorder();
        assert decoded[k..k + |Marker|] == Marker;
        assert decoded[j] == Marker[j - k] != Marker[0];
      }
    }
  }

  /** Without the marker, the reply is the decoded text with the echoed prompt
      cut off. */
  lemma EchoedPromptIsDropped(message: string, tail: string)
    requires !Contains(message + tail, Marker)
    requires |Strip(Python, tail)| >= 5
    ensures Reply(message + tail, message) == Strip(Python, tail)
  {
    var decoded := message + tail;
    assert Min(|message|, |decoded|) == |message|;
    assert decoded[|message|..] == tail;
    assert Candidate(decoded, message) == Strip(Python, tail);
  }

  /** A short or blank candidate is replaced by the fallback sentence. */
  lemma ShortReplyFallsBack(decoded: string, message: string)
    requires !Contains(decoded, Marker) && |decoded| <= |message| + 4
    ensures Reply(decoded, message) == Fallback
  {
    var rest := decoded[Min(|message|, |decoded|)..];
    assert |Candidate(decoded, message)| <= |rest| <= 4;
  }
}
