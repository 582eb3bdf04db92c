/**
  The older standalone client of chat.js, a second `ChatApplication` with
  its own state: a loading flag, the session id the last reply named, the
  message list, the input box, the send button and the character-count
  warning. Message text is shown as typed (it is escaped, never formatted);
  each entry carries the `formatTime` label it was drawn with.
*/
module LegacyChat {
  import opened Common
  import opened Text
  import opened ChatDisplay

  /** One `.message-container`: sender, text and time label. */
  datatype LegacyEntry = LegacyEntry(sender: Sender, text: string, time: string)

  /** One element of `data.messages`: `msg.message`, `msg.is_user`, and the
      age of `msg.timestamp` with its locale date. */
  datatype LegacyMessage = LegacyMessage(message: string, isUser: bool, elapsedMs: int, localeDate: string)

  /** The decoded `/api/history` body: a bare array (whose elements the
      client never reads), or an object whose `messages` member is an array
      or absent. */
  datatype HistoryPayload = BareArray(length: nat) | Wrapped(messages: Option<seq<LegacyMessage>>)

  /** The decoded `/api/chat` body of an ok answer. */
  datatype ChatAnswer = ChatAnswer(response: string, sessionId: string)

  datatype LegacyState = LegacyState(
    isLoading: bool,
    sessionId: Option<string>,
    display: seq<LegacyEntry>,
    input: string,
    sendDisabled: bool,
    charWarning: bool)

  const JustNow: string := "Just now"
  const SendFailed: string := "Sorry, I encountered an error processing your message. Please try again."
  const LegacyWelcome: string := "Hello! I'm Brian, your real estate assistant. How can I help you today?"
  const WarningLength: nat := 450

  /** `updateSendButton`: disabled exactly when the trimmed input is empty
      or a send is in flight. */
  predicate SendButtonDisabled(input: string, loading: bool)
  {
    Strip(JavaScript, input) == [] || loading
  }

  /** `updateCharCount`: the warning style is on when `.length` passes 450. */
  predicate CharCountWarning(input: string)
  {
    Utf16Length(input) > WarningLength
  }

  /** For text inside the Basic Multilingual Plane `.length` counts
      characters, so the warning starts at the 451st character. */
  lemma CharCountWarningBmp(input: string)
    requires forall i :: 0 <= i < |input| ==> input[i] as int <= 0xFFFF
    ensures CharCountWarning(input) <==> |input| > 450
  {
  }

  /** Astral characters count twice, so 226 of them already warn. */
  lemma AstralCountsTwice(input: string)
    requires |input| == 226 && forall i :: 0 <= i < |input| ==> input[i] as int > 0xFFFF
    ensures CharCountWarning(input)
  {
    AstralLength(input);
  }

  lemma {:induction false} AstralLength(s: string)
    requires forall i :: 0 <= i < |s| ==> s[i] as int > 0xFFFF
    ensures Utf16Length(s) == 2 * |s|
  {
    if s != [] {
      AstralLength(s[1..]);
    }
  }

  /**
    `formatTime(date)` for `diffMs = now - date`: whole minutes by
    `Math.floor`; under a minute (including a date in the future) is
    "Just now", under an hour "<m>m ago", under a day "<h>h ago", and
    older dates show the locale date string.
  */
  function FormatTime(diffMs: int, localeDate: string): (r: string)
    ensures diffMs < 60000 ==> r == JustNow
    ensures 60000 <= diffMs < 3600000 ==> r == Decimal(diffMs / 60000) + "m ago"
    ensures 3600000 <= diffMs < 86400000 ==> r == Decimal(diffMs / 3600000) + "h ago"
    ensures 86400000 <= diffMs ==> r == localeDate
  {
    var diffMins := diffMs / 60000;
    MinutesBucket(diffMs);
    if diffMins < 1 then JustNow
    else if diffMins < 60 then Decimal(diffMins) + "m ago"
    else if diffMins < 1440 then Decimal(diffMins / 60) + "h ago"
    else localeDate
  }

  /** Flooring to minutes and then to hours is flooring to hours. */
  lemma MinutesBucket(diffMs: int)
    ensures diffMs < 60000 <==> diffMs / 60000 < 1
    ensures diffMs < 3600000 <==> diffMs / 60000 < 60
    ensures diffMs < 86400000 <==> diffMs / 60000 < 1440
    ensures (diffMs / 60000) / 60 == diffMs / 3600000
  {
    var m := diffMs / 60000;
    var h := m / 60;
    assert diffMs == 60000 * m + diffMs % 60000;
    assert m == 60 * h + m % 60;
    assert diffMs == 3600000 * h + (60000 * (m % 60) + diffMs % 60000);
  }

  /** The minute label reads back as a count from 1 to 59, the hour label
      as a count from 1 to 23. */
  lemma TimeLabelRanges(diffMs: int)
    ensures 60000 <= diffMs < 3600000 ==> 1 <= diffMs / 60000 <= 59
    ensures 3600000 <= diffMs < 86400000 ==> 1 <= diffMs / 3600000 <= 23
  {
    MinutesBucket(diffMs);
  }

  /** The entry `addMessage(text, isUser)` appends right away: its time
      stamp is the moment it is drawn. */
  function Fresh(text: string, sender: Sender): (e: LegacyEntry)
    ensures e.sender == sender && e.text == text
    ensures e.time == FormatTime(0, "")
  {
    LegacyEntry(sender, text, JustNow)
  }

  /** The entries `data.messages.forEach(...)` appends. */
  function LegacyEntries(messages: seq<LegacyMessage>): (r: seq<LegacyEntry>)
    ensures |r| == |messages|
    ensures forall i :: 0 <= i < |messages| ==>
              && (r[i].sender == User <==> messages[i].isUser)
              && r[i].text == messages[i].message
              && r[i].time == FormatTime(messages[i].elapsedMs, messages[i].localeDate)
  {
    if messages == [] then []
    else LegacyEntries(messages[..|messages| - 1]) + [LegacyEntryOf(messages[|messages| - 1])]
  }

  /** The entry `addMessage(msg.message, msg.is_user, new Date(msg.timestamp))`
      appends for one stored message. */
  function LegacyEntryOf(m: LegacyMessage): LegacyEntry
  {
    LegacyEntry(if m.isUser then User else Bot, m.message, FormatTime(m.elapsedMs, m.localeDate))
  }

  /** The entries of one more stored message. */
  lemma LegacyPrefixStep(messages: seq<LegacyMessage>, i: nat)
    requires i < |messages|
    ensures LegacyEntries(messages[..i + 1]) == LegacyEntries(messages[..i]) + [LegacyEntryOf(messages[i])]
  {
    assert messages[..i + 1][..i] == messages[..i];
  }

  /** The messages `loadChatHistory` draws, or None when
      `data.messages && data.messages.length > 0` fails. */
  function HistoryShown(payload: HistoryPayload): (r: Option<seq<LegacyMessage>>)
    ensures r.Some? ==> r.value != []
    ensures r.Some? <==> payload.Wrapped? && payload.messages.Some? && payload.messages.value != []
    ensures r.Some? ==> r == payload.messages
  {
    match payload
    case BareArray(_) => None
    case Wrapped(messages) =>
      if messages.Some? && |messages.value| > 0 then messages else None
  }

  class LegacyChatApplication {
    var isLoading: bool
    var sessionId: Option<string>
    var display: seq<LegacyEntry>
    var input: string
    var sendDisabled: bool
    var charWarning: bool

    function State(): LegacyState
      reads this
    {
      LegacyState(isLoading, sessionId, display, input, sendDisabled, charWarning)
    }

    /** The constructor over the page as served: its message list and the
        send button's initial state. */
    constructor (page: seq<LegacyEntry>, buttonDisabled: bool)
      ensures State() == LegacyState(false, None, page, "", buttonDisabled, false)
    {
      isLoading := false;
      sessionId := None;
      display := page;
      input := "";
      sendDisabled := buttonDisabled;
      charWarning := false;
    }

    /** The `input` listener: the box holds `text`, then the count and the
        button are updated. */
    method TypeInput(text: string)
      modifies this`input, this`charWarning, this`sendDisabled
      ensures State() == old(State()).(input := text, charWarning := CharCountWarning(text),
                                       sendDisabled := SendButtonDisabled(text, isLoading))
    {
      input := text;
      UpdateCharCount();
      UpdateSendButton();
    }

    method UpdateCharCount()
      modifies this`charWarning
      ensures State() == old(State()).(charWarning := CharCountWarning(input))
    {
      charWarning := Utf16Length(input) > WarningLength;
    }

    method UpdateSendButton()
      modifies this`sendDisabled
      ensures State() == old(State()).(sendDisabled := SendButtonDisabled(input, isLoading))
    {
      var trimmed := Strip(JavaScript, input);
      sendDisabled := trimmed == [] || isLoading;
    }

    /** `setLoadingState(loading)`: the flag is set and the button follows it. */
    method SetLoadingState(loading: bool)
      modifies this`isLoading, this`sendDisabled
      ensures State() == old(State()).(isLoading := loading, sendDisabled := SendButtonDisabled(input, loading))
      ensures loading ==> sendDisabled
    {
      isLoading := loading;
      UpdateSendButton();
    }

    method AddMessage(text: string, sender: Sender)
      modifies this`display
      ensures State() == old(State()).(display := old(display) + [Fresh(text, sender)])
    {
      display := display + [Fresh(text, sender)];
    }

    /**
      `sendMessage` up to its await. Blank trimmed input or a send in
      flight is a no-op. Otherwise the user's message is shown, the input
      cleared, and the client is loading with the button disabled.
    */
    method SendBegin() returns (sent: Option<string>)
      modifies this
      ensures sent.Some? <==> !SendButtonDisabled(old(input), old(isLoading))
      ensures sent.None? ==> State() == old(State())
      ensures sent.Some? ==>
                && sent.value == Strip(JavaScript, old(input))
                && State() == old(State()).(display := old(display) + [Fresh(sent.value, User)], input := "",
                                            charWarning := false, isLoading := true, sendDisabled := true)
    {
      var message := Strip(JavaScript, input);
      if message == [] || isLoading {
        return None;
      }
      AddMessage(message, User);
      input := "";
      UpdateCharCount();
      UpdateSendButton();
      SetLoadingState(true);
      sent := Some(message);
    }

    /**
      `sendMessage` after the answer: an ok answer shows the reply and
      records its session id; a non-ok answer or a throw shows the apology
      and keeps the id. Either way the `finally` leaves the client not
      loading, the button following the current input.
    */
    method SendFinish(outcome: Fetch<ChatAnswer>)
      modifies this`display, this`sessionId, this`isLoading, this`sendDisabled
      ensures !isLoading && sendDisabled == (Strip(JavaScript, input) == [])
      ensures outcome.Ok? ==>
                State() == old(State()).(display := old(display) + [Fresh(outcome.body.response, Bot)],
                                         sessionId := Some(outcome.body.sessionId),
                                         isLoading := false, sendDisabled := SendButtonDisabled(input, false))
      ensures !outcome.Ok? ==>
                State() == old(State()).(display := old(display) + [Fresh(SendFailed, Bot)],
                                         isLoading := false, sendDisabled := SendButtonDisabled(input, false))
    {
      match outcome {
        case Ok(answer) =>
          AddMessage(answer.response, Bot);
          sessionId := Some(answer.sessionId);
        case _ =>
          AddMessage(SendFailed, Bot);
      }
      SetLoadingState(false);
    }

    /**
      `loadChatHistory` with the decoded body (None when the request or
      `response.json()` threw). The display is replaced only by a non-empty
      `messages` array; `response.ok` is never looked at.
    */
    method LoadChatHistory(reply: Option<HistoryPayload>)
      modifies this`display
      ensures reply.Some? && HistoryShown(reply.value).Some? ==>
                State() == old(State()).(display := LegacyEntries(HistoryShown(reply.value).value))
      ensures reply.None? || HistoryShown(reply.value).None? ==> State() == old(State())
    {
      if reply.None? {
        return;
      }
      var shown := HistoryShown(reply.value);
      if shown.Some? {
        ShowMessages(shown.value);
      }
    }

    /** The display emptied, then one entry appended per stored message. */
    method ShowMessages(messages: seq<LegacyMessage>)
      modifies this`display
      ensures State() == old(State()).(display := LegacyEntries(messages))
    {
      display := [];
      var i := 0;
      while i < |messages|
        invariant 0 <= i <= |messages|
        invariant display == LegacyEntries(messages[..i])
        invariant State() == old(State()).(display := display)
      {
        LegacyPrefixStep(messages, i);
        display := display + [LegacyEntryOf(messages[i])];
        i := i + 1;
      }
      assert messages[..i] == messages;
    }

    /** `clearChat`: a declined confirm sends nothing; an ok answer to
        `POST /api/clear` leaves the one-line greeting; anything else leaves
        the display. */
    method ClearChat(confirmed: bool, outcome: Fetch<()>) returns (requested: bool)
      modifies this`display
      ensures requested == confirmed
      ensures confirmed && outcome.Ok? ==> State() == old(State()).(display := [Fresh(LegacyWelcome, Bot)])
      ensures !(confirmed && outcome.Ok?) ==> State() == old(State())
    {
      requested := confirmed;
      if confirmed && outcome.Ok? {
        display := [Fresh(LegacyWelcome, Bot)];
      }
    }
  }
}
