/**
  The newer browser client: the `ChatApplication` prototype methods of
  session-manager.js, message-handler.js and chat-history.js. Each awaited
  `fetch` is a step whose outcome is a parameter, and each `confirm()`
  answer is a parameter too. A nested awaited call (`loadChatSessions`
  after a send, `createNewChat` from an empty list, ...) is returned to the
  caller as the next step to run instead of being run in place.
*/
module Conversation {
  import opened Common
  import opened Text
  import opened ChatDisplay

  /** One element of the `/api/sessions` JSON array as the client reads it;
      an absent `is_current` reads as false. */
  datatype SessionItem = SessionItem(sessionId: string, sessionName: string, isCurrent: bool)

  /** One element of the `/api/history` JSON array as the client reads it. */
  datatype HistoryItem = HistoryItem(messageText: string, isUser: bool)

  /** One `.session-item` of the sidebar. */
  datatype Rendered = Rendered(sessionId: string, sessionName: string, active: bool)

  /** What `loadChatSessions` awaits after the list arrives. */
  datatype Next = Done | CreateChat | HistoryThenRender(sessions: seq<SessionItem>) | LoadHistory

  /** All the client state the model tracks. */
  datatype ClientState = ClientState(
    currentSessionId: Option<string>,
    isLoading: bool,
    sendDisabled: bool,
    input: string,
    display: seq<Entry>,
    rendered: seq<Rendered>)

  const ApologyNotOk: string := "I'm sorry, I encountered an issue. Please try again."
  const ApologyThrew: string := "I'm sorry, I'm having trouble connecting. Please try again."

  /** JavaScript truthiness of `this.currentSessionId`: null and "" are falsy. */
  predicate Truthy(id: Option<string>)
  {
    id.Some? && id.value != ""
  }

  /** `sessions.find(s => s.is_current)`, falling back to `sessions[0]`. */
  function SelectCurrent(sessions: seq<SessionItem>): (id: string)
    requires sessions != []
    ensures (exists i :: 0 <= i < |sessions| && sessions[i].isCurrent) ==>
              exists i :: && 0 <= i < |sessions| && sessions[i].isCurrent && sessions[i].sessionId == id
                          && forall j :: 0 <= j < i ==> !sessions[j].isCurrent
    ensures (forall i :: 0 <= i < |sessions| ==> !sessions[i].isCurrent) ==> id == sessions[0].sessionId
  {
    match FindCurrent(sessions)
    case Some(s) => s.sessionId
    case None => sessions[0].sessionId
  }

  /** `Array.prototype.find` with the `is_current` test. */
  function FindCurrent(sessions: seq<SessionItem>): (r: Option<SessionItem>)
    ensures r.None? <==> forall i :: 0 <= i < |sessions| ==> !sessions[i].isCurrent
    ensures r.Some? ==> exists i :: && 0 <= i < |sessions| && sessions[i].isCurrent && sessions[i] == r.value
                                    && forall j :: 0 <= j < i ==> !sessions[j].isCurrent
  {
    if sessions == [] then None
    else if sessions[0].isCurrent then Some(sessions[0])
    else
      var r := FindCurrent(sessions[1..]);
      assert forall i :: 1 <= i < |sessions| ==> sessions[i] == sessions[1..][i - 1];
      r
  }

  /** `addMessage(content, sender)`: the entry it appends. */
  function EntryFor(content: string, sender: Sender): (e: Entry)
    ensures e.sender == sender && '\n' !in e.content
    ensures '*' !in content && '\n' !in content ==> e.content == content
  {
    Entry(sender, FormatMessage(content))
  }

  /** The entry `addMessage(msg.message_text, msg.is_user ? 'user' : 'bot')`
      appends for one stored message. */
  function EntryOf(m: HistoryItem): (e: Entry)
    ensures (e.sender == User <==> m.isUser) && e.content == FormatMessage(m.messageText)
  {
    EntryFor(m.messageText, if m.isUser then User else Bot)
  }

  /** The entries `messages.forEach(msg => this.addMessage(...))` appends. */
  function HistoryEntries(messages: seq<HistoryItem>): (r: seq<Entry>)
    ensures |r| == |messages|
    ensures forall i :: 0 <= i < |messages| ==> r[i] == EntryOf(messages[i])
    ensures forall i :: 0 <= i < |messages| ==>
              && (r[i].sender == User <==> messages[i].isUser)
              && r[i].content == FormatMessage(messages[i].messageText)
  {
    if messages == [] then []
    else
      var init := messages[..|messages| - 1];
      var r := HistoryEntries(init) + [EntryOf(messages[|messages| - 1])];
      EntriesSnoc(messages, HistoryEntries(init));
      r
  }

  /** One more message at the end gives one more entry at the end. */
  lemma EntriesSnoc(messages: seq<HistoryItem>, before: seq<Entry>)
    requires messages != [] && |before| == |messages| - 1
    requires forall i :: 0 <= i < |before| ==> before[i] == EntryOf(messages[i])
    ensures var r := before + [EntryOf(messages[|messages| - 1])];
            && |r| == |messages|
            && (forall i :: 0 <= i < |messages| ==> r[i] == EntryOf(messages[i]))
            && (forall i :: 0 <= i < |messages| ==>
                  && (r[i].sender == User <==> messages[i].isUser)
                  && r[i].content == FormatMessage(messages[i].messageText))
  {
    var e := EntryOf(messages[|messages| - 1]);
    var r := before + [e];
    forall i | 0 <= i < |messages| ensures r[i] == EntryOf(messages[i]) {
      SnocAt(before, e, i);
    }
    EntriesShowMessages(messages, r);
  }

  lemma SnocAt<T>(xs: seq<T>, x: T, i: nat)
    requires i <= |xs|
    ensures i < |xs| ==> (xs + [x])[i] == xs[i]
    ensures i == |xs| ==> (xs + [x])[i] == x
  {
  }

  /** Entries made by `EntryOf` show who sent each message and its text. */
  lemma EntriesShowMessages(messages: seq<HistoryItem>, r: seq<Entry>)
    requires |r| == |messages| && forall i :: 0 <= i < |messages| ==> r[i] == EntryOf(messages[i])
    ensures forall i :: 0 <= i < |messages| ==>
              && (r[i].sender == User <==> messages[i].isUser)
              && r[i].content == FormatMessage(messages[i].messageText)
  {
    forall i | 0 <= i < |messages|
      ensures (r[i].sender == User <==> messages[i].isUser) && r[i].content == FormatMessage(messages[i].messageText)
    {
      var e := EntryOf(messages[i]);
    }
  }

  /** The entries of one more message of the history. */
  lemma EntriesPrefixStep(messages: seq<HistoryItem>, i: nat)
    requires i < |messages|
    ensures HistoryEntries(messages[..i + 1]) == HistoryEntries(messages[..i]) + [EntryOf(messages[i])]
  {
    assert messages[..i + 1][..i] == messages[..i];
  }

  /** What an ok `/api/history` leaves on screen: the welcome message for an
      empty history, else one entry per stored message. */
  function HistoryDisplay(messages: seq<HistoryItem>): (r: seq<Entry>)
    ensures messages == [] ==> r == [WelcomeEntry()]
    ensures messages != [] ==> r == HistoryEntries(messages)
  {
    if |messages| == 0 then [WelcomeEntry()] else HistoryEntries(messages)
  }

  /** The sidebar items `renderSessions` builds, in list order. */
  function RenderedItems(sessions: seq<SessionItem>, current: Option<string>): (r: seq<Rendered>)
    ensures |r| == |sessions|
    ensures forall i :: 0 <= i < |sessions| ==>
              && r[i].sessionId == sessions[i].sessionId && r[i].sessionName == sessions[i].sessionName
              && (r[i].active <==> current == Some(sessions[i].sessionId))
  {
    if sessions == [] then []
    else
      var s := sessions[|sessions| - 1];
      RenderedItems(sessions[..|sessions| - 1], current) + [Rendered(s.sessionId, s.sessionName, current == Some(s.sessionId))]
  }

  /** With distinct ids in the list, at most one sidebar item is active. */
  lemma AtMostOneActive(sessions: seq<SessionItem>, current: Option<string>)
    requires forall i, j :: 0 <= i < j < |sessions| ==> sessions[i].sessionId != sessions[j].sessionId
    ensures forall i, j :: 0 <= i < j < |sessions| && RenderedItems(sessions, current)[i].active ==>
              !RenderedItems(sessions, current)[j].active
  {
  }

  class ChatApplication {
    var currentSessionId: Option<string>
    var isLoading: bool
    var sendDisabled: bool
    var input: string
    var display: seq<Entry>
    var rendered: seq<Rendered>

    function State(): ClientState
      reads this
    {
      ClientState(currentSessionId, isLoading, sendDisabled, input, display, rendered)
    }

    /** The constructor: nothing selected, not loading; `loadChatSessions()`
        is started but stops at its first await, so the welcome message is
        on screen before any session data arrives. */
    constructor ()
      ensures State() == ClientState(None, false, false, "", [WelcomeEntry()], [])
    {
      currentSessionId := None;
      isLoading := false;
      sendDisabled := false;
      input := "";
      display := [];
      rendered := [];
      new;
      AddWelcomeMessage();
    }

    /** The text typed into `#message-input`. */
    method TypeInput(text: string)
      modifies this`input
      ensures State() == old(State()).(input := text)
    {
      input := text;
    }

    /** `addMessage`: one entry appended at the end, earlier entries kept. */
    method AddMessage(content: string, sender: Sender)
      modifies this`display
      ensures display == old(display) + [EntryFor(content, sender)]
      ensures State() == old(State()).(display := display)
    {
      display := display + [EntryFor(content, sender)];
    }

    /** `addWelcomeMessage`. */
    method AddWelcomeMessage()
      modifies this`display
      ensures State() == old(State()).(display := old(display) + [WelcomeEntry()])
    {
      AddMessage(WelcomeText, Bot);
    }

    /** `clearChatDisplay`. */
    method ClearChatDisplay()
      modifies this`display
      ensures State() == old(State()).(display := [])
    {
      display := [];
    }

    /**
      `sendMessage` up to its first await. A blank trimmed input, or a send
      already in flight, returns with nothing changed. Otherwise the send is
      marked in flight, the input is cleared and the user's message is
      shown; `sent` is the text to post.
    */
    method SendMessageBegin() returns (sent: Option<string>)
      modifies this`isLoading, this`sendDisabled, this`input, this`display
      ensures Strip(JavaScript, old(input)) == [] || old(isLoading) ==> sent == None && State() == old(State())
      ensures sent.Some? <==> Strip(JavaScript, old(input)) != [] && !old(isLoading)
      ensures sent.Some? ==>
                && sent.value == Strip(JavaScript, old(input))
                && State() == old(State()).(isLoading := true, sendDisabled := true, input := "",
                                            display := old(display) + [EntryFor(sent.value, User)])
    {
      var message := Strip(JavaScript, input);
      if message == [] || isLoading {
        return None;
      }
      MarkSending(message);
      sent := Some(message);
    }

    /** The part of `sendMessage` past its guard and before the fetch: the
        send is marked in flight, the input box is emptied and the user's
        message is shown. */
    method MarkSending(message: string)
      modifies this`isLoading, this`sendDisabled, this`input, this`display
      ensures State() == old(State()).(isLoading := true, sendDisabled := true, input := "",
                                       display := old(display) + [EntryFor(message, User)])
    {
      isLoading, sendDisabled, input := true, true, "";
      AddMessage(message, User);
    }

    /**
      `sendMessage` after `fetch('/api/chat')` settles: exactly one bot
      entry is appended, the reply on an ok answer, an apology otherwise.
      On ok the session list is reloaded (`refresh`) before the `finally`.
    */
    method SendMessageReceive(outcome: Fetch<string>) returns (refresh: bool)
      modifies this`display
      ensures refresh <==> outcome.Ok?
      ensures State() == old(State()).(display := old(display) + [EntryFor(
                match outcome
                case Ok(reply) => reply
                case NotOk => ApologyNotOk
                case Threw => ApologyThrew, Bot)])
    {
      match outcome
      case Ok(reply) =>
        AddMessage(reply, Bot);
        refresh := true;
      case NotOk =>
        AddMessage(ApologyNotOk, Bot);
        refresh := false;
      case Threw =>
        AddMessage(ApologyThrew, Bot);
        refresh := false;
    }

    /** The `finally` block of `sendMessage`. */
    method SendMessageFinish()
      modifies this`isLoading, this`sendDisabled
      ensures State() == old(State()).(isLoading := false, sendDisabled := false)
    {
      isLoading := false;
      sendDisabled := false;
    }

    /**
      `loadChatSessions` after `fetch('/api/sessions')` settles. A non-ok
      answer changes nothing; an empty list asks for `createNewChat`; a
      list with no usable current id selects one and asks for the history
      before rendering; otherwise the list is rendered at once. A thrown
      error asks for the history.
    */
    method LoadChatSessionsReceive(outcome: Fetch<seq<SessionItem>>) returns (next: Next)
      modifies this`currentSessionId, this`rendered
      ensures outcome.NotOk? ==> next == Done && State() == old(State())
      ensures outcome.Threw? ==> next == LoadHistory && State() == old(State())
      ensures outcome == Ok([]) ==> next == CreateChat && State() == old(State())
      ensures outcome.Ok? && outcome.body != [] && !Truthy(old(currentSessionId)) ==>
                && next == HistoryThenRender(outcome.body)
                && State() == old(State()).(currentSessionId := Some(SelectCurrent(outcome.body)))
      ensures outcome.Ok? && outcome.body != [] && Truthy(old(currentSessionId)) ==>
                && next == Done
                && State() == old(State()).(rendered := RenderedItems(outcome.body, currentSessionId))
    {
      match outcome
      case NotOk => next := Done;
      case Threw => next := LoadHistory;
      case Ok(sessions) =>
        if |sessions| == 0 {
          next := CreateChat;
        } else if !Truthy(currentSessionId) {
          currentSessionId := Some(SelectCurrent(sessions));
          next := HistoryThenRender(sessions);
        } else {
          RenderSessions(sessions);
          next := Done;
        }
    }

    /** `renderSessions`: the sidebar is rebuilt, one item per session, the
        item whose id is `currentSessionId` marked active. */
    method RenderSessions(sessions: seq<SessionItem>)
      modifies this`rendered
      ensures State() == old(State()).(rendered := RenderedItems(sessions, currentSessionId))
    {
      rendered := [];
      var i := 0;
      while i < |sessions|
        invariant 0 <= i <= |sessions|
        invariant rendered == RenderedItems(sessions[..i], currentSessionId)
      {
        var s := sessions[i];
        assert sessions[..i + 1][..i] == sessions[..i];
        rendered := rendered + [Rendered(s.sessionId, s.sessionName, currentSessionId == Some(s.sessionId))];
        i := i + 1;
      }
      assert sessions[..i] == sessions;
    }

    /** `createNewChat` after the POST settles: an ok answer selects the
        new session and leaves only the welcome message, then the list is
        reloaded; anything else changes nothing. */
    method CreateNewChatReceive(outcome: Fetch<string>) returns (refresh: bool)
      modifies this`currentSessionId, this`display
      ensures refresh <==> outcome.Ok?
      ensures outcome.Ok? ==> State() == old(State()).(currentSessionId := Some(outcome.body), display := [WelcomeEntry()])
      ensures !outcome.Ok? ==> State() == old(State())
    {
      refresh := false;
      if outcome.Ok? {
        currentSessionId := Some(outcome.body);
        ClearChatDisplay();
        AddWelcomeMessage();
        refresh := true;
      }
    }

    /** `switchToSession(id)` after the POST settles: on ok the session is
        selected and the display emptied, then history and list are loaded
        (`reload`); otherwise nothing changes. */
    method SwitchToSession(id: string, outcome: Fetch<()>) returns (reload: bool)
      modifies this`currentSessionId, this`display
      ensures reload <==> outcome.Ok?
      ensures outcome.Ok? ==> State() == old(State()).(currentSessionId := Some(id), display := [])
      ensures !outcome.Ok? ==> State() == old(State())
    {
      reload := false;
      if outcome.Ok? {
        currentSessionId := Some(id);
        ClearChatDisplay();
        reload := true;
      }
    }

    /** `deleteSession(id)`: a declined confirm sends nothing; an ok answer
        deselects and empties the display only when `id` was selected, then
        reloads the list. */
    method DeleteSession(id: string, confirmed: bool, outcome: Fetch<()>) returns (requested: bool, refresh: bool)
      modifies this`currentSessionId, this`display
      ensures requested == confirmed
      ensures refresh <==> confirmed && outcome.Ok?
      ensures refresh && old(currentSessionId) == Some(id) ==> State() == old(State()).(currentSessionId := None, display := [])
      ensures !(refresh && old(currentSessionId) == Some(id)) ==> State() == old(State())
    {
      requested := confirmed;
      refresh := false;
      if confirmed && outcome.Ok? {
        if currentSessionId == Some(id) {
          currentSessionId := None;
          ClearChatDisplay();
        }
        refresh := true;
      }
    }

    /** `deleteAllSessions`: on ok nothing is selected and only the welcome
        message is shown, then the list is reloaded. */
    method DeleteAllSessions(confirmed: bool, outcome: Fetch<()>) returns (requested: bool, refresh: bool)
      modifies this`currentSessionId, this`display
      ensures requested == confirmed
      ensures refresh <==> confirmed && outcome.Ok?
      ensures refresh ==> State() == old(State()).(currentSessionId := None, display := [WelcomeEntry()])
      ensures !refresh ==> State() == old(State())
    {
      requested := confirmed;
      refresh := false;
      if confirmed && outcome.Ok? {
        currentSessionId := None;
        ClearChatDisplay();
        AddWelcomeMessage();
        refresh := true;
      }
    }

    /** `loadChatHistory` after `fetch('/api/history')` settles: an ok
        answer replaces the whole display; anything else leaves it. */
    method LoadChatHistoryReceive(outcome: Fetch<seq<HistoryItem>>)
      modifies this`display
      ensures outcome.Ok? ==> State() == old(State()).(display := HistoryDisplay(outcome.body))
      ensures !outcome.Ok? ==> State() == old(State())
    {
      if outcome.Ok? {
        var messages := outcome.body;
        ClearChatDisplay();
        if |messages| == 0 {
          AddWelcomeMessage();
        } else {
          ShowHistory(messages);
        }
      }
    }

    /** The `forEach` of `loadChatHistory`: one entry per message, in order,
        after the cleared display. */
    method ShowHistory(messages: seq<HistoryItem>)
      requires display == []
      modifies this`display
      ensures State() == old(State()).(display := HistoryEntries(messages))
    {
      var i := 0;
      while i < |messages|
        invariant 0 <= i <= |messages|
        invariant display == HistoryEntries(messages[..i])
        invariant State() == old(State()).(display := display)
      {
        EntriesPrefixStep(messages, i);
        AddMessage(messages[i].messageText, if messages[i].isUser then User else Bot);
        i := i + 1;
      }
      assert messages[..i] == messages;
    }

    /** `clearHistory`: a declined confirm sends nothing; an ok answer
        empties the display and does not add the welcome message. */
    method ClearHistory(confirmed: bool, outcome: Fetch<()>) returns (requested: bool)
      modifies this`display
      ensures requested == confirmed
      ensures confirmed && outcome.Ok? ==> State() == old(State()).(display := [])
      ensures !(confirmed && outcome.Ok?) ==> State() == old(State())
    {
      requested := confirmed;
      if confirmed && outcome.Ok? {
        ClearChatDisplay();
      }
    }
  }

  /** A second send started before the first completes is ignored: the
      first one set `isLoading` before its await. */
  method SecondSendIgnored(app: ChatApplication) returns (first: Option<string>, second: Option<string>)
    modifies app
    ensures first.Some? ==> second.None? && app.isLoading
    ensures old(app.isLoading) ==> first.None? && second.None? && app.State() == old(app.State())
  {
    first := app.SendMessageBegin();
    second := app.SendMessageBegin();
  }
}
