/**
  Where the back end and the two browser clients meet: the JSON the
  handlers send, read the way each client reads it, and the requests each
  client makes, routed by the server's URL map.
*/
module Wire {
  import opened Common
  import opened Text
  import opened ChatModel
  import opened ChatServer
  import opened ChatDisplay
  import opened Conversation
  import opened LegacyChat
  import Routes

  /** `ChatSession.to_dict()` as the newer client reads it: the dict has no
      `is_current` key, so the flag always reads false. */
  function SessionItemOf(v: SessionView): (item: SessionItem)
    ensures item.sessionId == v.sessionId && item.sessionName == v.sessionName
    ensures !item.isCurrent
  {
    SessionItem(v.sessionId, v.sessionName, false)
  }

  function SessionItems(views: seq<SessionView>): (items: seq<SessionItem>)
    ensures |items| == |views|
    ensures forall i :: 0 <= i < |views| ==> items[i] == SessionItemOf(views[i])
  {
    if views == [] then [] else [SessionItemOf(views[0])] + SessionItems(views[1..])
  }

  /**
    A client with no selection that loads the session list selects the
    session the server touched last, since no listed item is flagged
    current and the listing is newest first.
  */
  lemma ClientSelectsMostRecent(st: Store, views: seq<SessionView>, id: string)
    requires IsListing(st, views) && MostRecent(st, id)
    ensures SessionItems(views) != []
    ensures SelectCurrent(SessionItems(views)) == id
  {
    ListingStartsWithMostRecent(st, views, id);
    var items := SessionItems(views);
    assert FindCurrent(items).None?;
    assert items[0].sessionId == views[0].sessionId;
  }

  /** `Message.to_dict()` as the newer client reads it. */
  function HistoryItemOf(row: MessageRow): (item: HistoryItem)
    ensures item.messageText == row.text && item.isUser == row.isUser
  {
    HistoryItem(row.text, row.isUser)
  }

  function HistoryItems(rows: seq<MessageRow>): (items: seq<HistoryItem>)
    ensures |items| == |rows|
    ensures forall i :: 0 <= i < |rows| ==> items[i] == HistoryItemOf(rows[i])
  {
    if rows == [] then [] else [HistoryItemOf(rows[0])] + HistoryItems(rows[1..])
  }

  lemma HistoryItemsAppend(rows: seq<MessageRow>, more: seq<MessageRow>)
    ensures HistoryItems(rows + more) == HistoryItems(rows) + HistoryItems(more)
  {
    var l, r := HistoryItems(rows + more), HistoryItems(rows) + HistoryItems(more);
    assert |l| == |r|;
    forall i | 0 <= i < |l| ensures l[i] == r[i] {
      if i < |rows| {
        assert (rows + more)[i] == rows[i];
      } else {
        assert (rows + more)[i] == more[i - |rows|];
      }
    }
  }

  /** Appending two items appends their two entries. */
  lemma HistoryEntriesAppendTwo(items: seq<HistoryItem>, a: HistoryItem, b: HistoryItem)
    ensures HistoryEntries(items + [a, b]) ==
              HistoryEntries(items) + [EntryFor(a.messageText, if a.isUser then User else Bot),
                                       EntryFor(b.messageText, if b.isUser then User else Bot)]
  {
    var all := items + [a, b];
    assert all[..|all| - 1] == items + [a];
    assert (items + [a])[..|items|] == items;
  }

  /** Two rows appended to a non-empty log show as two more entries. */
  lemma DisplayAfterAppend(before: seq<MessageRow>, u: MessageRow, b: MessageRow)
    requires u.isUser && !b.isUser
    ensures HistoryDisplay(HistoryItems(before + [u, b]))
              == HistoryEntries(HistoryItems(before)) + [EntryFor(u.text, User), EntryFor(b.text, Bot)]
  {
    HistoryItemsAppend(before, [u, b]);
    assert HistoryItems([u, b]) == [HistoryItemOf(u), HistoryItemOf(b)];
    HistoryEntriesAppendTwo(HistoryItems(before), HistoryItemOf(u), HistoryItemOf(b));
  }

  /**
    After a successful chat, the newer client's next history load shows
    everything it showed before, then the user's message, then the reply.
  */
  lemma ChatShowsOnReload(st: Store, field: MessageField, freshId: string, stamp: string, d: string)
    requires Consistent(st)
    requires ChatStep(st, field, freshId, stamp, Some(d)).outcome.Success?
    ensures var m := UserText(field);
            var after := ChatStep(st, field, freshId, stamp, Some(d)).store;
            HistoryDisplay(HistoryItems(HistoryOf(after)))
              == HistoryEntries(HistoryItems(HistoryOf(st))) + [EntryFor(m, User), EntryFor(Reply(d, m), Bot)]
  {
    var m := UserText(field);
    HistoryAfterChat(st, field, freshId, stamp, d);
    DisplayAfterAppend(HistoryOf(st), MessageRow(m, true), MessageRow(Reply(d, m), false));
  }

  /**
    The client trims with JavaScript's whitespace and the server strips
    with Python's. U+001C is whitespace only to Python: the client posts
    it, and the server refuses it as blank with 400.
  */
  lemma ClientSendsWhatServerRefuses(st: Store, freshId: string, stamp: string, decoded: Option<string>)
    ensures Strip(JavaScript, "\U{1C}") == "\U{1C}"
    ensures ChatStep(st, Text("\U{1C}"), freshId, stamp, decoded) == Step(st, Failure(400, "Message is required"))
    ensures Answer(Routes.Route("POST", "/api/chat"), ChatStep(st, Text("\U{1C}"), freshId, stamp, decoded).outcome) == NotOk
  {
    JavaScriptKeepsSeparator();
    PythonStripsSeparator();
    Routes.ChatRejectsGet();
  }

  lemma PythonStripsSeparator()
    ensures UserText(Text("\U{1C}")) == []
  {
    var s := "\U{1C}";
    assert IsSpace(Python, s[0]);
    assert AllSpace(Python, s);
  }

  lemma JavaScriptKeepsSeparator()
    ensures Strip(JavaScript, "\U{1C}") == "\U{1C}"
  {
    var s := "\U{1C}";
    assert !IsSpace(JavaScript, s[0]);
    assert !AllSpace(JavaScript, s);
    var r := Strip(JavaScript, s);
    assert r != [] && |r| <= 1;
    assert r[0] == s[0] by {
      var k :| 0 <= k && k + |r| <= |s| && s[k..k + |r|] == r && AllSpace(JavaScript, s[..k]) && AllSpace(JavaScript, s[k + |r|..]);
      assert k == 0;
    }
  }

  /** U+FEFF is whitespace only to JavaScript: the client will not post it,
      though the server would accept it as a message. */
  lemma ServerAcceptsWhatClientRefuses()
    ensures Strip(JavaScript, "\U{FEFF}") == []
    ensures UserText(Text("\U{FEFF}")) == "\U{FEFF}"
  {
    var s := "\U{FEFF}";
    assert IsSpace(JavaScript, s[0]) && !IsSpace(Python, s[0]);
    assert AllSpace(JavaScript, s);
    assert !AllSpace(Python, s);
    var r := Strip(Python, s);
    assert r != [] && |r| <= 1;
    assert r[0] == s[0] by {
      var k :| 0 <= k && k + |r| <= |s| && s[k..k + |r|] == r && AllSpace(Python, s[..k]) && AllSpace(Python, s[k + |r|..]);
      assert k == 0;
    }
  }

  /** The fixed-path requests of the newer client reach their handlers. */
  lemma StaticRequestsServed()
    ensures Routes.Route("GET", "/api/sessions") == Routes.Found(Routes.ListSessions)
    ensures Routes.Route("POST", "/api/sessions") == Routes.Found(Routes.CreateSession)
    ensures Routes.Route("GET", "/api/history") == Routes.Found(Routes.History)
    ensures Routes.Route("POST", "/api/clear-history") == Routes.Found(Routes.ClearHistory)
  {
    SessionsPathStatic();
    assert Routes.Param("/api/history", Routes.SessionsPrefix, "/switch") == None;
    assert Routes.Param("/api/history", Routes.SessionsPrefix, "") == None;
    var clear := "/api/clear-history";
    assert clear[..|Routes.SessionsPrefix|][5] == 'c' != Routes.SessionsPrefix[5];
    assert Routes.Param(clear, Routes.SessionsPrefix, "/switch") == None;
    assert Routes.Param(clear, Routes.SessionsPrefix, "") == None;
  }

  lemma SessionsPathStatic()
    ensures Routes.MatchingRules("/api/sessions")
              == [Routes.Rule(Routes.Get, Routes.ListSessions), Routes.Rule({"POST"}, Routes.CreateSession)]
  {
    assert Routes.Param("/api/sessions", Routes.SessionsPrefix, "/switch") == None;
    assert Routes.Param("/api/sessions", Routes.SessionsPrefix, "") == None;
  }

  /** Every request the newer client makes reaches the handler it means
      (session ids are uuid4 strings: never empty, no '/', never "all"). */
  lemma NewerClientRequestsServed(id: string)
    requires id != [] && '/' !in id && id != "all"
    ensures Routes.Route("GET", "/api/sessions") == Routes.Found(Routes.ListSessions)
    ensures Routes.Route("POST", "/api/sessions") == Routes.Found(Routes.CreateSession)
    ensures Routes.Route("POST", "/api/chat") == Routes.Found(Routes.Chat)
    ensures Routes.Route("GET", "/api/history") == Routes.Found(Routes.History)
    ensures Routes.Route("POST", "/api/clear-history") == Routes.Found(Routes.ClearHistory)
    ensures Routes.Route("DELETE", "/api/sessions/all") == Routes.Found(Routes.DeleteAll)
    ensures Routes.Route("POST", Routes.SessionsPrefix + id + "/switch") == Routes.Found(Routes.SwitchSession(id))
    ensures Routes.Route("DELETE", Routes.SessionsPrefix + id) == Routes.Found(Routes.DeleteSession(id))
  {
    StaticRequestsServed();
    Routes.ChatRejectsGet();
    Routes.DeleteAllIsStatic();
    Routes.SwitchRoute(id);
    Routes.DeleteRoute(id);
  }

  /**
    What the client's awaited `fetch` reports for a request the URL map
    routes to `routed`, where the handler, if one runs, answers `handled`.
    A request no rule serves gets 404 or 405 and is never ok. A served
    request is ok exactly when its handler succeeds (200), and the client
    then reads the handler's body; the handlers' error answers are 400, 404
    and 500.
  */
  function Answer<T>(routed: Routes.Routed, handled: Outcome<T>): (f: Fetch<T>)
    ensures !f.Threw?
    ensures !routed.Found? ==> f == NotOk
    ensures routed.Found? ==> (f.Ok? <==> handled.Success?)
    ensures f.Ok? ==> handled.Success? && f.body == handled.value
  {
    if routed.Found? && handled.Success? then Ok(handled.value) else NotOk
  }

  /** The legacy client's clear button posts to `/api/clear`, which is not
      served: even a confirmed clear leaves its display as it was. */
  method LegacyClearAgainstServer(app: LegacyChatApplication, handled: Outcome<()>) returns (requested: bool)
    modifies app
    ensures requested
    ensures app.State() == old(app.State())
  {
    Routes.LegacyEndpointsMissing();
    requested := app.ClearChat(true, Answer(Routes.Route("POST", "/api/clear"), handled));
  }

  /** The history endpoint answers a bare array, which has no `messages`
      member: the legacy client never shows stored history. */
  method LegacyHistoryAgainstServer(app: LegacyChatApplication, st: Store)
    modifies app
    ensures app.State() == old(app.State())
  {
    app.LoadChatHistory(Some(BareArray(|HistoryOf(st)|)));
  }
}
