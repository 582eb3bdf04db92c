/**
  The Flask back end (app.py): the route handlers over the session table,
  the per-session message log and the client's cookie, plus the URL routing
  table. The database is two maps, `datetime.utcnow()` is a counter that
  ticks once per reading, `uuid.uuid4()` and the `strftime` stamp are
  parameters, and the generator's decoded output is a parameter (None when
  the generator raises). One browser, so one cookie.
*/
module ChatServer {
  import opened Common
  import opened Text
  import opened SessionNaming
  import opened ChatModel

  /** A `chat_sessions` row (the autoincrement key and `created_at` are not modelled). */
  datatype SessionRow = SessionRow(name: string, lastActivity: nat)

  /** A `chat_messages` row; its position in the log stands for its timestamp. */
  datatype MessageRow = MessageRow(text: string, isUser: bool)

  /**
    The database and the client's cookie. `messages` maps a session id to
    the rows whose `session_id` column holds it, oldest first; `clock` is
    the next `utcnow()` reading.
  */
  datatype Store = Store(
    sessions: map<string, SessionRow>,
    messages: map<string, seq<MessageRow>>,
    current: Option<string>,
    clock: nat)

  /** A handler's JSON answer: the 200 body, or an error status with its message. */
  datatype Outcome<T> = Success(value: T) | Failure(status: int, error: string)

  /** A handler's effect: the new store and the answer. */
  datatype Step<T> = Step(store: Store, outcome: Outcome<T>)

  /** The body of a successful `/api/chat` answer. */
  datatype ChatReply = ChatReply(response: string, sessionId: string)

  /** `ChatSession.to_dict()` as the client reads it. */
  datatype SessionView = SessionView(sessionId: string, sessionName: string, lastActivity: nat, messageCount: nat)

  /** The body of a successful `POST /api/sessions`. */
  datatype Created = Created(sessionId: string, session: SessionView)

  /** The `message` member of the posted JSON object. */
  datatype MessageField = Missing | Text(text: string) | NotText

  const PlaceholderPrefix: string := "New Chat -"

  /** The name `create_chat_session` gives a session before its first message. */
  function PlaceholderName(stamp: string): (n: string)
    ensures IsPrefix(PlaceholderPrefix, n)
  {
    "New Chat - " + stamp
  }

  /** The states one browser can reach: every session has a log, the cookie
      names a stored session, and `last_activity` readings are distinct and
      older than the clock. */
  ghost predicate Consistent(st: Store)
  {
    && st.messages.Keys == st.sessions.Keys
    && (st.current.Some? ==> st.current.value in st.sessions)
    && (forall id :: id in st.sessions ==> st.sessions[id].lastActivity < st.clock)
    && (forall a, b :: a in st.sessions && b in st.sessions && a != b ==>
          st.sessions[a].lastActivity != st.sessions[b].lastActivity)
  }

  /** The messages stored under `id`, oldest first. */
  function Log(st: Store, id: string): seq<MessageRow>
  {
    if id in st.messages then st.messages[id] else []
  }

  /** `id` is the session with the latest `last_activity`. */
  ghost predicate MostRecent(st: Store, id: string)
  {
    && id in st.sessions
    && forall o :: o in st.sessions && o != id ==>
         st.sessions[o].lastActivity < st.sessions[id].lastActivity
  }

  /** Every session but `id` keeps its row and every log but `id`'s is kept. */
  ghost predicate OthersKept(before: Store, after: Store, id: string)
  {
    && (forall o :: o != id ==> (o in after.sessions <==> o in before.sessions))
    && (forall o :: o != id && o in before.sessions ==> after.sessions[o] == before.sessions[o])
    && (forall o :: o != id ==> Log(after, o) == Log(before, o))
  }

  /** `chat_session.last_activity = datetime.utcnow()` for a stored session. */
  function Touch(st: Store, id: string, name: string): (r: Store)
    requires id in st.sessions
    ensures r.sessions.Keys == st.sessions.Keys && r.sessions[id].name == name
    ensures r.messages == st.messages && r.current == st.current
    ensures OthersKept(st, r, id)
    ensures Consistent(st) ==> Consistent(r) && MostRecent(r, id)
  {
    st.(sessions := st.sessions[id := SessionRow(name, st.clock)], clock := st.clock + 1)
  }

  /** The text `chat()` works on: `data.get('message', '').strip()`. */
  function UserText(field: MessageField): string
  {
    match field
    case Missing => ""
    case Text(s) => Strip(Python, s)
    case NotText => ""
  }

  /** The session a non-blank chat writes to: the cookie's, else the fresh id. */
  function ChatTarget(st: Store, freshId: string): string
  {
    if st.current.Some? then st.current.value else freshId
  }

  /** `chat()` would create a session whose id is already stored. */
  predicate Collides(st: Store, freshId: string)
  {
    st.current.None? && freshId in st.sessions
  }

  /** The first part of `chat()`: create the session when there is no cookie. */
  function OpenSession(st: Store, freshId: string, name: string): (r: Store)
    requires !Collides(st, freshId)
    ensures r.current == Some(ChatTarget(st, freshId))
    ensures st.current.Some? ==> r == st
    ensures st.current.None? ==>
              && r.sessions.Keys == st.sessions.Keys + {freshId}
              && r.sessions[freshId].name == name
              && OthersKept(st, r, freshId) && Log(r, freshId) == Log(st, freshId)
    ensures Consistent(st) ==> Consistent(r)
  {
    if st.current.Some? then st
    else
      Store(st.sessions[freshId := SessionRow(name, st.clock)],
            st.messages[freshId := Log(st, freshId)],
            Some(freshId), st.clock + 1)
  }

  /** The second part of `chat()`: touch the session and replace a placeholder name. */
  function Refresh(st: Store, id: string, name: string): (r: Store)
    ensures id !in st.sessions ==> r == st
    ensures id in st.sessions ==>
              && r.sessions.Keys == st.sessions.Keys
              && r.sessions[id].name ==
                   (if IsPrefix(PlaceholderPrefix, st.sessions[id].name) then name else st.sessions[id].name)
    ensures r.messages == st.messages && r.current == st.current
    ensures OthersKept(st, r, id)
    ensures Consistent(st) && id in st.sessions ==> Consistent(r) && MostRecent(r, id)
  {
    if id !in st.sessions then st
    else
      var old_name := st.sessions[id].name;
      Touch(st, id, if IsPrefix(PlaceholderPrefix, old_name) then name else old_name)
  }

  /** `get_ai_response`'s answer once the decoded text is known; None when generation raised. */
  function ReplyTo(decoded: Option<string>, m: string): (bot: Option<string>)
    ensures bot.Some? <==> decoded.Some?
    ensures bot.Some? ==> |bot.value| >= 5
  {
    match decoded
    case None => None
    case Some(d) => Some(Reply(d, m))
  }

  /**
    `chat()` past its checks, for the stripped message `m`: the cookie's
    session, or a new one called `name`, is touched and a placeholder name
    is replaced by `name`; with a reply `bot` the user's message and then
    the reply are appended to its log. Nothing else changes.
  */
  function Converse(st: Store, freshId: string, m: string, name: string, bot: Option<string>)
    : (r: Step<ChatReply>)
    requires !Collides(st, freshId)
    ensures var sid := ChatTarget(st, freshId);
            && r.store.current == Some(sid)
            && OthersKept(st, r.store, sid)
            && (st.current.None? ==>
                  r.store.sessions.Keys == st.sessions.Keys + {sid} && r.store.sessions[sid].name == name)
            && (st.current.Some? && sid in st.sessions ==>
                  && r.store.sessions.Keys == st.sessions.Keys
                  && r.store.sessions[sid].name ==
                       (if IsPrefix(PlaceholderPrefix, st.sessions[sid].name) then name else st.sessions[sid].name))
            && (bot.None? ==>
                  r.outcome == Failure(500, "Internal server error") && Log(r.store, sid) == Log(st, sid))
            && (bot.Some? ==>
                  && r.outcome == Success(ChatReply(bot.value, sid))
                  && Log(r.store, sid) == Log(st, sid) + [MessageRow(m, true), MessageRow(bot.value, false)])
    ensures Consistent(st) ==> Consistent(r.store)
    ensures Consistent(st) && r.outcome.Success? ==> MostRecent(r.store, r.outcome.value.sessionId)
  {
    var sid := ChatTarget(st, freshId);
    var refreshed := Refresh(OpenSession(st, freshId, name), sid, name);
    OpenThenRefresh(st, freshId, name);
    match bot
    case None => Step(refreshed, Failure(500, "Internal server error"))
    case Some(b) =>
      var r := WithRows(refreshed, sid, [MessageRow(m, true), MessageRow(b, false)]);
      KeptTwice(st, refreshed, r, sid);
      Step(r, Success(ChatReply(b, sid)))
  }

  /** What creating (when there is no cookie) and then touching the target
      session does to the store, before any message is written. */
  lemma OpenThenRefresh(st: Store, freshId: string, name: string)
    requires !Collides(st, freshId)
    ensures var sid := ChatTarget(st, freshId);
            var r := Refresh(OpenSession(st, freshId, name), sid, name);
            && r.current == Some(sid)
            && OthersKept(st, r, sid)
            && Log(r, sid) == Log(st, sid)
            && (st.current.None? ==>
                  r.sessions.Keys == st.sessions.Keys + {sid} && r.sessions[sid].name == name)
            && (st.current.Some? && sid in st.sessions ==>
                  && r.sessions.Keys == st.sessions.Keys
                  && r.sessions[sid].name ==
                       (if IsPrefix(PlaceholderPrefix, st.sessions[sid].name) then name else st.sessions[sid].name))
            && (Consistent(st) ==> Consistent(r) && MostRecent(r, sid))
  {
    var sid := ChatTarget(st, freshId);
    var created := OpenSession(st, freshId, name);
    var r := Refresh(created, sid, name);
    if st.current.None? {
      assert created.sessions[sid].name == name;
      assert IsPrefix(PlaceholderPrefix, name) || !IsPrefix(PlaceholderPrefix, name);
      KeptTwice(st, created, r, sid);
    } else {
      assert created == st;
    }
  }

  /** `db.session.add(Message(...))` for each row: the rows are appended to
      the log of `id` and nothing else changes. */
  function WithRows(st: Store, id: string, rows: seq<MessageRow>): (r: Store)
    ensures r.sessions == st.sessions && r.current == st.current && r.clock == st.clock
    ensures Log(r, id) == Log(st, id) + rows
    ensures OthersKept(st, r, id)
    ensures Consistent(st) && id in st.sessions ==> Consistent(r)
    ensures MostRecent(st, id) ==> MostRecent(r, id)
  {
    st.(messages := st.messages[id := Log(st, id) + rows])
  }

  lemma KeptTwice(a: Store, b: Store, c: Store, id: string)
    requires OthersKept(a, b, id) && OthersKept(b, c, id)
    ensures OthersKept(a, c, id)
  {
  }

  /**
    `POST /api/chat` (app.py lines 142-215). A message member that is not a
    string makes `.strip()` raise: 500. A blank message is refused with 400.
    Without a cookie the cookie is set first, so a colliding fresh id leaves
    it set and fails with 500. Otherwise the exchange goes as `Converse`
    says, with the session named from the message.
  */
  function ChatStep(st: Store, field: MessageField, freshId: string, stamp: string, decoded: Option<string>)
    : (r: Step<ChatReply>)
    ensures field.NotText? ==> r == Step(st, Failure(500, "Internal server error"))
    ensures !field.NotText? && UserText(field) == [] ==> r == Step(st, Failure(400, "Message is required"))
    ensures !field.NotText? && UserText(field) != [] && Collides(st, freshId) ==>
              r == Step(st.(current := Some(freshId)), Failure(500, "Internal server error"))
    ensures !field.NotText? && UserText(field) != [] && !Collides(st, freshId) ==>
              var m := UserText(field);
              r == Converse(st, freshId, m, SessionName(m, stamp), ReplyTo(decoded, m))
    ensures Consistent(st) ==> Consistent(r.store)
  {
    var m := UserText(field);
    if field.NotText? then Step(st, Failure(500, "Internal server error"))
    else if m == [] then Step(st, Failure(400, "Message is required"))
    else if Collides(st, freshId) then Step(st.(current := Some(freshId)), Failure(500, "Internal server error"))
    else Converse(st, freshId, m, SessionName(m, stamp), ReplyTo(decoded, m))
  }

  /** `GET /api/history` (app.py lines 217-231): the current session's log, oldest first. */
  function HistoryOf(st: Store): seq<MessageRow>
  {
    match st.current
    case None => []
    case Some(id) => Log(st, id)
  }

  /** `POST /api/clear-history` (app.py lines 233-245). */
  function ClearHistoryStep(st: Store): (r: Step<()>)
    ensures r.outcome == Success(())
    ensures r.store.sessions == st.sessions && r.store.current == st.current && r.store.clock == st.clock
    ensures HistoryOf(r.store) == []
    ensures st.current.None? ==> r.store == st
    ensures st.current.Some? ==> OthersKept(st, r.store, st.current.value)
    ensures Consistent(st) ==> Consistent(r.store)
  {
    match st.current
    case None => Step(st, Success(()))
    case Some(id) =>
      var msgs := if id in st.messages then st.messages[id := []] else st.messages;
      Step(st.(messages := msgs), Success(()))
  }

  /** `ChatSession.to_dict()`: id, name, `last_activity` and `message_count`. */
  function ViewOf(st: Store, id: string): SessionView
    requires id in st.sessions
  {
    SessionView(id, st.sessions[id].name, st.sessions[id].lastActivity, |Log(st, id)|)
  }

  /** Most recent activity first, with no ties. */
  predicate NewestFirst(views: seq<SessionView>)
  {
    forall i, j :: 0 <= i < j < |views| ==> views[i].lastActivity > views[j].lastActivity
  }

  /** `GET /api/sessions` (app.py lines 247-255): every session once, as its
      `to_dict()`, ordered by `last_activity` descending. */
  ghost predicate IsListing(st: Store, views: seq<SessionView>)
  {
    && NewestFirst(views)
    && (forall v :: v in views ==> v.sessionId in st.sessions && v == ViewOf(st, v.sessionId))
    && (forall id :: id in st.sessions ==> ViewOf(st, id) in views)
  }

  /** The listing of the sessions in `done` so far. */
  ghost predicate PartialListing(st: Store, views: seq<SessionView>, done: set<string>)
  {
    && NewestFirst(views) && |views| == |done|
    && (forall v :: v in views ==> v.sessionId in done && v.sessionId in st.sessions && v == ViewOf(st, v.sessionId))
    && (forall id :: id in done ==> id in st.sessions && ViewOf(st, id) in views)
  }

  /** Inserting one more session's view extends the partial listing. */
  lemma ListingStep(st: Store, views: seq<SessionView>, done: set<string>, id: string)
    requires Consistent(st) && id in st.sessions && id !in done
    requires PartialListing(st, views, done)
    ensures forall u :: u in views ==> u.lastActivity != ViewOf(st, id).lastActivity
    ensures PartialListing(st, InsertByActivity(views, ViewOf(st, id)), done + {id})
  {
    forall u | u in views ensures u.lastActivity != ViewOf(st, id).lastActivity {
      assert u.sessionId in st.sessions && u.sessionId != id;
    }
    assert |done + {id}| == |done| + 1;
  }

  /** Once every session is listed, the partial listing is the listing. */
  lemma ListingComplete(st: Store, views: seq<SessionView>, done: set<string>)
    requires PartialListing(st, views, done) && done == st.sessions.Keys
    ensures IsListing(st, views) && |views| == |st.sessions|
  {
    assert |st.sessions| == |st.sessions.Keys|;
  }

  /** Moving one id from the pending set to the done set keeps them a
      partition of the keys. */
  lemma MoveOne(pending: set<string>, done: set<string>, id: string, keys: set<string>)
    requires pending !! done && pending + done == keys && id in pending
    ensures (pending - {id}) !! (done + {id}) && (pending - {id}) + (done + {id}) == keys
  {
  }

  /** The query behind `GET /api/sessions`: the loop inserts each session's
      view into the listing built so far. */
  method Listing(st: Store) returns (views: seq<SessionView>)
    requires Consistent(st)
    ensures IsListing(st, views) && |views| == |st.sessions|
  {
    views := [];
    var pending := st.sessions.Keys;
    ghost var done: set<string> := {};
    while pending != {}
      invariant pending !! done && pending + done == st.sessions.Keys
      invariant PartialListing(st, views, done)
      decreases pending
    {
      var id :| id in pending;
      ListingStep(st, views, done, id);
      MoveOne(pending, done, id, st.sessions.Keys);
      views := InsertByActivity(views, ViewOf(st, id));
      pending, done := pending - {id}, done + {id};
    }
    ListingComplete(st, views, done);
  }

  /** Places `v` among views ordered newest first. */
  function InsertByActivity(views: seq<SessionView>, v: SessionView): (r: seq<SessionView>)
    requires NewestFirst(views)
    requires forall u :: u in views ==> u.lastActivity != v.lastActivity
    ensures NewestFirst(r)
    ensures forall u :: u in r <==> u in views || u == v
    ensures |r| == |views| + 1
  {
    if views == [] || views[0].lastActivity < v.lastActivity then
      assert forall i :: 0 <= i < |views| ==> views[i].lastActivity < v.lastActivity;
      [v] + views
    else
      var rest := InsertByActivity(views[1..], v);
      assert forall i :: 0 <= i < |rest| ==> rest[i] in rest;
      [views[0]] + rest
  }

  /** The session a listing starts with is the most recently active one. */
  lemma ListingStartsWithMostRecent(st: Store, views: seq<SessionView>, id: string)
    requires IsListing(st, views) && MostRecent(st, id)
    ensures views != [] && views[0] == ViewOf(st, id)
  {
    assert ViewOf(st, id) in views;
    var k :| 0 <= k < |views| && views[k] == ViewOf(st, id);
    assert views[0].lastActivity >= views[k].lastActivity;
    assert views[0] in views;
    assert views[0].sessionId == id;
  }

  /** `POST /api/sessions` (app.py lines 257-282): a fresh session named
      "New Chat - <stamp>", made current. */
  function CreateStep(st: Store, freshId: string, stamp: string): (r: Step<Created>)
    ensures freshId in st.sessions ==> r == Step(st, Failure(500, "Failed to create session"))
    ensures freshId !in st.sessions ==>
              && r.store.sessions.Keys == st.sessions.Keys + {freshId}
              && r.store.sessions[freshId].name == PlaceholderName(stamp)
              && r.store.current == Some(freshId)
              && OthersKept(st, r.store, freshId)
              && r.outcome == Success(Created(freshId, ViewOf(r.store, freshId)))
    ensures Consistent(st) && freshId !in st.sessions ==>
              Consistent(r.store) && MostRecent(r.store, freshId) && HistoryOf(r.store) == []
    ensures Consistent(st) ==> Consistent(r.store)
  {
    if freshId in st.sessions then Step(st, Failure(500, "Failed to create session"))
    else
      var s := Store(st.sessions[freshId := SessionRow(PlaceholderName(stamp), st.clock)],
                     st.messages[freshId := Log(st, freshId)],
                     Some(freshId), st.clock + 1);
      Step(s, Success(Created(freshId, ViewOf(s, freshId))))
  }

  /** `POST /api/sessions/<id>/switch` (app.py lines 284-303). */
  function SwitchStep(st: Store, id: string): (r: Step<()>)
    ensures id !in st.sessions ==> r == Step(st, Failure(404, "Session not found"))
    ensures id in st.sessions ==>
              && r.outcome == Success(())
              && r.store.current == Some(id)
              && r.store.sessions.Keys == st.sessions.Keys
              && r.store.sessions[id].name == st.sessions[id].name
              && r.store.messages == st.messages
              && OthersKept(st, r.store, id)
    ensures Consistent(st) ==> Consistent(r.store)
    ensures Consistent(st) && id in st.sessions ==> MostRecent(r.store, id)
  {
    if id !in st.sessions then Step(st, Failure(404, "Session not found"))
    else Step(Touch(st.(current := Some(id)), id, st.sessions[id].name), Success(()))
  }

  /** `DELETE /api/sessions/<id>` (app.py lines 305-324): the row and, by
      cascade, its messages go; the cookie goes only if it named `id`. */
  function DeleteStep(st: Store, id: string): (r: Step<()>)
    ensures id !in st.sessions ==> r == Step(st, Failure(404, "Session not found"))
    ensures id in st.sessions ==>
              && r.outcome == Success(())
              && r.store.sessions.Keys == st.sessions.Keys - {id}
              && id !in r.store.messages
              && OthersKept(st, r.store, id)
              && r.store.current == (if st.current == Some(id) then None else st.current)
    ensures Consistent(st) ==> Consistent(r.store)
  {
    if id !in st.sessions then Step(st, Failure(404, "Session not found"))
    else
      var cookie := if st.current == Some(id) then None else st.current;
      Step(st.(sessions := st.sessions - {id}, messages := st.messages - {id}, current := cookie), Success(()))
  }

  /** `DELETE /api/sessions/all` (app.py lines 326-340). */
  function DeleteAllStep(st: Store): (r: Step<()>)
    ensures r.outcome == Success(())
    ensures r.store.sessions == map[] && r.store.messages == map[] && r.store.current == None
    ensures Consistent(r.store)
  {
    Step(Store(map[], map[], None, st.clock), Success(()))
  }

  /** After a successful chat, the history is the previous one plus the
      user's message and the reply, in that order. */
  lemma HistoryAfterChat(st: Store, field: MessageField, freshId: string, stamp: string, d: string)
    requires Consistent(st)
    requires ChatStep(st, field, freshId, stamp, Some(d)).outcome.Success?
    ensures var m := UserText(field);
            HistoryOf(ChatStep(st, field, freshId, stamp, Some(d)).store)
              == HistoryOf(st) + [MessageRow(m, true), MessageRow(Reply(d, m), false)]
  {
    var r := ChatStep(st, field, freshId, stamp, Some(d));
    assert !Collides(st, freshId) && UserText(field) != [] && !field.NotText?;
    if st.current.None? {
      assert freshId !in st.messages;
    }
  }

  /**
    The same handlers on mutable state: each method updates the fields as
    the handler does and is proved to agree with the step function above.
  */
  class Server {
    var sessions: map<string, SessionRow>
    var messages: map<string, seq<MessageRow>>
    var current: Option<string>
    var clock: nat

    function State(): Store
      reads this
    {
      Store(sessions, messages, current, clock)
    }

    ghost predicate Valid()
      reads this
    {
      Consistent(State())
    }

    /** An empty database and a browser with no cookie. */
    constructor ()
      ensures Valid() && State() == Store(map[], map[], None, 0)
    {
      sessions, messages, current, clock := map[], map[], None, 0;
    }

    method Chat(field: MessageField, freshId: string, stamp: string, decoded: Option<string>)
      returns (outcome: Outcome<ChatReply>)
      requires Valid()
      modifies this
      ensures Valid()
      ensures Step(State(), outcome) == ChatStep(old(State()), field, freshId, stamp, decoded)
    {
      ghost var st := State();
      if field.NotText? {
        return Failure(500, "Internal server error");
      }
      var m := UserText(field);
      if m == [] {
        return Failure(400, "Message is required");
      }
      if current.None? && freshId in sessions {
        current := Some(freshId);
        return Failure(500, "Internal server error");
      }
      assert !Collides(st, freshId) && m == UserText(field);
      var name, bot := SessionName(m, stamp), ReplyTo(decoded, m);
      outcome := Exchange(m, freshId, name, bot);
    }

    /** `chat()` once the message is known to be non-blank and the fresh id unused. */
    method Exchange(m: string, freshId: string, name: string, bot: Option<string>)
      returns (outcome: Outcome<ChatReply>)
      requires Valid() && !Collides(State(), freshId)
      modifies this
      ensures Valid()
      ensures Step(State(), outcome) == Converse(old(State()), freshId, m, name, bot)
    {
      ghost var st := State();
      OpenSessionFor(freshId, name);
      var sid := current.value;
      assert sid == ChatTarget(st, freshId);
      RefreshSession(sid, name);
      ghost var refreshed := State();
      assert refreshed == Refresh(OpenSession(st, freshId, name), sid, name);
      match bot {
        case None =>
          outcome := Failure(500, "Internal server error");
        case Some(b) =>
          messages := messages[sid := Log(State(), sid) + [MessageRow(m, true), MessageRow(b, false)]];
          assert State() == WithRows(refreshed, sid, [MessageRow(m, true), MessageRow(b, false)]);
          outcome := Success(ChatReply(b, sid));
      }
    }

    /** Without a cookie: set it and add the session row named `name`. */
    method OpenSessionFor(freshId: string, name: string)
      requires !Collides(State(), freshId)
      modifies this
      ensures State() == OpenSession(old(State()), freshId, name)
    {
      if current.None? {
        current := Some(freshId);
        sessions := sessions[freshId := SessionRow(name, clock)];
        messages := messages[freshId := Log(State(), freshId)];
        clock := clock + 1;
      }
    }

    /** Touch the row of `id`, if stored, and replace a placeholder name. */
    method RefreshSession(id: string, name: string)
      modifies this
      ensures State() == Refresh(old(State()), id, name)
    {
      if id in sessions {
        var kept := sessions[id].name;
        sessions := sessions[id := SessionRow(if IsPrefix(PlaceholderPrefix, kept) then name else kept, clock)];
        clock := clock + 1;
      }
    }

    method History() returns (rows: seq<MessageRow>)
      ensures rows == HistoryOf(State())
      ensures current.None? ==> rows == []
    {
      rows := [];
      if current.Some? && current.value in messages {
        rows := messages[current.value];
      }
    }

    method ClearHistory()
      requires Valid()
      modifies this`messages
      ensures Valid()
      ensures State() == ClearHistoryStep(old(State())).store
    {
      if current.Some? && current.value in messages {
        messages := messages[current.value := []];
      }
    }

    /** Every session as its `to_dict()`, newest activity first. */
    method ListSessions() returns (views: seq<SessionView>)
      requires Valid()
      ensures IsListing(State(), views)
      ensures |views| == |sessions|
    {
      views := Listing(State());
    }

    method CreateSession(freshId: string, stamp: string) returns (outcome: Outcome<Created>)
      requires Valid()
      modifies this
      ensures Valid()
      ensures Step(State(), outcome) == CreateStep(old(State()), freshId, stamp)
    {
      if freshId in sessions {
        return Failure(500, "Failed to create session");
      }
      sessions := sessions[freshId := SessionRow(PlaceholderName(stamp), clock)];
      messages := messages[freshId := Log(State(), freshId)];
      clock := clock + 1;
      current := Some(freshId);
      outcome := Success(Created(freshId, ViewOf(State(), freshId)));
    }

    method SwitchSession(id: string) returns (outcome: Outcome<()>)
      requires Valid()
      modifies this
      ensures Valid()
      ensures Step(State(), outcome) == SwitchStep(old(State()), id)
    {
      if id !in sessions {
        return Failure(404, "Session not found");
      }
      current := Some(id);
      sessions := sessions[id := sessions[id].(lastActivity := clock)];
      clock := clock + 1;
      outcome := Success(());
    }

    method DeleteSession(id: string) returns (outcome: Outcome<()>)
      requires Valid()
      modifies this
      ensures Valid()
      ensures Step(State(), outcome) == DeleteStep(old(State()), id)
    {
      if id !in sessions {
        return Failure(404, "Session not found");
      }
      sessions := sessions - {id};
      messages := messages - {id};
      if current == Some(id) {
        current := None;
      }
      outcome := Success(());
    }

    method DeleteAll()
      requires Valid()
      modifies this
      ensures Valid()
      ensures State() == DeleteAllStep(old(State())).store
    {
      messages := map[];
      sessions := map[];
      current := None;
    }
  }
}
