# BrainBay chat module: a Dafny model

This project models the core of the BrainBay real-estate chat module: a
Flask back end (`app.py`) that keeps chat sessions and their messages, a
language-model reply whose decoded text is cleaned up (`chat_model.py`),
and two browser clients. One is the newer `ChatApplication`, whose prototype
methods are spread over `session-manager.js`, `message-handler.js` and
`chat-history.js`. The other is the older standalone `ChatApplication` of
`chat.js`.

Modules, one per concern of the source:

- `Text` (text.dfy): Python `strip()` and JavaScript `trim()`, each with its own whitespace set. Also `re.sub(r'\s+', ' ', ...)`, `str.split()`, `' '.join`, substring tests, decimal rendering and UTF-16 `.length`.
- `SessionNaming` (session_naming.dfy): `generate_contextual_session_name`. Each keyword regex is kept with its real alternation precedence: `\bbuy|buying|purchase\b` is `\bbuy`, `buying` and `purchase\b`.
- `ChatModel` (chat_model.dfy): the post-generation clean-up of `get_response`. The decoded generator text is an input.
- `ChatServer` (server.dfy): the route handlers. Each handler is a pure step function on a `Store`, which holds the sessions map, the message logs, the cookie and a clock counter. A `Server` class has one method per handler. Each method updates its fields in place and is proved equal to its step function. Every method preserves the invariant `Consistent`.
- `Routes` (routes.dfy): the Flask URL map and Werkzeug's dispatch. A path no rule matches gets 404. A path matched only for other verbs gets 405.
- `ChatDisplay` (display.dfy): the message list as a sequence of entries, the outcome of an awaited `fetch`, and `formatMessage`.
- `Conversation` (conversation.dfy): the newer client as a class. Each async method is split at its awaits into steps that take the fetch outcome and the `confirm()` answer as parameters.
- `LegacyChat` (legacy_chat.dfy): the `chat.js` client as its own class.
- `Wire` (wire.dfy): the server's JSON as each client reads it, and the clients' requests routed by the URL map.

The model keeps the mismatches between the parts, as the code has them:

- `to_dict()` has no `is_current` key, so the newer client always selects the first listed session. That is the one the server touched last (`Wire.ClientSelectsMostRecent`).
- The legacy client posts to `/api/clear`, which is not served, so a confirmed clear never changes its display (`Wire.LegacyClearAgainstServer`).
- `/api/history` answers a bare array, which has no `messages` member, so the legacy client never shows stored history (`Wire.LegacyHistoryAgainstServer`).
- The clients trim with JavaScript's whitespace set and the server strips with Python's. U+001C passes the client and is refused by the server with 400. U+FEFF is refused by the client although the server would accept it.
- A message shown by either client has no pending, confirmed or failed status: it is an entry with a sender and a text.
- The server has no `/api/status` route; a request for it gets 404 (`Routes.LegacyEndpointsMissing`).

## Model

| member | source | states |
|---|---|---|
| `Common.Min` | chat_model.py:61 | the smaller of two bounds, as Python slicing clamps `len(prompt)` to the text's length |
| `Text.IsSpace` | app.py:147 | definition: the characters `str.isspace()` accepts (Python) and the WhiteSpace and LineTerminator code points `trim()` removes (JavaScript); the two sets differ at U+001C–U+001F, U+0085 and U+FEFF (`Wire.JavaScriptKeepsSeparator`, `Wire.PythonStripsSeparator`, `Wire.ServerAcceptsWhatClientRefuses`) |
| `Text.TrimStart` | app.py:147 | the result is a suffix of the input, everything cut is whitespace, and it does not start with whitespace |
| `Text.TrimEnd` | app.py:147 | the result is a prefix of the input, everything cut is whitespace, and it does not end with whitespace |
| `Text.Strip` | app.py:147 | `strip()`/`trim()` leaves the input minus a whitespace prefix and suffix; it is empty iff the input is all whitespace, otherwise it starts and ends with non-whitespace |
| `Text.StripFacts` | app.py:147 | trimming the start and then the end yields exactly the stripped core described by `Strip` |
| `Text.StripCore` | app.py:147 | trimming both ends leaves a contiguous middle slice with whitespace on both sides |
| `Text.StripBlank` | app.py:147 | an empty result means the input was all whitespace |
| `Text.StripEnds` | app.py:147 | an all-whitespace input strips to empty; a non-empty result has non-whitespace ends |
| `Text.RunEnd` | app.py:95 | after a leading whitespace run is skipped, what is left ends where the text ends, and an empty remainder means the text ends in whitespace |
| `Text.StripIdempotent` | app.py:95 | stripping an already stripped message (the name generator re-strips the chat text) changes nothing |
| `Text.NoDoubleSpaceCons` | app.py:95 | prefixing a character keeps "no two spaces in a row" unless a space meets a space |
| `Text.Collapse` | app.py:95 | `re.sub(r'\s+', ' ', s)`: empty iff the input is, the only whitespace left is single spaces, and each end is a space iff the input's end was whitespace; `CollapseKeepsWords` states that the words are kept |
| `Text.Clean` | app.py:95 | the cleaned message has no leading or trailing space, no other whitespace than single spaces, and is empty iff the message is blank; `CleanIsSplitJoin` states which text it is |
| `Text.CollapseKeepsWords` | app.py:95 | `re.sub(r'\s+', ' ', s)` has the same `split()` words as `s`: each whitespace run becomes one space and the non-whitespace text is kept, in order |
| `Text.CleanIsSplitJoin` | app.py:95-117 | the cleaned message is `' '.join(message.split())`, and splitting it gives the message's own words |
| `Text.CollapseWord` | app.py:95 | a leading run of non-whitespace is copied unchanged by the collapse |
| `Text.WordsCons` | app.py:117 | a word followed by whitespace or nothing is the first item of `split()` |
| `Text.WordsAppendSpace` | app.py:117 | trailing whitespace does not change `split()` |
| `Text.TrimStartAppend` | app.py:95 | text appended after a word does not change what `strip()` cuts at the start |
| `Text.WordLength` | app.py:117 | the leading word run contains no whitespace and is followed by whitespace or the end |
| `Text.Words` | app.py:117 | `str.split()` never yields an empty word |
| `Text.Join` | app.py:117-125 | definition of `' '.join(ws)`: the words with one space between neighbours; `Text.JoinWords`, `Text.CleanIsSplitJoin` and `Text.JoinPrefix` state its properties |
| `Text.JoinWords` | app.py:119 | joining the words of a cleaned message with single spaces gives the message back, and there are words iff it is non-empty |
| `Text.WordsSkipSpace` | app.py:117 | leading whitespace does not change the word list |
| `Text.JoinStep` | app.py:119 | a word, a space and the join of the rest rebuild the cleaned string |
| `Text.NormalizedAfterSpace` | app.py:95 | after a word in a cleaned string comes one space and another cleaned, non-empty string |
| `Text.SpaceThenWord` | app.py:95 | whitespace in a cleaned message is a single space followed by a non-whitespace character |
| `Text.NormalizedTail` | app.py:95 | what follows a space in a cleaned message is itself cleaned |
| `Text.JoinPrefix` | app.py:119 | joining the first k words gives a prefix of joining them all |
| `Text.IsPrefix` | app.py:172 | definition of `s.startswith(p)`: `p` is the first `|p|` characters of `s`; used by the rename test (`ChatServer.Refresh`) and by `SessionNaming.LeadIsPrefix` |
| `Text.Contains` | chat_model.py:58 | definition of `sub in s`: some position where `sub` occurs; `ChatModel.LastPiece` and `ChatModel.Reply` are stated with it |
| `Text.LowerAscii` | app.py:113 | `re.IGNORECASE` on ASCII letters: upper case maps to lower case and every other character is unchanged |
| `Text.DigitChar` | static/js/chat.js:261 | a digit below ten renders as the matching character '0'..'9' |
| `Text.Decimal` | static/js/chat.js:261-262 | `${n}` renders a non-empty digit string with no leading zero |
| `Text.DecimalRoundTrip` | static/js/chat.js:261-262 | reading the rendered digits back gives the number |
| `Text.DecimalInjective` | static/js/chat.js:261-262 | different counts give different labels |
| `Text.Utf16Length` | static/js/chat.js:54 | JavaScript `.length` is between the character count and twice it, and equals it inside the Basic Multilingual Plane |
| `SessionNaming.IsWordChar` | app.py:99-108 | definition of the ASCII `\w` class: letters, digits and `_` |
| `SessionNaming.AtBoundary` | app.py:99-108 | definition of `\b` at a position: a word character on exactly one side |
| `SessionNaming.CharMatches` | app.py:108-113 | definition of one pattern character against one text character under `re.IGNORECASE`; `.` matches anything but a newline |
| `SessionNaming.MatchesAt` | app.py:99-108 | definition: one alternation branch matches at a position, with its `\b` at the start, the end, or neither, as Python's alternation precedence splits `\bbuy|buying|purchase\b` |
| `SessionNaming.PatternMatches` | app.py:113 | definition of `re.search(pattern, s, re.IGNORECASE)` succeeding: some branch matches at some position; `SessionNaming.EmptyMatchesNothing`, `SessionNaming.PurchaseBeatsCondo` and `SessionNaming.EmbeddedBuyingMatches` state its behaviour |
| `SessionNaming.FirstCategory` | app.py:112-114 | the category returned is that of the first table entry whose pattern matches; none is returned iff no entry matches |
| `SessionNaming.FirstMatchShift` | app.py:112-114 | skipping a non-matching first entry shifts the first match by one |
| `SessionNaming.Shorten` | app.py:120-121 | a topic over 25 characters becomes its first 22 plus "...", and the result never exceeds 25 characters |
| `SessionNaming.TopicOf` | app.py:112-128 | definition: the category when one matches, else the first four words shortened for three or more words, the first two for one or two, and "Chat" for none; `SessionNaming.TopicIsFirstCategory`, `ShortTopic`, `LongTopic` and `EmptyTopic` state each branch |
| `SessionNaming.Topic` | app.py:95-128 | definition: `TopicOf` of the cleaned message and its first keyword match; `SessionNaming.TopicOfShortMessage`, `TopicOfLongMessage` and `TopicOfBlankMessage` state it from the raw message |
| `SessionNaming.SessionName` | app.py:92-128 | definition of `generate_contextual_session_name`: the topic, " - " and the stamp; the stamp is a parameter |
| `SessionNaming.TopicIsFirstCategory` | app.py:98-114 | when any keyword pattern matches the cleaned message, the topic is the category of the first matching entry in table order |
| `SessionNaming.TopicOfShortMessage` | app.py:123-125 | with no category and one or two words, the topic is the whole cleaned message with no length cap |
| `SessionNaming.ShortTopic` | app.py:123-125 | the same for a cleaned message with one or two words, stated on the topic computed after the keyword search |
| `SessionNaming.TopicOfLongMessage` | app.py:117-122 | with no category and three or more words, the topic is the first four words, a prefix of the cleaned message, cut to 22 characters plus "..." when over 25; it never exceeds 25 |
| `SessionNaming.LongTopic` | app.py:117-122 | the same for a cleaned message, stated on the topic computed after the keyword search |
| `SessionNaming.LeadIsPrefix` | app.py:119 | the first four words joined start the cleaned message |
| `SessionNaming.ShortenPrefix` | app.py:120-121 | shortening a prefix of the cleaned message equals cutting the message itself |
| `SessionNaming.TopicOfBlankMessage` | app.py:126-128 | a blank message matches no pattern and has no words, so the topic is "Chat" |
| `SessionNaming.NoCategoryForEmpty` | app.py:112-114 | the keyword loop finds no category in an empty cleaned message |
| `SessionNaming.EmptyMatchesNothing` | app.py:113 | `re.search` with a pattern whose every branch spells a character fails on the empty string |
| `SessionNaming.PurchaseBeatsCondo` | app.py:98-109 | "purchase a condo" matches the "Property Search" entry too, but the earlier "Buying Property" entry wins |
| `SessionNaming.EmbeddedBuyingMatches` | app.py:99 | alternation precedence leaves `buying` without word boundaries, so "rebuying" is filed under "Buying Property" |
| `ChatModel.LastPieceStart` | chat_model.py:59 | the scan that `split` performs ends where the last piece starts: no separator occurs from there on, and a separator ends just before it unless there is none at all |
| `ChatModel.LastPiece` | chat_model.py:59 | `split(sep)[-1]` is a suffix of the text; it is shorter than the text iff the separator occurs, contains no separator, and starts right after a separator occurrence |
| `ChatModel.Candidate` | chat_model.py:58-61 | definition: the stripped text after the last "Brian says:" when the marker occurs, else the stripped text after the prompt's length; `ChatModel.ReplyFollowsLastMarker` and `ChatModel.EchoedPromptIsDropped` state both branches |
| `ChatModel.Reply` | chat_model.py:58-67 | the returned text always has at least 5 characters: the stripped candidate when it has 5 or more, otherwise the fixed fallback sentence |
| `ChatModel.MarkerHasNoBorder` | chat_model.py:58 | "Brian says:" cannot overlap itself |
| `ChatModel.ReplyFollowsLastMarker` | chat_model.py:58-59 | with the marker present, the candidate is the stripped text after the marker's last occurrence |
| `ChatModel.EchoedPromptIsDropped` | chat_model.py:36-61 | without the marker, the echoed prompt (the user's message itself) is cut off and the stripped remainder is the reply |
| `ChatModel.ShortReplyFallsBack` | chat_model.py:60-65 | without the marker, output at most 4 characters longer than the prompt yields the fallback sentence |
| `ChatServer.PlaceholderName` | app.py:267 | the name a created session gets starts with "New Chat -" |
| `ChatServer.Touch` | app.py:169 | setting `last_activity` to the clock keeps every other row and log, and makes the touched session the most recently active one |
| `ChatServer.OpenSession` | app.py:153-164 | without a cookie, the cookie is set to the fresh id and exactly one session is added, named from the message, with an empty log; with a cookie nothing changes |
| `ChatServer.Refresh` | app.py:166-176 | the cookie's session is touched and renamed only if its name starts with "New Chat -"; a missing row changes nothing |
| `ChatServer.OpenThenRefresh` | app.py:153-176 | creating the session when there is no cookie and then touching it leaves the target as the cookie, its log unchanged, all other sessions and logs kept, and the target named from the message when new or still a placeholder; it is then the most recent session |
| `ChatServer.WithRows` | app.py:179-204 | adding message rows appends them to that session's log and changes no session row, no cookie and no other log |
| `ChatServer.ReplyTo` | app.py:195 | a reply exists iff generation did not raise, and it has at least 5 characters |
| `ChatServer.Converse` | app.py:152-209 | a non-blank chat writes to the cookie's session or to one new session; only that session changes; on success its log grows by exactly the user message and then the reply, and it becomes the most recent; a failed generation keeps the log and answers 500 |
| `ChatServer.UserText` | app.py:146-147 | definition of `data.get('message', '').strip()`: a missing member reads as empty and a string is stripped with Python's whitespace set; `ChatServer.ChatStep` answers 400 when the text is empty, and 500 for a member that is not a string, whose `.strip()` raises |
| `ChatServer.ChatStep` | app.py:142-215 | a non-string message field gives 500 with no change, and a blank message gives 400 "Message is required" with no change; a colliding fresh id leaves the cookie set and gives 500; otherwise the chat is `Converse` with the generated name; the store invariant is preserved |
| `ChatServer.HistoryOf` | app.py:217-228 | definition of `get_chat_history`: [] without a cookie, else the current session's log oldest first; `ChatServer.HistoryAfterChat`, `ChatServer.ClearHistoryStep` and `ChatServer.Server.History` state it |
| `ChatServer.ClearHistoryStep` | app.py:233-245 | answers success, empties only the current session's log, keeps sessions, cookie and clock, and changes nothing without a cookie |
| `ChatServer.ViewOf` | app.py:38-53 | definition of `to_dict()` restricted to id, name, last activity and the number of messages in the session's log; `ChatServer.Listing` and `ChatServer.ListingStartsWithMostRecent` state the listing built from it |
| `ChatServer.InsertByActivity` | app.py:251 | inserting into a newest-first list keeps it newest first, with the same elements plus the new one |
| `ChatServer.ListingStep` | app.py:251 | a session not listed yet differs in activity from every listed one, so inserting its view extends the listing of the sessions done so far |
| `ChatServer.Listing` | app.py:247-255 | the loop over the stored sessions returns each session exactly once as its `to_dict()` view, newest activity first |
| `ChatServer.ListingStartsWithMostRecent` | app.py:251-252 | a listing ordered by `last_activity` descending starts with the most recently active session |
| `ChatServer.CreateStep` | app.py:257-282 | creates exactly one session with a fresh id and a "New Chat - " name, makes it current and most recent with an empty history, and returns its view; a used id gives 500 "Failed to create session" with no change |
| `ChatServer.SwitchStep` | app.py:284-303 | an unknown id gives 404 "Session not found" with no change; a known id becomes current and most recent, and no name or message changes |
| `ChatServer.DeleteStep` | app.py:305-324 | an unknown id gives 404 with no change; a known id loses its row and its whole log, every other session and log is kept, and the cookie is cleared only if it named that id |
| `ChatServer.DeleteAllStep` | app.py:326-340 | no sessions, no messages and no cookie are left |
| `ChatServer.HistoryAfterChat` | app.py:179-204 | after a successful chat, `/api/history` returns the previous history plus the user message and then the reply |
| `ChatServer.Server.constructor` | app.py:130-131 | an empty database and no cookie, satisfying the invariant |
| `ChatServer.Server.Chat` | app.py:142-215 | the in-place handler leaves exactly the store and answer of `ChatStep` and keeps the invariant |
| `ChatServer.Server.Exchange` | app.py:152-209 | past the checks, the in-place handler agrees with `Converse` |
| `ChatServer.Server.OpenSessionFor` | app.py:153-164 | the in-place session creation agrees with `OpenSession` |
| `ChatServer.Server.RefreshSession` | app.py:166-176 | the in-place touch and rename agree with `Refresh` |
| `ChatServer.Server.History` | app.py:217-228 | returns the current session's log, oldest first, and nothing without a cookie |
| `ChatServer.Server.ClearHistory` | app.py:233-245 | the in-place clear agrees with `ClearHistoryStep` |
| `ChatServer.Server.ListSessions` | app.py:247-255 | returns every stored session exactly once as its `to_dict()` view, newest activity first |
| `ChatServer.Server.CreateSession` | app.py:257-282 | the in-place create agrees with `CreateStep` |
| `ChatServer.Server.SwitchSession` | app.py:284-303 | the in-place switch agrees with `SwitchStep` |
| `ChatServer.Server.DeleteSession` | app.py:305-324 | the in-place delete agrees with `DeleteStep` |
| `ChatServer.Server.DeleteAll` | app.py:326-340 | the in-place delete-all agrees with `DeleteAllStep` |
| `Routes.Param` | app.py:284 | a matched `<session_id>` is non-empty, contains no '/', and rebuilds the path with prefix and suffix |
| `Routes.ParamRoundTrip` | app.py:305 | every id without '/' is recovered from its path |
| `Routes.MatchingRules` | app.py:133-342 | definition of the URL map: the rules whose pattern matches a path, static rules first, then `<session_id>` rules through `Routes.Param`; `Routes.Route`, `Routes.DeleteAllIsStatic`, `Wire.SessionsPathStatic` and `Wire.StaticRequestsServed` state its matches |
| `Routes.FirstAllowing` | app.py:142 | the first matching rule that allows the verb is chosen; none is chosen iff no rule allows it |
| `Routes.Route` | app.py:133-345 | 404 iff no rule matches the path; 405 iff some rule matches but none allows the verb; otherwise the first allowing rule's endpoint |
| `Routes.ChatRejectsGet` | app.py:142 | `/api/chat` answers POST and refuses GET with 405 |
| `Routes.LegacyEndpointsMissing` | app.py:142-345 | `GET /api/status` and `POST /api/clear` reach no rule: 404 |
| `Routes.DeleteAllIsStatic` | app.py:326 | `DELETE /api/sessions/all` reaches delete-all, not the single-session delete |
| `Routes.SwitchRoute` | app.py:284 | `POST /api/sessions/<id>/switch` reaches the switch handler with that id |
| `Routes.DeleteRoute` | app.py:305 | `DELETE /api/sessions/<id>` for any id other than "all" reaches the delete handler with that id |
| `ChatDisplay.FindClose` | static/js/message-handler.js:82-83 | the lazy group ends at the first closing delimiter reached without crossing a line terminator; none is found iff every later delimiter lies past a line terminator |
| `ChatDisplay.ReplacePairs` | static/js/message-handler.js:82-83 | definition of the global lazy `/D(.*?)D/g` replace: a delimiter with a close before any line terminator is rewritten and the scan resumes after the close, else one character is copied; `ChatDisplay.PairRewrite`, `PairsAppend`, `ReplacePairsIdentity` and `NoOccurrenceIdentity` state its behaviour |
| `ChatDisplay.ReplacePairsIdentity` | static/js/message-handler.js:82-83 | text without the delimiter's first character is unchanged by the replace |
| `ChatDisplay.ReplaceNewlines` | static/js/message-handler.js:84 | no newline survives, and text without newlines is unchanged; `NewlinesAppend` states where each `<br>` goes |
| `ChatDisplay.NewlineImage` | static/js/message-handler.js:84 | definition: a newline becomes `<br>`, any other character itself; `ChatDisplay.NewlinesAppend` lifts it to whole strings |
| `ChatDisplay.FormatMessage` | static/js/message-handler.js:80-85 | no newline survives formatting, star-free text only has its newlines replaced, and text with neither '*' nor a newline is returned unchanged; `FormatStrong`, `FormatEm` and `PairRewrite` state the emphasis rewrites |
| `ChatDisplay.NoStarIdentity` | static/js/message-handler.js:82-83 | both emphasis passes leave text without '*' unchanged |
| `ChatDisplay.StrongBeforeEm` | static/js/message-handler.js:82-83 | `**a** *b*` becomes strong a then em b: double stars are rewritten before single ones |
| `ChatDisplay.StrongPassOfMixed` | static/js/message-handler.js:82 | the strong pass rewrites only the double-star pair |
| `ChatDisplay.StrongCloseOfMixed` | static/js/message-handler.js:82 | the lazy strong group opened at the start of `**a** *b*` closes at the first `**` |
| `ChatDisplay.EmPassOfMixed` | static/js/message-handler.js:83 | the em pass then rewrites the remaining single-star pair |
| `ChatDisplay.NewlineStopsEmphasis` | static/js/message-handler.js:82-84 | `*a\nb*` keeps its stars and only gets a `<br>`: emphasis never spans a line |
| `ChatDisplay.StrongPassUnchanged` | static/js/message-handler.js:82 | no double star, no strong markup |
| `ChatDisplay.EmPassUnchanged` | static/js/message-handler.js:83 | a star whose partner lies past a newline is kept |
| `ChatDisplay.NewlinePass` | static/js/message-handler.js:84 | an example: the newline of `*a\nb*` becomes `<br>` |
| `ChatDisplay.NewlineSplit` | static/js/message-handler.js:84 | a newline becomes `<br>` and the text on either side is rewritten on its own |
| `ChatDisplay.NewlinesAppend` | static/js/message-handler.js:84 | the newline rewrite of a concatenation is the concatenation of the rewrites, so each newline becomes `<br>` in place and every other character is kept |
| `ChatDisplay.PairRewrite` | static/js/message-handler.js:82-83 | for `**` and `*`: a delimiter, star-free text on one line and another delimiter become the open tag, the text and the close tag, and the replace goes on after the pair |
| `ChatDisplay.ScanPlain` | static/js/message-handler.js:82-83 | the lazy `(.*?)` runs over star-free text on one line up to the next delimiter |
| `ChatDisplay.FormatStrong` | static/js/message-handler.js:80-85 | `**x**` with star-free one-line `x` is shown as `<strong>x</strong>` |
| `ChatDisplay.FormatEm` | static/js/message-handler.js:80-85 | `*x*` with star-free, one-line, non-empty `x` is shown as `<em>x</em>` |
| `ChatDisplay.PairsAppend` | static/js/message-handler.js:82-83 | a prefix without the delimiter is copied and the rest is rewritten on its own |
| `ChatDisplay.NoOccurrenceIdentity` | static/js/message-handler.js:82-83 | text in which the delimiter occurs nowhere is unchanged by the replace |
| `Conversation.Truthy` | static/js/session-manager.js:16 | definition of JavaScript truthiness of `this.currentSessionId`: null and "" are falsy; `Conversation.ChatApplication.LoadChatSessionsReceive` branches on it |
| `Conversation.SelectCurrent` | static/js/session-manager.js:16-23 | the selection is the first session flagged `is_current`, or the first session when none is flagged |
| `Conversation.FindCurrent` | static/js/session-manager.js:18 | `find` returns the first flagged session, and none iff no session is flagged |
| `Conversation.EntryFor` | static/js/message-handler.js:46-76 | an appended entry has the given sender, its text formatted, with no raw newline |
| `Conversation.EntryOf` | static/js/chat-history.js:17-19 | the entry for a stored message is a user entry iff `is_user`, showing its formatted text |
| `Conversation.HistoryEntries` | static/js/chat-history.js:17-19 | one entry per server message, in order, sender user iff `is_user`, text from `message_text` |
| `Conversation.HistoryDisplay` | static/js/chat-history.js:10-20 | after an ok load the display is exactly the welcome message for an empty history, else the history's entries |
| `Conversation.RenderedItems` | static/js/session-manager.js:38-43 | one sidebar item per session in list order, active iff its id equals `currentSessionId` |
| `Conversation.AtMostOneActive` | static/js/session-manager.js:40-43 | with distinct ids, at most one sidebar item is active |
| `Conversation.ChatApplication.constructor` | static/js/chat-application.js:13-20 | nothing selected, not loading, and only the welcome message on screen |
| `Conversation.ChatApplication.TypeInput` | static/js/chat-application.js:63-66 | the input box holds the typed text |
| `Conversation.ChatApplication.AddMessage` | static/js/message-handler.js:46-77 | one entry is appended at the end; earlier entries and all other state are kept |
| `Conversation.ChatApplication.AddWelcomeMessage` | static/js/chat-application.js:156-168 | the welcome text is appended as a bot entry |
| `Conversation.ChatApplication.ClearChatDisplay` | static/js/message-handler.js:87-90 | the display is emptied and nothing else changes |
| `Conversation.ChatApplication.SendMessageBegin` | static/js/message-handler.js:2-16 | blank trimmed input or a send in flight changes nothing; otherwise `isLoading` is set and the button disabled before the request, the input is cleared and the trimmed message is appended as a user entry |
| `Conversation.ChatApplication.MarkSending` | static/js/message-handler.js:6-16 | past the guard: `isLoading` and the disabled button are set, the input is emptied and the message is appended as a user entry; nothing else in the client state changes |
| `Conversation.ChatApplication.SendMessageReceive` | static/js/message-handler.js:27-37 | exactly one bot entry follows: the reply on ok, one apology on non-ok, another on a throw; only ok reloads the sessions |
| `Conversation.ChatApplication.SendMessageFinish` | static/js/message-handler.js:38-43 | after every outcome `isLoading` is false and the button is enabled |
| `Conversation.ChatApplication.LoadChatSessionsReceive` | static/js/session-manager.js:2-33 | non-ok changes nothing; an empty list asks for `createNewChat` once and renders nothing; with no usable selection the flagged-or-first session is selected and the history is loaded before rendering; a selection is never overwritten; a throw loads the history |
| `Conversation.ChatApplication.RenderSessions` | static/js/session-manager.js:35-70 | the loop rebuilds the sidebar as `RenderedItems` and changes nothing else |
| `Conversation.ChatApplication.CreateNewChatReceive` | static/js/session-manager.js:72-98 | on ok the new id is selected and only the welcome message remains before the refresh; otherwise nothing changes |
| `Conversation.ChatApplication.SwitchToSession` | static/js/session-manager.js:100-122 | on ok the id is selected and the display emptied before the history is loaded; otherwise nothing changes |
| `Conversation.ChatApplication.DeleteSession` | static/js/session-manager.js:124-145 | a declined confirm sends nothing; on ok the selection and the display are cleared only when the deleted id was selected; otherwise nothing changes |
| `Conversation.ChatApplication.DeleteAllSessions` | static/js/session-manager.js:147-166 | on ok nothing is selected and the display is exactly the welcome message before the refresh |
| `Conversation.ChatApplication.LoadChatHistoryReceive` | static/js/chat-history.js:2-25 | non-ok leaves the display; ok replaces it entirely with `HistoryDisplay` of the messages |
| `Conversation.ChatApplication.ShowHistory` | static/js/chat-history.js:17-19 | the loop appends one entry per message, in order, to the cleared display and changes nothing else |
| `Conversation.ChatApplication.ClearHistory` | static/js/chat-history.js:27-43 | a declined confirm sends nothing; ok empties the display without a welcome message; failure leaves it |
| `Conversation.SecondSendIgnored` | static/js/message-handler.js:4-7 | a second send issued before the first completes is ignored because `isLoading` is already set |
| `LegacyChat.SendButtonDisabled` | static/js/chat.js:64-67 | definition: the trimmed input is empty or a send is in flight; `LegacyChat.LegacyChatApplication.UpdateSendButton` and `TypeInput` keep the button equal to it |
| `LegacyChat.CharCountWarning` | static/js/chat.js:53-62 | definition: the input's UTF-16 length passes 450; `LegacyChat.CharCountWarningBmp` and `LegacyChat.AstralCountsTwice` state what that means in characters |
| `LegacyChat.CharCountWarningBmp` | static/js/chat.js:57 | for text in the Basic Multilingual Plane the warning shows iff there are more than 450 characters |
| `LegacyChat.AstralCountsTwice` | static/js/chat.js:54-57 | 226 astral characters already pass 450 UTF-16 units |
| `LegacyChat.AstralLength` | static/js/chat.js:54 | astral characters count two units each |
| `LegacyChat.FormatTime` | static/js/chat.js:255-265 | under a minute, including future dates, is "Just now"; under an hour "⌊ms/60000⌋m ago"; under a day "⌊ms/3600000⌋h ago"; otherwise the locale date |
| `LegacyChat.MinutesBucket` | static/js/chat.js:258-262 | the minute thresholds match the millisecond ones, and flooring to minutes then to hours equals flooring to hours |
| `LegacyChat.TimeLabelRanges` | static/js/chat.js:261-262 | minute labels run 1 to 59 and hour labels 1 to 23 |
| `LegacyChat.Fresh` | static/js/chat.js:162-166 | a message drawn now has its sender and raw text and the label `formatTime` gives for zero elapsed time |
| `LegacyChat.LegacyEntries` | static/js/chat.js:104-106 | one entry per message in order, sender user iff `is_user`, text from `message`, label from its timestamp |
| `LegacyChat.LegacyEntryOf` | static/js/chat.js:104-106 | definition: the entry `addMessage(msg.message, msg.is_user, new Date(msg.timestamp))` appends, with the user flag as sender, the raw text and the time label; `LegacyChat.LegacyEntries` and `ShowMessages` are stated with it |
| `LegacyChat.HistoryShown` | static/js/chat.js:99 | messages are drawn iff the body has a non-empty `messages` array, and then exactly those messages; a bare array is never drawn |
| `LegacyChat.LegacyChatApplication.constructor` | static/js/chat.js:15-16 | not loading and no session id |
| `LegacyChat.LegacyChatApplication.TypeInput` | static/js/chat.js:34-37 | typing updates the warning and the button from the new input |
| `LegacyChat.LegacyChatApplication.UpdateCharCount` | static/js/chat.js:53-62 | the warning is on iff `.length` exceeds 450 |
| `LegacyChat.LegacyChatApplication.UpdateSendButton` | static/js/chat.js:64-67 | the button is disabled iff the trimmed input is empty or a send is in flight |
| `LegacyChat.LegacyChatApplication.SetLoadingState` | static/js/chat.js:193-204 | the flag is set and the button follows it; loading always disables |
| `LegacyChat.LegacyChatApplication.AddMessage` | static/js/chat.js:162-181 | one entry is appended at the end |
| `LegacyChat.LegacyChatApplication.SendBegin` | static/js/chat.js:115-127 | blank input or a send in flight is a no-op; otherwise the user entry comes first, the input is cleared, and the client is loading with the button disabled before the request |
| `LegacyChat.LegacyChatApplication.SendFinish` | static/js/chat.js:129-159 | ok appends the reply and records `session_id`; non-ok or a throw appends the apology and keeps the id; either way loading ends |
| `LegacyChat.LegacyChatApplication.LoadChatHistory` | static/js/chat.js:94-113 | the display is replaced only by a non-empty `messages` array; otherwise it is untouched |
| `LegacyChat.LegacyChatApplication.ShowMessages` | static/js/chat.js:101-106 | the loop clears the display and draws one entry per message |
| `LegacyChat.LegacyChatApplication.ClearChat` | static/js/chat.js:206-241 | a declined confirm does nothing; on ok the display is exactly the one-line greeting; on failure it is unchanged |
| `Wire.SessionItemOf` | app.py:45-53 | the client reads id and name, and `is_current` is always false because the dict has no such key |
| `Wire.SessionItems` | app.py:252 | the list keeps order and length |
| `Wire.ClientSelectsMostRecent` | static/js/session-manager.js:16-23 | a client with no selection picks the session the server touched last |
| `Wire.HistoryItemOf` | app.py:64-71 | the client reads `message_text` and `is_user` unchanged |
| `Wire.HistoryItems` | app.py:228 | the array keeps order and length |
| `Wire.HistoryItemsAppend` | app.py:228 | serialising concatenated logs concatenates the arrays |
| `Wire.HistoryEntriesAppendTwo` | static/js/chat-history.js:17-19 | two more messages give two more entries at the end |
| `Wire.DisplayAfterAppend` | static/js/chat-history.js:13-19 | a log grown by a user row and a bot row shows as the old entries plus those two |
| `Wire.ChatShowsOnReload` | app.py:179-204 | after a successful chat, the client's next history load shows everything from before, then the user message, then the reply |
| `Wire.ClientSendsWhatServerRefuses` | app.py:147-150 | U+001C survives the client's trim but the server strips it away and answers 400 with no change, which the client sees as not ok |
| `Wire.JavaScriptKeepsSeparator` | static/js/message-handler.js:3 | `trim()` keeps U+001C |
| `Wire.PythonStripsSeparator` | app.py:147 | `strip()` removes U+001C, leaving an empty message |
| `Wire.ServerAcceptsWhatClientRefuses` | static/js/message-handler.js:3-4 | U+FEFF is blank to the client, which does not send it, while the server would keep it as a message |
| `Wire.StaticRequestsServed` | app.py:217-257 | the newer client's fixed-path requests reach the list, create, history and clear-history handlers |
| `Wire.SessionsPathStatic` | app.py:247-258 | `/api/sessions` matches exactly the list rule and the create rule |
| `Wire.NewerClientRequestsServed` | app.py:142-340 | every request of the newer client reaches the handler it means |
| `Wire.Answer` | app.py:142-150 | what `fetch` reports never throws; a request no rule serves (404 or 405) is not ok whatever a handler would answer; a served request is ok exactly when its handler succeeds, and the client then reads the handler's body |
| `Wire.LegacyClearAgainstServer` | static/js/chat.js:212-235 | a confirmed legacy clear hits 404 and leaves the client's state as it was, whatever a handler would have answered |
| `Wire.LegacyHistoryAgainstServer` | static/js/chat.js:97-99 | the server's bare-array history leaves the legacy display untouched |

## Left out

- Flask and SQLAlchemy plumbing: configuration, `db.create_all`, the `index` and `health` handlers' bodies, `run_app`, JSON parsing errors other than a non-string `message` member.
- Database failures other than a session-id collision: SQLite errors and commit failures do not happen in the model.
- `created_at`, the autoincrement `id` and `last_message_preview` of `to_dict()`. The model keeps name, id, last activity and message count.
- Message timestamps: a message's position in its log stands for its timestamp, so ties between equal `utcnow()` readings are not modelled.
- Session activity times: `utcnow()` is a counter clock that moves on at every touch, and `Consistent` keeps the sessions' `last_activity` values distinct, so two sessions with equal `last_activity` readings, and the order `order_by(last_activity.desc())` gives them (app.py:251), are not modelled.
- `datetime.now().strftime`, `isoformat`, `toLocaleDateString` and `toLocaleTimeString`: each stamp or date string is a parameter.
- Tokenising, generation and decoding in chat_model.py, and the lazy model loading: the decoded text is an input. `None` stands for generation raising.
- Non-ASCII `\w` and Unicode case folding in the keyword regexes: only ASCII letters, digits and `_` are word characters, and only ASCII letters fold.
- Several clients sharing the server: one browser and one cookie. A cookie naming a session deleted by another client is excluded by the invariant.
- `escapeHtml`, the HTML templates, avatars, icons, the typing indicator, scrolling, focus, the char-count colours of chat-application.js, sidebar toggling and `autoResize`: these are DOM only.
- The 100 ms delay in `switchToSession`, `checkModelStatus` of chat.js, the error modal, and app-init.js: these are timers and UI.
- Werkzeug's automatic HEAD and OPTIONS answers and its trailing-slash redirects.
- Real event-loop interleaving. Each awaited call is a separate step, and the caller runs the nested steps it is told to run. The mutual calls of `loadChatSessions` and `createNewChat` are not claimed to terminate.
- Conversation.ChatApplication.constructor: the page's initial markup is taken as an empty list, and the send button as enabled.
- LegacyChat.LegacyChatApplication.constructor: the page's message list and button state are parameters, since the HTML page is not part of this model.
- LegacyChat.Fresh: the time between creating a message's date and formatting it is taken as zero, so a fresh entry reads "Just now".
- LegacyChat.FormatTime: an invalid date (NaN) is not modelled, because `diffMs` is an integer.
- LegacyChat.LegacyChatApplication.SendFinish: a reply body whose `response` or `session_id` member is missing is not modelled.
- ChatServer.ChatStep: one `stamp` stands for both `datetime.now()` readings of `chat()` (app.py:158 and app.py:173). They differ only when a new session's own name starts with "New Chat -" and the two readings fall in different minutes; the model then gives the rename the first reading's minute.
