/** The chat-session routes of the API (CapstoneProject/apps/api/src/routes/sessions.ts).

    The two Mongo collections are sequences in collection order: `sessions` (ids
    unique) and `messages` (ids unique). A `find(...).sort(...)` query is a filter
    followed by a sort on the field. The decisions each handler takes before touching
    the store (which status it answers) are functions; the handlers that assign fields
    of a loaded session and save it, or delete messages, are methods of `SessionStore`.
    The clock (`Date.now()`), the generated id of a new session, the configured default
    token budget, the summarizer and the token estimator are parameters. */
module Sessions {
  import opened Wrappers
  import opened Strings
  import opened Collections

  datatype Status = Active | Expired

  datatype Session = Session(
    id: string,
    userId: string,
    status: Status,
    title: string,
    systemPrompt: Option<string>,
    summary: Option<string>,
    max: int,
    used: int,
    temperature: Option<real>,
    lastActivityAt: int,
    expiresAt: int,
    createdAt: int)

  datatype Message = Message(id: string, sessionId: string, role: string, content: string, createdAt: int)

  /** The `{ role, content }` pairs handed to the summarizer. */
  datatype ChatMessage = ChatMessage(role: string, content: string)

  /** The status and JSON body of a response. */
  datatype Reply =
    | Error(code: nat, error: string)
    | MessagesBody(messages: seq<Message>)
    | SessionsBody(sessions: seq<Session>)
    | SessionBody(code: nat, session: Session)
    | Cleared(session: Session)
    | Summarized(summary: string, session: Session)

  /** The ObjectId a hexadecimal id string names. Casting a string to an ObjectId ignores
      the case of its hex digits, so the lower-case spelling stands for the ObjectId. */
  function ObjectIdOf(id: string): string { ToLower(id) }

  /** Sessions are told apart by their `_id`, an ObjectId. */
  function SessionId(s: Session): string { ObjectIdOf(s.id) }
  function MessageId(m: Message): string { m.id }

  // ---------------------------------------------------------------------------
  // Identifiers and lookup

  predicate IsHexDigit(c: char) {
    '0' <= c <= '9' || 'a' <= c <= 'f' || 'A' <= c <= 'F'
  }

  /** `mongoose.Types.ObjectId.isValid` on a string: 24 hexadecimal digits. */
  predicate IsObjectId(s: string) {
    |s| == 24 && forall i :: 0 <= i < |s| ==> IsHexDigit(s[i])
  }

  /** The position of the first session whose `_id` is the ObjectId `id` names, or -1. */
  function IndexOfId(sessions: seq<Session>, id: string): (k: int)
    ensures -1 <= k < |sessions|
    ensures k == -1 <==> forall i :: 0 <= i < |sessions| ==> SessionId(sessions[i]) != ObjectIdOf(id)
    ensures k >= 0 ==> SessionId(sessions[k]) == ObjectIdOf(id) &&
                       forall i :: 0 <= i < k ==> SessionId(sessions[i]) != ObjectIdOf(id)
  {
    if sessions == [] then -1
    else if SessionId(sessions[0]) == ObjectIdOf(id) then 0
    else
      var k := IndexOfId(sessions[1..], id);
      assert forall i :: 1 <= i < |sessions| ==> sessions[i] == sessions[1..][i - 1];
      if k == -1 then -1 else k + 1
  }

  /** What `Session.findById(id)` followed by the ownership check finds: an id that
      cannot be cast to an ObjectId makes the query throw; a missing session and a
      session of another user are the same case. */
  datatype Lookup = Malformed | NotFound | Found(index: nat)

  function Locate(sessions: seq<Session>, userId: string, id: string): (r: Lookup)
    ensures r.Malformed? <==> !IsObjectId(id)
    ensures r.Found? ==> r.index < |sessions| && SessionId(sessions[r.index]) == ObjectIdOf(id) &&
                         sessions[r.index].userId == userId
  {
    if !IsObjectId(id) then Malformed
    else
      var k := IndexOfId(sessions, id);
      if k == -1 || sessions[k].userId != userId then NotFound else Found(k)
  }

  /** With unique ids, a well-formed id is found exactly when the caller owns a session
      whose `_id` is the ObjectId it names. */
  lemma FoundIffOwned(sessions: seq<Session>, userId: string, id: string)
    requires UniqueBy(sessions, SessionId) && IsObjectId(id)
    ensures Locate(sessions, userId, id).Found? <==>
      exists i :: 0 <= i < |sessions| && SessionId(sessions[i]) == ObjectIdOf(id) && sessions[i].userId == userId
  {
    var k := IndexOfId(sessions, id);
    if exists i :: 0 <= i < |sessions| && SessionId(sessions[i]) == ObjectIdOf(id) && sessions[i].userId == userId {
      var i :| 0 <= i < |sessions| && SessionId(sessions[i]) == ObjectIdOf(id) && sessions[i].userId == userId;
      assert SessionId(sessions[k]) == SessionId(sessions[i]);
      UniqueMembers(sessions, SessionId, sessions[k], sessions[i]);
    }
  }

  /** Lower-casing keeps a string's hex digits hex digits. */
  lemma LowerHex(id: string)
    ensures IsObjectId(ObjectIdOf(id)) <==> IsObjectId(id)
  {
    var low := ObjectIdOf(id);
    forall i | 0 <= i < |id| ensures IsHexDigit(low[i]) <==> IsHexDigit(id[i]) {
      assert low[i] == LowerChar(id[i]);
    }
  }

  /** Lower-casing twice is lower-casing once. */
  lemma LowerTwice(id: string)
    ensures ObjectIdOf(ObjectIdOf(id)) == ObjectIdOf(id)
  {
    var low := ObjectIdOf(id);
    forall i | 0 <= i < |id| ensures ObjectIdOf(low)[i] == low[i] {
      assert low[i] == LowerChar(id[i]);
    }
  }

  /** The case of the hex digits in a requested id does not matter: every spelling of
      an ObjectId finds the same session. */
  lemma IdCaseIgnored(sessions: seq<Session>, userId: string, id: string)
    ensures Locate(sessions, userId, id) == Locate(sessions, userId, ObjectIdOf(id))
  {
    LowerHex(id);
    LowerTwice(id);
  }

  /** An upper-case spelling of a stored lower-case id finds that session. */
  lemma UpperCaseIdFound(s: Session)
    requires s.id == "507f1f77bcf86cd799439011" && s.userId == "u"
    ensures Locate([s], "u", "507F1F77BCF86CD799439011") == Found(0)
  {
    ProbeSpellings();
    LowerTwice("507F1F77BCF86CD799439011");
  }

  /** The two spellings of the probe id name the same ObjectId, and both are well formed. */
  lemma ProbeSpellings()
    ensures ObjectIdOf("507F1F77BCF86CD799439011") == "507f1f77bcf86cd799439011"
    ensures IsObjectId("507F1F77BCF86CD799439011")
  {
    var upper, lower := "507F1F77BCF86CD799439011", "507f1f77bcf86cd799439011";
    forall i | 0 <= i < 24 ensures ObjectIdOf(upper)[i] == lower[i] {
      assert ObjectIdOf(upper)[i] == LowerChar(upper[i]);
    }
  }

  // ---------------------------------------------------------------------------
  // Reading messages: GET /api/sessions/messages?sessionId=… and its alias
  // GET /api/sessions/:id/messages

  /** A query-string value as Express hands it over: absent, a string, or a structured
      value (an array or object from a repeated or bracketed parameter). */
  datatype QueryValue = Absent | Text(s: string) | Structured

  /** `query.sessionId || params.id`: the query value when it is truthy, otherwise the
      path parameter. */
  function ResolveSessionId(query: QueryValue, path: Option<string>): (r: QueryValue)
    ensures (query.Structured? || (query.Text? && query.s != "")) ==> r == query
    ensures r.Text? ==> r == query || path == Some(r.s)
  {
    match query
    case Structured => query
    case Text(s) =>
      if s != "" then query
      else if path.Some? then Text(path.value) else Absent
    case Absent =>
      if path.Some? then Text(path.value) else Absent
  }

  function MessageCreated(m: Message): int { m.createdAt }

  /** The messages of session `sid`: their `sessionId` names the same ObjectId. */
  predicate OfSession(m: Message, sid: string) {
    ObjectIdOf(m.sessionId) == ObjectIdOf(sid)
  }

  function SessionMessages(messages: seq<Message>, sid: string): (r: seq<Message>)
    ensures forall m :: m in r <==> m in messages && OfSession(m, sid)
  {
    Filter(messages, (m: Message) => OfSession(m, sid))
  }

  /** `Message.find({ sessionId }).sort({ createdAt: 1 })`. */
  function Chronological(messages: seq<Message>, sid: string): (r: seq<Message>)
    ensures SortedBy(r, MessageCreated)
    ensures multiset(r) == multiset(SessionMessages(messages, sid))
  {
    SortBy(SessionMessages(messages, sid), MessageCreated)
  }

  function GetMessages(sessions: seq<Session>, messages: seq<Message>, userId: string,
                       query: QueryValue, path: Option<string>): Reply
  {
    var sid := ResolveSessionId(query, path);
    if !sid.Text? || sid.s == "" then Error(400, "sessionId required")
    else if !IsObjectId(sid.s) then Error(400, "Invalid sessionId format")
    else if !Locate(sessions, userId, sid.s).Found? then Error(404, "Session not found")
    else MessagesBody(Chronological(messages, sid.s))
  }

  /** The handler's checks in order: a missing (or non-string) id, then a malformed
      one, then a session that is missing or not the caller's; only then are the
      session's messages returned, oldest first, all of them and no others. */
  lemma MessagesChecks(sessions: seq<Session>, messages: seq<Message>, userId: string,
                       query: QueryValue, path: Option<string>)
    ensures var sid := ResolveSessionId(query, path);
      var r := GetMessages(sessions, messages, userId, query, path);
      && (!sid.Text? || sid.s == "" ==> r == Error(400, "sessionId required"))
      && (sid.Text? && sid.s != "" && !IsObjectId(sid.s) ==> r == Error(400, "Invalid sessionId format"))
      && (sid.Text? && IsObjectId(sid.s) && !Locate(sessions, userId, sid.s).Found? ==>
            r == Error(404, "Session not found"))
      && (sid.Text? && Locate(sessions, userId, sid.s).Found? ==>
            && r.MessagesBody?
            && SortedBy(r.messages, MessageCreated)
            && (forall m :: m in r.messages <==> m in messages && OfSession(m, sid.s)))
  {
    var sid := ResolveSessionId(query, path);
    if sid.Text? && Locate(sessions, userId, sid.s).Found? {
      var r := Chronological(messages, sid.s);
      forall m ensures m in r <==> m in messages && OfSession(m, sid.s) {
        assert m in r <==> m in multiset(r);
        assert m in SessionMessages(messages, sid.s) <==> m in multiset(SessionMessages(messages, sid.s));
      }
    }
  }

  /** A non-empty query parameter wins: the path parameter is not consulted. */
  lemma QueryTakesPrecedence(sessions: seq<Session>, messages: seq<Message>, userId: string,
                             q: string, p1: Option<string>, p2: Option<string>)
    requires q != ""
    ensures GetMessages(sessions, messages, userId, Text(q), p1) ==
            GetMessages(sessions, messages, userId, Text(q), p2)
  {
  }

  /** The alias route with `:id` answers as the query route with `?sessionId=` does. */
  lemma AliasRouteAgrees(sessions: seq<Session>, messages: seq<Message>, userId: string, id: string)
    ensures GetMessages(sessions, messages, userId, Absent, Some(id)) ==
            GetMessages(sessions, messages, userId, Text(id), None)
  {
  }

  /** A request with no id at all is refused as missing. */
  lemma MissingIdRefused(sessions: seq<Session>, messages: seq<Message>, userId: string)
    ensures GetMessages(sessions, messages, userId, Absent, None) == Error(400, "sessionId required")
  {
  }

  /** `?sessionId=invalid-id` is refused as malformed, whatever the store holds. */
  lemma InvalidIdRefused(sessions: seq<Session>, messages: seq<Message>, userId: string)
    ensures GetMessages(sessions, messages, userId, Text("invalid-id"), None) ==
            Error(400, "Invalid sessionId format")
  {
    assert |"invalid-id"| == 10;
  }

  // ---------------------------------------------------------------------------
  // Listing: GET /api/sessions

  const ListLimit := 100

  function Recency(s: Session): int { -s.lastActivityAt }

  function ActiveOwned(sessions: seq<Session>, userId: string): (r: seq<Session>)
    ensures forall s :: s in r <==> s in sessions && s.userId == userId && s.status == Active
  {
    Filter(sessions, (s: Session) => s.userId == userId && s.status == Active)
  }

  /** The first `n` of the query's result in descending recency: each is an active
      session of the caller, and they are in descending `lastActivityAt` order. */
  lemma ListedPrefix(sessions: seq<Session>, userId: string, sorted: seq<Session>, n: nat)
    requires multiset(sorted) == multiset(ActiveOwned(sessions, userId))
    requires SortedBy(sorted, Recency) && n <= |sorted|
    ensures forall i :: 0 <= i < n ==> sorted[..n][i] in sessions && sorted[..n][i].userId == userId && sorted[..n][i].status == Active
    ensures forall i, j :: 0 <= i < j < n ==> sorted[..n][i].lastActivityAt >= sorted[..n][j].lastActivityAt
  {
    forall i | 0 <= i < n ensures sorted[..n][i] in sessions && sorted[..n][i].userId == userId && sorted[..n][i].status == Active {
      assert sorted[..n][i] in multiset(ActiveOwned(sessions, userId));
    }
    forall i, j | 0 <= i < j < n ensures sorted[..n][i].lastActivityAt >= sorted[..n][j].lastActivityAt {
      assert Recency(sorted[i]) <= Recency(sorted[j]);
    }
  }

  /** `.sort({ lastActivityAt: -1 }).limit(100)` applied to the query's result. */
  function MostRecent(found: seq<Session>): seq<Session> {
    var sorted := SortBy(found, Recency);
    sorted[..Min(ListLimit, |sorted|)]
  }

  /** `Session.find({ userId, status: 'active' }).sort({ lastActivityAt: -1 }).limit(100)`. */
  function ListSessions(sessions: seq<Session>, userId: string): (r: seq<Session>)
    ensures |r| == Min(ListLimit, |ActiveOwned(sessions, userId)|)
    ensures forall i :: 0 <= i < |r| ==> r[i] in sessions && r[i].userId == userId && r[i].status == Active
    ensures forall i, j :: 0 <= i < j < |r| ==> r[i].lastActivityAt >= r[j].lastActivityAt
  {
    var sorted := SortBy(ActiveOwned(sessions, userId), Recency);
    ListedPrefix(sessions, userId, sorted, Min(ListLimit, |sorted|));
    MostRecent(ActiveOwned(sessions, userId))
  }

  lemma NoMoreRecent(r: seq<Session>, s: Session)
    requires forall i :: 0 <= i < |r| ==> Recency(r[i]) <= Recency(s)
    ensures forall i :: 0 <= i < |r| ==> s.lastActivityAt <= r[i].lastActivityAt
  {
  }

  /** The limit drops only the least recent of what the query found. */
  lemma MostRecentKept(found: seq<Session>)
    ensures var r := MostRecent(found);
      && multiset(r) <= multiset(found)
      && (forall s :: s in multiset(found) - multiset(r) ==>
            forall i :: 0 <= i < |r| ==> s.lastActivityAt <= r[i].lastActivityAt)
      && (|found| <= ListLimit ==> multiset(r) == multiset(found))
  {
    var sorted := SortBy(found, Recency);
    var n := Min(ListLimit, |sorted|);
    var r := sorted[..n];
    SortedPrefixDominates(found, sorted, n, Recency);
    forall s: Session | s in multiset(found) - multiset(r)
      ensures forall i :: 0 <= i < |r| ==> s.lastActivityAt <= r[i].lastActivityAt
    {
      NoMoreRecent(r, s);
    }
    if |found| <= ListLimit {
      assert n == |sorted|;
      assert r == sorted;
    }
  }

  /** The limit drops only the least recent: every active session of the caller that is
      not listed was last active no later than every listed one, and when there are at
      most 100 of them all are listed. */
  lemma ListKeepsMostRecent(sessions: seq<Session>, userId: string)
    ensures var r := ListSessions(sessions, userId);
      var mine := ActiveOwned(sessions, userId);
      && multiset(r) <= multiset(mine)
      && (forall s :: s in multiset(mine) - multiset(r) ==>
            forall i :: 0 <= i < |r| ==> s.lastActivityAt <= r[i].lastActivityAt)
      && (|mine| <= ListLimit ==> multiset(r) == multiset(mine))
  {
    MostRecentKept(ActiveOwned(sessions, userId));
  }

  // ---------------------------------------------------------------------------
  // Creating: POST /api/sessions

  /** Thirty days in milliseconds. */
  const SessionLifetimeMs := 30 * 24 * 60 * 60 * 1000

  const DefaultTitle := "New Chat"

  /** The three readings of the clock that creating a session makes, in the order they
      happen: `Date.now()` in the `expiresAt` expression, then the `Date.now` schema
      defaults of `lastActivityAt` and of `createdAt`, which run inside `new Session`. */
  datatype CreationTimes = CreationTimes(expiryBase: int, activity: int, created: int)

  /** A clock that does not run backwards gives readings in that order. */
  predicate Monotone(t: CreationTimes) {
    t.expiryBase <= t.activity <= t.created
  }

  /** The document `new Session({...})` builds; `lastActivityAt` and `createdAt` take
      their schema default, a later reading of the clock than the expiry's. */
  function NewSession(id: string, userId: string, title: Option<string>, systemPrompt: Option<string>,
                      times: CreationTimes, defaultMax: int): (s: Session)
    ensures s.id == id && s.userId == userId && s.status == Active
    ensures s.title == (if title.Some? && title.value != "" then title.value else DefaultTitle)
    ensures s.systemPrompt == systemPrompt && s.summary.None? && s.temperature.None?
    ensures s.used == 0 && s.max == defaultMax
    ensures s.expiresAt == times.expiryBase + 2592000000
    ensures s.createdAt == times.created && s.lastActivityAt == times.activity
  {
    Session(id, userId, Active, if title.Some? && title.value != "" then title.value else DefaultTitle,
            systemPrompt, None, defaultMax, 0, None, times.activity,
            times.expiryBase + SessionLifetimeMs, times.created)
  }

  /** A new session is never untitled, starts with nothing used, and expires thirty days
      after the first clock reading: at most thirty days after it was created or last
      active, and exactly thirty when the clock did not move in between. */
  lemma NewSessionFacts(id: string, userId: string, title: Option<string>, systemPrompt: Option<string>,
                        times: CreationTimes, defaultMax: int)
    ensures var s := NewSession(id, userId, title, systemPrompt, times, defaultMax);
      && s.title != ""
      && (s.title == DefaultTitle <==> title.None? || title.value == "" || title.value == DefaultTitle)
      && s.expiresAt == times.expiryBase + SessionLifetimeMs
      && (Monotone(times) ==> s.expiresAt - s.createdAt <= s.expiresAt - s.lastActivityAt <= SessionLifetimeMs)
      && (times.expiryBase == times.created ==> s.expiresAt - s.createdAt == SessionLifetimeMs)
      && (defaultMax >= 0 ==> 0 <= s.used <= s.max)
  {
  }

  /** GET /api/sessions/:id. */
  function GetSession(sessions: seq<Session>, userId: string, id: string): Reply {
    match Locate(sessions, userId, id)
    case Malformed => Error(500, "Failed to get session")
    case NotFound => Error(404, "Session not found")
    case Found(k) => SessionBody(200, sessions[k])
  }

  /** A session just created under a fresh id is what GET returns for its owner, and
      another user is told it does not exist. */
  lemma CreatedIsRetrievable(sessions: seq<Session>, s: Session, other: string)
    requires IsObjectId(s.id) && forall i :: 0 <= i < |sessions| ==> SessionId(sessions[i]) != SessionId(s)
    requires other != s.userId
    ensures GetSession(sessions + [s], s.userId, s.id) == SessionBody(200, s)
    ensures GetSession(sessions + [s], other, s.id) == Error(404, "Session not found")
  {
    var all := sessions + [s];
    assert all[|sessions|] == s;
    assert forall i :: 0 <= i < |sessions| ==> SessionId(all[i]) != SessionId(s);
    assert IndexOfId(all, s.id) == |sessions|;
  }

  // ---------------------------------------------------------------------------
  // Updating: PATCH /api/sessions/:id

  /** A JSON body field as `typeof` sees it. */
  datatype JsValue = Undefined | JsString(s: string) | JsNumber(n: real) | JsOther

  datatype PatchBody = PatchBody(title: JsValue, systemPrompt: JsValue, temperature: JsValue)

  /** `Math.min(2, Math.max(0, t))`. */
  function Clamp(t: real): (r: real)
    ensures 0.0 <= r <= 2.0
    ensures 0.0 <= t <= 2.0 ==> r == t
    ensures t < 0.0 ==> r == 0.0
    ensures t > 2.0 ==> r == 2.0
  {
    var low := if 0.0 >= t then 0.0 else t;
    if 2.0 <= low then 2.0 else low
  }

  /** The field assignments of the PATCH handler. */
  function ApplyPatch(s: Session, body: PatchBody): Session {
    var s1 := if body.title.JsString? && Trim(body.title.s) != "" then s.(title := Trim(body.title.s)) else s;
    var s2 := if body.systemPrompt.JsString? then s1.(systemPrompt := Some(body.systemPrompt.s)) else s1;
    if body.temperature.JsNumber? then s2.(temperature := Some(Clamp(body.temperature.n))) else s2
  }

  /** The PATCH rules: a title is taken only when its trim is non-blank, and then
      trimmed; any string prompt is taken as is, even empty; a number temperature is
      clamped into [0, 2]; every other field is kept. */
  lemma PatchRules(s: Session, body: PatchBody)
    ensures var r := ApplyPatch(s, body);
      && (body.title.JsString? && !IsBlank(body.title.s) ==> r.title == Trim(body.title.s) && IsTrimmed(r.title))
      && (!(body.title.JsString? && !IsBlank(body.title.s)) ==> r.title == s.title)
      && (body.systemPrompt.JsString? ==> r.systemPrompt == Some(body.systemPrompt.s))
      && (!body.systemPrompt.JsString? ==> r.systemPrompt == s.systemPrompt)
      && (body.temperature.JsNumber? ==> r.temperature.Some? && 0.0 <= r.temperature.value <= 2.0)
      && (!body.temperature.JsNumber? ==> r.temperature == s.temperature)
      && r.(title := s.title, systemPrompt := s.systemPrompt, temperature := s.temperature) == s
  {
  }

  /** Sending the same PATCH twice leaves the session as sending it once. */
  lemma PatchIdempotent(s: Session, body: PatchBody)
    ensures ApplyPatch(ApplyPatch(s, body), body) == ApplyPatch(s, body)
  {
    if body.title.JsString? && Trim(body.title.s) != "" {
      TrimIdempotent(body.title.s);
    }
  }

  /** A title that is not blank stays not blank whatever is patched. */
  lemma PatchKeepsTitle(s: Session, body: PatchBody)
    requires !IsBlank(s.title)
    ensures !IsBlank(ApplyPatch(s, body).title)
  {
  }

  // ---------------------------------------------------------------------------
  // Clearing and summarizing

  /** `used := 0; summary := undefined`. */
  function ClearedSession(s: Session): (r: Session)
    ensures r.used == 0 && r.summary.None?
    ensures r.(used := s.used, summary := s.summary) == s
  {
    s.(used := 0, summary := None)
  }

  /** `Message.deleteMany({ sessionId })`. */
  function WithoutSession(messages: seq<Message>, sid: string): (r: seq<Message>)
    ensures forall m :: m in r <==> m in messages && !OfSession(m, sid)
  {
    Filter(messages, (m: Message) => !OfSession(m, sid))
  }

  /** After clearing, the session has no messages and every other session keeps its
      messages in their order. */
  lemma ClearTouchesOnlyItsSession(messages: seq<Message>, sid: string, other: string)
    requires ObjectIdOf(other) != ObjectIdOf(sid)
    ensures SessionMessages(WithoutSession(messages, sid), sid) == []
    ensures SessionMessages(WithoutSession(messages, sid), other) == SessionMessages(messages, other)
  {
    var after := WithoutSession(messages, sid);
    FilterNone(after, (m: Message) => OfSession(m, sid));
    FilterFilter(messages, (m: Message) => !OfSession(m, sid), (m: Message) => OfSession(m, other));
  }

  const KeptAfterSummary := 5

  /** `messages.slice(0, -5)`: all but the last five (nothing when there are at most
      five). */
  function Superseded(sorted: seq<Message>): (r: seq<Message>)
    ensures |r| == if |sorted| > KeptAfterSummary then |sorted| - KeptAfterSummary else 0
  {
    if |sorted| > KeptAfterSummary then sorted[..|sorted| - KeptAfterSummary] else []
  }

  /** The messages a summary leaves in place: the last five, oldest first. */
  function Retained(sorted: seq<Message>): (r: seq<Message>)
    ensures |r| == Min(KeptAfterSummary, |sorted|)
    ensures Superseded(sorted) + r == sorted
  {
    sorted[|Superseded(sorted)|..]
  }

  function IdsOf(ms: seq<Message>): set<string> {
    set i | 0 <= i < |ms| :: ms[i].id
  }

  /** `Message.deleteMany({ _id: { $in: ids } })`. */
  function WithoutIds(messages: seq<Message>, ids: set<string>): (r: seq<Message>)
    ensures forall m :: m in r <==> m in messages && m.id !in ids
  {
    Filter(messages, (m: Message) => m.id !in ids)
  }

  function ChatMessages(sorted: seq<Message>): (r: seq<ChatMessage>)
    ensures |r| == |sorted|
    ensures forall i :: 0 <= i < |sorted| ==> r[i] == ChatMessage(sorted[i].role, sorted[i].content)
  {
    seq(|sorted|, i requires 0 <= i < |sorted| => ChatMessage(sorted[i].role, sorted[i].content))
  }

  /** Which messages the summary deletes: with unique message ids, a message's id is
      among the superseded ones exactly when it belongs to the session and is not among
      the ones kept. `sorted` holds the session's messages, `cut` the number superseded. */
  lemma SupersededIff(messages: seq<Message>, sid: string, sorted: seq<Message>, cut: nat, m: Message)
    requires UniqueBy(messages, MessageId) && UniqueBy(sorted, MessageId)
    requires forall x :: x in sorted <==> x in messages && OfSession(x, sid)
    requires cut <= |sorted| && m in messages
    ensures m.id in IdsOf(sorted[..cut]) <==> OfSession(m, sid) && m !in sorted[cut..]
  {
    var front, back := sorted[..cut], sorted[cut..];
    if m.id in IdsOf(front) {
      var i :| 0 <= i < |front| && front[i].id == m.id;
      assert front[i] == sorted[i] && sorted[i] in sorted;
      UniqueMembers(messages, MessageId, sorted[i], m);
      forall t | 0 <= t < |back| ensures back[t] != m {
        assert back[t] == sorted[cut + t];
        assert MessageId(sorted[i]) != MessageId(sorted[cut + t]);
      }
    }
    if OfSession(m, sid) && m !in back {
      assert m in sorted;
      var j :| 0 <= j < |sorted| && sorted[j] == m;
      forall t | cut <= t < |sorted| ensures sorted[t] != m {
        assert sorted[t] == back[t - cut];
      }
      assert front[j] == m;
      assert front[j].id in IdsOf(front);
    }
  }

  /** Summarizing deletes exactly the session's messages older than its last five: what
      remains of the session is its five most recent messages (all of them when there
      are fewer), no remaining one is older than a deleted one, and the messages of
      other sessions all stay. */
  lemma SummarizeKeepsLastFive(messages: seq<Message>, sid: string)
    requires UniqueBy(messages, MessageId)
    ensures var sorted := Chronological(messages, sid);
      var after := WithoutIds(messages, IdsOf(Superseded(sorted)));
      && (forall m :: m in after <==> m in messages && (!OfSession(m, sid) || m in Retained(sorted)))
      && |Retained(sorted)| == Min(KeptAfterSummary, |SessionMessages(messages, sid)|)
      && (forall d, k :: d in Superseded(sorted) && k in Retained(sorted) ==> d.createdAt <= k.createdAt)
  {
    var mine := SessionMessages(messages, sid);
    var sorted := Chronological(messages, sid);
    var cut := |Superseded(sorted)|;
    assert |sorted| == |multiset(sorted)| == |multiset(mine)| == |mine|;
    FilterKeepsUnique(messages, (m: Message) => OfSession(m, sid), MessageId);
    PermutationKeepsUnique(mine, sorted, MessageId);
    forall x ensures x in sorted <==> x in messages && OfSession(x, sid) {
      assert x in sorted <==> x in multiset(sorted);
      assert x in mine <==> x in multiset(mine);
    }
    assert Superseded(sorted) == sorted[..cut] && Retained(sorted) == sorted[cut..];
    forall m | m in messages
      ensures m.id in IdsOf(Superseded(sorted)) <==> OfSession(m, sid) && m !in Retained(sorted)
    {
      SupersededIff(messages, sid, sorted, cut, m);
    }
    SortedSplit(Superseded(sorted), Retained(sorted), MessageCreated);
  }

  /** The session after a summary: the summary stored and its estimated size as the
      tokens used. */
  function SummarizedSession(s: Session, summary: string, tokens: int): (r: Session)
    ensures r.summary == Some(summary) && r.used == tokens
    ensures r.(summary := s.summary, used := s.used) == s
  {
    s.(summary := Some(summary), used := tokens)
  }

  // ---------------------------------------------------------------------------
  // The store

  class SessionStore {
    /** `config.limits.tokenBudget.default`. */
    const defaultMax: int
    var sessions: seq<Session>
    var messages: seq<Message>

    ghost predicate Valid()
      reads this
    {
      UniqueBy(sessions, SessionId) && UniqueBy(messages, MessageId)
    }

    constructor (defaultMax: int, sessions: seq<Session>, messages: seq<Message>)
      requires UniqueBy(sessions, SessionId) && UniqueBy(messages, MessageId)
      ensures Valid()
      ensures this.defaultMax == defaultMax && this.sessions == sessions && this.messages == messages
    {
      this.defaultMax := defaultMax;
      this.sessions := sessions;
      this.messages := messages;
    }

    /** POST /api/sessions. `newId` is the ObjectId Mongoose generates; an empty user id
        is the `!userId` check. */
    method Create(userId: string, title: Option<string>, systemPrompt: Option<string>, times: CreationTimes,
                  newId: string)
      returns (reply: Reply)
      requires Valid()
      requires forall i :: 0 <= i < |sessions| ==> SessionId(sessions[i]) != ObjectIdOf(newId)
      modifies this
      ensures Valid() && messages == old(messages)
      ensures userId == "" ==> reply == Error(401, "Authentication required") && sessions == old(sessions)
      ensures userId != "" ==>
        var s := NewSession(newId, userId, title, systemPrompt, times, defaultMax);
        sessions == old(sessions) + [s] && reply == SessionBody(201, s)
    {
      if userId == "" {
        return Error(401, "Authentication required");
      }
      var s := NewSession(newId, userId, title, systemPrompt, times, defaultMax);
      sessions := sessions + [s];
      reply := SessionBody(201, s);
    }

    /** PATCH /api/sessions/:id. */
    method Patch(userId: string, id: string, body: PatchBody) returns (reply: Reply)
      requires Valid()
      modifies this
      ensures Valid() && messages == old(messages)
      ensures var look := Locate(old(sessions), userId, id);
        && (look.Malformed? ==> reply == Error(500, "Failed to update session") && sessions == old(sessions))
        && (look.NotFound? ==> reply == Error(404, "Session not found") && sessions == old(sessions))
        && (look.Found? ==>
              var s := ApplyPatch(old(sessions)[look.index], body);
              sessions == old(sessions)[look.index := s] && reply == SessionBody(200, s))
    {
      var look := Locate(sessions, userId, id);
      match look
      case Malformed => reply := Error(500, "Failed to update session");
      case NotFound => reply := Error(404, "Session not found");
      case Found(k) =>
        var s := sessions[k];
        if body.title.JsString? && Trim(body.title.s) != "" {
          s := s.(title := Trim(body.title.s));
        }
        if body.systemPrompt.JsString? {
          s := s.(systemPrompt := Some(body.systemPrompt.s));
        }
        if body.temperature.JsNumber? {
          s := s.(temperature := Some(Clamp(body.temperature.n)));
        }
        UpdateKeepsUnique(sessions, k, s, SessionId);
        sessions := sessions[k := s];
        reply := SessionBody(200, s);
    }

    /** POST /api/sessions/:id/clear. */
    method Clear(userId: string, id: string) returns (reply: Reply)
      requires Valid()
      modifies this
      ensures Valid()
      ensures var look := Locate(old(sessions), userId, id);
        && (look.Malformed? ==> reply == Error(500, "Failed to clear session") && unchanged(this))
        && (look.NotFound? ==> reply == Error(404, "Session not found") && unchanged(this))
        && (look.Found? ==>
              var s := ClearedSession(old(sessions)[look.index]);
              && sessions == old(sessions)[look.index := s]
              && messages == WithoutSession(old(messages), old(sessions)[look.index].id)
              && reply == Cleared(s))
    {
      var look := Locate(sessions, userId, id);
      match look
      case Malformed => reply := Error(500, "Failed to clear session");
      case NotFound => reply := Error(404, "Session not found");
      case Found(k) =>
        var s := sessions[k];
        FilterKeepsUnique(messages, (m: Message) => !OfSession(m, s.id), MessageId);
        messages := WithoutSession(messages, s.id);
        s := s.(used := 0);
        s := s.(summary := None);
        UpdateKeepsUnique(sessions, k, s, SessionId);
        sessions := sessions[k := s];
        reply := Cleared(s);
    }

    /** POST /api/sessions/:id/summarize. `summarize` stands for choosing the default
        provider and having it write the summary (`None` when either throws), `estimate`
        for the token estimator. */
    method Summarize(userId: string, id: string, summarize: seq<ChatMessage> -> Option<string>,
                     estimate: string -> int)
      returns (reply: Reply)
      requires Valid()
      modifies this
      ensures Valid()
      ensures var look := Locate(old(sessions), userId, id);
        var sorted := if look.Found? then Chronological(old(messages), old(sessions)[look.index].id) else [];
        && (look.Malformed? ==> reply == Error(500, "Failed to summarize session") && unchanged(this))
        && (look.NotFound? ==> reply == Error(404, "Session not found") && unchanged(this))
        && (look.Found? && sorted == [] ==> reply == Error(400, "No messages to summarize") && unchanged(this))
        && (look.Found? && sorted != [] && summarize(ChatMessages(sorted)).None? ==>
              reply == Error(500, "Failed to summarize session") && unchanged(this))
        && (look.Found? && sorted != [] && summarize(ChatMessages(sorted)).Some? ==>
              var summary := summarize(ChatMessages(sorted)).value;
              var s := SummarizedSession(old(sessions)[look.index], summary, estimate(summary));
              && sessions == old(sessions)[look.index := s]
              && messages == WithoutIds(old(messages), IdsOf(Superseded(sorted)))
              && reply == Summarized(summary, s))
    {
      var look := Locate(sessions, userId, id);
      if look.Malformed? {
        return Error(500, "Failed to summarize session");
      }
      if look.NotFound? {
        return Error(404, "Session not found");
      }
      var k := look.index;
      var sorted := Chronological(messages, sessions[k].id);
      var chat := ChatMessages(sorted);
      if |chat| == 0 {
        return Error(400, "No messages to summarize");
      }
      var written := summarize(chat);
      if written.None? {
        return Error(500, "Failed to summarize session");
      }
      var summary := written.value;
      var s := sessions[k];
      s := s.(summary := Some(summary));
      s := s.(used := estimate(summary));
      var superseded := Superseded(sorted);
      if |superseded| > 0 {
        FilterKeepsUnique(messages, (m: Message) => m.id !in IdsOf(superseded), MessageId);
        messages := WithoutIds(messages, IdsOf(superseded));
      } else {
        FilterAll(messages, (m: Message) => m.id !in IdsOf(superseded));
      }
      UpdateKeepsUnique(sessions, k, s, SessionId);
      sessions := sessions[k := s];
      reply := Summarized(summary, s);
    }
  }
}
