/** Visitor tracking on the client: a per-tab session id kept in session storage, one
    row per session in the `sessions` table, and one row per outbound click in the
    `click_logs` table. The two tables are held in memory: `sessions` as a map from
    session id to its row, `click_logs` as the sequence of rows in insertion order. */
module Tracking {
  import opened JsText
  import opened GetUserInfo

  // ---------------------------------------------------------------------------
  // Rows and the ledger

  /** A `sessions` row: the visitor context captured at insertion, the two counters
      and the last activity time (None until the first update sets it). */
  datatype SessionRow = SessionRow(
    info: UserInfo,
    pageViews: int,
    totalClicks: int,
    lastActive: Option<int>)

  /** A `click_logs` row; `context` is None when no user info was available, in which
      case the five context columns are written as missing. */
  datatype ClickRow = ClickRow(
    sessionId: string,
    lid: int,
    link: string,
    timeSpent: int,
    context: Option<UserInfo>)

  /** Both tables. */
  datatype Ledger = Ledger(sessions: map<string, SessionRow>, clickLogs: seq<ClickRow>)

  // ---------------------------------------------------------------------------
  // Session id

  const SessionIdKey := "sessionId"
  const StartTimeKey := "sessionStartTime"

  /** `sessionStorage.getItem(key)`, None for a missing key. */
  function Item(storage: map<string, string>, key: string): Option<string> {
    if key in storage then Some(storage[key]) else None
  }

  /** The stored id, when it is truthy: a missing or empty item counts as none. */
  function StoredSessionId(storage: map<string, string>): (id: Option<string>)
    ensures id.Some? <==> Item(storage, SessionIdKey).Some? && Item(storage, SessionIdKey).value != ""
    ensures id.Some? ==> id == Item(storage, SessionIdKey)
  {
    match Item(storage, SessionIdKey)
    case Some(v) => if v != "" then Some(v) else None
    case None => None
  }

  /** `session_<now>_<random36.substring(7)>`, where `random36` is the base-36
      rendering of the random number. */
  function NewSessionId(now: int, random36: string): (id: string)
    ensures StartsWith(id, "session_")
    ensures '_' !in random36 ==>
              Split(id, '_') == ["session", IntToString(now), SubstringFrom(random36, 7)]
  {
    SessionIdFields(now, SubstringFrom(random36, 7));
    "session_" + IntToString(now) + "_" + SubstringFrom(random36, 7)
  }

  /** The three `_`-separated fields of a session id: the word, the clock and the
      random tail. */
  lemma SessionIdFields(now: int, tail: string)
    ensures StartsWith("session_" + IntToString(now) + "_" + tail, "session_")
    ensures '_' !in tail ==>
              Split("session_" + IntToString(now) + "_" + tail, '_') == ["session", IntToString(now), tail]
  {
    var digits := IntToString(now);
    var id := "session_" + digits + "_" + tail;
    assert id[..8] == "session_";
    if '_' !in tail {
      assert id == "session" + ['_'] + (digits + ['_'] + tail);
      SplitAfter("session", '_', digits + ['_'] + tail);
      assert '_' !in digits by {
        forall i | 0 <= i < |digits| ensures digits[i] != '_' { }
      }
      SplitAfter(digits, '_', tail);
      SplitFree(tail, '_');
    }
  }

  /** The id `getSessionId` returns and the storage it leaves. */
  datatype SessionLookup = SessionLookup(id: string, storage: map<string, string>)

  /** `getSessionId`: a stored id is returned as it is and nothing is written; otherwise
      a new id is made at `now` and stored with the start time read at `startNow`. */
  function LookupSessionId(storage: map<string, string>, now: int, startNow: int, random36: string): (r: SessionLookup)
    ensures StoredSessionId(storage).Some? ==> r == SessionLookup(StoredSessionId(storage).value, storage)
    ensures StoredSessionId(storage).None? ==>
              StartsWith(r.id, "session_") &&
              Item(r.storage, StartTimeKey) == Some(IntToString(startNow)) &&
              forall k :: k != SessionIdKey && k != StartTimeKey ==> Item(r.storage, k) == Item(storage, k)
    ensures StoredSessionId(r.storage) == Some(r.id)
  {
    match StoredSessionId(storage)
    case Some(id) => SessionLookup(id, storage)
    case None =>
      var id := NewSessionId(now, random36);
      SessionLookup(id, storage[SessionIdKey := id][StartTimeKey := IntToString(startNow)])
  }

  /** A second call returns the same id and writes nothing, whatever the clock and the
      random number are then. */
  lemma LookupSessionIdIdempotent(storage: map<string, string>, now: int, startNow: int, random36: string,
                                  now2: int, startNow2: int, random2: string)
    ensures var first := LookupSessionId(storage, now, startNow, random36);
            LookupSessionId(first.storage, now2, startNow2, random2) == first
  {
  }

  /** The start time written with a new id reads back as the time spent measure uses
      it: a click at `clickNow` records `clickNow - startNow` (when `startNow` is not 0). */
  lemma NewSessionMeasuresFromStart(storage: map<string, string>, now: int, startNow: int, random36: string,
                                    clickNow: int)
    requires StoredSessionId(storage).None?
    requires startNow != 0
    ensures TimeSpent(Item(LookupSessionId(storage, now, startNow, random36).storage, StartTimeKey), clickNow)
            == clickNow - startNow
  {
    ParseIntToString(startNow);
  }

  // ---------------------------------------------------------------------------
  // Time spent

  /** `parseInt(getItem("sessionStartTime") || "0")`, then `start ? now - start : 0`:
      NaN and 0 both mean no start time. */
  function TimeSpent(startText: Option<string>, now: int): (t: int)
    ensures startText.None? || startText.value == "" ==> t == 0
    ensures startText.Some? && startText.value != "" ==>
              match ParseInt(startText.value)
              case Some(start) => t == (if start != 0 then now - start else 0)
              case None => t == 0
  {
    var text := match startText case Some(s) => OrElse(s, "0") case None => "0";
    ZeroStartIsNoStart();
    var start := ParseInt(text);
    if start.Some? && start.value != 0 then now - start.value else 0
  }

  /** The text "0" parses to 0, which counts as no start time. */
  lemma ZeroStartIsNoStart()
    ensures ParseInt("0") == Some(0)
  {
    ParseIntToString(0);
  }

  /** The measure is not clamped: a start time later than the clock gives a negative
      time spent. */
  lemma TimeSpentCanBeNegative(start: int, now: int)
    requires start != 0 && now < start
    ensures TimeSpent(Some(IntToString(start)), now) < 0
  {
    ParseIntToString(start);
  }

  // ---------------------------------------------------------------------------
  // Page views

  /** `trackSession`: nothing without user info; else one more page view and a fresh
      activity time on an existing row, or a new row with one page view and no clicks. */
  function RecordPageView(sessions: map<string, SessionRow>, id: string, info: Option<UserInfo>, now: int)
    : (r: map<string, SessionRow>)
    ensures info.None? ==> r == sessions
    ensures info.Some? ==> r.Keys == sessions.Keys + {id}
    ensures info.Some? && id in sessions ==>
              r[id].pageViews == sessions[id].pageViews + 1 &&
              r[id].totalClicks == sessions[id].totalClicks &&
              r[id].info == sessions[id].info &&
              r[id].lastActive == Some(now)
    ensures info.Some? && id !in sessions ==>
              r[id] == SessionRow(info.value, 1, 0, None)
    ensures forall k :: k in sessions && k != id ==> k in r && r[k] == sessions[k]
  {
    match info
    case None => sessions
    case Some(u) =>
      if id in sessions then
        var row := sessions[id];
        sessions[id := row.(pageViews := row.pageViews + 1, lastActive := Some(now))]
      else
        sessions[id := SessionRow(u, 1, 0, None)]
  }

  /** Several page views of one session, at the given times, with the same user info. */
  function RecordPageViews(sessions: map<string, SessionRow>, id: string, info: Option<UserInfo>, times: seq<int>)
    : map<string, SessionRow>
    decreases |times|
  {
    if times == [] then sessions
    else RecordPageViews(RecordPageView(sessions, id, info, times[0]), id, info, times[1..])
  }

  /** After N page views with user info, the session exists and counts N more views
      (N in all when it was new), its clicks and context untouched; other sessions are
      unchanged. */
  lemma {:induction false} PageViewsCount(sessions: map<string, SessionRow>, id: string, info: UserInfo, times: seq<int>)
    requires |times| >= 1
    ensures var r := RecordPageViews(sessions, id, Some(info), times);
            id in r &&
            r[id].pageViews == (if id in sessions then sessions[id].pageViews else 0) + |times| &&
            r[id].totalClicks == (if id in sessions then sessions[id].totalClicks else 0) &&
            r[id].info == (if id in sessions then sessions[id].info else info) &&
            r.Keys == sessions.Keys + {id} &&
            forall k :: k in sessions && k != id ==> r[k] == sessions[k]
    decreases |times|
  {
    var next := RecordPageView(sessions, id, Some(info), times[0]);
    if |times| > 1 {
      PageViewsCount(next, id, info, times[1..]);
    }
  }

  // ---------------------------------------------------------------------------
  // Clicks

  /** `trackClick` after the time spent is measured: one click row is appended, and the
      session's click count goes up with a fresh activity time only when its row exists. */
  function RecordClick(l: Ledger, id: string, lid: int, link: string, info: Option<UserInfo>,
                       timeSpent: int, now: int): (r: Ledger)
    ensures r.clickLogs == l.clickLogs + [ClickRow(id, lid, link, timeSpent, info)]
    ensures r.sessions.Keys == l.sessions.Keys
    ensures id in l.sessions ==>
              r.sessions[id].totalClicks == l.sessions[id].totalClicks + 1 &&
              r.sessions[id].pageViews == l.sessions[id].pageViews &&
              r.sessions[id].info == l.sessions[id].info &&
              r.sessions[id].lastActive == Some(now)
    ensures id !in l.sessions ==> r.sessions == l.sessions
    ensures forall k :: k in l.sessions && k != id ==> r.sessions[k] == l.sessions[k]
  {
    var logs := l.clickLogs + [ClickRow(id, lid, link, timeSpent, info)];
    if id in l.sessions then
      var row := l.sessions[id];
      Ledger(l.sessions[id := row.(totalClicks := row.totalClicks + 1, lastActive := Some(now))], logs)
    else
      Ledger(l.sessions, logs)
  }

  /** One click of a sequence: what was clicked, how long after the start, and when. */
  datatype ClickEvent = ClickEvent(lid: int, link: string, timeSpent: int, now: int)

  function RecordClicks(l: Ledger, id: string, info: Option<UserInfo>, events: seq<ClickEvent>): Ledger
    decreases |events|
  {
    if events == [] then l
    else
      var e := events[0];
      RecordClicks(RecordClick(l, id, e.lid, e.link, info, e.timeSpent, e.now), id, info, events[1..])
  }

  /** N clicks append N rows, in order, for that session, with the earlier rows kept;
      the session's count grows by N when its row exists, and no session row is created
      or changed when it does not. */
  lemma {:induction false} ClicksCount(l: Ledger, id: string, info: Option<UserInfo>, events: seq<ClickEvent>)
    ensures var r := RecordClicks(l, id, info, events);
            |r.clickLogs| == |l.clickLogs| + |events| &&
            r.clickLogs[..|l.clickLogs|] == l.clickLogs &&
            (forall k :: 0 <= k < |events| ==>
               r.clickLogs[|l.clickLogs| + k] ==
                 ClickRow(id, events[k].lid, events[k].link, events[k].timeSpent, info)) &&
            r.sessions.Keys == l.sessions.Keys &&
            (id in l.sessions ==>
               r.sessions[id].totalClicks == l.sessions[id].totalClicks + |events| &&
               r.sessions[id].pageViews == l.sessions[id].pageViews) &&
            (id !in l.sessions ==> r.sessions == l.sessions) &&
            (forall k :: k in l.sessions && k != id ==> r.sessions[k] == l.sessions[k])
    decreases |events|
  {
    if events != [] {
      var e := events[0];
      var next := RecordClick(l, id, e.lid, e.link, info, e.timeSpent, e.now);
      ClicksCount(next, id, info, events[1..]);
      var r := RecordClicks(next, id, info, events[1..]);
      assert r.clickLogs[..|l.clickLogs|] == next.clickLogs[..|next.clickLogs|][..|l.clickLogs|];
      forall k | 0 <= k < |events|
        ensures r.clickLogs[|l.clickLogs| + k] ==
                  ClickRow(id, events[k].lid, events[k].link, events[k].timeSpent, info)
      {
        if k == 0 {
          assert r.clickLogs[|l.clickLogs|] == next.clickLogs[|l.clickLogs|];
        } else {
          assert events[1..][k - 1] == events[k];
          assert |l.clickLogs| + k == |next.clickLogs| + (k - 1);
        }
      }
    }
  }

  /** A page view with user info followed by a click: the click is counted against the
      session the page view created or updated. */
  lemma ViewThenClickIsCounted(l: Ledger, id: string, info: UserInfo, viewNow: int,
                               lid: int, link: string, timeSpent: int, now: int)
    ensures var viewed := Ledger(RecordPageView(l.sessions, id, Some(info), viewNow), l.clickLogs);
            var clicked := RecordClick(viewed, id, lid, link, Some(info), timeSpent, now);
            id in clicked.sessions &&
            clicked.sessions[id].totalClicks == (if id in l.sessions then l.sessions[id].totalClicks else 0) + 1 &&
            clicked.sessions[id].pageViews == (if id in l.sessions then l.sessions[id].pageViews else 0) + 1
  {
  }

  // ---------------------------------------------------------------------------
  // The tracker's state

  /** Session storage of the tab and the two tables, changed in place by the three
      tracking calls. */
  class Tracker {
    var sessionStorage: map<string, string>
    var sessions: map<string, SessionRow>
    var clickLogs: seq<ClickRow>

    constructor(storage: map<string, string>, rows: map<string, SessionRow>, logs: seq<ClickRow>)
      ensures sessionStorage == storage && sessions == rows && clickLogs == logs
    {
      sessionStorage := storage;
      sessions := rows;
      clickLogs := logs;
    }

    function Tables(): Ledger
      reads this
    {
      Ledger(sessions, clickLogs)
    }

    /** `getSessionId`; `now` and `startNow` are the two clock reads, `random36` the
        base-36 rendering of the random number. */
    method GetSessionId(now: int, startNow: int, random36: string) returns (id: string)
      modifies this
      ensures id == LookupSessionId(old(sessionStorage), now, startNow, random36).id
      ensures sessionStorage == LookupSessionId(old(sessionStorage), now, startNow, random36).storage
      ensures sessions == old(sessions) && clickLogs == old(clickLogs)
    {
      id := if SessionIdKey in sessionStorage then sessionStorage[SessionIdKey] else "";
      if id == "" {
        id := "session_" + IntToString(now) + "_" + SubstringFrom(random36, 7);
        sessionStorage := sessionStorage[SessionIdKey := id];
        sessionStorage := sessionStorage[StartTimeKey := IntToString(startNow)];
      }
    }

    /** `trackSession`. */
    method TrackSession(id: string, info: Option<UserInfo>, now: int)
      modifies this
      ensures sessions == RecordPageView(old(sessions), id, info, now)
      ensures sessionStorage == old(sessionStorage) && clickLogs == old(clickLogs)
    {
      if info.None? {
        return;
      }
      if id in sessions {
        var existing := sessions[id];
        sessions := sessions[id := existing.(pageViews := existing.pageViews + 1, lastActive := Some(now))];
      } else {
        sessions := sessions[id := SessionRow(info.value, 1, 0, None)];
      }
    }

    /** `trackClick`: measure the time since the stored start, then record the click. */
    method TrackClick(id: string, lid: int, link: string, info: Option<UserInfo>, now: int)
      modifies this
      ensures Tables() ==
                RecordClick(old(Tables()), id, lid, link, info,
                            TimeSpent(Item(old(sessionStorage), StartTimeKey), now), now)
      ensures sessionStorage == old(sessionStorage)
    {
      var timeSpent := TimeSpent(Item(sessionStorage, StartTimeKey), now);
      LogClick(id, lid, link, info, timeSpent, now);
    }

    /** The two table writes of `trackClick`: insert the click row, then count the click
        on the session row when there is one. */
    method LogClick(id: string, lid: int, link: string, info: Option<UserInfo>, timeSpent: int, now: int)
      modifies this
      ensures Tables() == RecordClick(old(Tables()), id, lid, link, info, timeSpent, now)
      ensures sessionStorage == old(sessionStorage)
    {
      clickLogs := clickLogs + [ClickRow(id, lid, link, timeSpent, info)];
      if id in sessions {
        var row := sessions[id];
        sessions := sessions[id := row.(totalClicks := row.totalClicks + 1, lastActive := Some(now))];
      }
    }
  }
}
