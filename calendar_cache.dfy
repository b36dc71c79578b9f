/**
 * The per-league cache of CalendarService: two maps keyed by league id, the
 * rendered document and the instant it was rendered. A read serves the
 * stored document while it is at most five minutes old; otherwise it fetches
 * everything again, renders, and only then writes both maps.
 */
module CalendarCache {
  import opened Wrappers
  import opened Panda
  import opened EventMapper
  import opened Fetcher
  import opened CalendarDocument

  /** How long a rendered document is served before it is rebuilt, in milliseconds. */
  const TTL_MS: int := 300_000

  /** The two maps of the service, as a value. */
  datatype CacheState = CacheState(cachedCalendar: map<int, Calendar>, lastUpdate: map<int, int>)

  /** What one read produces: the new state, the document or error, and the upstream requests made. */
  datatype Reply = Reply(state: CacheState, result: Result<Calendar, Error>, requests: seq<Request>)

  /** The render time of a league, 0 when there is none (`lastUpdate.get(id) || 0`). */
  function LastUpdateOrZero(s: CacheState, leagueId: int): (t: int)
    ensures leagueId in s.lastUpdate ==> t == s.lastUpdate[leagueId]
    ensures leagueId !in s.lastUpdate ==> t == 0
  {
    if leagueId in s.lastUpdate then s.lastUpdate[leagueId] else 0
  }

  /**
   * The entry is missing or older than the TTL. While both maps hold the same
   * leagues, the `|| 0` default never decides: an entry is fresh exactly when
   * the league has a render time at most TTL_MS before `now`.
   */
  function NeedsRefresh(s: CacheState, leagueId: int, now: int): (stale: bool)
    ensures InSync(s) ==>
      (!stale <==> leagueId in s.lastUpdate && now - s.lastUpdate[leagueId] <= TTL_MS)
    ensures !stale ==> leagueId in s.cachedCalendar
  {
    leagueId !in s.cachedCalendar || now - LastUpdateOrZero(s, leagueId) > TTL_MS
  }

  /** Both maps hold the same leagues: they are only ever written together. */
  predicate InSync(s: CacheState) {
    s.cachedCalendar.Keys == s.lastUpdate.Keys
  }

  /** A refresh: fetch the matches, then the league, then render; the first failure ends it. */
  function Refresh(u: Upstream): (r: Result<Calendar, Error>)
    ensures r.Ok? <==>
      MatchesOf(u, ENDPOINTS).Ok? && IsOk(u.league.status) && EventsOf(MatchesOf(u, ENDPOINTS).value).Ok?
    ensures r.Ok? ==> r.value.name == u.league.body.name && r.value.timezone == TIMEZONE
    ensures MatchesOf(u, ENDPOINTS).Err? ==> r == Err(MatchesOf(u, ENDPOINTS).error)
    ensures MatchesOf(u, ENDPOINTS).Ok? && !IsOk(u.league.status) ==> r == Err(LeagueFailed(u.league.status))
  {
    match MatchesOf(u, ENDPOINTS)
    case Err(e) => Err(e)
    case Ok(ms) =>
      if !IsOk(u.league.status) then Err(LeagueFailed(u.league.status))
      else Render(u.league.body.name, ms)
  }

  /** The requests a refresh issues: the league is requested only when all match partitions succeeded. */
  function RefreshRequests(leagueId: int, u: Upstream): (r: seq<Request>)
    ensures 1 <= |r| <= 4
    ensures r[0] == MatchesRequest(leagueId, RunningMatches)
    ensures LeagueRequest(leagueId) in r <==> MatchesOf(u, ENDPOINTS).Ok?
  {
    FetchMatchesOutcome(leagueId, u);
    MatchRequests(leagueId, u, ENDPOINTS)
    + (if MatchesOf(u, ENDPOINTS).Ok? then [LeagueRequest(leagueId)] else [])
  }

  /** getCalendar, on values: serve from the cache or refresh it. */
  function Serve(s: CacheState, leagueId: int, now: int, u: Upstream): (reply: Reply)
    ensures !NeedsRefresh(s, leagueId, now) ==>
      reply == Reply(s, Ok(s.cachedCalendar[leagueId]), [])
    ensures NeedsRefresh(s, leagueId, now) ==>
      reply.result == Refresh(u) && reply.requests == RefreshRequests(leagueId, u)
    ensures NeedsRefresh(s, leagueId, now) && reply.result.Err? ==> reply.state == s
    ensures NeedsRefresh(s, leagueId, now) && reply.result.Ok? ==>
      && reply.state.cachedCalendar.Keys == s.cachedCalendar.Keys + {leagueId}
      && reply.state.lastUpdate.Keys == s.lastUpdate.Keys + {leagueId}
      && reply.state.cachedCalendar[leagueId] == reply.result.value
      && reply.state.lastUpdate[leagueId] == now
      && (forall k :: k in s.cachedCalendar && k != leagueId ==>
            reply.state.cachedCalendar[k] == s.cachedCalendar[k])
      && (forall k :: k in s.lastUpdate && k != leagueId ==>
            reply.state.lastUpdate[k] == s.lastUpdate[k])
    ensures InSync(s) ==> InSync(reply.state)
  {
    if !NeedsRefresh(s, leagueId, now) then
      Reply(s, Ok(s.cachedCalendar[leagueId]), [])
    else
      match Refresh(u)
      case Err(e) => Reply(s, Err(e), RefreshRequests(leagueId, u))
      case Ok(doc) =>
        Reply(CacheState(s.cachedCalendar[leagueId := doc], s.lastUpdate[leagueId := now]),
              Ok(doc), RefreshRequests(leagueId, u))
  }

  /**
   * A refresh succeeds exactly when all four responses succeed and no
   * scheduled match is unmappable; its document is named after the league
   * and lists the events of the running, past and upcoming matches in that
   * order. It then makes exactly the four requests, in order.
   */
  lemma RefreshOutcome(leagueId: int, u: Upstream)
    ensures Refresh(u).Ok? <==>
      && IsOk(u.running.status) && IsOk(u.past.status) && IsOk(u.upcoming.status)
      && IsOk(u.league.status)
      && forall m :: m in u.running.body + u.past.body + u.upcoming.body ==> !Faulty(m)
    ensures Refresh(u).Ok? ==>
      && EventsOf(u.running.body).Ok? && EventsOf(u.past.body).Ok? && EventsOf(u.upcoming.body).Ok?
      && Refresh(u).value == Calendar(u.league.body.name, TIMEZONE,
           EventsOf(u.running.body).value + EventsOf(u.past.body).value + EventsOf(u.upcoming.body).value)
      && RefreshRequests(leagueId, u) == [MatchesRequest(leagueId, RunningMatches),
           MatchesRequest(leagueId, PastMatches), MatchesRequest(leagueId, UpcomingMatches),
           LeagueRequest(leagueId)]
  {
    FetchMatchesOutcome(leagueId, u);
    var all := u.running.body + u.past.body + u.upcoming.body;
    EventsOfSucceeds(all);
    assert (forall m :: m in all ==> !Faulty(m)) <==> (forall i :: 0 <= i < |all| ==> !Faulty(all[i]));
    if Refresh(u).Ok? {
      assert MatchesOf(u, ENDPOINTS).value == all;
      EventsOfThreeParts(u.running.body, u.past.body, u.upcoming.body);
      assert RefreshRequests(leagueId, u) == MatchRequests(leagueId, u, ENDPOINTS) + [LeagueRequest(leagueId)];
    }
  }

  lemma EventsOfThreeParts(a: seq<Match>, b: seq<Match>, c: seq<Match>)
    requires EventsOf(a + b + c).Ok?
    ensures EventsOf(a).Ok? && EventsOf(b).Ok? && EventsOf(c).Ok?
    ensures EventsOf(a + b + c).value == EventsOf(a).value + EventsOf(b).value + EventsOf(c).value
  {
    EventsOfAppend(a + b, c);
    EventsOfAppend(a, b);
  }

  /**
   * Once a read has produced a document, a later read whose clock is within
   * the TTL of the entry's render time returns the same document, makes no
   * request and changes nothing. After a refresh at `t1` the render time is
   * `t1`, so this covers any second read up to `t1 + TTL_MS`.
   */
  lemma RepeatWithinTtl(s: CacheState, leagueId: int, t1: int, t2: int, u1: Upstream, u2: Upstream)
    requires Serve(s, leagueId, t1, u1).result.Ok?
    requires t2 - LastUpdateOrZero(Serve(s, leagueId, t1, u1).state, leagueId) <= TTL_MS
    ensures NeedsRefresh(s, leagueId, t1) ==> LastUpdateOrZero(Serve(s, leagueId, t1, u1).state, leagueId) == t1
    ensures var first := Serve(s, leagueId, t1, u1);
      Serve(first.state, leagueId, t2, u2) == Reply(first.state, first.result, [])
  {
  }

  /** A read that finds the entry missing or stale goes upstream, starting with the running matches. */
  lemma StaleReadRefetches(s: CacheState, leagueId: int, now: int, u: Upstream)
    requires NeedsRefresh(s, leagueId, now)
    ensures Serve(s, leagueId, now, u).requests != []
    ensures Serve(s, leagueId, now, u).requests[0] == MatchesRequest(leagueId, RunningMatches)
  {
    FetchMatchesOutcome(leagueId, u);
  }

  /** The match of the worked example below: id 100, finished 2-1 between A and B, from 2024-01-01T18:00:00Z. */
  const EXAMPLE_MATCH: Match :=
    Match(100, "A vs B", Finished, Some(1704132000000), None,
          [Opponent("A"), Opponent("B")], [MatchResult(2, 1), MatchResult(1, 2)],
          Tournament("Spring Split"))

  /** The provider's answers of the worked example: league 5, "LCS", whose only match is EXAMPLE_MATCH. */
  const EXAMPLE_UPSTREAM: Upstream :=
    Upstream(MatchesResponse(200, []), MatchesResponse(200, [EXAMPLE_MATCH]), MatchesResponse(200, []),
             LeagueResponse(200, League(5, "LCS")))

  const EXAMPLE_EVENT: Event :=
    Event(1704132000000, 1704135600000, "A 2 - 1 B", "Spring Split - finished", "match-100@pandascore", "UTC")

  lemma ExampleTitle()
    ensures Title(EXAMPLE_MATCH) == Ok("A 2 - 1 B")
  {
    assert Decimal.IntToString(2) == "2" && Decimal.IntToString(1) == "1";
    TitleRule(EXAMPLE_MATCH);
    assert "A" + " " + "2" + " - " + "1" + " " + "B" == "A 2 - 1 B";
  }

  lemma ExampleUid()
    ensures Uid(100) == "match-100@pandascore"
  {
    assert Decimal.NatToString(10) == "10";
    assert Decimal.IntToString(100) == "100";
  }

  lemma ExampleMatchEvent()
    ensures MatchToEvent(EXAMPLE_MATCH) == Ok(Some(EXAMPLE_EVENT))
  {
    ExampleTitle();
    ExampleUid();
    assert Description(EXAMPLE_MATCH) == "Spring Split - finished";
  }

  /**
   * The worked example: a first read of league 5 yields one event, ending one
   * hour after the start since the match has no end time, titled with the
   * score line.
   */
  lemma FinishedMatchExample(now: int)
    ensures Serve(CacheState(map[], map[]), 5, now, EXAMPLE_UPSTREAM).result
            == Ok(Calendar("LCS", "UTC", [EXAMPLE_EVENT]))
  {
    ExampleMatchEvent();
    assert [EXAMPLE_MATCH][..0] == [];
    assert EventsOf([EXAMPLE_MATCH][..0]) == Ok([]);
    assert [] + [EXAMPLE_EVENT] == [EXAMPLE_EVENT];
    assert EventsOf([EXAMPLE_MATCH]) == Ok([EXAMPLE_EVENT]);
    RefreshOutcome(5, EXAMPLE_UPSTREAM);
  }

  /** The service object: the two maps, updated in place by getCalendar. */
  class CalendarService {
    var cachedCalendar: map<int, Calendar>
    var lastUpdate: map<int, int>

    function State(): CacheState
      reads this
    {
      CacheState(cachedCalendar, lastUpdate)
    }

    ghost predicate Valid()
      reads this
    {
      InSync(State())
    }

    constructor ()
      ensures Valid() && cachedCalendar == map[] && lastUpdate == map[]
    {
      cachedCalendar := map[];
      lastUpdate := map[];
    }

    /** getCalendar: serve the league's document from the cache, refreshing it first when stale. */
    method GetCalendar(leagueId: int, now: int, upstream: Upstream)
      returns (r: Result<Calendar, Error>, requests: seq<Request>)
      requires Valid()
      modifies this
      ensures Valid()
      ensures Reply(State(), r, requests) == Serve(old(State()), leagueId, now, upstream)
    {
      var lastUpdateTime := if leagueId in lastUpdate then lastUpdate[leagueId] else 0;
      requests := [];
      if leagueId !in cachedCalendar || now - lastUpdateTime > TTL_MS {
        var matches, matchRequests := FetchMatches(leagueId, upstream);
        requests := matchRequests;
        if matches.Err? {
          r := Err(matches.error);
          return;
        }
        var league, leagueRequests := FetchLeague(leagueId, upstream);
        requests := requests + leagueRequests;
        if league.Err? {
          r := Err(league.error);
          return;
        }
        var calendar := BuildCalendar(league.value.name, matches.value);
        if calendar.Err? {
          r := Err(calendar.error);
          return;
        }
        cachedCalendar := cachedCalendar[leagueId := calendar.value];
        lastUpdate := lastUpdate[leagueId := now];
      }
      r := Ok(cachedCalendar[leagueId]);
    }
  }

  /**
   * Two reads of one league through one service object, the second within
   * the TTL of the first: once the first has produced a document, the second
   * returns it again without going upstream.
   */
  method ReadTwiceWithinTtl(leagueId: int, t1: int, t2: int, u1: Upstream, u2: Upstream)
    returns (first: Result<Calendar, Error>, second: Result<Calendar, Error>, secondRequests: seq<Request>)
    requires t2 <= t1 + TTL_MS
    ensures first.Ok? ==> second == first && secondRequests == []
  {
    var service := new CalendarService();
    var firstRequests;
    first, firstRequests := service.GetCalendar(leagueId, t1, u1);
    second, secondRequests := service.GetCalendar(leagueId, t2, u2);
  }
}
