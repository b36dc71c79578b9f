/**
 * The two upstream reads of a refresh: the match lists of the three
 * partitions, fetched one after the other and concatenated, and the league
 * record. Each request either succeeds or throws, which ends the refresh.
 */
module Fetcher {
  import opened Wrappers
  import opened Panda

  /** The partitions in the order they are requested and concatenated. */
  const ENDPOINTS: seq<Partition> := [RunningMatches, PastMatches, UpcomingMatches]

  /** The matches of the partitions `ps`, fetched in order, or the first failure. */
  function MatchesOf(u: Upstream, ps: seq<Partition>): (r: Result<seq<Match>, Error>)
    ensures r.Ok? <==> forall i :: 0 <= i < |ps| ==> IsOk(ResponseFor(u, ps[i]).status)
  {
    if ps == [] then Ok([])
    else
      match MatchesOf(u, ps[..|ps| - 1])
      case Err(e) => Err(e)
      case Ok(ms) =>
        var res := ResponseFor(u, ps[|ps| - 1]);
        if !IsOk(res.status) then Err(MatchesFailed(ps[|ps| - 1], res.status))
        else Ok(ms + res.body)
  }

  /** The requests issued while fetching the partitions `ps`: up to and including the first that fails. */
  function MatchRequests(leagueId: int, u: Upstream, ps: seq<Partition>): (r: seq<Request>)
    ensures |r| <= |ps|
    ensures MatchesOf(u, ps).Ok? ==> |r| == |ps|
    ensures forall i :: 0 <= i < |r| ==> r[i] == MatchesRequest(leagueId, ps[i])
  {
    if ps == [] then []
    else if MatchesOf(u, ps[..|ps| - 1]).Err? then MatchRequests(leagueId, u, ps[..|ps| - 1])
    else MatchRequests(leagueId, u, ps[..|ps| - 1]) + [MatchesRequest(leagueId, ps[|ps| - 1])]
  }

  /** Once a prefix of the partitions has failed, the later ones change neither the outcome nor the requests. */
  lemma {:induction false} FailureIsFinal(leagueId: int, u: Upstream, ps: seq<Partition>, k: nat)
    requires k <= |ps| && MatchesOf(u, ps[..k]).Err?
    ensures MatchesOf(u, ps) == MatchesOf(u, ps[..k])
    ensures MatchRequests(leagueId, u, ps) == MatchRequests(leagueId, u, ps[..k])
    decreases |ps| - k
  {
    if k < |ps| {
      var q := ps[..|ps| - 1];
      assert q[..k] == ps[..k];
      FailureIsFinal(leagueId, u, q, k);
    } else {
      assert ps[..k] == ps;
    }
  }

  /** fetchMatches: request each partition in turn, append its matches, throw on the first non-success status. */
  method FetchMatches(leagueId: int, u: Upstream) returns (r: Result<seq<Match>, Error>, requests: seq<Request>)
    ensures r == MatchesOf(u, ENDPOINTS)
    ensures requests == MatchRequests(leagueId, u, ENDPOINTS)
  {
    var allMatches: seq<Match> := [];
    requests := [];
    var i := 0;
    while i < |ENDPOINTS|
      invariant 0 <= i <= |ENDPOINTS|
      invariant MatchesOf(u, ENDPOINTS[..i]) == Ok(allMatches)
      invariant requests == MatchRequests(leagueId, u, ENDPOINTS[..i])
    {
      var endpoint := ENDPOINTS[i];
      assert ENDPOINTS[..i + 1][..i] == ENDPOINTS[..i];
      requests := requests + [MatchesRequest(leagueId, endpoint)];
      var res := ResponseFor(u, endpoint);
      if !IsOk(res.status) {
        r := Err(MatchesFailed(endpoint, res.status));
        FailureIsFinal(leagueId, u, ENDPOINTS, i + 1);
        return;
      }
      allMatches := allMatches + res.body;
      i := i + 1;
    }
    assert ENDPOINTS[..i] == ENDPOINTS;
    r := Ok(allMatches);
  }

  /**
   * The fetched list is running, then past, then upcoming, with nothing
   * removed or reordered; a failure names the first failing partition and
   * no later partition is requested.
   */
  lemma FetchMatchesOutcome(leagueId: int, u: Upstream)
    ensures MatchesOf(u, ENDPOINTS).Ok? <==>
      IsOk(u.running.status) && IsOk(u.past.status) && IsOk(u.upcoming.status)
    ensures MatchesOf(u, ENDPOINTS).Ok? ==>
      MatchesOf(u, ENDPOINTS).value == u.running.body + u.past.body + u.upcoming.body
    ensures !IsOk(u.running.status) ==>
      MatchesOf(u, ENDPOINTS) == Err(MatchesFailed(RunningMatches, u.running.status))
      && MatchRequests(leagueId, u, ENDPOINTS) == [MatchesRequest(leagueId, RunningMatches)]
    ensures IsOk(u.running.status) && !IsOk(u.past.status) ==>
      MatchesOf(u, ENDPOINTS) == Err(MatchesFailed(PastMatches, u.past.status))
      && MatchRequests(leagueId, u, ENDPOINTS)
         == [MatchesRequest(leagueId, RunningMatches), MatchesRequest(leagueId, PastMatches)]
    ensures IsOk(u.running.status) && IsOk(u.past.status) ==>
      MatchRequests(leagueId, u, ENDPOINTS)
      == [MatchesRequest(leagueId, RunningMatches), MatchesRequest(leagueId, PastMatches),
          MatchesRequest(leagueId, UpcomingMatches)]
    ensures IsOk(u.running.status) && IsOk(u.past.status) && !IsOk(u.upcoming.status) ==>
      MatchesOf(u, ENDPOINTS) == Err(MatchesFailed(UpcomingMatches, u.upcoming.status))
  {
    var one, two := [RunningMatches], [RunningMatches, PastMatches];
    assert one[..0] == [] && two[..1] == one && ENDPOINTS[..2] == two;
    assert MatchesOf(u, one[..0]) == Ok([]);
    assert [] + u.running.body == u.running.body;
    var r1 := MatchesOf(u, one);
    assert r1 == if IsOk(u.running.status) then Ok(u.running.body)
                 else Err(MatchesFailed(RunningMatches, u.running.status));
    assert MatchRequests(leagueId, u, one) == [MatchesRequest(leagueId, RunningMatches)];
    var r2 := MatchesOf(u, two);
    assert IsOk(u.running.status) ==>
      r2 == if IsOk(u.past.status) then Ok(u.running.body + u.past.body)
            else Err(MatchesFailed(PastMatches, u.past.status));
  }

  /** fetchLeague: one request; a non-success status throws. */
  method FetchLeague(leagueId: int, u: Upstream) returns (r: Result<League, Error>, requests: seq<Request>)
    ensures requests == [LeagueRequest(leagueId)]
    ensures r.Ok? <==> IsOk(u.league.status)
    ensures r.Ok? ==> r.value == u.league.body
    ensures r.Err? ==> r.error == LeagueFailed(u.league.status)
  {
    requests := [LeagueRequest(leagueId)];
    if !IsOk(u.league.status) {
      r := Err(LeagueFailed(u.league.status));
      return;
    }
    r := Ok(u.league.body);
  }
}
