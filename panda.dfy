/**
 * The records the match-data provider (PandaScore) returns, the responses that
 * carry them, the errors a refresh can end in, and the upstream requests the
 * service issues. Times are epoch milliseconds in UTC.
 */
module Panda {
  import opened Wrappers

  datatype Status = Canceled | Finished | NotStarted | Postponed | Running

  /** The status as the provider spells it, which is what the event description shows. */
  function StatusName(s: Status): (r: string)
    ensures StatusFromName(r) == Some(s)
  {
    match s
    case Canceled => "canceled"
    case Finished => "finished"
    case NotStarted => "not_started"
    case Postponed => "postponed"
    case Running => "running"
  }

  /** Reads a status literal of the provider; None for any other text. */
  function StatusFromName(name: string): Option<Status> {
    if name == "canceled" then Some(Canceled)
    else if name == "finished" then Some(Finished)
    else if name == "not_started" then Some(NotStarted)
    else if name == "postponed" then Some(Postponed)
    else if name == "running" then Some(Running)
    else None
  }

  datatype Opponent = Opponent(acronym: string)
  datatype MatchResult = MatchResult(score: int, teamId: int)
  datatype Tournament = Tournament(name: string)

  /** One match record; a missing `beginAt` means the match is not scheduled. */
  datatype Match = Match(
    id: int,
    name: string,
    status: Status,
    beginAt: Option<int>,
    endAt: Option<int>,
    opponents: seq<Opponent>,
    results: seq<MatchResult>,
    tournament: Tournament)

  datatype League = League(id: int, name: string)

  /** The three match lists the provider serves per league, in the order they are fetched. */
  datatype Partition = RunningMatches | PastMatches | UpcomingMatches

  /** The path segment of a partition's endpoint. */
  function PartitionName(p: Partition): string {
    match p
    case RunningMatches => "running"
    case PastMatches => "past"
    case UpcomingMatches => "upcoming"
  }

  /** An HTTP response: its status code and, when it succeeded, the decoded body. */
  datatype MatchesResponse = MatchesResponse(status: int, body: seq<Match>)
  datatype LeagueResponse = LeagueResponse(status: int, body: League)

  /** The Fetch API's `ok`: the status is in the range 200-299. */
  predicate IsOk(status: int) {
    200 <= status <= 299
  }

  /** What the provider answers to each of the four requests of one refresh. */
  datatype Upstream = Upstream(
    running: MatchesResponse,
    past: MatchesResponse,
    upcoming: MatchesResponse,
    league: LeagueResponse)

  function ResponseFor(u: Upstream, p: Partition): MatchesResponse {
    match p
    case RunningMatches => u.running
    case PastMatches => u.past
    case UpcomingMatches => u.upcoming
  }

  /** An upstream request, recorded so that the model can say how many were made. */
  datatype Request = MatchesRequest(leagueId: int, partition: Partition) | LeagueRequest(leagueId: int)

  /**
   * Why a refresh failed: a match partition or the league answered with a
   * non-success status, or a finished match with two results lacks its
   * second opponent (the code reads a field of an undefined array slot).
   */
  datatype Error =
    | MatchesFailed(partition: Partition, status: int)
    | LeagueFailed(status: int)
    | MissingOpponent(matchId: int)
}
