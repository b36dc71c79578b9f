/**
 * The per-match rule of the calendar service: whether a match yields an
 * event, and the event's time window, title, description and uid.
 */
module EventMapper {
  import opened Wrappers
  import opened Panda
  import Decimal

  const ONE_HOUR_MS: int := 3_600_000
  const TIMEZONE: string := "UTC"
  const TEAM_SEPARATOR: string := " vs "
  const UID_PREFIX: string := "match-"
  const UID_SUFFIX: string := "@pandascore"

  /** A calendar event; `start` and `end` are epoch milliseconds. */
  datatype Event = Event(
    start: int,
    end: int,
    summary: string,
    description: string,
    uid: string,
    timezone: string)

  /** The end instant: the match's own end when it has one, otherwise one hour after the start. */
  function EndTime(m: Match): (end: int)
    requires m.beginAt.Some?
    ensures m.endAt.Some? ==> end == m.endAt.value
    ensures m.endAt.None? ==> m.beginAt.value < end && end - m.beginAt.value == ONE_HOUR_MS
  {
    if m.endAt.Some? then m.endAt.value else m.beginAt.value + ONE_HOUR_MS
  }

  function SumOfLengths(parts: seq<string>): nat {
    if parts == [] then 0 else SumOfLengths(parts[..|parts| - 1]) + |parts[|parts| - 1]|
  }

  /** `Array.prototype.join(" vs ")`. */
  function JoinVs(parts: seq<string>): (r: string)
    ensures parts != [] ==> |r| == SumOfLengths(parts) + |TEAM_SEPARATOR| * (|parts| - 1)
    ensures r == "" <==> parts == [] || parts == [""]
  {
    if parts == [] then ""
    else if |parts| == 1 then parts[0]
    else JoinVs(parts[..|parts| - 1]) + TEAM_SEPARATOR + parts[|parts| - 1]
  }

  /** Joining keeps the order of the parts: joining a concatenation joins each part and puts one separator between. */
  lemma {:induction false} JoinVsAppend(p: seq<string>, q: seq<string>)
    requires p != [] && q != []
    ensures JoinVs(p + q) == JoinVs(p) + TEAM_SEPARATOR + JoinVs(q)
    decreases |q|
  {
    var last := q[|q| - 1];
    if |q| == 1 {
      JoinVsSnoc(p, last);
    } else {
      var init := q[..|q| - 1];
      SplitLast(p, q);
      JoinVsSnoc(p + init, last);
      JoinVsAppend(p, init);
      JoinVsSnoc(init, last);
      Associate(JoinVs(p), JoinVs(init), last);
    }
  }

  lemma JoinVsSnoc(p: seq<string>, x: string)
    requires p != []
    ensures JoinVs(p + [x]) == JoinVs(p) + TEAM_SEPARATOR + x
  {
    assert (p + [x])[..|p|] == p;
  }

  lemma SplitLast(p: seq<string>, q: seq<string>)
    requires q != []
    ensures q == q[..|q| - 1] + [q[|q| - 1]]
    ensures p + q == (p + q[..|q| - 1]) + [q[|q| - 1]]
  {
  }

  lemma Associate(a: string, b: string, c: string)
    ensures (a + TEAM_SEPARATOR + b) + TEAM_SEPARATOR + c == a + TEAM_SEPARATOR + (b + TEAM_SEPARATOR + c)
  {
  }

  /** The opponents' acronyms, in the order the provider lists them. */
  function Acronyms(opponents: seq<Opponent>): (r: seq<string>)
    ensures |r| == |opponents|
    ensures forall i :: 0 <= i < |r| ==> r[i] == opponents[i].acronym
  {
    seq(|opponents|, i requires 0 <= i < |opponents| => opponents[i].acronym)
  }

  /** The title shows a score line: the match is finished and has at least two results. */
  predicate ShowsScore(m: Match) {
    m.status == Finished && |m.results| >= 2
  }

  /** The opponent list joins to the empty text, so the title falls back to the match name. */
  predicate NoTeams(opponents: seq<Opponent>) {
    opponents == [] || opponents == [Opponent("")]
  }

  /**
   * The event title. The score-line branch reads the first two opponents
   * without checking that they exist; when one is missing the code fails,
   * which is the `MissingOpponent` error.
   */
  function Title(m: Match): (r: Result<string, Error>)
    ensures r.Err? <==> ShowsScore(m) && |m.opponents| < 2
    ensures r.Err? ==> r.error == MissingOpponent(m.id)
  {
    if ShowsScore(m) then
      if |m.opponents| < 2 then Err(MissingOpponent(m.id))
      else
        Ok(m.opponents[0].acronym + " " + Decimal.IntToString(m.results[0].score) + " - "
           + Decimal.IntToString(m.results[1].score) + " " + m.opponents[1].acronym)
    else
      var teams := JoinVs(Acronyms(m.opponents));
      Ok(if teams == "" then m.name else teams)
  }

  /** The three cases of the title, in priority order, stated on the match itself. */
  lemma TitleRule(m: Match)
    ensures ShowsScore(m) && |m.opponents| >= 2 ==>
      Title(m) == Ok(m.opponents[0].acronym + " " + Decimal.IntToString(m.results[0].score) + " - "
                     + Decimal.IntToString(m.results[1].score) + " " + m.opponents[1].acronym)
    ensures !ShowsScore(m) && NoTeams(m.opponents) ==> Title(m) == Ok(m.name)
    ensures !ShowsScore(m) && !NoTeams(m.opponents) ==>
      Title(m) == Ok(JoinVs(Acronyms(m.opponents))) && Title(m).value != ""
  {
  }

  /** Two opponents, any scores: the title is "A vs B" unless the match is finished with two results. */
  lemma TwoTeamTitle(m: Match, a: string, b: string)
    requires m.opponents == [Opponent(a), Opponent(b)]
    ensures !ShowsScore(m) ==> Title(m) == Ok(a + " vs " + b)
  {
    assert Acronyms(m.opponents) == [a, b];
    assert [a, b][..1] == [a];
    assert JoinVs([a, b]) == a + " vs " + b;
  }

  /** The event description, `<tournament name> - <status>`. */
  function Description(m: Match): (r: string)
    ensures |r| == |m.tournament.name| + 3 + |StatusName(m.status)|
    ensures r[..|m.tournament.name|] == m.tournament.name
    ensures StatusFromName(r[|m.tournament.name| + 3..]) == Some(m.status)
  {
    m.tournament.name + " - " + StatusName(m.status)
  }

  /** The event uid, `match-<id>@pandascore`. */
  function Uid(id: int): (r: string)
    ensures |r| > |UID_PREFIX| + |UID_SUFFIX|
    ensures r[..|UID_PREFIX|] == UID_PREFIX && r[|r| - |UID_SUFFIX|..] == UID_SUFFIX
  {
    UID_PREFIX + Decimal.IntToString(id) + UID_SUFFIX
  }

  /** Reads the match id back out of a uid; None for a text not of the uid shape. */
  function UidMatchId(uid: string): Option<int> {
    if |uid| >= |UID_PREFIX| + |UID_SUFFIX| && uid[..|UID_PREFIX|] == UID_PREFIX
       && uid[|uid| - |UID_SUFFIX|..] == UID_SUFFIX
    then Decimal.ParseInt(uid[|UID_PREFIX|..|uid| - |UID_SUFFIX|])
    else None
  }

  lemma UidRoundTrip(id: int)
    ensures UidMatchId(Uid(id)) == Some(id)
  {
    var u := Uid(id);
    assert u[|UID_PREFIX|..|u| - |UID_SUFFIX|] == Decimal.IntToString(id);
    Decimal.ParseIntToString(id);
  }

  /** Distinct match ids give distinct uids. */
  lemma UidInjective(a: int, b: int)
    ensures Uid(a) == Uid(b) ==> a == b
  {
    UidRoundTrip(a);
    UidRoundTrip(b);
  }

  /** The match is scheduled but its title cannot be built: mapping it fails. */
  predicate Faulty(m: Match) {
    m.beginAt.Some? && ShowsScore(m) && |m.opponents| < 2
  }

  /** Zero or one event for a match, or the error that aborts the whole rendering. */
  function MatchToEvent(m: Match): (r: Result<Option<Event>, Error>)
    ensures r == Ok(None) <==> m.beginAt.None?
    ensures r.Err? <==> Faulty(m)
    ensures r.Err? ==> r.error == MissingOpponent(m.id)
    ensures r.Ok? && r.value.Some? ==>
      var e := r.value.value;
      && e.start == m.beginAt.value
      && e.end == EndTime(m)
      && Title(m) == Ok(e.summary)
      && e.description == m.tournament.name + " - " + StatusName(m.status)
      && e.uid == UID_PREFIX + Decimal.IntToString(m.id) + UID_SUFFIX
      && e.timezone == TIMEZONE
  {
    if m.beginAt.None? then Ok(None)
    else
      match Title(m)
      case Err(e) => Err(e)
      case Ok(title) =>
        Ok(Some(Event(m.beginAt.value, EndTime(m), title, Description(m), Uid(m.id), TIMEZONE)))
  }
}
