# Calendar feed service: a Dafny model

This project models the core of `CalendarService`, the component of the
one-esport-api that turns a league's matches from the PandaScore API into a
subscribable calendar and keeps one rendered calendar per league in memory.

- **Match to event** (`EventMapper`): a match without a start time gives no
  event; the end is the match's own end time or one hour after the start; the
  title is the score line `"<A> <s0> - <s1> <B>"` for a finished match with at
  least two results, otherwise the opponents' acronyms joined by `" vs "`,
  otherwise (when that join is empty) the match name; the description is
  `"<tournament> - <status>"` and the uid `match-<id>@pandascore`.
- **Fetching** (`Fetcher`): the running, past and upcoming match lists are
  requested one after the other and concatenated in that order, with no
  de-duplication or sorting; the league record is requested after them. A
  non-success status ends the refresh with an error.
- **Document** (`CalendarDocument`): the rendered calendar is the league name,
  the timezone `UTC` and the ordered sequence of events. The loop that builds
  it is `BuildCalendar`, proved equal to the specification `Render`.
- **Cache** (`CalendarCache`): the class `CalendarService` holds the two maps
  `cachedCalendar` and `lastUpdate`. `GetCalendar` is proved equal to the
  value-level function `Serve`, whose contract states the protocol: a fresh
  entry (at most 300000 ms old) is returned unchanged with no upstream request;
  otherwise a refresh runs, and only when every fetch and the rendering succeed
  are both maps written, for the requested league only.

Times are epoch milliseconds. The clock reading `now` and the provider's four
answers (`Upstream`) are parameters of `GetCalendar`; the upstream requests it
issues are returned as a trace, so "no request" is a statement about a value.

Choices of the code that the model keeps as written:
- the end of an event is `end_at`, or the start plus one hour; no end is
  derived from the number of games of a match, even though an end of one hour
  per game would be the other natural rule (`src/calendar/calendar.service.ts:77-79`);
- the fallback to the match name happens when the joined acronyms are the
  empty text, which is the case for no opponent and also for a single opponent
  whose acronym is empty, not only for "no opponent"
  (`src/calendar/calendar.service.ts:81-95`);
- a finished match with two results but fewer than two opponents makes the
  code read a field of an undefined array slot, which throws; the model gives
  the error `MissingOpponent`, which ends the refresh before the maps are
  written (`src/calendar/calendar.service.ts:87-93`);
- a failed refresh surfaces the error and never serves the stale document.

## Model

| member | source | states |
|---|---|---|
| `Decimal.IntToString` | src/calendar/calendar.service.ts:88-93 | an integer printed as a template literal prints it: at least one character, starting with '-' exactly for negative values |
| `Decimal.ParseIntToString` | src/calendar/calendar.service.ts:103 | reading the printed integer back gives the integer, for every integer |
| `Decimal.IntToStringInjective` | src/calendar/calendar.service.ts:88-93 | distinct scores or ids are printed as distinct texts |
| `Panda.StatusName` | src/calendar/calendar.service.ts:8 | each status is spelt as one of the provider's five literals, and reading that literal back gives the status |
| `EventMapper.EndTime` | src/calendar/calendar.service.ts:76-79 | the end is `end_at` when present; otherwise exactly one hour (3600000 ms) after the start, so start < end |
| `EventMapper.JoinVs` | src/calendar/calendar.service.ts:81-83 | the joined text has the parts' total length plus four per separator, and is empty exactly for no part or one empty part |
| `EventMapper.JoinVsAppend` | src/calendar/calendar.service.ts:81-83 | joining a concatenation of non-empty part lists is joining each and putting one " vs " between, so the acronyms appear in the opponents' order for any number of opponents |
| `EventMapper.JoinVsSnoc` | src/calendar/calendar.service.ts:81-83 | one more acronym after a non-empty list adds " vs " and that acronym at the end of the joined text |
| `EventMapper.Acronyms` | src/calendar/calendar.service.ts:81-82 | one acronym per opponent, in the provider's order |
| `EventMapper.Title` | src/calendar/calendar.service.ts:85-96 | the title fails exactly for a finished match with at least two results and fewer than two opponents, with `MissingOpponent` of that match |
| `EventMapper.TitleRule` | src/calendar/calendar.service.ts:81-96 | the three title cases in priority order: score line from the first two opponents and results in source order; the match name when there are no opponents or only one with an empty acronym; otherwise the non-empty " vs " join |
| `EventMapper.TwoTeamTitle` | src/calendar/calendar.service.ts:94-96 | opponents A and B on a match that is not a finished one with two results give the title "A vs B" |
| `EventMapper.Description` | src/calendar/calendar.service.ts:102 | the description is the tournament name, three separator characters, then the status literal, which reads back as the match's status |
| `EventMapper.Uid` | src/calendar/calendar.service.ts:103 | the uid starts with `match-` and ends with `@pandascore` |
| `EventMapper.UidRoundTrip` | src/calendar/calendar.service.ts:103 | the match id can be read back out of its uid |
| `EventMapper.UidInjective` | src/calendar/calendar.service.ts:103 | distinct match ids give distinct uids |
| `EventMapper.MatchToEvent` | src/calendar/calendar.service.ts:73-105 | no event exactly when `begin_at` is absent; an error exactly for a scheduled faulty finished match; otherwise one event with start `begin_at`, end `EndTime`, the title, description `"<tournament> - <status>"`, uid `match-<id>@pandascore` and timezone UTC |
| `Fetcher.MatchesOf` | src/calendar/calendar.service.ts:30-47 | fetching a list of partitions succeeds exactly when every partition's response has a 2xx status |
| `Fetcher.MatchRequests` | src/calendar/calendar.service.ts:34-41 | the i-th request is for the i-th partition, at most one per partition, and one for each partition when all succeed |
| `Fetcher.FailureIsFinal` | src/calendar/calendar.service.ts:34-44 | after the first failing partition, later partitions change neither the error nor the requests made |
| `Fetcher.FetchMatches` | src/calendar/calendar.service.ts:30-47 | the request loop returns the specified outcome and request trace |
| `Fetcher.FetchMatchesOutcome` | src/calendar/calendar.service.ts:31-46 | success exactly when running, past and upcoming all succeed, giving running ++ past ++ upcoming unchanged; a failure names the first failing partition and no later partition is requested |
| `Fetcher.FetchLeague` | src/calendar/calendar.service.ts:49-55 | one request; the league record on a 2xx status, `LeagueFailed(status)` otherwise |
| `CalendarDocument.EventsOf` | src/calendar/calendar.service.ts:73-106 | never more events than matches |
| `CalendarDocument.Render` | src/calendar/calendar.service.ts:68-106 | the document is built exactly when no match is faulty; it then carries the league name, the timezone UTC and at most one event per match |
| `CalendarDocument.Scheduled` | src/calendar/calendar.service.ts:73-74 | a match is kept exactly when it is in the input and has a start time; never more than the input |
| `CalendarDocument.ScheduledAppend` | src/calendar/calendar.service.ts:73-74 | the scheduled matches of a concatenation are those of each part, concatenated, so the order is kept |
| `CalendarDocument.EventsOfSucceeds` | src/calendar/calendar.service.ts:73-106 | rendering succeeds exactly when no scheduled match is a finished one missing an opponent |
| `CalendarDocument.EventsOfFirstError` | src/calendar/calendar.service.ts:73-106 | a failed rendering names a faulty match, and every match before it is mappable |
| `CalendarDocument.EventsOfScheduled` | src/calendar/calendar.service.ts:73-105 | a successful rendering has one event per scheduled match, the k-th event coming from the k-th scheduled match |
| `CalendarDocument.EventsOfAppend` | src/calendar/calendar.service.ts:73-106 | the events of a concatenation are the concatenated events, so events keep the relative order of their matches |
| `CalendarDocument.BuildCalendar` | src/calendar/calendar.service.ts:68-106 | the event loop builds exactly the specified document, or stops with the first match's error |
| `CalendarCache.Serve` | src/calendar/calendar.service.ts:57-113 | a fresh entry is returned as stored with no request and no change; a stale or missing entry is refreshed; a failed refresh changes nothing; a successful one sets both maps for the requested league only (document and `now`) and returns the new document; the maps keep the same keys |
| `CalendarCache.LastUpdateOrZero` | src/calendar/calendar.service.ts:59 | the league's render time when it has one, 0 otherwise |
| `CalendarCache.NeedsRefresh` | src/calendar/calendar.service.ts:61 | a fresh entry is cached; while both maps hold the same leagues, an entry is fresh exactly when its render time is at most 300000 ms before `now` |
| `CalendarCache.Refresh` | src/calendar/calendar.service.ts:65-106 | succeeds exactly when the matches and the league are fetched and every match maps; the document carries the league's name and UTC; a match failure is returned as is, and a league failure as `LeagueFailed(status)` |
| `CalendarCache.RefreshRequests` | src/calendar/calendar.service.ts:65-66 | one to four requests, the running matches first; the league is requested exactly when all match partitions succeeded |
| `CalendarCache.RefreshOutcome` | src/calendar/calendar.service.ts:65-108 | a refresh succeeds exactly when all four responses succeed and no match is faulty; its document is named after the league and lists the running, past and upcoming events in that order, after exactly four requests |
| `CalendarCache.EventsOfThreeParts` | src/calendar/calendar.service.ts:31-46 | when the running, past and upcoming lists render together, each renders alone and the events are those of running, then past, then upcoming |
| `CalendarCache.RepeatWithinTtl` | src/calendar/calendar.service.ts:59-112 | after a successful read, a second read within the TTL of the render time returns the same document with no request and no change; after a refresh that render time is the first read's clock |
| `CalendarCache.StaleReadRefetches` | src/calendar/calendar.service.ts:61-65 | a missing or stale entry makes at least one upstream request, the running matches first |
| `CalendarCache.ExampleTitle` | src/calendar/calendar.service.ts:87-93 | the finished 2-1 match between A and B is titled "A 2 - 1 B" |
| `CalendarCache.ExampleUid` | src/calendar/calendar.service.ts:103 | match 100 has the uid `match-100@pandascore` |
| `CalendarCache.ExampleMatchEvent` | src/calendar/calendar.service.ts:73-105 | a finished 2-1 match between A and B at 2024-01-01T18:00:00Z with no end time maps to the event 18:00-19:00 UTC titled "A 2 - 1 B", described "Spring Split - finished", uid `match-100@pandascore` |
| `CalendarCache.FinishedMatchExample` | src/calendar/calendar.service.ts:57-113 | a first read of league 5 ("LCS") whose only match is that one yields the calendar "LCS" in UTC holding exactly that event |
| `CalendarCache.CalendarService.constructor` | src/calendar/calendar.service.ts:24-25 | both maps start empty |
| `CalendarCache.CalendarService.GetCalendar` | src/calendar/calendar.service.ts:57-113 | the in-place method produces the state, result and request trace that `Serve` specifies, and keeps both maps on the same keys |
| `CalendarCache.ReadTwiceWithinTtl` | src/calendar/calendar.service.ts:57-113 | two reads of one league through one service object, the second no later than the TTL after the first: when the first yields a document, the second yields the same one with no upstream request |

## Left out

- HTTP: the `fetch` calls, URLs, the bearer token and JSON decoding are not modelled; each response is a status code and an already decoded body in `Upstream`. A body that does not have the declared shape is not modelled.
- The provider's answers are given per call; that they depend on the league id in the URL is not modelled.
- Error messages: the thrown `Error` texts ("Erreur API <endpoint>: <status>") are modelled as the structured `Error` values carrying the partition and status.
- Calendar serialisation by the ical-generator library (`cal.toString()`): the cached document is the `Calendar` value (league name, timezone, events), not its text.
- Date parsing and time zones (Luxon): times are integer epoch milliseconds; an unparsable ISO text is not modelled.
- An empty-string `begin_at` or `end_at`, which the code treats like an absent one, cannot occur: both are optional integers.
- Number printing is modelled for integers only; non-integral scores or ids, and the exponent notation JavaScript uses from 1e21 on, are not modelled.
- `Date.now()` is the parameter `now`; the logger output is not modelled.
- The HTTP controller (`src/calendar/calendar.controller.ts`, routing, headers, `parseInt`) and the NestJS module wiring are not part of this model.
- Concurrency: the awaits of concurrent requests can interleave in the code; the model treats each read as one atomic step. There is no request coalescing in the code, and none in the model.
