/**
 * The calendar document built on a refresh: the league's name, the fixed
 * timezone, and one event per scheduled match, in match order. The text the
 * calendar library serialises this to is not modelled; the document is this
 * value.
 */
module CalendarDocument {
  import opened Wrappers
  import opened Panda
  import opened EventMapper

  datatype Calendar = Calendar(name: string, timezone: string, events: seq<Event>)

  /** The events of `ms` in order, or the error of the first match that cannot be mapped. */
  function EventsOf(ms: seq<Match>): (r: Result<seq<Event>, Error>)
    ensures r.Ok? ==> |r.value| <= |ms|
  {
    if ms == [] then Ok([])
    else
      match EventsOf(ms[..|ms| - 1])
      case Err(e) => Err(e)
      case Ok(es) =>
        match MatchToEvent(ms[|ms| - 1])
        case Err(e) => Err(e)
        case Ok(None) => Ok(es)
        case Ok(Some(ev)) => Ok(es + [ev])
  }

  /** The document for league `name` and the fetched matches `ms`. */
  function Render(name: string, ms: seq<Match>): (r: Result<Calendar, Error>)
    ensures r.Ok? <==> forall i :: 0 <= i < |ms| ==> !Faulty(ms[i])
    ensures r.Ok? ==> r.value.name == name && r.value.timezone == TIMEZONE && |r.value.events| <= |ms|
  {
    EventsOfSucceeds(ms);
    match EventsOf(ms)
    case Err(e) => Err(e)
    case Ok(es) => Ok(Calendar(name, TIMEZONE, es))
  }

  /** The scheduled matches of `ms`, in order. */
  function Scheduled(ms: seq<Match>): (r: seq<Match>)
    ensures |r| <= |ms|
    ensures forall i :: 0 <= i < |r| ==> r[i].beginAt.Some?
    ensures forall m :: m in r <==> m in ms && m.beginAt.Some?
  {
    if ms == [] then []
    else if ms[|ms| - 1].beginAt.None? then Scheduled(ms[..|ms| - 1])
    else Scheduled(ms[..|ms| - 1]) + [ms[|ms| - 1]]
  }

  /** Filtering keeps the order: the scheduled matches of a concatenation are those of each part, concatenated. */
  lemma {:induction false} ScheduledAppend(a: seq<Match>, b: seq<Match>)
    ensures Scheduled(a + b) == Scheduled(a) + Scheduled(b)
    decreases |b|
  {
    if b == [] {
      assert a + b == a;
    } else {
      var init := b[..|b| - 1];
      assert (a + b)[..|a + b| - 1] == a + init;
      assert (a + b)[|a + b| - 1] == b[|b| - 1];
      ScheduledAppend(a, init);
      if b[|b| - 1].beginAt.Some? {
        assert Scheduled(a) + (Scheduled(init) + [b[|b| - 1]]) == (Scheduled(a) + Scheduled(init)) + [b[|b| - 1]];
      }
    }
  }

  /** Rendering succeeds exactly when no scheduled match is a finished one missing an opponent. */
  lemma {:induction false} EventsOfSucceeds(ms: seq<Match>)
    ensures EventsOf(ms).Ok? <==> forall i :: 0 <= i < |ms| ==> !Faulty(ms[i])
  {
    if ms != [] {
      var init := ms[..|ms| - 1];
      EventsOfSucceeds(init);
      assert forall i :: 0 <= i < |init| ==> init[i] == ms[i];
    }
  }

  /** On failure, the error names a faulty match of `ms` and every earlier match is mappable. */
  lemma {:induction false} EventsOfFirstError(ms: seq<Match>)
    requires EventsOf(ms).Err?
    ensures exists k :: 0 <= k < |ms| && Faulty(ms[k]) && EventsOf(ms).error == MissingOpponent(ms[k].id)
                        && forall j :: 0 <= j < k ==> !Faulty(ms[j])
  {
    var init := ms[..|ms| - 1];
    if EventsOf(init).Err? {
      EventsOfFirstError(init);
      var k :| 0 <= k < |init| && Faulty(init[k]) && EventsOf(init).error == MissingOpponent(init[k].id)
               && forall j :: 0 <= j < k ==> !Faulty(init[j]);
      assert ms[k] == init[k];
      assert forall j :: 0 <= j < k ==> ms[j] == init[j];
    } else {
      EventsOfSucceeds(init);
      var k := |ms| - 1;
      assert forall j :: 0 <= j < k ==> ms[j] == init[j];
    }
  }

  /**
   * A successful rendering has exactly one event per scheduled match, the
   * k-th event coming from the k-th scheduled match: unscheduled matches
   * are skipped and the order is kept.
   */
  lemma {:induction false} EventsOfScheduled(ms: seq<Match>)
    requires EventsOf(ms).Ok?
    ensures |EventsOf(ms).value| == |Scheduled(ms)|
    ensures forall k :: 0 <= k < |Scheduled(ms)| ==>
      MatchToEvent(Scheduled(ms)[k]) == Ok(Some(EventsOf(ms).value[k]))
  {
    if ms != [] {
      EventsOfScheduled(ms[..|ms| - 1]);
    }
  }

  /** Rendering a concatenation renders each part and concatenates the events. */
  lemma {:induction false} EventsOfAppend(a: seq<Match>, b: seq<Match>)
    ensures EventsOf(a + b) ==
      match EventsOf(a)
      case Err(e) => Err(e)
      case Ok(ea) =>
        match EventsOf(b)
        case Err(e) => Err(e)
        case Ok(eb) => Ok(ea + eb)
    decreases |b|
  {
    if b == [] {
      assert a + b == a;
      if EventsOf(a).Ok? {
        assert EventsOf(a).value + [] == EventsOf(a).value;
      }
    } else {
      var init := b[..|b| - 1];
      var last := b[|b| - 1];
      assert (a + b)[..|a + b| - 1] == a + init;
      assert (a + b)[|a + b| - 1] == last;
      EventsOfAppend(a, init);
      if EventsOf(a).Ok? && EventsOf(init).Ok? && MatchToEvent(last).Ok? && MatchToEvent(last).value.Some? {
        var ea, ei, ev := EventsOf(a).value, EventsOf(init).value, MatchToEvent(last).value.value;
        assert ea + (ei + [ev]) == (ea + ei) + [ev];
      }
    }
  }

  /** The event loop of getCalendar: skip unscheduled matches, create one event per other match. */
  method BuildCalendar(name: string, ms: seq<Match>) returns (r: Result<Calendar, Error>)
    ensures r == Render(name, ms)
  {
    var events: seq<Event> := [];
    var i := 0;
    while i < |ms|
      invariant 0 <= i <= |ms|
      invariant EventsOf(ms[..i]) == Ok(events)
    {
      var m := ms[i];
      assert ms[..i + 1][..i] == ms[..i];
      if m.beginAt.None? {
        i := i + 1;
        continue;
      }
      var title := Title(m);
      if title.Err? {
        r := Err(title.error);
        assert EventsOf(ms[..i + 1]) == Err(title.error);
        EventsOfAppend(ms[..i + 1], ms[i + 1..]);
        assert ms[..i + 1] + ms[i + 1..] == ms;
        return;
      }
      var start := m.beginAt.value;
      var end := EndTime(m);
      events := events + [Event(start, end, title.value, Description(m), Uid(m.id), TIMEZONE)];
      i := i + 1;
    }
    assert ms[..i] == ms;
    r := Ok(Calendar(name, TIMEZONE, events));
  }
}
