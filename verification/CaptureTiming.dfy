/** Timing of a recorded run: the instants it spans, the events that tile it, and the
    checks a recording passes. Instants are milliseconds. */
module CaptureTiming {
  import opened Options

  function MinOf(xs: seq<int>): (m: int)
    requires xs != []
    ensures m in xs && forall x :: x in xs ==> m <= x
  {
    var last := xs[|xs| - 1];
    if |xs| == 1 then last
    else
      var m := MinOf(xs[..|xs| - 1]);
      assert xs == xs[..|xs| - 1] + [last];
      if last < m then last else m
  }

  function MaxOf(xs: seq<int>): (m: int)
    requires xs != []
    ensures m in xs && forall x :: x in xs ==> x <= m
  {
    var last := xs[|xs| - 1];
    if |xs| == 1 then last
    else
      var m := MaxOf(xs[..|xs| - 1]);
      assert xs == xs[..|xs| - 1] + [last];
      if last > m then last else m
  }

  /** What a capture reads: instants as parsed, None for text that is no date. */
  datatype Clocks = Clocks(
    createdAt: Option<int>, updatedAt: Option<int>, progress: seq<Option<int>>,
    fireworksAt: Option<int>, fireworksMs: nat, daytonaAt: Option<int>, daytonaMs: nat,
    braintrustAt: Option<int>, githubAt: Option<int>, codeRabbitAt: Option<int>)

  datatype Origin = Unstated | Orchestrator | Provider(name: string)

  datatype Resource = Resource(provider: string, kind: string, id: string)

  datatype RunEvent = RunEvent(sequence: nat, offsetMs: int, durationMs: int, origin: Origin,
                               resourceRefs: seq<(string, string)>)

  datatype ProviderTime = ProviderTime(capturedAt: int, durationMs: int, cleanupAt: Option<int>)

  datatype Capture = Capture(capturedAt: int, completedAt: int, providers: seq<ProviderTime>, events: seq<RunEvent>)

  predicate AllParsed(c: Clocks) {
    && c.createdAt.Some? && c.updatedAt.Some? && (forall i :: 0 <= i < |c.progress| ==> c.progress[i].Some?)
    && c.fireworksAt.Some? && c.daytonaAt.Some? && c.braintrustAt.Some? && c.githubAt.Some? && c.codeRabbitAt.Some?
  }

  function Instants(xs: seq<Option<int>>): (r: seq<int>)
    requires forall i :: 0 <= i < |xs| ==> xs[i].Some?
    ensures |r| == |xs| && forall i :: 0 <= i < |xs| ==> r[i] == xs[i].value
  {
    seq(|xs|, i requires 0 <= i < |xs| => xs[i].value)
  }

  function CapturedAt(c: Clocks): int
    requires AllParsed(c)
  {
    MinOf([c.createdAt.value] + Instants(c.progress) + Starts(c))
  }

  function CompletedAt(c: Clocks): int
    requires AllParsed(c)
  {
    MaxOf([c.updatedAt.value] + Instants(c.progress) + Ends(c))
  }

  /** The instants events are made from: the progress, or the last update if there is
      none. */
  function EventInstants(c: Clocks): (r: seq<int>)
    requires AllParsed(c)
    ensures r != []
  {
    if c.progress == [] then [c.updatedAt.value] else Instants(c.progress)
  }

  function Max(a: int, b: int): int { if a < b then b else a }

  /** The running maximum of the raw offsets. */
  function OffsetAt(instants: seq<int>, start: int, i: nat): (offset: int)
    requires i < |instants|
    ensures offset >= 0
  {
    Max(if i == 0 then 0 else OffsetAt(instants, start, i - 1), Max(0, instants[i] - start))
  }

  function Starts(c: Clocks): seq<int>
    requires AllParsed(c)
  {
    [c.fireworksAt.value, c.daytonaAt.value, c.braintrustAt.value, c.githubAt.value, c.codeRabbitAt.value]
  }

  function Ends(c: Clocks): seq<int>
    requires AllParsed(c)
  {
    [c.fireworksAt.value + c.fireworksMs, c.daytonaAt.value + c.daytonaMs, c.braintrustAt.value, c.githubAt.value,
     c.codeRabbitAt.value]
  }

  /** The run spans every instant it reads, so capture fails only on unparsed dates. */
  lemma SpanContains(c: Clocks)
    requires AllParsed(c)
    ensures CapturedAt(c) <= CompletedAt(c)
    ensures forall i :: 0 <= i < |EventInstants(c)| ==> EventInstants(c)[i] <= CompletedAt(c)
    ensures forall i :: 0 <= i < 5 ==> CapturedAt(c) <= Starts(c)[i] && Ends(c)[i] <= CompletedAt(c)
  {
    hide MinOf, MaxOf;
    MinBelow(c.createdAt.value, Instants(c.progress), Starts(c));
    MaxAbove(c.updatedAt.value, Instants(c.progress), Ends(c));
    forall i | 0 <= i < 5 ensures CapturedAt(c) <= Starts(c)[i] && Ends(c)[i] <= CompletedAt(c) {
      assert Starts(c)[i] in Starts(c) && Ends(c)[i] in Ends(c);
    }
    assert CapturedAt(c) <= Starts(c)[2] && Ends(c)[2] <= CompletedAt(c);
    InstantsEnd(c);
  }

  lemma InstantsEnd(c: Clocks)
    requires AllParsed(c)
    ensures forall i :: 0 <= i < |EventInstants(c)| ==> EventInstants(c)[i] <= CompletedAt(c)
  {
    hide MaxOf, Ends;
    MaxAbove(c.updatedAt.value, Instants(c.progress), Ends(c));
    forall i | 0 <= i < |EventInstants(c)| ensures EventInstants(c)[i] <= CompletedAt(c) {
      assert c.progress != [] ==> EventInstants(c)[i] in Instants(c.progress);
    }
  }

  /** The instant is one a run can begin with. */
  predicate Begins(c: Clocks, x: int)
    requires AllParsed(c)
  {
    x == c.createdAt.value || Some(x) in c.progress || x == c.fireworksAt.value || x == c.daytonaAt.value
    || x == c.braintrustAt.value || x == c.githubAt.value || x == c.codeRabbitAt.value
  }

  /** The instant is one a run can end with. */
  predicate Finishes(c: Clocks, x: int)
    requires AllParsed(c)
  {
    x == c.updatedAt.value || Some(x) in c.progress || x == c.fireworksAt.value + c.fireworksMs
    || x == c.daytonaAt.value + c.daytonaMs || x == c.braintrustAt.value || x == c.githubAt.value
    || x == c.codeRabbitAt.value
  }

  lemma InstantOfProgress(xs: seq<Option<int>>, x: int)
    requires forall i :: 0 <= i < |xs| ==> xs[i].Some?
    ensures x in Instants(xs) <==> Some(x) in xs
  {
    if x in Instants(xs) {
      var i :| 0 <= i < |xs| && Instants(xs)[i] == x;
      assert xs[i] == Some(x);
    }
    if Some(x) in xs {
      var i :| 0 <= i < |xs| && xs[i] == Some(x);
      assert Instants(xs)[i] == x;
    }
  }

  /** The run begins with the first of the instants it can begin with and ends with the
      last of those it can end with. */
  lemma SpanIsTight(c: Clocks)
    requires AllParsed(c)
    ensures Begins(c, CapturedAt(c)) && forall x :: Begins(c, x) ==> CapturedAt(c) <= x
    ensures Finishes(c, CompletedAt(c)) && forall x :: Finishes(c, x) ==> x <= CompletedAt(c)
  {
    hide MinOf, MaxOf;
    forall x ensures Begins(c, x) <==> x in [c.createdAt.value] + Instants(c.progress) + Starts(c) {
      InstantOfProgress(c.progress, x);
    }
    forall x ensures Finishes(c, x) <==> x in [c.updatedAt.value] + Instants(c.progress) + Ends(c) {
      InstantOfProgress(c.progress, x);
    }
  }

  /** An offset is the greatest so far of the instants' distances from the start, and never
      negative. */
  lemma {:induction false} OffsetIsGreatest(instants: seq<int>, start: int, i: nat)
    requires i < |instants|
    ensures forall k :: 0 <= k <= i ==> instants[k] - start <= OffsetAt(instants, start, i)
    ensures OffsetAt(instants, start, i) == 0 ||
            exists k :: 0 <= k <= i && OffsetAt(instants, start, i) == instants[k] - start
  {
    if i > 0 { OffsetIsGreatest(instants, start, i - 1); }
  }

  lemma MinBelow(first: int, middle: seq<int>, rest: seq<int>)
    ensures forall x :: x in rest ==> MinOf([first] + middle + rest) <= x
  {
    var all := [first] + middle + rest;
    forall x | x in rest ensures MinOf(all) <= x { assert x in all; }
  }

  lemma MaxAbove(first: int, middle: seq<int>, rest: seq<int>)
    ensures first <= MaxOf([first] + middle + rest)
    ensures forall x :: x in middle || x in rest ==> x <= MaxOf([first] + middle + rest)
  {
    var all := [first] + middle + rest;
    assert all[0] == first && all[0] in all;
    forall x | x in middle || x in rest ensures x <= MaxOf(all) { assert x in all; }
  }

  lemma OffsetWithin(instants: seq<int>, start: int, end: int, i: nat)
    requires i < |instants| && start <= end && forall k :: 0 <= k < |instants| ==> instants[k] <= end
    ensures OffsetAt(instants, start, i) <= end - start
  {
    if i > 0 { OffsetWithin(instants, start, end, i - 1); }
  }

  /** The events of a run tile it: each begins where the one before it ends, and the last
      ends with the run. */
  ghost predicate Tiles(events: seq<RunEvent>, duration: int) {
    && events != []
    && (forall i :: 0 <= i < |events| ==>
         events[i].sequence == i + 1 && events[i].offsetMs >= 0 && events[i].durationMs >= 0)
    && (forall i :: 0 <= i < |events| - 1 ==> events[i].offsetMs + events[i].durationMs == events[i + 1].offsetMs)
    && events[|events| - 1].offsetMs + events[|events| - 1].durationMs == duration
    && (forall i :: 0 <= i < |events| ==> events[i].origin == Orchestrator && events[i].resourceRefs == [])
  }

  /** How long the event at `i` lasts: until the next instant, or the end of the run. */
  function LengthAt(instants: seq<int>, start: int, end: int, i: nat): int
    requires i < |instants|
  {
    Max(0, (if i + 1 == |instants| then end else instants[i + 1]) - start - OffsetAt(instants, start, i))
  }

  function EventAt(instants: seq<int>, start: int, end: int, i: nat): RunEvent
    requires i < |instants|
  {
    RunEvent(i + 1, OffsetAt(instants, start, i), LengthAt(instants, start, end, i), Orchestrator, [])
  }

  lemma EventMeetsNext(instants: seq<int>, start: int, end: int, i: nat)
    requires i < |instants| && start <= end && forall k :: 0 <= k < |instants| ==> instants[k] <= end
    ensures OffsetAt(instants, start, i) + LengthAt(instants, start, end, i) ==
            if i + 1 < |instants| then OffsetAt(instants, start, i + 1) else end - start
  {
    OffsetWithin(instants, start, end, i);
  }

  lemma EventsTile(instants: seq<int>, start: int, end: int, events: seq<RunEvent>)
    requires instants != [] && start <= end && forall k :: 0 <= k < |instants| ==> instants[k] <= end
    requires |events| == |instants| && forall k :: 0 <= k < |instants| ==> events[k] == EventAt(instants, start, end, k)
    ensures Tiles(events, end - start)
  {
    forall i | 0 <= i < |events|
      ensures events[i].offsetMs + events[i].durationMs ==
              if i + 1 < |events| then events[i + 1].offsetMs else end - start
    {
      EventMeetsNext(instants, start, end, i);
    }
    EventMeetsNext(instants, start, end, |events| - 1);
  }

  /** The loop over the progress, carrying the last offset. */
  method BuildEvents(instants: seq<int>, start: int, end: int) returns (events: seq<RunEvent>)
    requires instants != [] && start <= end && forall k :: 0 <= k < |instants| ==> instants[k] <= end
    ensures |events| == |instants| && Tiles(events, end - start)
    ensures forall i :: 0 <= i < |events| ==> events[i].offsetMs == OffsetAt(instants, start, i)
  {
    hide Tiles;
    events := [];
    var priorOffset := 0;
    for i := 0 to |instants|
      invariant |events| == i && priorOffset == if i == 0 then 0 else OffsetAt(instants, start, i - 1)
      invariant forall k :: 0 <= k < i ==> events[k] == EventAt(instants, start, end, k)
    {
      var rawOffset := Max(0, instants[i] - start);
      var offsetMs := Max(priorOffset, rawOffset);
      priorOffset := offsetMs;
      var durationMs := if i + 1 == |instants| then Max(0, end - start - offsetMs)
        else Max(0, instants[i + 1] - start - offsetMs);
      events := events + [RunEvent(i + 1, offsetMs, durationMs, Orchestrator, [])];
    }
    EventsTile(instants, start, end, events);
  }

  function Within(at: int, durationMs: int): ProviderTime { ProviderTime(at, durationMs, None) }

  function Providers(c: Clocks, completedAt: int): seq<ProviderTime>
    requires AllParsed(c)
  {
    [ Within(c.fireworksAt.value, c.fireworksMs),
      ProviderTime(c.daytonaAt.value, c.daytonaMs, Some(completedAt)),
      Within(c.braintrustAt.value, 0), Within(c.githubAt.value, 0), Within(c.codeRabbitAt.value, 0) ]
  }

  lemma ProvidersWithin(c: Clocks)
    requires AllParsed(c)
    ensures forall i :: 0 <= i < 5 ==> ProviderAccepted(Providers(c, CompletedAt(c))[i], CapturedAt(c), CompletedAt(c))
  {
    hide CapturedAt, CompletedAt;
    SpanContains(c);
    forall i | 0 <= i < 5 ensures ProviderAccepted(Providers(c, CompletedAt(c))[i], CapturedAt(c), CompletedAt(c)) {
      assert CapturedAt(c) <= Starts(c)[i] && Ends(c)[i] <= CompletedAt(c);
    }
  }

  /** The timing part of a capture: it throws exactly when some instant is no date, and
      otherwise passes every timing check, whatever resources its providers claim. */
  method CaptureRun(c: Clocks, ghost resources: set<Resource>) returns (r: Option<Capture>)
    ensures r.Some? <==> AllParsed(c)
    ensures r.Some? ==> r.value.capturedAt == CapturedAt(c) && r.value.completedAt == CompletedAt(c)
    ensures r.Some? ==> Tiles(r.value.events, r.value.completedAt - r.value.capturedAt)
    ensures r.Some? ==> TimingAccepted(r.value, resources)
    ensures r.Some? ==> r.value.providers ==
                        [ ProviderTime(c.fireworksAt.value, c.fireworksMs, None),
                          ProviderTime(c.daytonaAt.value, c.daytonaMs, Some(r.value.completedAt)),
                          ProviderTime(c.braintrustAt.value, 0, None), ProviderTime(c.githubAt.value, 0, None),
                          ProviderTime(c.codeRabbitAt.value, 0, None) ]
    ensures r.Some? ==> EventInstants(c) == if c.progress == [] then [c.updatedAt.value] else Instants(c.progress)
    ensures r.Some? ==> |r.value.events| == |EventInstants(c)|
    ensures r.Some? ==> forall i :: 0 <= i < |r.value.events| ==>
            r.value.events[i].offsetMs == OffsetAt(EventInstants(c), CapturedAt(c), i)
  {
    hide Tiles, SequenceAccepted, CapturedAt, CompletedAt;
    if !AllParsed(c) { return None; }
    SpanContains(c);
    var capturedAtMs, completedAtMs := CapturedAt(c), CompletedAt(c);
    var providers := Providers(c, completedAtMs);
    ProvidersWithin(c);
    var events := BuildEvents(EventInstants(c), capturedAtMs, completedAtMs);
    TilingIsAccepted(events, completedAtMs - capturedAtMs, resources);
    r := Some(Capture(capturedAtMs, completedAtMs, providers, events));
  }

  // ----- the checks of a recording

  predicate RefsAccepted(e: RunEvent, resources: set<Resource>) {
    match e.origin
    case Provider(name) =>
      forall k :: 0 <= k < |e.resourceRefs| ==> Resource(name, e.resourceRefs[k].0, e.resourceRefs[k].1) in resources
    case _ => e.resourceRefs == []
  }

  predicate EventAccepted(events: seq<RunEvent>, i: nat, duration: int, resources: set<Resource>)
    requires i < |events|
  {
    && events[i].sequence == i + 1 && events[i].offsetMs + events[i].durationMs <= duration
    && events[i].offsetMs >= (if i == 0 then -1 else events[i - 1].offsetMs)
    && RefsAccepted(events[i], resources)
  }

  ghost predicate SequenceAccepted(events: seq<RunEvent>, duration: int, resources: set<Resource>) {
    forall i :: 0 <= i < |events| ==> EventAccepted(events, i, duration, resources)
  }

  /** The loop with `previousOffset` decides just that. */
  method AssertEventSequence(events: seq<RunEvent>, duration: int, resources: set<Resource>) returns (ok: bool)
    ensures ok <==> SequenceAccepted(events, duration, resources)
  {
    hide RefsAccepted;
    var previousOffset := -1;
    for index := 0 to |events|
      invariant previousOffset == if index == 0 then -1 else events[index - 1].offsetMs
      invariant forall k :: 0 <= k < index ==> EventAccepted(events, k, duration, resources)
    {
      var event := events[index];
      assert EventAccepted(events, index, duration, resources) <==>
        event.sequence == index + 1 && event.offsetMs >= previousOffset
          && event.offsetMs + event.durationMs <= duration && RefsAccepted(event, resources);
      if event.sequence != index + 1 || event.offsetMs < previousOffset
        || event.offsetMs + event.durationMs > duration
      {
        return false;
      }
      previousOffset := event.offsetMs;
      if !RefsAccepted(event, resources) { return false; }
    }
    ok := true;
  }

  predicate ProviderAccepted(p: ProviderTime, started: int, completed: int) {
    && started <= p.capturedAt <= completed && p.durationMs <= completed - started
    && (p.cleanupAt.Some? ==> started <= p.cleanupAt.value <= completed)
  }

  ghost predicate TimingAccepted(c: Capture, resources: set<Resource>) {
    && c.capturedAt <= c.completedAt
    && (forall i :: 0 <= i < |c.providers| ==> ProviderAccepted(c.providers[i], c.capturedAt, c.completedAt))
    && SequenceAccepted(c.events, c.completedAt - c.capturedAt, resources)
  }

  /** A provider's times lie within the run. */
  predicate FitsRun(c: Capture, p: ProviderTime) {
    && c.capturedAt <= p.capturedAt <= c.completedAt && p.durationMs <= c.completedAt - c.capturedAt
    && (p.cleanupAt.Some? ==> c.capturedAt <= p.cleanupAt.value <= c.completedAt)
  }

  /** An event has its number, ends within the run, does not begin before the one before it,
      and names only resources of its provider. */
  predicate FitsSequence(c: Capture, i: int, resources: set<Resource>)
    requires 0 <= i < |c.events|
  {
    var e := c.events[i];
    && e.sequence == i + 1 && e.offsetMs + e.durationMs <= c.completedAt - c.capturedAt
    && e.offsetMs >= -1 && (i > 0 ==> e.offsetMs >= c.events[i - 1].offsetMs)
    && (!e.origin.Provider? ==> |e.resourceRefs| == 0)
    && (e.origin.Provider? ==>
          forall n :: 0 <= n < |e.resourceRefs| ==>
            Resource(e.origin.name, e.resourceRefs[n].0, e.resourceRefs[n].1) in resources)
  }

  /** What the timing checks ask, written out. */
  lemma TimingExactly(c: Capture, resources: set<Resource>)
    ensures TimingAccepted(c, resources) <==>
            && c.capturedAt <= c.completedAt
            && (forall i :: 0 <= i < |c.providers| ==> FitsRun(c, c.providers[i]))
            && (forall i :: 0 <= i < |c.events| ==> FitsSequence(c, i, resources))
  {
    var duration := c.completedAt - c.capturedAt;
    if SequenceAccepted(c.events, duration, resources) {
      forall i | 0 <= i < |c.events| ensures FitsSequence(c, i, resources) {
        EventFits(c, i, resources);
        NeverBelow(c, i, resources);
      }
    }
    if forall i :: 0 <= i < |c.events| ==> FitsSequence(c, i, resources) {
      forall i | 0 <= i < |c.events| ensures EventAccepted(c.events, i, duration, resources) {
        EventFits(c, i, resources);
      }
    }
  }

  lemma EventFits(c: Capture, i: int, resources: set<Resource>)
    requires 0 <= i < |c.events|
    ensures FitsSequence(c, i, resources) <==>
            EventAccepted(c.events, i, c.completedAt - c.capturedAt, resources) && c.events[i].offsetMs >= -1
  {}

  lemma {:induction false} NeverBelow(c: Capture, i: int, resources: set<Resource>)
    requires 0 <= i < |c.events| && SequenceAccepted(c.events, c.completedAt - c.capturedAt, resources)
    ensures c.events[i].offsetMs >= -1
  {
    assert EventAccepted(c.events, i, c.completedAt - c.capturedAt, resources);
    if i > 0 { NeverBelow(c, i - 1, resources); }
  }

  /** The timing checks of `validateCapture`: the run's duration, or None where they throw. */
  method ValidateTiming(c: Capture, resources: set<Resource>) returns (r: Option<int>)
    ensures r == if TimingAccepted(c, resources) then Some(c.completedAt - c.capturedAt) else None
  {
    if c.completedAt < c.capturedAt { return None; }
    for i := 0 to |c.providers|
      invariant forall k :: 0 <= k < i ==> ProviderAccepted(c.providers[k], c.capturedAt, c.completedAt)
    {
      if !ProviderAccepted(c.providers[i], c.capturedAt, c.completedAt) { return None; }
    }
    var ok := AssertEventSequence(c.events, c.completedAt - c.capturedAt, resources);
    if !ok { return None; }
    r := Some(c.completedAt - c.capturedAt);
  }

  function SumDurations(events: seq<RunEvent>): int {
    if events == [] then 0 else SumDurations(events[..|events| - 1]) + events[|events| - 1].durationMs
  }

  /** In a tiling the first offset and all durations add up to the run. */
  lemma {:induction false} TilingSums(events: seq<RunEvent>, duration: int)
    requires Tiles(events, duration)
    ensures events[0].offsetMs + SumDurations(events) == duration
  {
    var n := |events| - 1;
    if n == 0 {
      assert events[..0] == [];
    } else {
      TilingSums(events[..n], events[n].offsetMs);
    }
  }

  /** A tiling always passes the checker, whatever the resources. */
  lemma TilingIsAccepted(events: seq<RunEvent>, duration: int, resources: set<Resource>)
    requires Tiles(events, duration)
    ensures SequenceAccepted(events, duration, resources)
  {
    forall i | 0 <= i < |events|
      ensures events[i].offsetMs + events[i].durationMs <= duration
      ensures i > 0 ==> events[i - 1].offsetMs <= events[i].offsetMs
    {
      EndsWithin(events, duration, i);
      if i > 0 { assert events[i - 1].offsetMs + events[i - 1].durationMs == events[i].offsetMs; }
    }
  }

  lemma {:induction false} EndsWithin(events: seq<RunEvent>, duration: int, i: nat)
    requires Tiles(events, duration) && i < |events|
    ensures events[i].offsetMs + events[i].durationMs <= duration
    decreases |events| - i
  {
    if i + 1 < |events| { EndsWithin(events, duration, i + 1); }
  }
}
