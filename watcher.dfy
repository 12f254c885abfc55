/** The edge-triggered watch loop: one subscription to namespace events,
    consumed in order until the channel closes. Only additions of eligible
    namespaces reach the executor; the first executor error ends the loop,
    and a closed channel ends it with a "watcher stopped" error. */
module Watcher {
  import opened Registry
  import opened Eligibility
  import EchoPod

  datatype EventType = Added | Modified | Deleted | Bookmark | ErrorEvent

  /** The payload of a watch event: a namespace, or, on an error event, the
      status the server sent instead. */
  datatype Payload = NamespaceObject(ns: Namespace) | StatusObject(message: string)

  datatype WatchEvent = WatchEvent(kind: EventType, payload: Payload)

  const WatcherStopped := Failed("watcher stopped")

  /** The loop body for an event whose payload is the namespace `ns`. */
  function Step(s: State, cfg: Config, kind: EventType, ns: Namespace): (r: (State, Option<Error>))
    // only the addition of an eligible namespace reaches the executor
    ensures !(kind == Added && Eligible(ns, cfg)) ==> r == (s, None)
    ensures kind == Added && Eligible(ns, cfg) ==> r == EchoPod.Outcome(s, ns.name)
  {
    if ns.name in cfg.excluded then (s, None)
    else if kind != Added then (s, None)
    else if !CreatedAfter(ns, cfg.startTime) then (s, None)
    else EchoPod.Outcome(s, ns.name)
  }

  /** The loop over the channel, with events whose payload is not a namespace
      passed over (see `WatchAsWritten` for the loop as written). The second
      component is the error the loop returned with, or None when the
      channel closed. */
  function Drain(s: State, cfg: Config, events: seq<WatchEvent>): (r: (State, Option<Error>))
    ensures r.0.namespaces == s.namespaces && r.0.faults == s.faults
    ensures |s.log| <= |r.0.log| && r.0.log[..|s.log|] == s.log
    decreases |events|
  {
    if events == [] then (s, None)
    else if events[0].payload.StatusObject? then Drain(s, cfg, events[1..])
    else
      var (s1, err) := Step(s, cfg, events[0].kind, events[0].payload.ns);
      if err.Some? then (s1, err) else Drain(s1, cfg, events[1..])
  }

  /** `WatchNamespace` after its client is set up: the loop, then the
      "watcher stopped" error once the channel is closed. */
  function Watch(s: State, cfg: Config, events: seq<WatchEvent>): (r: (State, Option<Error>))
    ensures r.1.Some?
    ensures r.0 == Drain(s, cfg, events).0
    ensures r.1 != Some(WatcherStopped) ==> r == Drain(s, cfg, events)
  {
    var (s1, err) := Drain(s, cfg, events);
    (s1, if err.Some? then err else Some(WatcherStopped))
  }

  method WatchNamespace(c: Cluster, cfg: Config, events: seq<WatchEvent>) returns (err: Option<Error>)
    modifies c
    ensures err.Some?
    ensures (c.Value(), err) == Watch(old(c.Value()), cfg, events)
  {
    var i := 0;
    while i < |events|
      invariant 0 <= i <= |events|
      invariant Drain(old(c.Value()), cfg, events) == Drain(c.Value(), cfg, events[i..])
    {
      var event := events[i];
      assert events[i..][1..] == events[i + 1..];
      i := i + 1;
      if event.payload.StatusObject? {
        continue;
      }
      var ns := event.payload.ns;

      if ns.name in cfg.excluded {
        continue;
      }

      match event.kind {
        case Added =>
          if !CreatedAfter(ns, cfg.startTime) {
            continue;
          }
          err := EchoPod.CreateEchoPod(c, ns.name);
          if err.Some? {
            return err;
          }
        case _ =>
          continue;
      }
    }
    err := Some(WatcherStopped);
  }

  /** `e` is an addition of a namespace that the filter lets through. */
  predicate EligibleAdd(e: WatchEvent, cfg: Config)
  {
    && e.kind == Added
    && e.payload.NamespaceObject?
    && Eligible(e.payload.ns, cfg)
  }

  /** The namespaces whose addition in `events` the loop acts on. */
  function EligibleAdds(cfg: Config, events: seq<WatchEvent>): set<string>
    decreases |events|
  {
    if events == [] then {}
    else
      (if EligibleAdd(events[0], cfg) then {events[0].payload.ns.name} else {})
      + EligibleAdds(cfg, events[1..])
  }

  /** Every request in `issued` is for the echo pod of a namespace in `names`. */
  ghost predicate OnlyFor(issued: seq<Request>, names: set<string>)
  {
    forall i | 0 <= i < |issued| :: EchoPod.TargetOf(issued[i]).Some? && EchoPod.TargetOf(issued[i]).value in names
  }

  lemma OnlyForWider(issued: seq<Request>, names: set<string>, more: set<string>)
    requires OnlyFor(issued, names) && names <= more
    ensures OnlyFor(issued, more)
  {
  }

  /** Requests over two consecutive stretches of the log. */
  lemma OnlyForJoin(a: seq<Request>, b: seq<Request>, c: seq<Request>, names: set<string>)
    requires |a| <= |b| <= |c| && b[..|a|] == a && c[..|b|] == b
    requires OnlyFor(b[|a|..], names) && OnlyFor(c[|b|..], names)
    ensures OnlyFor(c[|a|..], names)
  {
    IssuedSplit(a, b, c);
    var here, there := b[|a|..], c[|b|..];
    forall i | 0 <= i < |here + there|
      ensures EchoPod.TargetOf((here + there)[i]).Some? && EchoPod.TargetOf((here + there)[i]).value in names
    {
      if i >= |here| {
        assert (here + there)[i] == there[i - |here|];
      }
    }
  }

  /** One event whose payload is a namespace: its requests, if any, are for
      the echo pod of that namespace, and only if its addition is eligible. */
  lemma StepOnlyFor(s: State, cfg: Config, e: WatchEvent, names: set<string>)
    requires e.payload.NamespaceObject?
    requires EligibleAdd(e, cfg) ==> e.payload.ns.name in names
    ensures var s1 := Step(s, cfg, e.kind, e.payload.ns).0;
      && |s.log| <= |s1.log| && s1.log[..|s.log|] == s.log
      && OnlyFor(s1.log[|s.log|..], names)
  {
    var ns := e.payload.ns;
    var s1 := Step(s, cfg, e.kind, ns).0;
    var here := s1.log[|s.log|..];
    if e.kind == Added && Eligible(ns, cfg) {
      forall i | 0 <= i < |here|
        ensures EchoPod.Targets(here[i], ns.name)
      {
      }
    } else {
      assert here == [];
    }
  }

  /** Excluded namespaces, events other than additions, and additions of
      namespaces created at or before the start time cause no request at
      all: every request the loop issues is for the echo pod of a namespace
      with an eligible addition in the stream. */
  lemma {:induction false} OnlyEligibleAddsAreActedOn(s: State, cfg: Config, events: seq<WatchEvent>)
    ensures OnlyFor(Drain(s, cfg, events).0.log[|s.log|..], EligibleAdds(cfg, events))
    decreases |events|
  {
    if events != [] {
      var r := Drain(s, cfg, events).0;
      var names := EligibleAdds(cfg, events);
      var later := EligibleAdds(cfg, events[1..]);
      assert later <= names;
      if events[0].payload.StatusObject? {
        OnlyEligibleAddsAreActedOn(s, cfg, events[1..]);
        OnlyForWider(r.log[|s.log|..], later, names);
      } else {
        var (s1, err) := Step(s, cfg, events[0].kind, events[0].payload.ns);
        StepOnlyFor(s, cfg, events[0], names);
        if err.None? {
          OnlyEligibleAddsAreActedOn(s1, cfg, events[1..]);
          OnlyForWider(r.log[|s1.log|..], later, names);
          OnlyForJoin(s.log, s1.log, r.log, names);
        }
      }
    }
  }

  /** The first executor error ends the loop: what follows it in the stream
      is never looked at; without an error, the loop goes on with the rest. */
  lemma {:induction false} FirstErrorEndsTheLoop(s: State, cfg: Config, a: seq<WatchEvent>, b: seq<WatchEvent>)
    ensures var (s1, err) := Drain(s, cfg, a);
      Drain(s, cfg, a + b) == if err.Some? then (s1, err) else Drain(s1, cfg, b)
    decreases |a|
  {
    if a == [] {
      assert a + b == b;
    } else {
      assert (a + b)[1..] == a[1..] + b;
      FirstErrorEndsTheLoop(s, cfg, a[1..], b);
      if !a[0].payload.StatusObject? {
        var (s1, err) := Step(s, cfg, a[0].kind, a[0].payload.ns);
        if err.None? {
          FirstErrorEndsTheLoop(s1, cfg, a[1..], b);
        }
      }
    }
  }

  /** The loop never returns success: it ends with the executor's error or
      with "watcher stopped". */
  lemma WatchNeverSucceeds(s: State, cfg: Config, events: seq<WatchEvent>)
    ensures var r := Watch(s, cfg, events);
      && r.1.Some?
      && (r.1 == Some(WatcherStopped) || r.1 == Drain(s, cfg, events).1)
      && r.0.namespaces == s.namespaces
  {
  }

  // ---------------------------------------------------------------------
  // The loop as written

  /** How the loop as written ends: it returns, or the type assertion on an
      event whose payload is not a namespace panics. */
  datatype Termination = Returned(state: State, err: Option<Error>) | Panicked(state: State)

  /** The loop exactly as written: the payload is asserted to be a namespace
      before anything else is looked at. */
  function WatchAsWritten(s: State, cfg: Config, events: seq<WatchEvent>): (r: Termination)
    ensures r.Returned? ==> r.err.Some?
    ensures r.state.namespaces == s.namespaces
    // a panic needs an event whose payload is not a namespace
    ensures r.Panicked? ==> exists j | 0 <= j < |events| :: events[j].payload.StatusObject?
    decreases |events|
  {
    if events == [] then Returned(s, Some(WatcherStopped))
    else if events[0].payload.StatusObject? then Panicked(s)
    else
      var (s1, err) := Step(s, cfg, events[0].kind, events[0].payload.ns);
      if err.Some? then Returned(s1, err)
      else
        var r := WatchAsWritten(s1, cfg, events[1..]);
        assert r.Panicked? ==> exists j | 0 <= j < |events| :: events[j].payload.StatusObject? by {
          if r.Panicked? {
            var j :| 0 <= j < |events[1..]| && events[1..][j].payload.StatusObject?;
            assert events[j + 1] == events[1..][j];
          }
        }
        r
  }

  /** An error event carries a status, not a namespace: the loop as written
      panics on it, while the corrected loop passes over it. */
  lemma StatusEventPanics(s: State, cfg: Config)
    ensures var events := [WatchEvent(ErrorEvent, StatusObject("too old resource version"))];
      && WatchAsWritten(s, cfg, events) == Panicked(s)
      && Watch(s, cfg, events) == (s, Some(WatcherStopped))
  {
  }

  /** On streams whose every payload is a namespace, the corrected loop is
      the loop as written. */
  lemma {:induction false} CorrectionKeepsNamespaceStreams(s: State, cfg: Config, events: seq<WatchEvent>)
    requires forall j | 0 <= j < |events| :: events[j].payload.NamespaceObject?
    ensures WatchAsWritten(s, cfg, events) == Returned(Watch(s, cfg, events).0, Watch(s, cfg, events).1)
    decreases |events|
  {
    if events != [] {
      var (s1, err) := Step(s, cfg, events[0].kind, events[0].payload.ns);
      if err.None? {
        CorrectionKeepsNamespaceStreams(s1, cfg, events[1..]);
      }
    }
  }
}
