/** The two edge-triggered variants side by side: the watch loop reading raw
    events and the informer calling its add handler. Fed the same stream, one
    on which the watch loop meets no executor error, they issue the same
    requests and leave the registry in the same state. */
module EventSources {
  import opened Registry
  import opened Eligibility
  import Watcher
  import Informer

  /** What the informer hands its handlers for a stream of watch events:
      one notification per event carrying a namespace. */
  function Notifications(events: seq<Watcher.WatchEvent>): seq<Informer.Notification>
    decreases |events|
  {
    if events == [] then []
    else
      var e := events[0];
      var here :=
        if e.payload.StatusObject? then []
        else if e.kind == Watcher.Added then [Informer.OnAdd(e.payload.ns)]
        else if e.kind == Watcher.Modified then [Informer.OnUpdate(e.payload.ns, e.payload.ns)]
        else if e.kind == Watcher.Deleted then [Informer.OnDelete(e.payload.ns)]
        else [];
      here + Notifications(events[1..])
  }

  /** As long as no request fails, the watch loop and the informer do the
      same work on the same stream. */
  lemma {:induction false} SameWorkWithoutErrors(s: State, cfg: Config, events: seq<Watcher.WatchEvent>)
    requires Watcher.Drain(s, cfg, events).1.None?
    ensures Watcher.Drain(s, cfg, events).0 == Informer.HandleAll(s, cfg, Notifications(events))
    decreases |events|
  {
    if events != [] {
      var e := events[0];
      var rest := Notifications(events[1..]);
      if e.payload.StatusObject? {
        assert Notifications(events) == rest;
        SameWorkWithoutErrors(s, cfg, events[1..]);
      } else {
        var s1 := Watcher.Step(s, cfg, e.kind, e.payload.ns).0;
        SameWorkWithoutErrors(s1, cfg, events[1..]);
        if e.kind == Watcher.Added {
          var note := Informer.OnAdd(e.payload.ns);
          assert Notifications(events) == [note] + rest;
          assert ([note] + rest)[1..] == rest;
          assert Informer.Handle(s, cfg, note) == s1;
        } else if e.kind == Watcher.Modified || e.kind == Watcher.Deleted {
          var note := Notifications(events)[0];
          assert Notifications(events) == [note] + rest;
          assert ([note] + rest)[1..] == rest;
          assert Informer.Handle(s, cfg, note) == s1;
        } else {
          assert Notifications(events) == rest;
        }
      }
    }
  }
}
