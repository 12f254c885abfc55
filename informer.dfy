/** The informer variant: the informer calls an add handler once per
    namespace addition it delivers; no update or delete handler is
    registered. The handler applies the eligibility filter and runs the
    executor, logging and dropping its error, so later additions are still
    handled. */
module Informer {
  import opened Registry
  import opened Eligibility
  import EchoPod

  /** What the informer hands to the registered handlers, in order. */
  datatype Notification =
    | OnAdd(ns: Namespace)
    | OnUpdate(oldNs: Namespace, newNs: Namespace)
    | OnDelete(ns: Namespace)

  /** `AddFunc`: the registry after one add notification. */
  function HandleAdd(s: State, cfg: Config, ns: Namespace): (t: State)
    // only an eligible addition reaches the executor, whose error is dropped
    ensures !Eligible(ns, cfg) ==> t == s
    ensures Eligible(ns, cfg) ==> t == EchoPod.Outcome(s, ns.name).0
  {
    if ns.name in cfg.excluded then s
    else if !CreatedAfter(ns, cfg.startTime) then s
    else EchoPod.Outcome(s, ns.name).0
  }

  /** Only additions have a handler; the others cause nothing. */
  function Handle(s: State, cfg: Config, note: Notification): (t: State)
    ensures t.namespaces == s.namespaces && t.faults == s.faults
    ensures |s.log| <= |t.log| && t.log[..|s.log|] == s.log
    ensures note.OnAdd? && Eligible(note.ns, cfg) ==> t == EchoPod.Outcome(s, note.ns.name).0
  {
    match note
    case OnAdd(ns) => HandleAdd(s, cfg, ns)
    case _ => s
  }

  function HandleAll(s: State, cfg: Config, notes: seq<Notification>): (t: State)
    ensures t.namespaces == s.namespaces && t.faults == s.faults
    ensures |s.log| <= |t.log| && t.log[..|s.log|] == s.log
    decreases |notes|
  {
    if notes == [] then s
    else HandleAll(Handle(s, cfg, notes[0]), cfg, notes[1..])
  }

  method AddFunc(c: Cluster, cfg: Config, ns: Namespace)
    modifies c
    ensures c.Value() == HandleAdd(old(c.Value()), cfg, ns)
  {
    if ns.name in cfg.excluded {
      return;
    }
    if !CreatedAfter(ns, cfg.startTime) {
      return;
    }
    var err := EchoPod.CreateEchoPod(c, ns.name);
    if err.Some? {
      // logged, and the handler returns normally
      return;
    }
  }

  /** The informer delivering its notifications one by one. */
  method Deliver(c: Cluster, cfg: Config, notes: seq<Notification>)
    modifies c
    ensures c.Value() == HandleAll(old(c.Value()), cfg, notes)
  {
    for i := 0 to |notes|
      invariant HandleAll(old(c.Value()), cfg, notes) == HandleAll(c.Value(), cfg, notes[i..])
    {
      assert notes[i..][1..] == notes[i + 1..];
      if notes[i].OnAdd? {
        AddFunc(c, cfg, notes[i].ns);
      }
    }
  }

  /** An addition of an excluded namespace or of one created at or before the
      start time changes nothing, and so do updates and deletions. */
  lemma IgnoredNotifications(s: State, cfg: Config, note: Notification)
    requires !note.OnAdd? || !Eligible(note.ns, cfg)
    ensures Handle(s, cfg, note) == s
  {
  }

  /** The names of the eligible additions among `notes`, in delivery order
      and with repetitions. */
  function EligibleAddNames(cfg: Config, notes: seq<Notification>): seq<string>
    decreases |notes|
  {
    if notes == [] then []
    else
      (if notes[0].OnAdd? && Eligible(notes[0].ns, cfg) then [notes[0].ns.name] else [])
      + EligibleAddNames(cfg, notes[1..])
  }

  /** The keys of the pod lookups in `log`, in order. */
  function PodLookups(log: seq<Request>): seq<PodKey>
    decreases |log|
  {
    if log == [] then []
    else (if log[0].PodGet? then [log[0].key] else []) + PodLookups(log[1..])
  }

  /** The echo pod keys of `names`, in order. */
  function EchoPodKeys(names: seq<string>): seq<PodKey>
    decreases |names|
  {
    if names == [] then [] else [EchoPod.Key(names[0])] + EchoPodKeys(names[1..])
  }

  lemma {:induction false} PodLookupsAppend(a: seq<Request>, b: seq<Request>)
    ensures PodLookups(a + b) == PodLookups(a) + PodLookups(b)
    decreases |a|
  {
    if a == [] {
      assert a + b == b;
    } else {
      var head := if a[0].PodGet? then [a[0].key] else [];
      assert (a + b)[0] == a[0] && (a + b)[1..] == a[1..] + b;
      assert PodLookups(a + b) == head + PodLookups(a[1..] + b);
      PodLookupsAppend(a[1..], b);
      assert PodLookups(a) == head + PodLookups(a[1..]);
    }
  }

  lemma {:induction false} EchoPodKeysAppend(a: seq<string>, b: seq<string>)
    ensures EchoPodKeys(a + b) == EchoPodKeys(a) + EchoPodKeys(b)
    decreases |a|
  {
    if a == [] {
      assert a + b == b;
    } else {
      assert (a + b)[1..] == a[1..] + b;
      EchoPodKeysAppend(a[1..], b);
    }
  }

  /** One notification: an eligible addition makes exactly one lookup, of its
      own echo pod; anything else makes none. */
  lemma HandleLooksUpOnce(s: State, cfg: Config, note: Notification)
    ensures var s1 := Handle(s, cfg, note);
      && |s.log| <= |s1.log| && s1.log[..|s.log|] == s.log
      && PodLookups(s1.log[|s.log|..]) == EchoPodKeys(EligibleAddNames(cfg, [note]))
  {
    var s1 := Handle(s, cfg, note);
    var issued := s1.log[|s.log|..];
    assert [note][1..] == [];
    assert EligibleAddNames(cfg, []) == [];
    if note.OnAdd? && Eligible(note.ns, cfg) {
      var m := note.ns.name;
      assert s1 == EchoPod.Outcome(s, m).0;
      assert EligibleAddNames(cfg, [note]) == [m];
      assert EchoPodKeys([m]) == [EchoPod.Key(m)] by {
        assert [m][1..] == [];
      }
      if |issued| == 1 {
        assert issued == [PodGet(EchoPod.Key(m))];
        assert issued[1..] == [];
      } else {
        assert issued == [PodGet(EchoPod.Key(m)), PodCreate(EchoPod.Manifest(m))];
        assert issued[1..][1..] == [];
        assert PodLookups(issued[1..]) == [] + PodLookups(issued[1..][1..]);
      }
    } else {
      assert issued == [];
      assert EligibleAddNames(cfg, [note]) == [];
    }
  }

  /** Lookups over two consecutive stretches of requests. */
  lemma LookupsCompose(a: seq<Request>, b: seq<Request>, c: seq<Request>)
    requires |a| <= |b| <= |c| && b[..|a|] == a && c[..|b|] == b
    ensures PodLookups(c[|a|..]) == PodLookups(b[|a|..]) + PodLookups(c[|b|..])
  {
    IssuedSplit(a, b, c);
    PodLookupsAppend(b[|a|..], c[|b|..]);
  }

  lemma EligibleAddNamesSplit(cfg: Config, notes: seq<Notification>)
    requires notes != []
    ensures EligibleAddNames(cfg, notes) == EligibleAddNames(cfg, [notes[0]]) + EligibleAddNames(cfg, notes[1..])
  {
    assert [notes[0]][1..] == [];
  }

  lemma EligibleAddKeysSplit(cfg: Config, notes: seq<Notification>)
    requires notes != []
    ensures EchoPodKeys(EligibleAddNames(cfg, notes))
         == EchoPodKeys(EligibleAddNames(cfg, [notes[0]])) + EchoPodKeys(EligibleAddNames(cfg, notes[1..]))
  {
    EligibleAddNamesSplit(cfg, notes);
    EchoPodKeysAppend(EligibleAddNames(cfg, [notes[0]]), EligibleAddNames(cfg, notes[1..]));
  }

  /** Failures are swallowed: the handler looks up the echo pod once for
      every eligible addition, in delivery order and repetitions included,
      whatever happened to the additions before it, and makes no other
      lookup. */
  lemma {:induction false} EveryEligibleAddIsAttempted(s: State, cfg: Config, notes: seq<Notification>)
    ensures var t := HandleAll(s, cfg, notes);
      PodLookups(t.log[|s.log|..]) == EchoPodKeys(EligibleAddNames(cfg, notes))
    decreases |notes|
  {
    var t := HandleAll(s, cfg, notes);
    if notes == [] {
      assert t.log[|s.log|..] == [];
    } else {
      var s1 := Handle(s, cfg, notes[0]);
      HandleLooksUpOnce(s, cfg, notes[0]);
      EveryEligibleAddIsAttempted(s1, cfg, notes[1..]);
      LookupsCompose(s.log, s1.log, t.log);
      EligibleAddKeysSplit(cfg, notes);
    }
  }

  /** One notification on a registry that does not fail, for a namespace `n`
      that exists and is not being deleted. */
  lemma HandleCreatesAtMostOnce(s: State, cfg: Config, note: Notification, n: string)
    requires s.faults == map[] && n in s.namespaces && !s.namespaces[n].deletionRequested
    ensures var s1 := Handle(s, cfg, note);
      && (EchoPod.Key(n) in s.pods ==> EchoPod.Key(n) in s1.pods)
      && (n in EligibleAddNames(cfg, [note]) ==> EchoPod.Key(n) in s1.pods)
      && |s.log| <= |s1.log|
      && CreationsIn(s1.log[|s.log|..], n) <= (if EchoPod.Key(n) in s.pods then 0 else 1)
      && (CreationsIn(s1.log[|s.log|..], n) == 1 ==> EchoPod.Key(n) in s1.pods)
  {
    var s1 := Handle(s, cfg, note);
    var issued := s1.log[|s.log|..];
    assert [note][1..] == [];
    assert EligibleAddNames(cfg, []) == [];
    if note.OnAdd? && Eligible(note.ns, cfg) {
      assert EligibleAddNames(cfg, [note]) == [note.ns.name];
      var m := note.ns.name;
      assert s1 == EchoPod.Outcome(s, m).0;
      EchoPod.GetThenCreate(s, m);
      if |issued| == 2 && m == n {
        assert issued == [issued[0]] + [issued[1]];
        CreationsInAppend([issued[0]], [issued[1]], n);
        assert [issued[0]][..0] == [] && [issued[1]][..0] == [];
      } else {
        forall i | 0 <= i < |issued|
          ensures !(issued[i].PodCreate? && issued[i].pod.namespace == n)
        {
          assert issued[i] == s1.log[|s.log| + i];
        }
        NoCreations(issued, n);
      }
    } else {
      assert issued == [];
      assert EligibleAddNames(cfg, [note]) == [];
    }
  }

  /** Creation counts over two consecutive stretches of requests: at most one
      in all, when the first stretch's creation leaves the pod in place for
      the second. */
  lemma CreationsCompose(s: State, s1: State, t: State, n: string)
    requires |s.log| <= |s1.log| <= |t.log| && s1.log[..|s.log|] == s.log && t.log[..|s1.log|] == s1.log
    requires EchoPod.Key(n) in s.pods ==> EchoPod.Key(n) in s1.pods
    requires CreationsIn(s1.log[|s.log|..], n) <= (if EchoPod.Key(n) in s.pods then 0 else 1)
    requires CreationsIn(s1.log[|s.log|..], n) == 1 ==> EchoPod.Key(n) in s1.pods
    requires CreationsIn(t.log[|s1.log|..], n) <= (if EchoPod.Key(n) in s1.pods then 0 else 1)
    ensures CreationsIn(t.log[|s.log|..], n) <= (if EchoPod.Key(n) in s.pods then 0 else 1)
  {
    IssuedSplit(s.log, s1.log, t.log);
    CreationsInAppend(s1.log[|s.log|..], t.log[|s1.log|..], n);
  }

  /** Duplicate deliveries on a registry that does not fail: a namespace that
      exists and is not being deleted sees at most one creation of its echo
      pod (none if it already has one), and has the pod afterwards if any of
      its additions was eligible. */
  lemma {:induction false} EchoPodCreatedOnce(s: State, cfg: Config, notes: seq<Notification>, n: string)
    requires s.faults == map[] && n in s.namespaces && !s.namespaces[n].deletionRequested
    ensures var t := HandleAll(s, cfg, notes);
      && (EchoPod.Key(n) in s.pods ==> EchoPod.Key(n) in t.pods)
      && (n in EligibleAddNames(cfg, notes) ==> EchoPod.Key(n) in t.pods)
      && CreationsIn(t.log[|s.log|..], n) <= (if EchoPod.Key(n) in s.pods then 0 else 1)
    decreases |notes|
  {
    if notes != [] {
      var s1 := Handle(s, cfg, notes[0]);
      var t := HandleAll(s, cfg, notes);
      var key := EchoPod.Key(n);
      HandleCreatesAtMostOnce(s, cfg, notes[0], n);
      EchoPodCreatedOnce(s1, cfg, notes[1..], n);
      CreationsCompose(s, s1, t, n);
      EligibleAddNamesSplit(cfg, notes);
    }
  }
}
