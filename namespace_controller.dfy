/** The level-triggered reconciler: an event filter in front of a work queue,
    and a reconcile pass per namespace key that re-reads the namespace and
    runs the finalizer state machine, then the pod creation. */
module NamespaceController {
  import opened Registry
  import opened Eligibility
  import EchoPod

  const WatcherFinalizer := "microsoft.com/namespace-watcher"

  /** The events the controller framework offers to the filter. */
  datatype Event =
    | CreateEvent(object: Namespace)
    | DeleteEvent(object: Namespace)
    | UpdateEvent(objectOld: Namespace, objectNew: Namespace)
    | GenericEvent(object: Namespace)

  /** `predicateFuncs`: creations always pass, deletions and generic events
      never do, and an update passes when deletion has just been requested or
      the watcher finalizer has just been added. */
  predicate Admits(e: Event)
    // on updates, the filter is a set of transitions of the coordination phase
    ensures e.UpdateEvent? ==>
      (Admits(e) <==>
        || (PhaseOf(e.objectOld) in {Unclaimed, Claimed} && PhaseOf(e.objectNew) in {Releasing, Released})
        || (PhaseOf(e.objectOld) in {Unclaimed, Released} && PhaseOf(e.objectNew) in {Claimed, Releasing}))
  {
    match e
    case CreateEvent(_) => true
    case DeleteEvent(_) => false
    case UpdateEvent(o, n) =>
      || (!o.deletionRequested && n.deletionRequested)
      || (WatcherFinalizer in n.finalizers && WatcherFinalizer !in o.finalizers)
    case GenericEvent(_) => false
  }

  /** The coordination state of a namespace, read off its finalizers and its
      deletion flag. */
  datatype Phase = Unclaimed | Claimed | Releasing | Released

  function PhaseOf(ns: Namespace): Phase
  {
    match (WatcherFinalizer in ns.finalizers, ns.deletionRequested)
    case (false, false) => Unclaimed
    case (true, false) => Claimed
    case (true, true) => Releasing
    case (false, true) => Released
  }

  /** The claim written by a pass: the finalizer added to a namespace that
      lacks it, is not being deleted and was created after the start time. */
  predicate IsClaim(ns: Namespace, u: Namespace, startTime: int)
  {
    && WatcherFinalizer !in ns.finalizers
    && !ns.deletionRequested
    && CreatedAfter(ns, startTime)
    && u == ns.(finalizers := ns.finalizers + {WatcherFinalizer})
  }

  /** The release written by a pass: the finalizer removed from a namespace
      whose deletion has been requested. */
  predicate IsRelease(ns: Namespace, u: Namespace)
  {
    && ns.deletionRequested
    && WatcherFinalizer in ns.finalizers
    && u == ns.(finalizers := ns.finalizers - {WatcherFinalizer})
  }

  /** The reconciler's own `createEchoPod`: the executor behind a second
      start-time check. */
  function CreateEchoPodOutcome(s: State, startTime: int, ns: Namespace): (r: (State, Option<Error>))
    ensures r.0.namespaces == s.namespaces && r.0.faults == s.faults
    // a namespace created at or before the start time is never given a pod
    ensures !CreatedAfter(ns, startTime) ==> r == (s, None)
    ensures r.0.pods == s.pods || CreatedAfter(ns, startTime)
    // success for a new namespace means its echo pod exists
    ensures r.1.None? && CreatedAfter(ns, startTime) ==> EchoPod.Key(ns.name) in r.0.pods
  {
    if !CreatedAfter(ns, startTime) then (s, None)
    else EchoPod.Outcome(s, ns.name)
  }

  /** What a pass does once it has read the namespace `ns` into `s`: the
      finalizer state machine, then the executor. */
  function Act(s: State, cfg: Config, ns: Namespace): (r: (State, Option<Error>))
    ensures r.0.faults == s.faults
    ensures |s.log| <= |r.0.log| && r.0.log[..|s.log|] == s.log
    ensures var issued := r.0.log[|s.log|..];
      || issued == []
      || (|issued| == 1 && (issued[0].NamespaceUpdate? || issued[0].PodGet?))
      || (|issued| == 2 && issued[0].PodGet? && issued[1].PodCreate?)
    ensures forall i | |s.log| <= i < |r.0.log| && (r.0.log[i].PodGet? || r.0.log[i].PodCreate?) ::
      EchoPod.Targets(r.0.log[i], ns.name)
    ensures forall i | |s.log| <= i < |r.0.log| && r.0.log[i].NamespaceUpdate? ::
      IsClaim(ns, r.0.log[i].ns, cfg.startTime) || IsRelease(ns, r.0.log[i].ns)
    ensures r.0.namespaces == s.namespaces
         || (|r.0.log| == |s.log| + 1 && r.0.log[|s.log|].NamespaceUpdate?
             && r.0.namespaces == s.namespaces[r.0.log[|s.log|].ns.name := r.0.log[|s.log|].ns])
    ensures r.0.pods == s.pods
         || (EchoPod.Key(ns.name) !in s.pods
             && r.0.pods == s.pods[EchoPod.Key(ns.name) := EchoPod.Manifest(ns.name)])
  {
    if ns.name in cfg.excluded then
      (s, None)
    else if WatcherFinalizer !in ns.finalizers && !ns.deletionRequested && CreatedAfter(ns, cfg.startTime) then
      s.UpdateNamespace(ns.(finalizers := ns.finalizers + {WatcherFinalizer}))
    else if ns.deletionRequested then
      if WatcherFinalizer in ns.finalizers then
        s.UpdateNamespace(ns.(finalizers := ns.finalizers - {WatcherFinalizer}))
      else
        (s, None)
    else
      CreateEchoPodOutcome(s, cfg.startTime, ns)
  }

  /** One reconcile pass for the key `name`: what it does to the registry and
      the error it hands back to the work queue (which requeues the key on
      an error). */
  function ReconcileOutcome(s: State, cfg: Config, name: string): (r: (State, Option<Error>))
    ensures r.0.faults == s.faults
    ensures |s.log| < |r.0.log| && r.0.log[..|s.log|] == s.log
    // one lookup, then nothing, one update, or the pod lookup and at most one creation
    ensures var issued := r.0.log[|s.log|..];
      || issued == [NamespaceGet(name)]
      || (|issued| == 2 && issued[0] == NamespaceGet(name) && (issued[1].NamespaceUpdate? || issued[1].PodGet?))
      || (|issued| == 3 && issued[0] == NamespaceGet(name) && issued[1].PodGet? && issued[2].PodCreate?)
    // pod requests are for the echo pod of the namespace just read
    ensures forall i | |s.log| <= i < |r.0.log| && (r.0.log[i].PodGet? || r.0.log[i].PodCreate?) ::
      name in s.namespaces && EchoPod.Targets(r.0.log[i], s.namespaces[name].name)
    // every update is a claim or a release of the namespace just read
    ensures forall i | |s.log| <= i < |r.0.log| && r.0.log[i].NamespaceUpdate? ::
      && name in s.namespaces
      && (IsClaim(s.namespaces[name], r.0.log[i].ns, cfg.startTime) || IsRelease(s.namespaces[name], r.0.log[i].ns))
    ensures r.0.namespaces == s.namespaces
         || (|r.0.log| == |s.log| + 2 && r.0.log[|s.log| + 1].NamespaceUpdate?
             && r.0.namespaces == s.namespaces[r.0.log[|s.log| + 1].ns.name := r.0.log[|s.log| + 1].ns])
    // the only pod that can appear is the echo pod of the namespace just read
    ensures r.0.pods == s.pods
         || (name in s.namespaces
             && EchoPod.Key(s.namespaces[name].name) !in s.pods
             && r.0.pods == s.pods[EchoPod.Key(s.namespaces[name].name) := EchoPod.Manifest(s.namespaces[name].name)])
  {
    var (s1, got) := s.GetNamespace(name);
    if got.Err? then
      (s1, if got.error == NotFound then None else Some(got.error))
    else
      var r := Act(s1, cfg, got.value);
      assert r.0.log[|s.log|..] == [NamespaceGet(name)] + r.0.log[|s1.log|..];
      r
  }

  /** The work queue delivering keys one after another; a key whose pass
      failed is requeued, which shows up as a later occurrence in `names`. */
  function ReconcileAll(s: State, cfg: Config, names: seq<string>): (t: State)
    ensures t.faults == s.faults
    ensures |s.log| <= |t.log| && t.log[..|s.log|] == s.log
    decreases |names|
  {
    if names == [] then s
    else ReconcileAll(ReconcileOutcome(s, cfg, names[0]).0, cfg, names[1..])
  }

  class NamespaceReconciler {
    const client: Cluster
    const excludedNamespaces: seq<string>
    const startTime: int

    function Settings(): Config
    {
      Config(excludedNamespaces, startTime)
    }

    constructor (client: Cluster, excludedNamespaces: seq<string>, startTime: int)
      ensures this.client == client
      ensures Settings() == Config(excludedNamespaces, startTime)
    {
      this.client := client;
      this.excludedNamespaces := excludedNamespaces;
      this.startTime := startTime;
    }

    /** The scan of `ExcludedNamespaces` at the top of a pass. */
    method IsExcluded(name: string) returns (excluded: bool)
      ensures excluded <==> name in excludedNamespaces
    {
      var i := 0;
      while i < |excludedNamespaces|
        invariant 0 <= i <= |excludedNamespaces|
        invariant name !in excludedNamespaces[..i]
      {
        if excludedNamespaces[i] == name {
          return true;
        }
        i := i + 1;
      }
      return false;
    }

    predicate IsCreatedAfterStartTime(ns: Namespace)
    {
      CreatedAfter(ns, startTime)
    }

    method Reconcile(name: string) returns (err: Option<Error>)
      modifies client
      ensures (client.Value(), err) == ReconcileOutcome(old(client.Value()), Settings(), name)
    {
      var got := client.GetNamespace(name);
      if got.Err? {
        if got.error == NotFound {
          return None;
        }
        return Some(got.error);
      }
      var ns := got.value;

      var excluded := IsExcluded(ns.name);
      if excluded {
        return None;
      }

      // a new namespace: claim it, and create the pod on the pass this update triggers
      if WatcherFinalizer !in ns.finalizers && !ns.deletionRequested && IsCreatedAfterStartTime(ns) {
        ns := ns.(finalizers := ns.finalizers + {WatcherFinalizer});
        err := client.UpdateNamespace(ns);
        return err;
      }

      // a namespace being deleted: release it
      if ns.deletionRequested {
        if WatcherFinalizer in ns.finalizers {
          ns := ns.(finalizers := ns.finalizers - {WatcherFinalizer});
          err := client.UpdateNamespace(ns);
          return err;
        }
        return None;
      }

      err := CreateEchoPod(ns);
    }

    method CreateEchoPod(ns: Namespace) returns (err: Option<Error>)
      modifies client
      ensures (client.Value(), err) == CreateEchoPodOutcome(old(client.Value()), startTime, ns)
    {
      if !IsCreatedAfterStartTime(ns) {
        return None;
      }
      err := EchoPod.CreateEchoPod(client, ns.name);
    }
  }

  // ---------------------------------------------------------------------
  // The event filter

  /** An update the filter lets through always moves the namespace to
      another phase of the coordination protocol. */
  lemma AdmittedUpdateChangesPhase(o: Namespace, n: Namespace)
    requires Admits(UpdateEvent(o, n))
    ensures PhaseOf(o) != PhaseOf(n)
  {
  }

  /** The filter and the reconciler's own writes: the claim update is let
      through, so the key is reconciled again and the pod gets created; the
      release update is held back. */
  lemma OwnUpdatesAndTheFilter(s: State, cfg: Config, name: string)
    ensures var r := ReconcileOutcome(s, cfg, name);
      forall i | |s.log| <= i < |r.0.log| && r.0.log[i].NamespaceUpdate? ::
        (Admits(UpdateEvent(s.namespaces[name], r.0.log[i].ns))
         <==> IsClaim(s.namespaces[name], r.0.log[i].ns, cfg.startTime))
  {
  }

  // ---------------------------------------------------------------------
  // One pass, branch by branch

  /** A namespace that is gone is a success with nothing changed; any other
      lookup error is handed back so the key is retried. */
  lemma LookupFailure(s: State, cfg: Config, name: string)
    ensures s.Fault().Some? ==>
      ReconcileOutcome(s, cfg, name) == (s.Issue(NamespaceGet(name)), Some(Failed(s.Fault().value)))
    ensures s.Fault().None? && name !in s.namespaces ==>
      ReconcileOutcome(s, cfg, name) == (s.Issue(NamespaceGet(name)), None)
  {
  }

  /** An excluded namespace is read and nothing else: no update, no pod. */
  lemma ExcludedNamespaceIsSkipped(s: State, cfg: Config, name: string)
    requires s.Fault().None? && name in s.namespaces
    requires s.namespaces[name].name in cfg.excluded
    ensures ReconcileOutcome(s, cfg, name) == (s.Issue(NamespaceGet(name)), None)
  {
  }

  /** The claim branch: one update adding the finalizer, no pod in the same
      pass, and the update's error handed back. */
  lemma ClaimBranch(s: State, cfg: Config, name: string)
    requires s.Fault().None? && name in s.namespaces
    requires var ns := s.namespaces[name];
      && ns.name !in cfg.excluded
      && WatcherFinalizer !in ns.finalizers && !ns.deletionRequested && CreatedAfter(ns, cfg.startTime)
    ensures var ns := s.namespaces[name];
      var claimed := ns.(finalizers := ns.finalizers + {WatcherFinalizer});
      var r := ReconcileOutcome(s, cfg, name);
      && r.0.log == s.log + [NamespaceGet(name), NamespaceUpdate(claimed)]
      && r.0.pods == s.pods
      && (r.1.None? <==> |s.log| + 1 !in s.faults && ns.name in s.namespaces)
      && (r.1.None? ==> r.0.namespaces == s.namespaces[ns.name := claimed])
      && (r.1.Some? ==> r.0.namespaces == s.namespaces)
  {
  }

  /** The deletion branch: the finalizer is removed with one update when it
      is present, nothing is written when it is absent, and no pod is created.
      A failed release is handed back and leaves the namespace as it was, still
      holding the finalizer, so the key is retried. */
  lemma DeletionBranch(s: State, cfg: Config, name: string)
    requires s.Fault().None? && name in s.namespaces
    requires var ns := s.namespaces[name];
      && ns.name !in cfg.excluded && ns.deletionRequested
    ensures var ns := s.namespaces[name];
      var r := ReconcileOutcome(s, cfg, name);
      && r.0.pods == s.pods
      && (WatcherFinalizer in ns.finalizers ==>
            var released := ns.(finalizers := ns.finalizers - {WatcherFinalizer});
            && r.0.log == s.log + [NamespaceGet(name), NamespaceUpdate(released)]
            && (r.1.None? <==> |s.log| + 1 !in s.faults && ns.name in s.namespaces)
            && (r.1.None? ==> r.0.namespaces == s.namespaces[ns.name := released])
            && (r.1.Some? ==> r.0.namespaces == s.namespaces))
      && (WatcherFinalizer !in ns.finalizers ==>
            r == (s.Issue(NamespaceGet(name)), None))
  {
  }

  /** With no deletion requested and the claim branch not taken, the pass
      runs the executor exactly when the namespace is newer than the start
      time, and is otherwise a success that writes nothing. */
  lemma PodBranch(s: State, cfg: Config, name: string)
    requires s.Fault().None? && name in s.namespaces
    requires var ns := s.namespaces[name];
      && ns.name !in cfg.excluded && !ns.deletionRequested
      && (WatcherFinalizer in ns.finalizers || !CreatedAfter(ns, cfg.startTime))
    ensures var ns := s.namespaces[name];
      var s1 := s.Issue(NamespaceGet(name));
      ReconcileOutcome(s, cfg, name)
        == if CreatedAfter(ns, cfg.startTime) then EchoPod.Outcome(s1, ns.name) else (s1, None)
  {
  }

  /** A namespace created at or before the start time is never claimed and
      never looked up or given a pod, whatever state it is in. */
  lemma PreExistingNamespaceIsLeftAlone(s: State, cfg: Config, name: string)
    requires name in s.namespaces && !CreatedAfter(s.namespaces[name], cfg.startTime)
    ensures var r := ReconcileOutcome(s, cfg, name);
      && r.0.pods == s.pods
      && (forall i | |s.log| <= i < |r.0.log| ::
            !r.0.log[i].PodGet? && !r.0.log[i].PodCreate?
            && (r.0.log[i].NamespaceUpdate? ==> WatcherFinalizer !in r.0.log[i].ns.finalizers))
  {
    var r := ReconcileOutcome(s, cfg, name);
    forall i | |s.log| <= i < |r.0.log|
      ensures !r.0.log[i].PodGet? && !r.0.log[i].PodCreate?
      ensures r.0.log[i].NamespaceUpdate? ==> WatcherFinalizer !in r.0.log[i].ns.finalizers
    {
      if r.0.log[i].NamespaceUpdate? {
        assert IsRelease(s.namespaces[name], r.0.log[i].ns);
      }
    }
  }

  // ---------------------------------------------------------------------
  // Many passes

  /** What one pass does to a namespace other than the one it reads: nothing. */
  lemma PassFramesOthers(s: State, cfg: Config, name: string, n: string)
    requires s.WellFormed() && n != name
    ensures var r := ReconcileOutcome(s, cfg, name).0;
      && r.WellFormed()
      && (n in r.namespaces <==> n in s.namespaces)
      && (n in s.namespaces ==> r.namespaces[n] == s.namespaces[n])
      && (EchoPod.Key(n) in r.pods <==> EchoPod.Key(n) in s.pods)
      && CreationsIn(r.log[|s.log|..], n) == 0
  {
    var r := ReconcileOutcome(s, cfg, name).0;
    var issued := r.log[|s.log|..];
    forall i | 0 <= i < |issued|
      ensures !(issued[i].PodCreate? && issued[i].pod.namespace == n)
    {
      assert issued[i] == r.log[|s.log| + i];
    }
    NoCreations(issued, n);
  }

  /** A pass over a namespace created at or before the start time that does
      not carry the finalizer changes nothing about it. */
  lemma PassLeavesPreExistingAlone(s: State, cfg: Config, n: string)
    requires s.WellFormed()
    requires n in s.namespaces && !CreatedAfter(s.namespaces[n], cfg.startTime)
    requires WatcherFinalizer !in s.namespaces[n].finalizers
    ensures var r := ReconcileOutcome(s, cfg, n).0;
      && r.WellFormed()
      && r.namespaces == s.namespaces && r.pods == s.pods
      && CreationsIn(r.log[|s.log|..], n) == 0
  {
    var r := ReconcileOutcome(s, cfg, n).0;
    PreExistingNamespaceIsLeftAlone(s, cfg, n);
    var issued := r.log[|s.log|..];
    forall i | 0 <= i < |issued|
      ensures !issued[i].PodCreate? && !issued[i].NamespaceUpdate?
    {
      assert issued[i] == r.log[|s.log| + i];
    }
    NoCreations(issued, n);
  }

  /** Pre-existing namespaces are never claimed and never given a pod, over
      any number of passes for any keys. */
  lemma {:induction false} PreExistingNamespaceNeverTouched(s: State, cfg: Config, names: seq<string>, n: string)
    requires s.WellFormed()
    requires n in s.namespaces && !CreatedAfter(s.namespaces[n], cfg.startTime)
    requires WatcherFinalizer !in s.namespaces[n].finalizers
    ensures var t := ReconcileAll(s, cfg, names);
      && t.WellFormed()
      && n in t.namespaces && t.namespaces[n] == s.namespaces[n]
      && (EchoPod.Key(n) in t.pods <==> EchoPod.Key(n) in s.pods)
      && |s.log| <= |t.log| && CreationsIn(t.log[|s.log|..], n) == 0
    decreases |names|
  {
    if names != [] {
      var r := ReconcileOutcome(s, cfg, names[0]).0;
      if names[0] == n {
        PassLeavesPreExistingAlone(s, cfg, n);
      } else {
        PassFramesOthers(s, cfg, names[0], n);
      }
      PreExistingNamespaceNeverTouched(r, cfg, names[1..], n);
      var t := ReconcileAll(r, cfg, names[1..]);
      IssuedSplit(s.log, r.log, t.log);
      CreationsInAppend(r.log[|s.log|..], t.log[|r.log|..], n);
    }
  }

  /** A pass that issues three requests ran the executor for its key and,
      on a registry that does not fail, created the missing echo pod. */
  lemma PodPassCreates(s: State, cfg: Config, n: string)
    requires s.WellFormed() && s.faults == map[]
    requires |ReconcileOutcome(s, cfg, n).0.log| == |s.log| + 3
    ensures var r := ReconcileOutcome(s, cfg, n).0;
      && n in s.namespaces
      && EchoPod.Key(n) !in s.pods && EchoPod.Key(n) in r.pods
      && r.log[|s.log| + 2] == PodCreate(EchoPod.Manifest(n))
  {
    var r := ReconcileOutcome(s, cfg, n).0;
    assert r.log[|s.log| + 1].PodGet?;
    var ns := s.namespaces[n];
    var s1 := s.Issue(NamespaceGet(n));
    assert r == EchoPod.Outcome(s1, n).0;
    EchoPod.GetThenCreate(s1, n);
  }

  /** On a registry that does not fail, a pass creates the echo pod of `n` at
      most once, only when it is missing, and the creation succeeds. */
  lemma PassCreatesAtMostOnce(s: State, cfg: Config, name: string, n: string)
    requires s.WellFormed() && s.faults == map[]
    ensures var r := ReconcileOutcome(s, cfg, name).0;
      && r.WellFormed() && r.faults == map[]
      && (EchoPod.Key(n) in s.pods ==> EchoPod.Key(n) in r.pods)
      && CreationsIn(r.log[|s.log|..], n) <= (if EchoPod.Key(n) in s.pods then 0 else 1)
      && (CreationsIn(r.log[|s.log|..], n) == 1 ==> EchoPod.Key(n) in r.pods)
  {
    var r := ReconcileOutcome(s, cfg, name).0;
    var issued := r.log[|s.log|..];
    if name != n {
      PassFramesOthers(s, cfg, name, n);
    } else if |issued| == 3 {
      PodPassCreates(s, cfg, n);
      assert issued == issued[..2] + [issued[2]];
      CreationsInAppend(issued[..2], [issued[2]], n);
      NoCreations(issued[..2], n);
      assert [issued[2]][..0] == [];
    } else {
      forall i | 0 <= i < |issued|
        ensures !(issued[i].PodCreate? && issued[i].pod.namespace == n)
      {
        assert issued[i] == r.log[|s.log| + i];
      }
      NoCreations(issued, n);
    }
  }

  /** However often and in whatever order keys are delivered, a registry
      that does not fail sees at most one creation of a namespace's echo pod,
      and none if the pod already exists. */
  lemma {:induction false} EchoPodCreatedAtMostOnce(s: State, cfg: Config, names: seq<string>, n: string)
    requires s.WellFormed() && s.faults == map[]
    ensures var t := ReconcileAll(s, cfg, names);
      && t.WellFormed() && t.faults == map[]
      && (EchoPod.Key(n) in s.pods ==> EchoPod.Key(n) in t.pods)
      && |s.log| <= |t.log|
      && CreationsIn(t.log[|s.log|..], n) <= (if EchoPod.Key(n) in s.pods then 0 else 1)
    decreases |names|
  {
    if names != [] {
      var r := ReconcileOutcome(s, cfg, names[0]).0;
      PassCreatesAtMostOnce(s, cfg, names[0], n);
      EchoPodCreatedAtMostOnce(r, cfg, names[1..], n);
      var t := ReconcileAll(r, cfg, names[1..]);
      IssuedSplit(s.log, r.log, t.log);
      CreationsInAppend(r.log[|s.log|..], t.log[|r.log|..], n);
    }
  }

  /** A new namespace on a registry that does not fail: the first pass claims
      it and its update is let through by the filter, the second creates the
      pod, and further passes change nothing. */
  lemma ClaimThenProvision(s: State, cfg: Config, n: string)
    requires s.WellFormed() && s.faults == map[]
    requires n in s.namespaces && Eligible(s.namespaces[n], cfg)
    requires PhaseOf(s.namespaces[n]) == Unclaimed
    requires EchoPod.Key(n) !in s.pods
    ensures var t1 := ReconcileOutcome(s, cfg, n).0;
      var t2 := ReconcileOutcome(t1, cfg, n).0;
      var t3 := ReconcileOutcome(t2, cfg, n).0;
      && n in t1.namespaces && PhaseOf(t1.namespaces[n]) == Claimed
      && Admits(UpdateEvent(s.namespaces[n], t1.namespaces[n]))
      && t1.pods == s.pods
      && t2.pods == s.pods[EchoPod.Key(n) := EchoPod.Manifest(n)]
      && t3.namespaces == t2.namespaces && t3.pods == t2.pods
  {
    var ns := s.namespaces[n];
    ClaimBranch(s, cfg, n);
    var t1 := ReconcileOutcome(s, cfg, n).0;
    assert t1.namespaces[n] == ns.(finalizers := ns.finalizers + {WatcherFinalizer});
    var t2 := ReconcileOutcome(t1, cfg, n).0;
    PodBranch(t1, cfg, n);
    EchoPod.GetThenCreate(t1.Issue(NamespaceGet(n)), n);
    PodBranch(t2, cfg, n);
    EchoPod.GetThenCreate(t2.Issue(NamespaceGet(n)), n);
  }

  /** A claimed namespace whose deletion is requested: the filter lets that
      update through, the pass removes the finalizer with one update, the
      filter holds that update back, and a later pass writes nothing. */
  lemma ReleaseOnDeletion(s: State, cfg: Config, n: string)
    requires s.WellFormed() && s.faults == map[]
    requires n in s.namespaces && n !in cfg.excluded
    requires PhaseOf(s.namespaces[n]) == Claimed
    ensures var ns := s.namespaces[n];
      var d := s.(namespaces := s.namespaces[n := ns.(deletionRequested := true)]);
      var t := ReconcileOutcome(d, cfg, n).0;
      && Admits(UpdateEvent(ns, d.namespaces[n]))
      && t.log == d.log + [NamespaceGet(n), NamespaceUpdate(t.namespaces[n])]
      && PhaseOf(t.namespaces[n]) == Released
      && WatcherFinalizer !in t.namespaces[n].finalizers
      && !Admits(UpdateEvent(d.namespaces[n], t.namespaces[n]))
      && ReconcileOutcome(t, cfg, n).0.namespaces == t.namespaces
      && ReconcileOutcome(t, cfg, n).0.pods == t.pods
  {
    var ns := s.namespaces[n];
    var d := s.(namespaces := s.namespaces[n := ns.(deletionRequested := true)]);
    DeletionBranch(d, cfg, n);
    var t := ReconcileOutcome(d, cfg, n).0;
    DeletionBranch(t, cfg, n);
  }
}
