/** The side effect: an idempotent get-then-create of the run-once pod
    `echo-pod` in a namespace. The watch loop and the informer each carry a
    copy of this routine; the reconciler wraps the same steps behind its own
    start-time check. */
module EchoPod {
  import opened Registry

  const Name := "echo-pod"

  /** The text before the namespace name in the echoed message. */
  const MessagePrefix := "echo namespace: "

  function Key(namespace: string): PodKey
  {
    PodKey(namespace, Name)
  }

  /** `r` is one of the two requests the executor issues for `namespace`. */
  predicate Targets(r: Request, namespace: string)
  {
    r == PodGet(Key(namespace)) || r == PodCreate(Manifest(namespace))
  }

  /** The namespace whose echo pod `r` is about, if `r` is one of the
      executor's requests. */
  function TargetOf(r: Request): (n: Option<string>)
    ensures n.Some? ==> Targets(r, n.value)
    ensures forall ns :: Targets(r, ns) ==> n == Some(ns)
  {
    match r
    case PodGet(k) => if k == Key(k.namespace) then Some(k.namespace) else None
    case PodCreate(p) => if p == Manifest(p.namespace) then Some(p.namespace) else None
    case _ => None
  }

  /** The pod the watchers create: fixed name, the given namespace, restart
      policy Never, one container run as `sh -c <message>`. */
  function Manifest(namespace: string): (p: Pod)
    ensures KeyOf(p) == Key(namespace)
    ensures p.restartPolicy == Never
    ensures |p.args| == 3 && p.args[..2] == ["sh", "-c"]
    ensures |MessagePrefix| <= |p.args[2]| && p.args[2][|MessagePrefix|..] == namespace
  {
    Pod(namespace, Name, Never, ["sh", "-c", MessagePrefix + namespace])
  }

  /** What one call of `createEchoPod` does to the registry and returns. */
  function Outcome(s: State, namespace: string): (r: (State, Option<Error>))
    ensures r.0.namespaces == s.namespaces && r.0.faults == s.faults
    ensures r.0.log == s.log + [PodGet(Key(namespace))]
         || r.0.log == s.log + [PodGet(Key(namespace)), PodCreate(Manifest(namespace))]
    ensures r.0.pods == s.pods
         || (Key(namespace) !in s.pods && r.0.pods == s.pods[Key(namespace) := Manifest(namespace)])
    // a creation is requested only when the lookup found no pod
    ensures |r.0.log| == |s.log| + 2 ==> Key(namespace) !in s.pods
    // success means the pod is there afterwards
    ensures r.1.None? ==> Key(namespace) in r.0.pods
  {
    var pod := Manifest(namespace);
    var (s1, got) := s.GetPod(KeyOf(pod));
    if got.Ok? then (s1, None)
    else if got.error != NotFound then (s1, Some(got.error))
    else s1.CreatePod(pod)
  }

  method CreateEchoPod(c: Cluster, namespace: string) returns (err: Option<Error>)
    modifies c
    ensures (c.Value(), err) == Outcome(old(c.Value()), namespace)
  {
    var pod := Manifest(namespace);
    var existing := c.GetPod(KeyOf(pod));
    if existing.Ok? {
      return None;
    }
    if existing.error != NotFound {
      return Some(existing.error);
    }
    err := c.CreatePod(pod);
  }

  /** The three outcomes of the lookup: an existing pod is success without a
      creation, a lookup error other than not-found is returned without a
      creation, and not-found leads to exactly one creation whose error is
      returned. */
  lemma GetThenCreate(s: State, namespace: string)
    ensures var r := Outcome(s, namespace);
      && (s.Fault().None? && Key(namespace) in s.pods ==>
            r == (s.Issue(PodGet(Key(namespace))), None))
      && (s.Fault().Some? ==>
            r == (s.Issue(PodGet(Key(namespace))), Some(Failed(s.Fault().value))))
      && (s.Fault().None? && Key(namespace) !in s.pods ==>
            && r.0.log == s.log + [PodGet(Key(namespace)), PodCreate(Manifest(namespace))]
            && (r.1.None? <==>
                  && |s.log| + 1 !in s.faults
                  && namespace in s.namespaces
                  && !s.namespaces[namespace].deletionRequested))
  {
  }

  /** Calling the executor again after it succeeded never requests a second
      creation and leaves the pods as they are. */
  lemma CreateIsIdempotent(s: State, namespace: string)
    requires Outcome(s, namespace).1.None?
    ensures var s1 := Outcome(s, namespace).0;
      && Outcome(s1, namespace).0.log == s1.log + [PodGet(Key(namespace))]
      && Outcome(s1, namespace).0.pods == s1.pods
  {
  }
}
