/** The cluster's resource registry (the API server) as the three watchers see it:
    namespaces keyed by name, pods keyed by namespace and name, the log of
    requests issued so far, and the failures the server answers with.

    A failure is injected per request: if the index the next request will have
    in the log is a key of `faults`, that request fails with the given reason
    (a write conflict, a timeout, a quota refusal, ...) and changes nothing.
    A failure map covers failed requests that were not applied; what the
    model assumes of the server beyond that is listed in README.md. */
module Registry {

  datatype Option<T> = None | Some(value: T)

  datatype Result<T> = Ok(value: T) | Err(error: Error)

  /** The error kinds the watchers tell apart: `NotFound` (what
      `errors.IsNotFound` and `client.IgnoreNotFound` test for) and every other error. */
  datatype Error =
    | NotFound
    | AlreadyExists
    | Forbidden(reason: string)
    | Failed(reason: string)

  /** The part of a namespace object the watchers read. The deletion timestamp
      is only ever tested for zero, so it is a flag; the creation timestamp is
      only ever compared with a strict `After`, so it is an integer. */
  datatype Namespace = Namespace(
    name: string,
    creationTime: int,
    deletionRequested: bool,
    finalizers: set<string>)

  datatype RestartPolicy = Always | OnFailure | Never

  /** A pod as far as its identity and run-once policy go; `args` are the
      arguments of its single container. */
  datatype Pod = Pod(namespace: string, name: string, restartPolicy: RestartPolicy, args: seq<string>)

  datatype PodKey = PodKey(namespace: string, name: string)

  function KeyOf(p: Pod): PodKey
  {
    PodKey(p.namespace, p.name)
  }

  /** One call to the API server. */
  datatype Request =
    | NamespaceGet(name: string)
    | NamespaceUpdate(ns: Namespace)
    | PodGet(key: PodKey)
    | PodCreate(pod: Pod)

  datatype State = State(
    namespaces: map<string, Namespace>,
    pods: map<PodKey, Pod>,
    log: seq<Request>,
    faults: map<nat, string>)
  {
    /** Every object is stored under its own identity. */
    ghost predicate WellFormed()
    {
      && (forall n :: n in namespaces ==> namespaces[n].name == n)
      && (forall k :: k in pods ==> KeyOf(pods[k]) == k)
    }

    /** The failure injected for the next request, if any. */
    function Fault(): Option<string>
    {
      if |log| in faults then Some(faults[|log|]) else None
    }

    function Issue(r: Request): State
    {
      this.(log := log + [r])
    }

    function GetNamespace(name: string): (State, Result<Namespace>)
    {
      var s := Issue(NamespaceGet(name));
      if Fault().Some? then (s, Err(Failed(Fault().value)))
      else if name in namespaces then (s, Ok(namespaces[name]))
      else (s, Err(NotFound))
    }

    /** A full-object update; the object is stored under its own name. */
    function UpdateNamespace(ns: Namespace): (State, Option<Error>)
    {
      var s := Issue(NamespaceUpdate(ns));
      if Fault().Some? then (s, Some(Failed(Fault().value)))
      else if ns.name in namespaces then (s.(namespaces := namespaces[ns.name := ns]), None)
      else (s, Some(NotFound))
    }

    function GetPod(key: PodKey): (State, Result<Pod>)
    {
      var s := Issue(PodGet(key));
      if Fault().Some? then (s, Err(Failed(Fault().value)))
      else if key in pods then (s, Ok(pods[key]))
      else (s, Err(NotFound))
    }

    /** Creating a pod needs its namespace to exist and not to be terminating,
        and its identity to be free. */
    function CreatePod(pod: Pod): (State, Option<Error>)
    {
      var s := Issue(PodCreate(pod));
      if Fault().Some? then (s, Some(Failed(Fault().value)))
      else if pod.namespace !in namespaces then (s, Some(NotFound))
      else if namespaces[pod.namespace].deletionRequested then (s, Some(Forbidden("namespace is being terminated")))
      else if KeyOf(pod) in pods then (s, Some(AlreadyExists))
      else (s.(pods := pods[KeyOf(pod) := pod]), None)
    }
  }

  /** The client connection: the registry's state held in place, changed by
      each request the watchers issue. */
  class Cluster {
    var namespaces: map<string, Namespace>
    var pods: map<PodKey, Pod>
    var log: seq<Request>
    const faults: map<nat, string>

    function Value(): State
      reads this
    {
      State(namespaces, pods, log, faults)
    }

    constructor (namespaces: map<string, Namespace>, pods: map<PodKey, Pod>, faults: map<nat, string>)
      ensures Value() == State(namespaces, pods, [], faults)
    {
      this.namespaces := namespaces;
      this.pods := pods;
      this.log := [];
      this.faults := faults;
    }

    method GetNamespace(name: string) returns (r: Result<Namespace>)
      modifies this
      ensures (Value(), r) == old(Value()).GetNamespace(name)
    {
      var i := |log|;
      log := log + [NamespaceGet(name)];
      if i in faults {
        r := Err(Failed(faults[i]));
      } else if name in namespaces {
        r := Ok(namespaces[name]);
      } else {
        r := Err(NotFound);
      }
    }

    method UpdateNamespace(ns: Namespace) returns (err: Option<Error>)
      modifies this
      ensures (Value(), err) == old(Value()).UpdateNamespace(ns)
    {
      var i := |log|;
      log := log + [NamespaceUpdate(ns)];
      if i in faults {
        err := Some(Failed(faults[i]));
      } else if ns.name in namespaces {
        namespaces := namespaces[ns.name := ns];
        err := None;
      } else {
        err := Some(NotFound);
      }
    }

    method GetPod(key: PodKey) returns (r: Result<Pod>)
      modifies this
      ensures (Value(), r) == old(Value()).GetPod(key)
    {
      var i := |log|;
      log := log + [PodGet(key)];
      if i in faults {
        r := Err(Failed(faults[i]));
      } else if key in pods {
        r := Ok(pods[key]);
      } else {
        r := Err(NotFound);
      }
    }

    method CreatePod(pod: Pod) returns (err: Option<Error>)
      modifies this
      ensures (Value(), err) == old(Value()).CreatePod(pod)
    {
      var i := |log|;
      log := log + [PodCreate(pod)];
      if i in faults {
        err := Some(Failed(faults[i]));
      } else if pod.namespace !in namespaces {
        err := Some(NotFound);
      } else if namespaces[pod.namespace].deletionRequested {
        err := Some(Forbidden("namespace is being terminated"));
      } else if KeyOf(pod) in pods {
        err := Some(AlreadyExists);
      } else {
        pods := pods[KeyOf(pod) := pod];
        err := None;
      }
    }
  }

  /** The number of pod-creation requests in `log` for a pod in namespace `ns`. */
  function CreationsIn(log: seq<Request>, ns: string): nat
  {
    if log == [] then 0
    else CreationsIn(log[..|log| - 1], ns)
         + (if log[|log| - 1].PodCreate? && log[|log| - 1].pod.namespace == ns then 1 else 0)
  }

  lemma {:induction false} CreationsInAppend(a: seq<Request>, b: seq<Request>, ns: string)
    ensures CreationsIn(a + b, ns) == CreationsIn(a, ns) + CreationsIn(b, ns)
    decreases |b|
  {
    if b == [] {
      assert a + b == a;
    } else {
      assert (a + b)[..|a + b| - 1] == a + b[..|b| - 1];
      CreationsInAppend(a, b[..|b| - 1], ns);
    }
  }

  /** A log with no creation request for a pod in `n` counts zero. */
  lemma {:induction false} NoCreations(log: seq<Request>, n: string)
    requires forall i | 0 <= i < |log| :: !(log[i].PodCreate? && log[i].pod.namespace == n)
    ensures CreationsIn(log, n) == 0
    decreases |log|
  {
    if log != [] {
      NoCreations(log[..|log| - 1], n);
    }
  }

  /** The requests issued between `a` and `c` are those issued between `a`
      and `b` followed by those issued between `b` and `c`. */
  lemma IssuedSplit(a: seq<Request>, b: seq<Request>, c: seq<Request>)
    requires |a| <= |b| <= |c| && b[..|a|] == a && c[..|b|] == b
    ensures c[|a|..] == b[|a|..] + c[|b|..]
  {
  }
}
