/** The eligibility filter shared by the three event sources: a namespace is
    acted on only if its name is not excluded and it was created strictly
    after the watcher started. */
module Eligibility {
  import opened Registry

  /** A watcher's configuration: the excluded namespace names (an empty list
      stands for the nil slice too) and the instant the watcher started. */
  datatype Config = Config(excluded: seq<string>, startTime: int)

  /** `CreationTimestamp.After(startTime)`: strictly later. */
  predicate CreatedAfter(ns: Namespace, startTime: int)
    // strict: a namespace created at the very start instant is pre-existing
    ensures ns.creationTime == startTime ==> !CreatedAfter(ns, startTime)
  {
    ns.creationTime > startTime
  }

  /** The name is not in the list, scanned entry by entry as
      `slices.Contains` does, and the namespace is newer than the start. */
  predicate Eligible(ns: Namespace, cfg: Config)
    ensures Eligible(ns, cfg) <==>
      && (forall i | 0 <= i < |cfg.excluded| :: cfg.excluded[i] != ns.name)
      && CreatedAfter(ns, cfg.startTime)
  {
    ns.name !in cfg.excluded && CreatedAfter(ns, cfg.startTime)
  }
}
