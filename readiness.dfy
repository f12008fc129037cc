/** The local readiness verdict of `determine_state`. The three probes
    (network route, docker, writable disk) and the lock-presence report are
    inputs. */
module Readiness {
  import opened JsonValues

  datatype Verdict = READY | DEGRADED | HALT

  /** The verdict's wire name, the mode key the runtime manifest uses. */
  function Name(v: Verdict): (s: string)
    ensures s in {"READY", "DEGRADED", "HALT"}
  {
    match v
    case READY => "READY"
    case DEGRADED => "DEGRADED"
    case HALT => "HALT"
  }

  /** `bool(lock_presence(lock_file).get("exists"))`. */
  predicate AuthorityPresent(lock: map<string, Json>)
  {
    Truthy(Get(lock, "exists", JNull))
  }

  /** `determine_state`. */
  function DetermineState(network: bool, docker: bool, disk: bool, lock: map<string, Json>): (v: Verdict)
    ensures v == HALT <==> !(network && docker && disk)
    ensures v == READY <==> network && docker && disk && AuthorityPresent(lock)
    ensures v == DEGRADED <==> network && docker && disk && !AuthorityPresent(lock)
  {
    if !(network && docker && disk) then HALT
    else if AuthorityPresent(lock) then READY
    else DEGRADED
  }

  /** When a probe fails the lock report plays no part in the verdict. */
  lemma LockIgnoredOnHalt(network: bool, docker: bool, disk: bool, lock1: map<string, Json>, lock2: map<string, Json>)
    requires !(network && docker && disk)
    ensures DetermineState(network, docker, disk, lock1) == DetermineState(network, docker, disk, lock2)
  {
  }

  /** The verdicts are ordered by health: HALT < DEGRADED < READY, and the
      verdict never improves when a probe or the lock is lost. */
  function Rank(v: Verdict): nat
  {
    match v
    case HALT => 0
    case DEGRADED => 1
    case READY => 2
  }

  lemma VerdictMonotone(n1: bool, d1: bool, k1: bool, lock1: map<string, Json>,
                        n2: bool, d2: bool, k2: bool, lock2: map<string, Json>)
    requires (n1 ==> n2) && (d1 ==> d2) && (k1 ==> k2) && (AuthorityPresent(lock1) ==> AuthorityPresent(lock2))
    ensures Rank(DetermineState(n1, d1, k1, lock1)) <= Rank(DetermineState(n2, d2, k2, lock2))
  {
  }
}
