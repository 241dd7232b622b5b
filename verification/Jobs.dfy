/** The work the job queue takes on: one task a key, a bound on requested pairs, and
    sweeps on top. */
module Jobs {
  import opened Wrappers

  datatype Key = Key(tenant: string, file: string, target: string, base: string)

  // A requested pair, or a sweep of a whole tenant, which goes by a key of its own.
  datatype Kind = OnePair | Sweep

  datatype Task = Task(key: Key, kind: Kind)

  // Whether a task may join: never twice under a key, and a pair only below the bound.
  predicate Admits(pending: set<Key>, bound: nat, t: Task) {
    t.key !in pending && (t.kind == OnePair ==> |pending| < bound)
  }

  // What a finished task is remembered by.
  function Remark(t: Task, outcome: Option<string>): string {
    if outcome.None? then "error" else if t.kind == Sweep then "swept" else outcome.value
  }
}
