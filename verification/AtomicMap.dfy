/** The specification of the trie: a map from page keys to values with atomic operations. */
module AtomicMap {
  import opened Radix

  /** A mapping with one key set to a value, or removed when the value is null. */
  function Put(m: map<nat, nat>, key: nat, value: nat): map<nat, nat> {
    if value == 0 then m - {key} else m[key := value]
  }

  function Get(m: map<nat, nat>, key: nat): nat {
    if key in m then m[key] else 0
  }

  datatype Op = Insert(page: nat, value: nat) | Clear(page: nat) | Lookup(page: nat)

  /** `Dropped` is an insertion that was refused memory for a node. */
  datatype Result = Stored | Dropped | Cleared | Found(value: nat)

  datatype Phase = Idle | Pending(op: Op) | Done(op: Op, result: Result)

  datatype Atom = Atom(m: map<nat, nat>, phases: map<nat, Phase>)

  function PhaseOf(a: Atom, thread: nat): Phase {
    if thread in a.phases then a.phases[thread] else Idle
  }

  /** The one atomic effect of an operation, and the result it returns. An insertion is dropped exactly when, at
      that very step, the allocator refuses it memory. */
  predicate TakesEffect(m: map<nat, nat>, op: Op, refused: bool, m': map<nat, nat>, result: Result) {
    match op
    case Insert(page, value) =>
      if refused then m' == m && result == Dropped else m' == Put(m, Key(page), value) && result == Stored
    case Clear(page) => m' == Put(m, Key(page), 0) && result == Cleared
    case Lookup(page) => m' == m && result == Found(Get(m, Key(page)))
  }

  /** A step of one thread; the allocator may refuse memory in it. */
  datatype Move = Move(thread: nat, refused: bool)

  /** One step of a thread: it calls, takes effect once, returns, or nothing visible happens. When memory is
      refused, the operation takes effect. */
  ghost predicate Next(a: Atom, move: Move, a': Atom) {
    var thread := move.thread;
    && (forall u :: u != thread ==> PhaseOf(a', u) == PhaseOf(a, u))
    && match PhaseOf(a, thread)
       case Idle => a'.m == a.m && (PhaseOf(a', thread).Pending? || PhaseOf(a', thread) == Idle)
       case Pending(op) =>
         || (a'.m == a.m && PhaseOf(a', thread) == Pending(op) && !move.refused)
         || (PhaseOf(a', thread).Done? && PhaseOf(a', thread).op == op
             && TakesEffect(a.m, op, move.refused, a'.m, PhaseOf(a', thread).result))
       case Done(_, _) => a'.m == a.m && PhaseOf(a', thread) == Idle
  }

  /** A history of the specification, starting from the empty map with every thread idle. */
  ghost predicate IsRun(run: seq<Atom>, moves: seq<Move>) {
    && |run| == |moves| + 1
    && run[0].m == map[] && (forall u :: PhaseOf(run[0], u) == Idle)
    && forall i :: 0 <= i < |moves| ==> Next(run[i], moves[i], run[i + 1])
  }
}
