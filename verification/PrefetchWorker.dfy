/** The background prefetch worker: a queue of growth hints, a marker of what is being grown, a
    condition variable, and registration of managers. Managers are never reused. */
module PrefetchWorker {
  import opened Sequences

  /** The worker thread. From Popped on to the store it holds queue_lock_; from EvalQueue to
      AboutToBlock, and in CheckStop and LastLook, it holds sleep_mtx_. */
  datatype WorkerPc =
    | Off                        // not started, or has returned
    | Poll                       // about to look at the queue
    | Popped(m: nat)             // took m from the queue, about to store working_on_
    | Growing(m: nat)            // inside m->grow_background()
    | Drowsy                     // saw an empty queue, about to lock sleep_mtx_
    | EvalQueue                  // evaluating the wait predicate: about to look at the queue
    | EvalStop(work: bool)       // ... about to load stop_
    | AboutToBlock               // predicate false
    | Waiting                    // blocked on the condition variable
    | Woken                      // about to lock sleep_mtx_ again
    | CheckStop                  // wait returned: about to load stop_
    | LastLook                   // stop_ was set: about to look at the queue once more

  /** Any other thread. Joining threads hold mtx_. */
  datatype Pc =
    | Out
    | Hint(m: nat)               // hint_growth: about to lock queue_lock_
    | Pushed                     // has pushed, about to pass through sleep_mtx_
    | Synced                     // about to notify
    | Filter(m: nat)             // unregister_manager: about to remove m from the queue
    | Spin(m: nat)               // about to load working_on_
    | Leave(m: nat)              // about to lock mtx_ and count down
    | SetStop(m: nat)            // last manager: about to store stop_
    | NotifyStop(m: nat)
    | Join(m: nat)

  datatype Life = Unborn | Live | Closing | Closed

  /** `workingOn` is 0 when null. `counted` is auxiliary: the managers active_managers_ counts. */
  datatype State = State(queue: seq<nat>, workingOn: nat, stop: bool, active: nat, mtx: set<nat>,
                         worker: WorkerPc, pcs: map<nat, Pc>, life: map<nat, Life>, counted: set<nat>)

  datatype Label =
    | Worker | Spurious | Register(m: nat) | Run(thread: nat)
    | CallHint(thread: nat, m: nat) | CallUnregister(thread: nat, m: nat)

  function PcOf(s: State, t: nat): Pc {
    if t in s.pcs then s.pcs[t] else Out
  }

  function LifeOf(s: State, m: nat): Life {
    if m in s.life then s.life[m] else Unborn
  }

  predicate QueueFree(s: State) {
    !s.worker.Popped?
  }

  predicate SleepFree(w: WorkerPc) {
    !(w.EvalQueue? || w.EvalStop? || w.AboutToBlock? || w.CheckStop? || w.LastLook?)
  }

  /** A manager is hinted only while live, and unregistered once, with no hint for it still about to
      be pushed. Locks block. */
  ghost predicate Enabled(s: State, l: Label) {
    match l
    case Worker => !s.worker.Off? && !s.worker.Waiting?
    case Spurious => s.worker.Waiting?
    case Register(m) => m != 0 && LifeOf(s, m).Unborn? && s.mtx == {}
    case CallHint(t, m) => PcOf(s, t).Out? && LifeOf(s, m).Live?
    case CallUnregister(t, m) =>
      PcOf(s, t).Out? && LifeOf(s, m).Live? && forall u :: u in s.pcs ==> s.pcs[u] != Hint(m)
    case Run(t) =>
      match PcOf(s, t)
      case Out => false
      case Hint(_) => QueueFree(s)
      case Pushed => SleepFree(s.worker)
      case Filter(_) => QueueFree(s)
      case Leave(_) => s.mtx == {}
      case Join(_) => s.worker.Off?
      case _ => true
  }

  /** The loop of unregister_manager that rebuilds the queue without one manager, in order. */
  method RebuildQueue(queue: seq<nat>, m: nat) returns (rebuilt: seq<nat>)
    ensures rebuilt == Without(queue, m)
  {
    rebuilt := [];
    var rest := queue;
    ghost var done: seq<nat> := [];
    while rest != []
      invariant done + rest == queue && rebuilt == Without(done, m)
      decreases |rest|
    {
      var front := rest[0];
      WithoutSnoc(done, front, m);
      done := done + [front];
      rest := rest[1..];
      if front != m {
        rebuilt := rebuilt + [front];
      }
    }
    assert done == queue;
  }

  /** The worker's next program point. */
  function WorkerAfter(s: State): WorkerPc {
    match s.worker
    case Off => Off
    case Poll => if s.queue == [] then Drowsy else Popped(s.queue[0])
    case Popped(m) => Growing(m)
    case Growing(_) => Poll
    case Drowsy => EvalQueue
    case EvalQueue => EvalStop(s.queue != [])
    case EvalStop(work) => if s.stop || work then CheckStop else AboutToBlock
    case AboutToBlock => Waiting
    case Waiting => Woken
    case Woken => EvalQueue
    case CheckStop => if s.stop then LastLook else Poll
    case LastLook => if s.queue != [] then Poll else Off
  }

  /** notify_one: the worker is the only waiter. */
  function Notified(w: WorkerPc): WorkerPc {
    if w.Waiting? then Woken else w
  }

  function WorkerStep(s: State): State {
    s.(worker := WorkerAfter(s),
       queue := if s.worker.Poll? && s.queue != [] then s.queue[1..] else s.queue,
       workingOn := match s.worker { case Popped(m) => m case Growing(_) => 0 case _ => s.workingOn })
  }

  /** One step of a thread inside hint_growth or unregister_manager. */
  function ThreadStep(s: State, t: nat): State {
    match PcOf(s, t)
    case Out => s
    case Hint(m) =>
      if s.queue != [] && s.queue[|s.queue| - 1] == m then s.(pcs := s.pcs[t := Out])
      else s.(queue := s.queue + [m], pcs := s.pcs[t := Pushed])
    case Pushed => s.(pcs := s.pcs[t := Synced])
    case Synced => s.(worker := Notified(s.worker), pcs := s.pcs[t := Out])
    case Filter(m) => s.(queue := Without(s.queue, m), pcs := s.pcs[t := Spin(m)])
    case Spin(m) => if s.workingOn == m then s else s.(pcs := s.pcs[t := Leave(m)])
    case Leave(m) =>
      var s' := s.(active := if s.active > 0 then s.active - 1 else 0, counted := s.counted - {m});
      if s'.active == 0 then s'.(mtx := {t}, pcs := s.pcs[t := SetStop(m)])
      else s'.(pcs := s.pcs[t := Out], life := s.life[m := Closed])
    case SetStop(m) => s.(stop := true, pcs := s.pcs[t := NotifyStop(m)])
    case NotifyStop(m) => s.(worker := Notified(s.worker), pcs := s.pcs[t := Join(m)])
    case Join(m) => s.(mtx := {}, pcs := s.pcs[t := Out], life := s.life[m := Closed])
  }

  ghost function Act(s: State, l: Label): State
    requires Enabled(s, l)
  {
    match l
    case Worker => WorkerStep(s)
    case Spurious => WorkerStep(s)
    case Register(m) =>
      State(s.queue, s.workingOn, if s.active == 0 then false else s.stop, s.active + 1, s.mtx,
            if s.active == 0 then Poll else s.worker, s.pcs, s.life[m := Live], s.counted + {m})
    case CallHint(t, m) => s.(pcs := s.pcs[t := Hint(m)])
    case CallUnregister(t, m) => s.(pcs := s.pcs[t := Filter(m)], life := s.life[m := Closing])
    case Run(t) => ThreadStep(s, t)
  }

  ghost predicate Init(s: State) {
    s == State([], 0, false, 0, {}, Off, map[], map[], {})
  }

  ghost predicate StepsAt(run: seq<State>, labels: seq<Label>, i: nat) {
    i + 1 < |run| && i < |labels| && Enabled(run[i], labels[i]) && run[i + 1] == Act(run[i], labels[i])
  }

  ghost predicate IsRun(run: seq<State>, labels: seq<Label>) {
    && |run| == |labels| + 1 && Init(run[0])
    && forall i {:trigger StepsAt(run, labels, i)} :: 0 <= i < |labels| ==> StepsAt(run, labels, i)
  }

  // ---- no call on a dead manager ----

  /** The worker holds m: it has popped it or is growing it. */
  predicate Has(w: WorkerPc, m: nat) {
    w == Popped(m) || w == Growing(m)
  }

  /** m has left the queue and the worker's hands for good. */
  ghost predicate Gone(s: State, m: nat) {
    m !in s.queue && !Has(s.worker, m)
  }

  ghost predicate PcOk(s: State, t: nat, pc: Pc) {
    match pc
    case Hint(m) => m != 0 && LifeOf(s, m).Live?
    case Filter(m) => m in s.counted && LifeOf(s, m).Closing?
    case Spin(m) => m in s.counted && LifeOf(s, m).Closing? && m !in s.queue && s.worker != Popped(m)
    case Leave(m) => m in s.counted && LifeOf(s, m).Closing? && Gone(s, m)
    case SetStop(m) => LifeOf(s, m).Closing? && Gone(s, m) && s.mtx == {t} && s.active == 0
    case NotifyStop(m) => LifeOf(s, m).Closing? && Gone(s, m) && s.mtx == {t} && s.active == 0 && s.stop
    case Join(m) => LifeOf(s, m).Closing? && Gone(s, m) && s.mtx == {t} && s.active == 0 && s.stop
    case _ => true
  }

  /** The manager a thread is unregistering. */
  function Closes(pc: Pc): set<nat> {
    match pc
    case Filter(m) => {m}
    case Spin(m) => {m}
    case Leave(m) => {m}
    case SetStop(m) => {m}
    case NotifyStop(m) => {m}
    case Join(m) => {m}
    case _ => {}
  }

  predicate Apart(s: State, t: nat, u: nat) {
    t in s.pcs && u in s.pcs && (t != u ==> Closes(s.pcs[t]) !! Closes(s.pcs[u]))
  }

  /** Who may be in the queue or in the worker's hands. */
  ghost predicate LifeOk(s: State, m: nat) {
    match LifeOf(s, m)
    case Unborn => Gone(s, m) && m !in s.counted
    case Live => m != 0 && m in s.counted
    case Closing => m != 0
    case Closed => Gone(s, m) && m !in s.counted
  }

  ghost predicate WorkerOk(s: State) {
    && s.workingOn == (if s.worker.Growing? then s.worker.m else 0)
    && (s.active > 0 ==> !s.stop && !s.worker.Off? && !s.worker.LastLook?)
    && (s.active == 0 && s.mtx == {} ==> s.worker.Off?)
    && s.active == |s.counted|
    && (s.worker.Popped? || s.worker.Growing? ==> s.worker.m != 0)
  }

  ghost predicate Inv(s: State) {
    && WorkerOk(s)
    && (forall m {:trigger LifeOk(s, m)} :: LifeOk(s, m))
    && (forall t {:trigger s.pcs[t]} :: t in s.pcs ==> PcOk(s, t, s.pcs[t]))
    && (forall t, u {:trigger Apart(s, t, u)} :: t in s.pcs && u in s.pcs ==> Apart(s, t, u))
  }

  lemma WorkerKeepsInv(s: State)
    requires Inv(s) && !s.worker.Off?
    ensures Inv(WorkerStep(s))
  {
    var s' := WorkerStep(s);
    assert forall x :: x in s'.queue ==> x in s.queue;
    if s.worker.Poll? && s.queue != [] {
      assert s.queue[0] in s.queue && LifeOk(s, s.queue[0]);
    }
    forall m ensures LifeOk(s', m) {
      assert LifeOk(s, m);
    }
    forall t | t in s'.pcs ensures PcOk(s', t, s'.pcs[t]) {
      assert PcOk(s, t, s.pcs[t]);
    }
    forall t, u | t in s'.pcs && u in s'.pcs ensures Apart(s', t, u) {
      assert Apart(s, t, u);
    }
  }

  lemma RegisterKeepsInv(s: State, m: nat)
    requires Inv(s) && Enabled(s, Register(m))
    ensures Inv(Act(s, Register(m)))
  {
    var s' := Act(s, Register(m));
    forall n ensures LifeOk(s', n) {
      assert LifeOk(s, n);
    }
    assert LifeOk(s, m);
    forall t | t in s'.pcs ensures PcOk(s', t, s'.pcs[t]) {
      assert PcOk(s, t, s.pcs[t]);
    }
    forall t, u | t in s'.pcs && u in s'.pcs ensures Apart(s', t, u) {
      assert Apart(s, t, u);
    }
  }

  lemma CallKeepsInv(s: State, l: Label)
    requires Inv(s) && Enabled(s, l) && (l.CallHint? || l.CallUnregister?)
    ensures Inv(Act(s, l))
  {
    var s' := Act(s, l);
    assert LifeOk(s, l.m);
    forall n ensures LifeOk(s', n) {
      assert LifeOk(s, n);
    }
    forall t | t in s'.pcs ensures PcOk(s', t, s'.pcs[t]) {
      assert t in s.pcs ==> PcOk(s, t, s.pcs[t]);
    }
    forall t, u | t in s'.pcs && u in s'.pcs ensures Apart(s', t, u) {
      assert t in s.pcs && u in s.pcs ==> Apart(s, t, u);
      assert t in s.pcs ==> PcOk(s, t, s.pcs[t]);
      assert u in s.pcs ==> PcOk(s, u, s.pcs[u]);
    }
  }

  lemma PushKeepsInv(s: State, t: nat)
    requires Inv(s) && Enabled(s, Run(t)) && PcOf(s, t).Hint?
    ensures Inv(ThreadStep(s, t))
  {
    var s', m := ThreadStep(s, t), s.pcs[t].m;
    assert PcOk(s, t, s.pcs[t]);
    assert forall x :: x in s'.queue ==> x in s.queue || x == m;
    forall n ensures LifeOk(s', n) {
      assert LifeOk(s, n);
    }
    forall u | u in s'.pcs ensures PcOk(s', u, s'.pcs[u]) {
      assert PcOk(s, u, s.pcs[u]);
    }
    forall u, v | u in s'.pcs && v in s'.pcs ensures Apart(s', u, v) {
      assert Apart(s, u, v);
    }
  }

  lemma NotifyKeepsInv(s: State, t: nat)
    requires Inv(s) && Enabled(s, Run(t)) && (PcOf(s, t).Pushed? || PcOf(s, t).Synced?)
    ensures Inv(ThreadStep(s, t))
  {
    var s' := ThreadStep(s, t);
    forall n ensures LifeOk(s', n) {
      assert LifeOk(s, n);
    }
    forall u | u in s'.pcs ensures PcOk(s', u, s'.pcs[u]) {
      assert PcOk(s, u, s.pcs[u]);
    }
    forall u, v | u in s'.pcs && v in s'.pcs ensures Apart(s', u, v) {
      assert Apart(s, u, v);
    }
  }

  /** After the filter the worker cannot pop m any more, and what it popped earlier it has marked. */
  lemma FilterKeepsInv(s: State, t: nat)
    requires Inv(s) && Enabled(s, Run(t)) && (PcOf(s, t).Filter? || PcOf(s, t).Spin?)
    ensures Inv(ThreadStep(s, t))
  {
    var s' := ThreadStep(s, t);
    assert PcOk(s, t, s.pcs[t]);
    assert LifeOk(s, s.pcs[t].m);
    forall n ensures LifeOk(s', n) {
      assert LifeOk(s, n);
    }
    forall u | u in s'.pcs ensures PcOk(s', u, s'.pcs[u]) {
      assert PcOk(s, u, s.pcs[u]);
    }
    forall u, v | u in s'.pcs && v in s'.pcs ensures Apart(s', u, v) {
      assert Apart(s, u, v);
    }
  }

  lemma LeaveKeepsInv(s: State, t: nat)
    requires Inv(s) && Enabled(s, Run(t)) && PcOf(s, t).Leave?
    ensures Inv(ThreadStep(s, t))
  {
    var s', m := ThreadStep(s, t), s.pcs[t].m;
    assert PcOk(s, t, s.pcs[t]);
    assert |s'.counted| == |s.counted| - 1;
    forall n ensures LifeOk(s', n) {
      assert LifeOk(s, n);
    }
    forall u | u in s'.pcs ensures PcOk(s', u, s'.pcs[u]) {
      assert PcOk(s, u, s.pcs[u]) && Apart(s, t, u);
    }
    forall u, v | u in s'.pcs && v in s'.pcs ensures Apart(s', u, v) {
      assert Apart(s, u, v);
    }
  }

  lemma StopKeepsInv(s: State, t: nat)
    requires Inv(s) && Enabled(s, Run(t)) && (PcOf(s, t).SetStop? || PcOf(s, t).NotifyStop? || PcOf(s, t).Join?)
    ensures Inv(ThreadStep(s, t))
  {
    var s' := ThreadStep(s, t);
    assert PcOk(s, t, s.pcs[t]);
    assert s.counted == {};
    forall n ensures LifeOk(s', n) {
      assert LifeOk(s, n);
    }
    forall u | u in s'.pcs ensures PcOk(s', u, s'.pcs[u]) {
      assert PcOk(s, u, s.pcs[u]) && Apart(s, t, u);
    }
    forall u, v | u in s'.pcs && v in s'.pcs ensures Apart(s', u, v) {
      assert Apart(s, u, v);
    }
  }

  lemma StepKeepsInv(s: State, l: Label)
    requires Inv(s) && Enabled(s, l)
    ensures Inv(Act(s, l))
  {
    match l
    case Worker => WorkerKeepsInv(s);
    case Spurious => WorkerKeepsInv(s);
    case Register(m) => RegisterKeepsInv(s, m);
    case CallHint(_, _) => CallKeepsInv(s, l);
    case CallUnregister(_, _) => CallKeepsInv(s, l);
    case Run(t) =>
      var pc := PcOf(s, t);
      if pc.Hint? {
        PushKeepsInv(s, t);
      } else if pc.Pushed? || pc.Synced? {
        NotifyKeepsInv(s, t);
      } else if pc.Filter? || pc.Spin? {
        FilterKeepsInv(s, t);
      } else if pc.Leave? {
        LeaveKeepsInv(s, t);
      } else {
        StopKeepsInv(s, t);
      }
  }

  lemma {:induction false} RunKeepsInv(run: seq<State>, labels: seq<Label>, i: nat)
    requires IsRun(run, labels) && i < |run|
    ensures Inv(run[i])
  {
    if i > 0 {
      RunKeepsInv(run, labels, i - 1);
      assert StepsAt(run, labels, i - 1);
      StepKeepsInv(run[i - 1], labels[i - 1]);
    }
  }

  lemma {:induction false} ClosedForGood(run: seq<State>, labels: seq<Label>, i: nat, j: nat, m: nat)
    requires IsRun(run, labels) && i <= j < |run| && LifeOf(run[i], m).Closed?
    ensures LifeOf(run[j], m).Closed?
  {
    if i < j {
      ClosedForGood(run, labels, i, j - 1, m);
      RunKeepsInv(run, labels, j - 1);
      assert StepsAt(run, labels, j - 1);
      var s, l := run[j - 1], labels[j - 1];
      if l.Run? {
        assert PcOk(s, l.thread, s.pcs[l.thread]);
      }
    }
  }

  /** Once unregister_manager(m) has returned (state i), the worker is not inside grow_background on
      m and never enters it again, in any interleaving with other hints and unregistrations. */
  lemma NoCallOnDeadManager(run: seq<State>, labels: seq<Label>, i: nat, j: nat, m: nat)
    requires IsRun(run, labels) && i <= j < |run| && LifeOf(run[i], m).Closed?
    ensures run[j].worker != Growing(m) && run[j].worker != Popped(m) && m !in run[j].queue
  {
    ClosedForGood(run, labels, i, j, m);
    RunKeepsInv(run, labels, j);
    assert LifeOk(run[j], m);
  }

  /** Starting a worker thread never overwrites one that is still running. */
  lemma SpawnsOnlyWhenOff(run: seq<State>, labels: seq<Label>, i: nat, m: nat)
    requires IsRun(run, labels) && i < |run| && Enabled(run[i], Register(m)) && run[i].active == 0
    ensures run[i].worker.Off?
  {
    RunKeepsInv(run, labels, i);
  }

  // ---- no lost growth hint ----

  /** The worker has found the queue empty and is committed to blocking. */
  predicate Committed(w: WorkerPc) {
    w == EvalStop(false) || w.AboutToBlock?
  }

  ghost predicate SomePushed(s: State) {
    exists t :: t in s.pcs && s.pcs[t].Pushed?
  }

  ghost predicate SomeOnTheWay(s: State) {
    exists t :: t in s.pcs && (s.pcs[t].Pushed? || s.pcs[t].Synced?)
  }

  /** While the worker cannot see the queue, whoever filled it has yet to notify. Because pushers
      pass through sleep_mtx_, none can slip its notification in before the worker blocks. */
  ghost predicate WakeInv(s: State) {
    && (Committed(s.worker) && s.queue != [] ==> SomePushed(s))
    && (s.worker.Waiting? && s.queue != [] ==> SomeOnTheWay(s))
  }

  lemma ThreadKeepsWake(s: State, t: nat)
    requires WakeInv(s) && Enabled(s, Run(t))
    ensures WakeInv(ThreadStep(s, t))
  {
    var s' := ThreadStep(s, t);
    if PcOf(s, t).Hint? && s'.queue != s.queue {
      assert s'.pcs[t].Pushed?;
    } else if s'.queue != [] {
      if Committed(s.worker) {
        var u :| u in s.pcs && s.pcs[u].Pushed?;
        assert s'.pcs[u].Pushed?;
      }
      if s.worker.Waiting? && s'.worker.Waiting? {
        var u :| u in s.pcs && (s.pcs[u].Pushed? || s.pcs[u].Synced?);
        assert s'.pcs[u].Pushed? || s'.pcs[u].Synced?;
      }
    }
  }

  lemma StepKeepsWake(s: State, l: Label)
    requires WakeInv(s) && Enabled(s, l)
    ensures WakeInv(Act(s, l))
  {
    var s' := Act(s, l);
    if l.Run? {
      ThreadKeepsWake(s, l.thread);
    } else if s'.queue != [] && s.queue == s'.queue {
      if Committed(s.worker) {
        var u :| u in s.pcs && s.pcs[u].Pushed?;
        assert s'.pcs[u].Pushed?;
      }
      if s.worker.Waiting? {
        var u :| u in s.pcs && (s.pcs[u].Pushed? || s.pcs[u].Synced?);
        assert s'.pcs[u].Pushed? || s'.pcs[u].Synced?;
      }
    }
  }

  /** No lost hint: in every reachable state where the worker is blocked and the queue is not empty,
      some thread has pushed and will still notify. */
  lemma {:induction false} NoLostHint(run: seq<State>, labels: seq<Label>, i: nat)
    requires IsRun(run, labels) && i < |run|
    ensures WakeInv(run[i])
    ensures run[i].worker.Waiting? && run[i].queue != [] ==>
              exists t :: t in run[i].pcs && (run[i].pcs[t].Pushed? || run[i].pcs[t].Synced?)
  {
    if i > 0 {
      NoLostHint(run, labels, i - 1);
      assert StepsAt(run, labels, i - 1);
      StepKeepsWake(run[i - 1], labels[i - 1]);
    }
  }

  // ---- what becomes of a hint ----

  /** A hint is the last entry of the queue when the pushing step of hint_growth is over, and all older entries are
      still there in order; the step is skipped only if the hint was the last entry already. */
  lemma HintIsQueued(run: seq<State>, labels: seq<Label>, i: nat, t: nat, m: nat)
    requires IsRun(run, labels) && i < |labels| && labels[i] == Run(t) && PcOf(run[i], t) == Hint(m)
    ensures var q, q' := run[i].queue, run[i + 1].queue;
            && q' != [] && q'[|q'| - 1] == m && (q' == q || q'[..|q'| - 1] == q)
            && (PcOf(run[i + 1], t).Pushed? <==> q' != q) && (PcOf(run[i + 1], t).Out? <==> q' == q)
  {
    assert StepsAt(run, labels, i);
  }

  /** An entry leaves the queue only because the worker takes it from the front, or because its manager is being
      unregistered. */
  lemma StaysQueued(run: seq<State>, labels: seq<Label>, i: nat, m: nat)
    requires IsRun(run, labels) && i < |labels| && m in run[i].queue && m !in run[i + 1].queue
    ensures || (labels[i] == Worker && run[i].queue[0] == m && run[i + 1].worker == Popped(m))
            || (labels[i].Run? && PcOf(run[i], labels[i].thread) == Filter(m))
  {
    assert StepsAt(run, labels, i);
  }

  /** What the worker takes from the queue it grows next, and marks it while it does. */
  lemma TakenIsGrown(run: seq<State>, labels: seq<Label>, i: nat, m: nat)
    requires IsRun(run, labels) && i < |labels| && run[i].worker == Popped(m)
    ensures if labels[i] == Worker then run[i + 1].worker == Growing(m) && run[i + 1].workingOn == m
            else run[i + 1].worker == Popped(m)
  {
    RunKeepsInv(run, labels, i);
    RunKeepsInv(run, labels, i + 1);
    assert StepsAt(run, labels, i);
  }

  /** The first place of an entry; the length if it is not there. */
  function Place(q: seq<nat>, m: nat): (p: nat)
    ensures p <= |q| && (p < |q| <==> m in q)
  {
    if q == [] || q[0] == m then 0 else 1 + Place(q[1..], m)
  }

  lemma {:induction false} PlaceAppend(q: seq<nat>, x: nat, m: nat)
    requires m in q
    ensures Place(q + [x], m) == Place(q, m)
  {
    if q[0] != m {
      assert (q + [x])[1..] == q[1..] + [x];
      PlaceAppend(q[1..], x, m);
    }
  }

  lemma {:induction false} PlaceWithout(q: seq<nat>, x: nat, m: nat)
    requires m in q && x != m
    ensures Place(Without(q, x), m) <= Place(q, m)
  {
    if q[0] != m {
      PlaceWithout(q[1..], x, m);
    }
  }

  /** How many steps a worker with work to do takes at most to the next entry. */
  function ToEntry(w: WorkerPc): nat {
    match w
    case Poll => 1
    case Growing(_) => 2
    case Popped(_) => 3
    case LastLook => 2
    case CheckStop => 3
    case EvalStop(work) => if work then 4 else 9
    case EvalQueue => 5
    case Woken => 6
    case Drowsy => 6
    case Waiting => 7
    case AboutToBlock => 8
    case Off => 0
  }

  /** How many steps the worker takes at most until it takes m from the queue. */
  function ToServe(s: State, m: nat): nat {
    12 * Place(s.queue, m) + ToEntry(s.worker)
  }

  lemma WorkerServes(s: State, m: nat)
    requires m in s.queue && !s.worker.Off? && WorkerAfter(s) != Popped(m)
    ensures m in WorkerStep(s).queue && ToServe(WorkerStep(s), m) < ToServe(s, m)
  {
  }

  lemma ThreadServes(s: State, t: nat, m: nat)
    requires m in s.queue && PcOf(s, t) != Filter(m)
    ensures m in ThreadStep(s, t).queue && ToServe(ThreadStep(s, t), m) <= ToServe(s, m)
  {
    match PcOf(s, t)
    case Hint(x) => PlaceAppend(s.queue, x, m);
    case Filter(x) => PlaceWithout(s.queue, x, m);
    case _ =>
  }

  predicate IsWorker(l: Label) {
    l.Worker? || l.Spurious?
  }

  lemma ServesStep(run: seq<State>, labels: seq<Label>, x: nat, m: nat)
    requires IsRun(run, labels) && x < |labels|
    requires m in run[x].queue && LifeOf(run[x], m).Live? && run[x + 1].worker != Popped(m)
    ensures m in run[x + 1].queue
    ensures ToServe(run[x + 1], m) + (if IsWorker(labels[x]) then 1 else 0) <= ToServe(run[x], m)
  {
    var s := run[x];
    RunKeepsInv(run, labels, x);
    assert StepsAt(run, labels, x) && LifeOk(s, m) && s.counted != {};
    if IsWorker(labels[x]) {
      WorkerServes(s, m);
    } else if labels[x].Run? {
      assert PcOk(s, labels[x].thread, s.pcs[labels[x].thread]);
      ThreadServes(s, labels[x].thread, m);
    }
  }

  function WorkerSteps(labels: seq<Label>, i: nat, k: nat): nat {
    if k <= i || k > |labels| then 0 else WorkerSteps(labels, i, k - 1) + if IsWorker(labels[k - 1]) then 1 else 0
  }

  /** Hints are served: a live manager at place p of the queue stays there until the worker takes it, and the worker
      takes at most 12 * p + 9 steps before it does, whatever else is pushed, filtered or woken meanwhile. */
  lemma {:induction false} HintIsServed(run: seq<State>, labels: seq<Label>, i: nat, k: nat, m: nat)
    requires IsRun(run, labels) && i <= k < |run|
    requires m in run[i].queue && forall x :: i <= x <= k ==> LifeOf(run[x], m).Live?
    requires forall x :: i < x <= k ==> run[x].worker != Popped(m)
    ensures m in run[k].queue
    ensures WorkerSteps(labels, i, k) + ToServe(run[k], m) <= ToServe(run[i], m) <= 12 * Place(run[i].queue, m) + 9
  {
    if i < k {
      HintIsServed(run, labels, i, k - 1, m);
      ServesStep(run, labels, k - 1, m);
    }
  }

  // ---- what unregistration leaves behind ----

  /** mtx_ is held only by a thread that stops and joins the worker. */
  ghost predicate MtxHeld(s: State) {
    s.mtx != {} ==>
      exists t :: t in s.pcs && s.mtx == {t} && (s.pcs[t].SetStop? || s.pcs[t].NotifyStop? || s.pcs[t].Join?)
  }

  lemma MtxStep(s: State, l: Label)
    requires Inv(s) && Enabled(s, l) && MtxHeld(s)
    ensures MtxHeld(Act(s, l))
  {
    var s' := Act(s, l);
    if s'.mtx != {} {
      if l.Run? && s'.pcs[l.thread].SetStop? {
        assert s'.mtx == {l.thread};
      } else {
        var t :| t in s.pcs && s.mtx == {t} && (s.pcs[t].SetStop? || s.pcs[t].NotifyStop? || s.pcs[t].Join?);
        if l.Run? && l.thread != t {
          assert PcOk(s, l.thread, s.pcs[l.thread]) && PcOk(s, t, s.pcs[t]);
        }
        assert t in s'.pcs && s'.mtx == {t};
      }
    }
  }

  lemma {:induction false} MtxReleased(run: seq<State>, labels: seq<Label>, i: nat)
    requires IsRun(run, labels) && i < |run|
    ensures MtxHeld(run[i])
  {
    if i > 0 {
      MtxReleased(run, labels, i - 1);
      RunKeepsInv(run, labels, i - 1);
      assert StepsAt(run, labels, i - 1);
      MtxStep(run[i - 1], labels[i - 1]);
    }
  }

  /** A call of unregister_manager(m) that returns has closed m: it is no longer counted, queued or grown; and if it was
      the last one, the worker is off. */
  lemma UnregisterEnds(run: seq<State>, labels: seq<Label>, i: nat, t: nat, m: nat)
    requires IsRun(run, labels) && i < |labels| && Closes(PcOf(run[i], t)) == {m} && PcOf(run[i + 1], t).Out?
    ensures LifeOf(run[i + 1], m).Closed? && m !in run[i + 1].counted && Gone(run[i + 1], m)
    ensures run[i + 1].active == 0 ==> run[i + 1].worker.Off? && run[i + 1].mtx == {}
  {
    RunKeepsInv(run, labels, i);
    RunKeepsInv(run, labels, i + 1);
    assert StepsAt(run, labels, i) && PcOk(run[i], t, run[i].pcs[t]);
    assert LifeOk(run[i + 1], m);
  }

  /** A manager whose unregistration has begun has a thread that unregisters it. */
  ghost predicate HasCloser(s: State, m: nat) {
    LifeOf(s, m).Closing? ==> exists t :: t in s.pcs && Closes(s.pcs[t]) == {m}
  }

  lemma CloserStep(s: State, l: Label, m: nat)
    requires Inv(s) && Enabled(s, l) && HasCloser(s, m)
    ensures HasCloser(Act(s, l), m)
  {
    var s' := Act(s, l);
    if LifeOf(s', m).Closing? {
      if l.CallUnregister? && l.m == m {
        assert Closes(s'.pcs[l.thread]) == {m};
      } else {
        var t :| t in s.pcs && Closes(s.pcs[t]) == {m};
        if l.Run? && l.thread == t {
          assert PcOk(s, t, s.pcs[t]);
        }
        assert t in s'.pcs && Closes(s'.pcs[t]) == {m};
      }
    }
  }

  lemma {:induction false} ClosersExist(run: seq<State>, labels: seq<Label>, i: nat, m: nat)
    requires IsRun(run, labels) && i < |run|
    ensures HasCloser(run[i], m)
  {
    if i > 0 {
      ClosersExist(run, labels, i - 1, m);
      RunKeepsInv(run, labels, i - 1);
      assert StepsAt(run, labels, i - 1);
      CloserStep(run[i - 1], labels[i - 1], m);
    }
  }

  /** With no manager counted any more, only a thread that stops the worker is still unregistering. */
  lemma CloserIsDone(s: State, t: nat, m: nat)
    requires Inv(s) && s.active == 0 && t in s.pcs && Closes(s.pcs[t]) == {m}
    ensures Gone(s, m)
  {
    assert PcOk(s, t, s.pcs[t]) && s.counted == {};
  }

  /** In every run the queue is empty once the last manager has been counted out, so the worker, which looks once more
      before it exits, finds nothing and leaves nothing behind. */
  lemma NothingLeftAtStop(run: seq<State>, labels: seq<Label>, i: nat)
    requires IsRun(run, labels) && i < |run| && run[i].active == 0
    ensures run[i].queue == []
  {
    var s := run[i];
    RunKeepsInv(run, labels, i);
    if s.queue != [] {
      var m := s.queue[0];
      assert LifeOk(s, m) && s.counted == {} && m in s.queue;
      ClosersExist(run, labels, i, m);
      var t :| t in s.pcs && Closes(s.pcs[t]) == {m};
      CloserIsDone(s, t, m);
    }
  }

  // ---- the stop signal can be lost ----

  /** Steps from a given state on, during one join: `labels` lead from `s` along `path`, and thread t stays
      in its join until the last state at least. */
  ghost predicate DuringJoin(s: State, path: seq<State>, labels: seq<Label>, t: nat) {
    && |path| == |labels| + 1 && path[0] == s
    && (forall i {:trigger StepsAt(path, labels, i)} :: 0 <= i < |labels| ==> StepsAt(path, labels, i))
    && (forall i :: 0 <= i < |labels| ==> PcOf(path[i], t).Join?)
  }

  lemma Prolong(s: State, path: seq<State>, labels: seq<Label>, t: nat, l: Label)
    returns (path': seq<State>, labels': seq<Label>)
    requires DuringJoin(s, path, labels, t) && PcOf(path[|path| - 1], t).Join? && Enabled(path[|path| - 1], l)
    ensures path' == path + [Act(path[|path| - 1], l)] && labels' == labels + [l] && DuringJoin(s, path', labels', t)
  {
    path', labels' := path + [Act(path[|path| - 1], l)], labels + [l];
    forall i: nat | i < |labels'| ensures StepsAt(path', labels', i) {
      assert i < |labels| ==> StepsAt(path, labels, i);
    }
  }

  lemma {:induction false} JoinKeepsInv(s: State, path: seq<State>, labels: seq<Label>, t: nat, i: nat)
    requires Inv(s) && DuringJoin(s, path, labels, t) && i < |path|
    ensures Inv(path[i])
  {
    if i > 0 {
      JoinKeepsInv(s, path, labels, t, i - 1);
      assert StepsAt(path, labels, i - 1);
      StepKeepsInv(path[i - 1], labels[i - 1]);
    }
  }

  /** The join waits for ever unless the condition variable wakes up without a reason. */
  ghost predicate Stuck(s: State, t: nat) {
    PcOf(s, t).Join? && forall l :: Enabled(s, l) ==> l.Spurious?
  }

  ghost predicate CanGetStuck(s: State, t: nat) {
    exists path, labels :: DuringJoin(s, path, labels, t) && Stuck(path[|path| - 1], t)
  }

  predicate NoSpurious(labels: seq<Label>) {
    forall i :: 0 <= i < |labels| ==> !labels[i].Spurious?
  }

  ghost predicate CanReturn(s: State, t: nat) {
    exists path, labels :: DuringJoin(s, path, labels, t) && NoSpurious(labels) && PcOf(path[|path| - 1], t).Out?
  }

  // ---- when it can be lost ----

  predicate Asleep(w: WorkerPc) {
    w.AboutToBlock? || w.Waiting?
  }

  /** The worker is awake, or someone will wake it once it sleeps. A thread that has pushed cannot pass
      sleep_mtx_ before the worker sleeps, so its notification comes after. */
  ghost predicate WillWake(s: State) {
    !Asleep(s.worker) || (s.worker.AboutToBlock? && SomePushed(s)) || (s.worker.Waiting? && SomeOnTheWay(s))
  }

  lemma WillWakeStep(s: State, l: Label, t: nat)
    requires Inv(s) && WillWake(s) && PcOf(s, t).Join? && Enabled(s, l)
    ensures WillWake(Act(s, l))
  {
    var s' := Act(s, l);
    assert PcOk(s, t, s.pcs[t]);
    if s.worker.AboutToBlock? {
      var u :| u in s.pcs && s.pcs[u].Pushed?;
      assert s'.pcs[u].Pushed?;
    } else if s.worker.Waiting? && s'.worker.Waiting? {
      var u :| u in s.pcs && (s.pcs[u].Pushed? || s.pcs[u].Synced?);
      assert s'.pcs[u].Pushed? || s'.pcs[u].Synced?;
    }
  }

  lemma WillWakeNotStuck(s: State, t: nat)
    requires WillWake(s)
    ensures !Stuck(s, t)
  {
    if Stuck(s, t) {
      assert !Enabled(s, Worker) && !Enabled(s, Run(t));
      var u :| u in s.pcs && (s.pcs[u].Pushed? || s.pcs[u].Synced?);
      assert Enabled(s, Run(u));
    }
  }

  lemma {:induction false} KeepsWillWake(s: State, path: seq<State>, labels: seq<Label>, t: nat, i: nat)
    requires Inv(s) && WillWake(s) && DuringJoin(s, path, labels, t) && i < |path|
    ensures WillWake(path[i])
  {
    if i > 0 {
      KeepsWillWake(s, path, labels, t, i - 1);
      JoinKeepsInv(s, path, labels, t, i - 1);
      assert StepsAt(path, labels, i - 1);
      WillWakeStep(path[i - 1], labels[i - 1], t);
    }
  }

  lemma NoneLive(s: State, t: nat)
    requires Inv(s) && PcOf(s, t).Join?
    ensures forall m :: !LifeOf(s, m).Live?
  {
    assert PcOk(s, t, s.pcs[t]) && s.counted == {};
    forall m ensures !LifeOf(s, m).Live? {
      assert LifeOk(s, m);
    }
  }

  /** During the join nobody is inside another call except hinters that have pushed already. */
  lemma OthersDuringJoin(s: State, t: nat, u: nat)
    requires Inv(s) && PcOf(s, t).Join? && u != t
    ensures PcOf(s, u).Out? || PcOf(s, u).Pushed? || PcOf(s, u).Synced?
  {
    NoneLive(s, t);
    assert PcOk(s, t, s.pcs[t]) && s.counted == {};
    assert u in s.pcs ==> PcOk(s, u, s.pcs[u]);
  }

  lemma QuietIsStuck(s: State, t: nat)
    requires Inv(s) && PcOf(s, t).Join? && s.worker.Waiting? && !SomeOnTheWay(s)
    ensures Stuck(s, t)
  {
    NoneLive(s, t);
    assert PcOk(s, t, s.pcs[t]);
    forall l | Enabled(s, l) ensures l.Spurious? {
      if l.Run? && l.thread != t {
        OthersDuringJoin(s, t, l.thread);
      }
    }
  }

  ghost function Notifying(s: State): set<nat> {
    set u | u in s.pcs && s.pcs[u].Synced?
  }

  /** Hinters about to notify may all do so before the worker sleeps, to no effect. */
  lemma {:induction false} NotifyInVain(s: State, t: nat) returns (path: seq<State>, labels: seq<Label>)
    requires Inv(s) && PcOf(s, t).Join? && s.worker.AboutToBlock? && !SomePushed(s)
    ensures DuringJoin(s, path, labels, t) && PcOf(path[|path| - 1], t).Join?
    ensures path[|path| - 1].worker.AboutToBlock? && !SomeOnTheWay(path[|path| - 1])
    decreases |Notifying(s)|
  {
    path, labels := [s], [];
    if u :| u in Notifying(s) {
      var s' := Act(s, Run(u));
      StepKeepsInv(s, Run(u));
      assert Notifying(s') == Notifying(s) - {u};
      var rest, more := NotifyInVain(s', t);
      path, labels := [s] + rest, [Run(u)] + more;
      forall i: nat | i < |labels| ensures StepsAt(path, labels, i) {
        assert i > 0 ==> StepsAt(rest, more, i - 1);
      }
    } else {
      forall u | u in s.pcs ensures !s.pcs[u].Synced? {
        assert u !in Notifying(s);
      }
    }
  }

  lemma BlocksForEver(s: State, t: nat)
    requires Inv(s) && PcOf(s, t).Join? && s.worker.AboutToBlock? && !SomePushed(s)
    ensures CanGetStuck(s, t)
  {
    var path, labels := NotifyInVain(s, t);
    path, labels := Prolong(s, path, labels, t, Worker);
    JoinKeepsInv(s, path, labels, t, |path| - 1);
    QuietIsStuck(path[|path| - 1], t);
  }

  lemma NotifyStopStep(run: seq<State>, labels: seq<Label>, i: nat, t: nat)
    requires IsRun(run, labels) && i < |labels| && labels[i] == Run(t) && PcOf(run[i], t).NotifyStop?
    ensures Inv(run[i + 1]) && PcOf(run[i + 1], t).Join? && run[i + 1].stop
    ensures run[i + 1].worker == Notified(run[i].worker)
    ensures SomePushed(run[i + 1]) == SomePushed(run[i]) && SomeOnTheWay(run[i + 1]) == SomeOnTheWay(run[i])
  {
    var s, s' := run[i], run[i + 1];
    RunKeepsInv(run, labels, i);
    RunKeepsInv(run, labels, i + 1);
    assert StepsAt(run, labels, i);
    assert PcOk(s', t, s'.pcs[t]);
    assert forall u :: u != t && u in s.pcs ==> s'.pcs[u] == s.pcs[u];
  }

  /** The last unregistration notifies without passing through sleep_mtx_. In every run, the join that
      follows can end up where only a spurious wake-up helps exactly when, at the notification, the worker had
      already loaded stop_ as false and not yet blocked, and no hinter was still on its way to sleep_mtx_. */
  lemma StopCanBeLostIff(run: seq<State>, labels: seq<Label>, i: nat, t: nat)
    requires IsRun(run, labels) && i < |labels| && labels[i] == Run(t) && PcOf(run[i], t).NotifyStop?
    ensures CanGetStuck(run[i + 1], t) <==> run[i].worker.AboutToBlock? && !SomePushed(run[i])
  {
    var s := run[i + 1];
    NotifyStopStep(run, labels, i, t);
    if run[i].worker.AboutToBlock? && !SomePushed(run[i]) {
      BlocksForEver(s, t);
    } else if CanGetStuck(s, t) {
      var path, steps :| DuringJoin(s, path, steps, t) && Stuck(path[|path| - 1], t);
      KeepsWillWake(s, path, steps, t, |path| - 1);
      WillWakeNotStuck(path[|path| - 1], t);
    }
  }

  // ---- when it is lost for certain ----

  /** Asleep, with nobody left to notify. */
  ghost predicate Abandoned(s: State) {
    Asleep(s.worker) && !SomeOnTheWay(s)
  }

  lemma AbandonedStep(s: State, l: Label, t: nat)
    requires Inv(s) && Abandoned(s) && PcOf(s, t).Join? && Enabled(s, l) && !l.Spurious?
    ensures Abandoned(Act(s, l)) && PcOf(Act(s, l), t).Join?
  {
    NoneLive(s, t);
    assert PcOk(s, t, s.pcs[t]);
    if l.Run? && l.thread != t {
      OthersDuringJoin(s, t, l.thread);
    }
  }

  lemma {:induction false} AbandonedStays(s: State, path: seq<State>, labels: seq<Label>, t: nat, i: nat)
    requires Inv(s) && Abandoned(s) && PcOf(s, t).Join?
    requires DuringJoin(s, path, labels, t) && NoSpurious(labels) && i < |path|
    ensures Abandoned(path[i]) && PcOf(path[i], t).Join?
  {
    if i > 0 {
      AbandonedStays(s, path, labels, t, i - 1);
      JoinKeepsInv(s, path, labels, t, i - 1);
      assert StepsAt(path, labels, i - 1);
      AbandonedStep(path[i - 1], labels[i - 1], t);
    }
  }

  /** How many steps an awake worker still has to go once stop_ is set. */
  function ToGo(w: WorkerPc, queued: nat): nat {
    20 * queued +
    match w
    case Off => 0
    case Popped(_) => 13
    case Growing(_) => 12
    case Poll => if queued == 0 then 11 else 4
    case Drowsy => 10
    case Woken => 10
    case EvalQueue => 9
    case EvalStop(_) => 8
    case CheckStop => 7
    case LastLook => 6
    case _ => 14
  }

  /** An awake worker, left to itself, empties the queue and returns. */
  lemma {:induction false} RunsToEnd(s: State, path: seq<State>, labels: seq<Label>, t: nat)
    requires DuringJoin(s, path, labels, t) && NoSpurious(labels)
    requires var e := path[|path| - 1]; PcOf(e, t).Join? && e.stop && !Asleep(e.worker)
    ensures CanReturn(s, t)
    decreases ToGo(path[|path| - 1].worker, |path[|path| - 1].queue|)
  {
    var e := path[|path| - 1];
    if e.worker.Off? {
      var path', labels' := Prolong(s, path, labels, t, Run(t));
    } else {
      var path', labels' := Prolong(s, path, labels, t, Worker);
      RunsToEnd(s, path', labels', t);
    }
  }

  /** A notifier on its way can wait for the worker to sleep, and wake it. */
  lemma WakesInTime(s: State, t: nat)
    requires PcOf(s, t).Join? && s.stop && s.worker.AboutToBlock? && SomeOnTheWay(s)
    ensures CanReturn(s, t)
  {
    var u :| u in s.pcs && (s.pcs[u].Pushed? || s.pcs[u].Synced?);
    var path, labels := Prolong(s, [s], [], t, Worker);
    if s.pcs[u].Pushed? {
      path, labels := Prolong(s, path, labels, t, Run(u));
    }
    path, labels := Prolong(s, path, labels, t, Run(u));
    RunsToEnd(s, path, labels, t);
  }

  /** In every run, the join can return without a spurious wake-up unless, at the notification, the worker
      was about to block and no hinter was on its way to notify at all. */
  lemma StopIsLostIff(run: seq<State>, labels: seq<Label>, i: nat, t: nat)
    requires IsRun(run, labels) && i < |labels| && labels[i] == Run(t) && PcOf(run[i], t).NotifyStop?
    ensures !CanReturn(run[i + 1], t) <==> run[i].worker.AboutToBlock? && !SomeOnTheWay(run[i])
  {
    var s := run[i + 1];
    NotifyStopStep(run, labels, i, t);
    if !run[i].worker.AboutToBlock? {
      RunsToEnd(s, [s], [], t);
    } else if SomeOnTheWay(run[i]) {
      WakesInTime(s, t);
    } else if CanReturn(s, t) {
      var path, steps :| DuringJoin(s, path, steps, t) && NoSpurious(steps) && PcOf(path[|path| - 1], t).Out?;
      AbandonedStays(s, path, steps, t, |path| - 1);
    }
  }

  // ---- both happen ----

  lemma Extend(run: seq<State>, labels: seq<Label>, l: Label) returns (run': seq<State>, labels': seq<Label>)
    requires IsRun(run, labels) && Enabled(run[|run| - 1], l)
    ensures run' == run + [Act(run[|run| - 1], l)] && labels' == labels + [l] && IsRun(run', labels')
  {
    run', labels' := run + [Act(run[|run| - 1], l)], labels + [l];
    forall i: nat | i < |labels'| ensures StepsAt(run', labels', i) {
      assert i < |labels| ==> StepsAt(run, labels, i);
    }
  }

  /** The worker starts, finds nothing to do and commits to blocking. */
  lemma RunToBlock(m: nat) returns (run: seq<State>, labels: seq<Label>)
    requires m != 0
    ensures IsRun(run, labels)
    ensures run[|run| - 1] == State([], 0, false, 1, {}, AboutToBlock, map[], map[m := Live], {m})
  {
    run, labels := [State([], 0, false, 0, {}, Off, map[], map[], {})], [];
    run, labels := Extend(run, labels, Register(m));
    run, labels := Extend(run, labels, Worker);
    run, labels := Extend(run, labels, Worker);
    run, labels := Extend(run, labels, Worker);
    run, labels := Extend(run, labels, Worker);
  }

  /** Meanwhile the only manager is unregistered, up to the notification. */
  lemma UnregisterToNotify(run0: seq<State>, labels0: seq<Label>, m: nat, t: nat, pcs: map<nat, Pc>)
    returns (run: seq<State>, labels: seq<Label>)
    requires IsRun(run0, labels0) && t !in pcs && forall u :: u in pcs ==> !pcs[u].Hint?
    requires run0[|run0| - 1] == State([], 0, false, 1, {}, AboutToBlock, pcs, map[m := Live], {m}) && m != 0
    ensures IsRun(run, labels)
    ensures run[|run| - 1] == State([], 0, true, 0, {t}, AboutToBlock, pcs[t := NotifyStop(m)], map[m := Closing], {})
  {
    run, labels := Extend(run0, labels0, CallUnregister(t, m));
    run, labels := Extend(run, labels, Run(t));
    run, labels := Extend(run, labels, Run(t));
    run, labels := Extend(run, labels, Run(t));
    assert run[|run| - 1] == State([], 0, false, 0, {t}, AboutToBlock, pcs[t := SetStop(m)], map[m := Closing], {});
    run, labels := Extend(run, labels, Run(t));
  }

  /** The losing interleaving: a single manager is registered and unregistered, and the worker blocks
      just after the notification. Then nothing but a spurious wake-up can happen. */
  lemma StopCanBeLost(m: nat, t: nat) returns (run: seq<State>, labels: seq<Label>)
    requires m != 0
    ensures IsRun(run, labels)
    ensures var s := run[|run| - 1];
            && s.worker.Waiting? && s.stop && PcOf(s, t) == Join(m)
            && forall l :: Enabled(s, l) ==> l == Spurious
  {
    run, labels := RunToBlock(m);
    run, labels := UnregisterToNotify(run, labels, m, t, map[]);
    run, labels := Extend(run, labels, Run(t));
    run, labels := Extend(run, labels, Worker);
    assert run[|run| - 1] == State([], 0, true, 0, {t}, Waiting, map[t := Join(m)], map[m := Closing], {});
  }

  /** A hinter pushes, passes sleep_mtx_ and is held up there. */
  lemma RunToHint(m: nat, u: nat) returns (run: seq<State>, labels: seq<Label>)
    requires m != 0
    ensures IsRun(run, labels)
    ensures run[|run| - 1] == State([m], 0, false, 1, {}, Poll, map[u := Synced], map[m := Live], {m})
  {
    run, labels := [State([], 0, false, 0, {}, Off, map[], map[], {})], [];
    run, labels := Extend(run, labels, Register(m));
    run, labels := Extend(run, labels, CallHint(u, m));
    run, labels := Extend(run, labels, Run(u));
    run, labels := Extend(run, labels, Run(u));
  }

  /** The worker serves the hint and commits to blocking. */
  lemma RunToHintServed(m: nat, u: nat) returns (run: seq<State>, labels: seq<Label>)
    requires m != 0
    ensures IsRun(run, labels)
    ensures run[|run| - 1] == State([], 0, false, 1, {}, AboutToBlock, map[u := Synced], map[m := Live], {m})
  {
    run, labels := RunToHint(m, u);
    run, labels := Extend(run, labels, Worker);
    run, labels := Extend(run, labels, Worker);
    run, labels := Extend(run, labels, Worker);
    assert run[|run| - 1] == State([], 0, false, 1, {}, Poll, map[u := Synced], map[m := Live], {m});
    run, labels := Extend(run, labels, Worker);
    run, labels := Extend(run, labels, Worker);
    run, labels := Extend(run, labels, Worker);
    run, labels := Extend(run, labels, Worker);
  }

  /** The middle case: a hinter has passed sleep_mtx_, its hint is served, and the worker is about to block
      when the stop is notified. Whether the hinter notifies before or after that decides. */
  lemma StopMayGoEitherWay(m: nat, t: nat, u: nat) returns (run: seq<State>, labels: seq<Label>)
    requires m != 0 && t != u
    ensures IsRun(run, labels) && PcOf(run[|run| - 1], t) == Join(m)
    ensures CanGetStuck(run[|run| - 1], t) && CanReturn(run[|run| - 1], t)
  {
    run, labels := RunToHintServed(m, u);
    run, labels := UnregisterToNotify(run, labels, m, t, map[u := Synced]);
    var s := run[|run| - 1];
    assert s.pcs[u].Synced? && !SomePushed(s);
    run, labels := Extend(run, labels, Run(t));
    StopCanBeLostIff(run, labels, |labels| - 1, t);
    StopIsLostIff(run, labels, |labels| - 1, t);
  }
}
