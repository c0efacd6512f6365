/** segment_registry under concurrency: any number of threads, each with its own cache, register,
    unregister and find segments. The trie is the atomic map it refines, so every step makes at
    most one access to it; everything a thread does to its own cache is a step of its own. */
module ConcurrentRegistry {
  import opened Platform
  import opened Radix
  import opened AtomicMap
  import opened PageRange
  import opened SubSegment
  import opened TlsCache
  import opened CachedLookup

  /** Life of a segment descriptor. Each is registered once and unregistered once. */
  datatype Life = Unborn | Registering | Registered | Unregistering | Retired

  /** Why a lookup runs: for a caller of find, or to warm the cache at the end of a registration. */
  datatype Goal = ForFind | ForRegister(seg: nat)

  /** `gone` is auxiliary: the segments already unregistered when the find was called. */
  datatype Pc =
    | Out
    | Inserting(seg: nat, page: nat)                                    // next page to map
    | Clearing(seg: nat, page: nat)                                     // next page to unmap
    | Looking(addr: nat, goal: Goal, gone: set<nat>)                    // about to read the trie
    | Settling(addr: nat, goal: Goal, gone: set<nat>, probe: Probe)     // about to update its cache
    | Widening(addr: nat, goal: Goal, gone: set<nat>, answer: nat)      // about to widen its top entry
    | Returning(addr: nat, answer: nat, gone: set<nat>)

  datatype Thread = Thread(cache: Cached, pc: Pc)

  /** `clean` is auxiliary: no insertion ran out of memory and no registration overlapped another
      live segment so far. */
  datatype Registry = Registry(desc: Descriptors, m: map<nat, nat>, life: map<nat, Life>,
                               threads: map<nat, Thread>, clean: bool)

  datatype Choice = Go | NoMemory | Register(seg: nat) | Unregister(seg: nat) | Find(addr: nat)

  datatype Label = Label(thread: nat, choice: Choice)

  function ThreadOf(s: Registry, t: nat): Thread {
    if t in s.threads then s.threads[t] else Thread(AllVacant(), Out)
  }

  function LifeOf(s: Registry, seg: nat): Life {
    if seg in s.life then s.life[seg] else Unborn
  }

  predicate Live(s: Registry, seg: nat) {
    !LifeOf(s, seg).Unborn? && !LifeOf(s, seg).Retired?
  }

  function RetiredSegments(s: Registry): set<nat> {
    set seg | seg in s.life && s.life[seg].Retired?
  }

  /** No page key in common. */
  ghost predicate Disjoint(x: Extent, y: Extent) {
    forall k :: !(HasKey(x, k) && HasKey(y, k))
  }

  ghost predicate DisjointFromLive(s: Registry, seg: nat) {
    seg in s.desc && forall o :: o in s.desc && o != seg && Live(s, o) ==> Disjoint(s.desc[seg], s.desc[o])
  }

  predicate Enabled(s: Registry, l: Label) {
    match ThreadOf(s, l.thread).pc
    case Out =>
      (match l.choice
       case Register(seg) => seg != 0 && seg in s.desc && LifeOf(s, seg).Unborn?
       case Unregister(seg) => seg in s.desc && LifeOf(s, seg).Registered?
       case Find(_) => true
       case _ => false)
    case Inserting(_, _) => l.choice.Go? || l.choice.NoMemory?
    case _ => l.choice.Go?
  }

  /** A segment's first page, and the one past its last. */
  function FirstPage(desc: Descriptors, seg: nat): nat {
    if seg in desc then PageBegin(desc[seg].base) else 0
  }

  function LastPage(desc: Descriptors, seg: nat): nat {
    if seg in desc then PageEnd(desc[seg].base, desc[seg].size) else 0
  }

  function First(s: Registry, seg: nat): nat {
    FirstPage(s.desc, seg)
  }

  function Last(s: Registry, seg: nat): nat {
    LastPage(s.desc, seg)
  }

  /** The widening of the top entry, for the segment found or the one being registered. */
  function Widened(desc: Descriptors, es: Cached, goal: Goal, answer: nat): Cached {
    WidenFound(desc, es, if goal.ForFind? then answer else goal.seg)
  }

  /** A page loop has reached its end. */
  predicate LoopDone(s: Registry, pc: Pc) {
    (pc.Inserting? || pc.Clearing?) && pc.page >= Last(s, pc.seg)
  }

  function PcAfter(s: Registry, th: Thread, c: Choice): Pc {
    match th.pc
    case Out =>
      (match c
       case Register(seg) => Inserting(seg, First(s, seg))
       case Unregister(seg) => Clearing(seg, First(s, seg))
       case Find(addr) => Looking(addr, ForFind, RetiredSegments(s))
       case _ => Out)
    case Inserting(seg, page) =>
      if page < Last(s, seg) then Inserting(seg, page + 1)
      else Looking(if seg in s.desc then s.desc[seg].base else 0, ForRegister(seg), {})
    case Clearing(seg, page) => if page < Last(s, seg) then Clearing(seg, page + 1) else Out
    case Looking(addr, goal, gone) => Settling(addr, goal, gone, ProbeAt(th.cache, s.m, addr))
    case Settling(addr, goal, gone, probe) => Widening(addr, goal, gone, Answer(th.cache, probe))
    case Widening(addr, goal, gone, answer) => if goal.ForFind? then Returning(addr, answer, gone) else Out
    case Returning(_, _, _) => Out
  }

  /** What the step does to the thread's own cache. Both range operations end by invalidating it. */
  function OwnCacheAfter(s: Registry, th: Thread): Cached {
    if LoopDone(s, th.pc) then AllVacant()
    else match th.pc
         case Settling(addr, _, _, probe) => Settle(th.cache, addr, probe)
         case Widening(_, goal, _, answer) => Widened(s.desc, th.cache, goal, answer)
         case _ => th.cache
  }

  /** What the step writes to the trie: one page, unless an insertion runs out of memory. */
  function MapAfter(s: Registry, pc: Pc, c: Choice): map<nat, nat> {
    if LoopDone(s, pc) then s.m
    else match pc
         case Inserting(seg, page) => if c.NoMemory? then s.m else Put(s.m, Key(page), seg)
         case Clearing(_, page) => Put(s.m, Key(page), 0)
         case _ => s.m
  }

  function LifeAfter(s: Registry, pc: Pc, c: Choice): map<nat, Life> {
    match pc
    case Out =>
      if c.Register? then s.life[c.seg := Registering]
      else if c.Unregister? then s.life[c.seg := Unregistering] else s.life
    case Clearing(seg, _) => if LoopDone(s, pc) then s.life[seg := Retired] else s.life
    case Widening(_, goal, _, _) => if goal.ForRegister? then s.life[goal.seg := Registered] else s.life
    case _ => s.life
  }

  ghost predicate CleanAfter(s: Registry, pc: Pc, c: Choice) {
    && s.clean && (pc.Out? && c.Register? ==> DisjointFromLive(s, c.seg))
    && (pc.Inserting? && !LoopDone(s, pc) ==> !c.NoMemory?)
  }

  /** One step of the labelled thread. */
  ghost function Act(s: Registry, l: Label): Registry
    requires Enabled(s, l)
  {
    var th, c := ThreadOf(s, l.thread), l.choice;
    Registry(s.desc, MapAfter(s, th.pc, c), LifeAfter(s, th.pc, c),
             s.threads[l.thread := Thread(OwnCacheAfter(s, th), PcAfter(s, th, c))], CleanAfter(s, th.pc, c))
  }

  /** No segment reaches into the last page of the 64-bit range, so page ends do not wrap. */
  ghost predicate EndsBelow(desc: Descriptors) {
    forall seg :: seg in desc ==> desc[seg].base + desc[seg].size + PAGE_SIZE <= WORD
  }

  ghost predicate Init(s: Registry) {
    s.m == map[] && s.life == map[] && s.threads == map[] && s.clean && EndsBelow(s.desc)
  }

  ghost predicate StepsAt(run: seq<Registry>, labels: seq<Label>, i: nat) {
    i + 1 < |run| && i < |labels| && Enabled(run[i], labels[i]) && run[i + 1] == Act(run[i], labels[i])
  }

  ghost predicate IsRun(run: seq<Registry>, labels: seq<Label>) {
    && |run| == |labels| + 1 && Init(run[0])
    && forall i {:trigger StepsAt(run, labels, i)} :: 0 <= i < |labels| ==> StepsAt(run, labels, i)
  }

  // ---- the invariant of every run ----

  /** No slot holds this segment. */
  ghost predicate Absent(m: map<nat, nat>, seg: nat) {
    forall k :: Get(m, k) != seg
  }

  ghost predicate GoalOk(s: Registry, goal: Goal) {
    goal.ForRegister? ==> goal.seg != 0 && goal.seg in s.desc && LifeOf(s, goal.seg).Registering?
  }

  /** An answer that may still be handed out: null, or not a segment that was already gone. */
  ghost predicate Allowed(s: Registry, answer: nat, gone: set<nat>) {
    && answer !in gone && 0 !in gone && (answer == 0 || answer in s.desc)
    && forall seg :: seg in gone ==> LifeOf(s, seg).Retired?
  }

  ghost predicate ThreadOk(s: Registry, th: Thread) {
    && CacheOk(s.desc, th.cache)
    && match th.pc
       case Out => true
       case Inserting(seg, page) =>
         seg != 0 && seg in s.desc && LifeOf(s, seg).Registering? && page >= First(s, seg)
       case Clearing(seg, page) =>
         && seg in s.desc && LifeOf(s, seg).Unregistering? && page >= First(s, seg)
         && forall q :: First(s, seg) <= q < page ==> Get(s.m, Key(q)) != seg
       case Looking(_, goal, gone) => GoalOk(s, goal) && Allowed(s, 0, gone)
       case Settling(addr, goal, gone, probe) =>
         GoalOk(s, goal) && Allowed(s, Answer(th.cache, probe), gone) && CacheOk(s.desc, Settle(th.cache, addr, probe))
       case Widening(_, goal, gone, answer) => GoalOk(s, goal) && Allowed(s, answer, gone)
       case Returning(_, answer, gone) => Allowed(s, answer, gone)
  }

  ghost predicate AbsentUnlessLive(s: Registry, seg: nat) {
    seg != 0 && !Live(s, seg) ==> Absent(s.m, seg)
  }

  /** The segment a thread is registering or unregistering. */
  function Working(pc: Pc): set<nat> {
    match pc
    case Inserting(seg, _) => {seg}
    case Clearing(seg, _) => {seg}
    case Looking(_, goal, _) => if goal.ForRegister? then {goal.seg} else {}
    case Settling(_, goal, _, _) => if goal.ForRegister? then {goal.seg} else {}
    case Widening(_, goal, _, _) => if goal.ForRegister? then {goal.seg} else {}
    case _ => {}
  }

  predicate Apart(s: Registry, t: nat, u: nat) {
    t in s.threads && u in s.threads && (t != u ==> Working(s.threads[t].pc) !! Working(s.threads[u].pc))
  }

  ghost predicate Inv(s: Registry) {
    && MapOk(s.desc, s.m)
    && (forall seg :: seg in s.life ==> seg != 0)
    && (forall seg {:trigger AbsentUnlessLive(s, seg)} :: AbsentUnlessLive(s, seg))
    && (forall t {:trigger s.threads[t]} :: t in s.threads ==> ThreadOk(s, s.threads[t]))
    && (forall t, u {:trigger Apart(s, t, u)} :: t in s.threads && u in s.threads ==> Apart(s, t, u))
  }

  lemma OwnThreadOk(s: Registry, t: nat)
    requires Inv(s)
    ensures ThreadOk(s, ThreadOf(s, t))
  {
  }

  /** What a step that works on the segments `mine` leaves alone. */
  ghost predicate Respects(s: Registry, s': Registry, mine: set<nat>) {
    && s'.desc == s.desc
    && (forall o {:trigger LifeOf(s', o)} :: LifeOf(s, o).Retired? ==> LifeOf(s', o).Retired?)
    && (forall o {:trigger LifeOf(s', o)} ::
          o !in mine && (LifeOf(s, o).Registering? || LifeOf(s, o).Unregistering?) ==> LifeOf(s', o) == LifeOf(s, o))
    && (forall k {:trigger Get(s'.m, k)} :: Get(s'.m, k) == Get(s.m, k) || Get(s'.m, k) == 0 || Get(s'.m, k) in mine)
  }

  lemma OthersStayOk(s: Registry, s': Registry, mine: set<nat>, th: Thread)
    requires Respects(s, s', mine) && ThreadOk(s, th) && Working(th.pc) !! mine
    requires th.pc.Clearing? ==> th.pc.seg != 0
    ensures ThreadOk(s', th)
  {
  }

  /** What a step of `t` establishes on its own. */
  ghost predicate StepOk(s: Registry, s': Registry, t: nat, mine: set<nat>) {
    && MapOk(s'.desc, s'.m) && Respects(s, s', mine)
    && t in s'.threads && s'.threads == s.threads[t := s'.threads[t]] && ThreadOk(s', s'.threads[t])
    && (forall seg :: seg in s'.life ==> seg != 0)
    && (forall seg {:trigger AbsentUnlessLive(s', seg)} :: AbsentUnlessLive(s', seg))
  }

  lemma CallStep(s: Registry, l: Label)
    requires Inv(s) && Enabled(s, l) && ThreadOf(s, l.thread).pc.Out?
    ensures StepOk(s, Act(s, l), l.thread, {})
  {
    var s' := Act(s, l);
    assert CacheOk(s.desc, ThreadOf(s, l.thread).cache);
    forall seg ensures AbsentUnlessLive(s', seg) {
      assert AbsentUnlessLive(s, seg);
    }
  }

  lemma InsertStep(s: Registry, l: Label)
    requires Inv(s) && Enabled(s, l) && ThreadOf(s, l.thread).pc.Inserting?
    ensures StepOk(s, Act(s, l), l.thread, {ThreadOf(s, l.thread).pc.seg})
  {
    var s', pc := Act(s, l), ThreadOf(s, l.thread).pc;
    assert ThreadOk(s, s.threads[l.thread]);
    if pc.page < Last(s, pc.seg) {
      assert HasKey(s.desc[pc.seg], Key(pc.page));
    }
    forall seg ensures AbsentUnlessLive(s', seg) {
      assert AbsentUnlessLive(s, seg);
      assert LifeOf(s', seg) == LifeOf(s, seg);
      if seg != pc.seg && Absent(s.m, seg) {
        forall k ensures seg != 0 ==> Get(s'.m, k) != seg {
          assert Get(s'.m, k) == Get(s.m, k) || Get(s'.m, k) == pc.seg;
        }
      }
    }
  }

  /** Once every page of a segment has been cleared, no slot holds it. */
  lemma ClearedIsAbsent(s: Registry, seg: nat, page: nat)
    requires MapOk(s.desc, s.m) && seg != 0 && seg in s.desc && page >= Last(s, seg)
    requires forall q :: First(s, seg) <= q < page ==> Get(s.m, Key(q)) != seg
    ensures Absent(s.m, seg)
  {
    forall k ensures Get(s.m, k) != seg {
      assert k in s.m && s.m[k] == seg ==> KeyInPages(k, First(s, seg), Last(s, seg));
    }
  }

  lemma ClearPageStep(s: Registry, l: Label)
    requires Inv(s) && Enabled(s, l)
    requires var pc := ThreadOf(s, l.thread).pc; pc.Clearing? && pc.page < Last(s, pc.seg)
    ensures StepOk(s, Act(s, l), l.thread, {ThreadOf(s, l.thread).pc.seg})
  {
    var s', pc := Act(s, l), ThreadOf(s, l.thread).pc;
    assert ThreadOk(s, s.threads[l.thread]);
    assert pc.seg in s.life;
    forall k ensures Get(s'.m, k) == if k == Key(pc.page) then 0 else Get(s.m, k) {}
    forall seg ensures AbsentUnlessLive(s', seg) {
      assert AbsentUnlessLive(s, seg) && LifeOf(s', seg) == LifeOf(s, seg);
    }
  }

  lemma RetireStep(s: Registry, l: Label)
    requires Inv(s) && Enabled(s, l)
    requires var pc := ThreadOf(s, l.thread).pc; pc.Clearing? && pc.page >= Last(s, pc.seg)
    ensures StepOk(s, Act(s, l), l.thread, {ThreadOf(s, l.thread).pc.seg})
  {
    var s', pc := Act(s, l), ThreadOf(s, l.thread).pc;
    assert ThreadOk(s, s.threads[l.thread]);
    assert pc.seg in s.life;
    ClearedIsAbsent(s, pc.seg, pc.page);
    forall seg ensures AbsentUnlessLive(s', seg) {
      assert AbsentUnlessLive(s, seg);
      assert seg != pc.seg ==> LifeOf(s', seg) == LifeOf(s, seg);
    }
  }

  lemma LookStep(s: Registry, l: Label)
    requires Inv(s) && Enabled(s, l) && ThreadOf(s, l.thread).pc.Looking?
    ensures StepOk(s, Act(s, l), l.thread, Working(ThreadOf(s, l.thread).pc))
  {
    var s' := Act(s, l);
    var Thread(es, pc) := ThreadOf(s, l.thread);
    assert ThreadOk(s, s.threads[l.thread]);
    SettleOk(s.desc, es, s.m, pc.addr);
    AnswerSound(s.desc, es, s.m, pc.addr);
    var answer := FindAnswer(es, s.m, pc.addr);
    assert AbsentUnlessLive(s, answer);
    forall seg ensures AbsentUnlessLive(s', seg) {
      assert AbsentUnlessLive(s, seg);
    }
  }

  lemma SettleStep(s: Registry, l: Label)
    requires Inv(s) && Enabled(s, l) && ThreadOf(s, l.thread).pc.Settling?
    ensures StepOk(s, Act(s, l), l.thread, Working(ThreadOf(s, l.thread).pc))
  {
    var s' := Act(s, l);
    assert ThreadOk(s, s.threads[l.thread]);
    forall seg ensures AbsentUnlessLive(s', seg) {
      assert AbsentUnlessLive(s, seg);
    }
  }

  lemma WidenStep(s: Registry, l: Label)
    requires Inv(s) && Enabled(s, l) && (ThreadOf(s, l.thread).pc.Widening? || ThreadOf(s, l.thread).pc.Returning?)
    ensures StepOk(s, Act(s, l), l.thread, Working(ThreadOf(s, l.thread).pc))
  {
    var s' := Act(s, l);
    var Thread(es, pc) := ThreadOf(s, l.thread);
    assert ThreadOk(s, s.threads[l.thread]);
    if pc.Widening? {
      var seg := if pc.goal.ForFind? then pc.answer else pc.goal.seg;
      if seg in s.desc {
        WidenOk(s.desc, es, seg);
      }
    }
    forall seg ensures AbsentUnlessLive(s', seg) {
      assert AbsentUnlessLive(s, seg);
    }
  }

  lemma OwnStep(s: Registry, l: Label)
    requires Inv(s) && Enabled(s, l)
    ensures StepOk(s, Act(s, l), l.thread, Working(ThreadOf(s, l.thread).pc))
  {
    match ThreadOf(s, l.thread).pc
    case Out => CallStep(s, l);
    case Inserting(_, _) => InsertStep(s, l);
    case Clearing(seg, page) => if page < Last(s, seg) { ClearPageStep(s, l); } else { RetireStep(s, l); }
    case Looking(_, _, _) => LookStep(s, l);
    case Settling(_, _, _, _) => SettleStep(s, l);
    case Widening(_, _, _, _) => WidenStep(s, l);
    case Returning(_, _, _) => WidenStep(s, l);
  }

  /** Two threads never work on the same segment. */
  lemma WorkingApart(s: Registry, l: Label, u: nat)
    requires Inv(s) && Enabled(s, l) && u in s.threads && u != l.thread
    ensures Working(ThreadOf(s, l.thread).pc) !! Working(s.threads[u].pc)
    ensures Working(ThreadOf(Act(s, l), l.thread).pc) !! Working(s.threads[u].pc)
  {
    assert ThreadOk(s, s.threads[u]);
    if l.thread in s.threads {
      assert Apart(s, l.thread, u);
    }
  }

  lemma StepKeepsInv(s: Registry, l: Label)
    requires Inv(s) && Enabled(s, l)
    ensures Inv(Act(s, l))
  {
    var s', mine := Act(s, l), Working(ThreadOf(s, l.thread).pc);
    OwnStep(s, l);
    forall u | u in s'.threads && u != l.thread ensures ThreadOk(s', s'.threads[u]) {
      WorkingApart(s, l, u);
      assert ThreadOk(s, s.threads[u]);
      OthersStayOk(s, s', mine, s.threads[u]);
    }
    forall t, u | t in s'.threads && u in s'.threads ensures Apart(s', t, u) {
      if t != u {
        if t == l.thread {
          WorkingApart(s, l, u);
        } else if u == l.thread {
          WorkingApart(s, l, t);
        } else {
          assert Apart(s, t, u);
        }
      }
    }
  }

  lemma {:induction false} RunKeepsInv(run: seq<Registry>, labels: seq<Label>, i: nat)
    requires IsRun(run, labels) && i < |run|
    ensures Inv(run[i])
  {
    if i > 0 {
      RunKeepsInv(run, labels, i - 1);
      assert StepsAt(run, labels, i - 1);
      StepKeepsInv(run[i - 1], labels[i - 1]);
    }
  }

  /** The end of every page loop is the one computed in 64-bit arithmetic. */
  lemma {:induction false} LastIsComputed(run: seq<Registry>, labels: seq<Label>, i: nat, seg: nat)
    requires IsRun(run, labels) && i < |run| && seg in run[i].desc
    ensures run[i].desc == run[0].desc
    ensures Last(run[i], seg) == WordPageEnd(run[i].desc[seg].base, run[i].desc[seg].size)
  {
    if i > 0 {
      assert StepsAt(run, labels, i - 1);
      LastIsComputed(run, labels, i - 1, seg);
    } else {
      WordPageEndWraps(run[i].desc[seg].base, run[i].desc[seg].size);
    }
  }

  // ---- every operation completes ----

  /** Pages from `page` on. */
  function PagesLeft(desc: Descriptors, seg: nat, page: nat): nat {
    if page < LastPage(desc, seg) then LastPage(desc, seg) - page else 0
  }

  /** How many steps of its own a thread still needs to finish what it does. */
  function ToGo(desc: Descriptors, pc: Pc): nat {
    match pc
    case Out => 0
    case Inserting(seg, page) => 5 + PagesLeft(desc, seg, page)
    case Clearing(seg, page) => 1 + PagesLeft(desc, seg, page)
    case Looking(_, _, _) => 4
    case Settling(_, _, _, _) => 3
    case Widening(_, _, _, _) => 2
    case Returning(_, _, _) => 1
  }

  /** The steps after a call. */
  function StepsFor(desc: Descriptors, call: Choice): nat {
    match call
    case Find(_) => 4
    case Register(seg) => 5 + PagesLeft(desc, seg, FirstPage(desc, seg))
    case Unregister(seg) => 1 + PagesLeft(desc, seg, FirstPage(desc, seg))
    case _ => 0
  }

  lemma PcDrops(s: Registry, th: Thread, c: Choice)
    ensures if th.pc.Out? then ToGo(s.desc, PcAfter(s, th, c)) <= StepsFor(s.desc, c)
            else ToGo(s.desc, PcAfter(s, th, c)) < ToGo(s.desc, th.pc)
  {
  }

  function Steps(labels: seq<Label>, t: nat, i: nat, k: nat): nat {
    if k <= i || k > |labels| then 0
    else Steps(labels, t, i, k - 1) + if labels[k - 1].thread == t then 1 else 0
  }

  lemma OwnStepMoves(s: Registry, l: Label)
    requires Enabled(s, l)
    ensures ThreadOf(Act(s, l), l.thread).pc == PcAfter(s, ThreadOf(s, l.thread), l.choice)
    ensures Act(s, l).desc == s.desc && forall u :: u != l.thread ==> ThreadOf(Act(s, l), u) == ThreadOf(s, u)
  {
  }

  /** Wait-freedom: a find takes four steps of its thread after the call before it returns, a registration or removal
      one for each page and at most five more, however the other threads run. */
  lemma {:induction false} WaitFree(run: seq<Registry>, labels: seq<Label>, j: nat, k: nat, t: nat)
    requires IsRun(run, labels) && j < k < |run| && labels[j].thread == t && ThreadOf(run[j], t).pc.Out?
    requires forall x :: j < x < k ==> !ThreadOf(run[x], t).pc.Out?
    ensures run[k].desc == run[j].desc
    ensures Steps(labels, t, j + 1, k) + ToGo(run[k].desc, ThreadOf(run[k], t).pc)
         <= StepsFor(run[j].desc, labels[j].choice)
  {
    assert StepsAt(run, labels, k - 1);
    OwnStepMoves(run[k - 1], labels[k - 1]);
    PcDrops(run[k - 1], ThreadOf(run[k - 1], t), labels[k - 1].choice);
    if j + 1 < k {
      WaitFree(run, labels, j, k - 1, t);
    }
  }

  // ---- a call does what it was called for ----

  /** Where a thread is that was called like this, or, when it is out again, what it has done. */
  predicate CallStage(s: Registry, t: nat, call: Choice) {
    var pc := ThreadOf(s, t).pc;
    match call
    case Register(seg) =>
      if pc.Out? then LifeOf(s, seg).Registered? else Working(pc) == {seg} && !pc.Clearing?
    case Unregister(seg) => if pc.Out? then LifeOf(s, seg).Retired? else pc.Clearing? && pc.seg == seg
    case Find(addr) =>
      (match pc
       case Looking(a, goal, _) => a == addr && goal.ForFind?
       case Settling(a, goal, _, _) => a == addr && goal.ForFind?
       case Widening(a, goal, _, _) => a == addr && goal.ForFind?
       case Returning(a, _, _) => a == addr
       case _ => false)
    case _ => false
  }

  lemma CallStageStep(s: Registry, l: Label, call: Choice)
    requires Enabled(s, l)
    requires if ThreadOf(s, l.thread).pc.Out? then l.choice == call else CallStage(s, l.thread, call)
    requires !ThreadOf(s, l.thread).pc.Returning?
    ensures CallStage(Act(s, l), l.thread, call)
  {
  }

  /** In every run a thread called at j is, until it is out again or returns from a find, at work on what it was called
      for; and when it is out, the segment is registered, or retired, or the find returns for its own address. */
  lemma {:induction false} CallsComplete(run: seq<Registry>, labels: seq<Label>, j: nat, k: nat, t: nat)
    requires IsRun(run, labels) && j < k < |run| && labels[j].thread == t && ThreadOf(run[j], t).pc.Out?
    requires forall x :: j < x < k ==> !ThreadOf(run[x], t).pc.Out? && !ThreadOf(run[x], t).pc.Returning?
    requires ThreadOf(run[k], t).pc.Out? ==> labels[k - 1].thread == t
    ensures CallStage(run[k], t, labels[j].choice)
  {
    var s, l := run[k - 1], labels[k - 1];
    assert StepsAt(run, labels, k - 1);
    if j + 1 < k {
      CallsComplete(run, labels, j, k - 1, t);
    }
    if l.thread == t {
      CallStageStep(s, l, labels[j].choice);
    } else {
      OwnStepMoves(s, l);
    }
  }

  // ---- unregistered segments stay gone ----

  /** Inside a find that must not return any segment of `gone`. */
  predicate InFind(pc: Pc, gone: set<nat>) {
    match pc
    case Looking(_, goal, g) => goal.ForFind? && g == gone
    case Settling(_, goal, g, _) => goal.ForFind? && g == gone
    case Widening(_, goal, g, _) => goal.ForFind? && g == gone
    case Returning(_, _, g) => g == gone
    case _ => false
  }

  lemma FindProceeds(s: Registry, l: Label, t: nat, gone: set<nat>)
    requires Enabled(s, l) && InFind(ThreadOf(s, t).pc, gone)
    ensures var pc' := ThreadOf(Act(s, l), t).pc; pc'.Out? || InFind(pc', gone)
  {
    if l.thread != t {
      assert ThreadOf(Act(s, l), t) == ThreadOf(s, t);
    }
  }

  lemma {:induction false} RetiredForGood(run: seq<Registry>, labels: seq<Label>, i: nat, j: nat, seg: nat)
    requires IsRun(run, labels) && i <= j < |run| && LifeOf(run[i], seg).Retired?
    ensures LifeOf(run[j], seg).Retired?
  {
    if i < j {
      RetiredForGood(run, labels, i, j - 1, seg);
      RunKeepsInv(run, labels, j - 1);
      assert StepsAt(run, labels, j - 1);
      OwnStep(run[j - 1], labels[j - 1]);
    }
  }

  lemma {:induction false} GonePersists(run: seq<Registry>, labels: seq<Label>, j: nat, k: nat, t: nat)
    requires IsRun(run, labels) && j < k < |run|
    requires ThreadOf(run[j], t).pc.Out? && labels[j].thread == t && labels[j].choice.Find?
    requires forall x :: j < x <= k ==> !ThreadOf(run[x], t).pc.Out?
    ensures InFind(ThreadOf(run[k], t).pc, RetiredSegments(run[j]))
  {
    assert StepsAt(run, labels, k - 1);
    if k > j + 1 {
      GonePersists(run, labels, j, k - 1, t);
      FindProceeds(run[k - 1], labels[k - 1], t, RetiredSegments(run[j]));
    }
  }

  /** After unregister_segment(seg) has returned (state i), a find called later (step j) by any
      thread never returns seg (state k), whatever its cache holds and however the removal and
      other lookups were interleaved. */
  lemma UnregisteredStaysGone(run: seq<Registry>, labels: seq<Label>, i: nat, j: nat, k: nat, t: nat, seg: nat)
    requires IsRun(run, labels) && i <= j < k < |run|
    requires LifeOf(run[i], seg).Retired?
    requires ThreadOf(run[j], t).pc.Out? && labels[j].thread == t && labels[j].choice.Find?
    requires forall x :: j < x <= k ==> !ThreadOf(run[x], t).pc.Out?
    requires ThreadOf(run[k], t).pc.Returning?
    ensures ThreadOf(run[k], t).pc.answer != seg
  {
    RetiredForGood(run, labels, i, j, seg);
    assert seg in RetiredSegments(run[j]);
    GonePersists(run, labels, j, k, t);
    RunKeepsInv(run, labels, k);
    assert ThreadOk(run[k], run[k].threads[t]);
  }

  /** A non-null answer names a segment that was in the trie, on a page of its own, when the
      lookup read it, so it was not yet retired then; and the address is on one of its pages. */
  lemma LookupSound(run: seq<Registry>, labels: seq<Label>, i: nat, t: nat)
    requires IsRun(run, labels) && i < |run| && ThreadOf(run[i], t).pc.Looking?
    ensures var Thread(es, pc) := ThreadOf(run[i], t);
            var seg := FindAnswer(es, run[i].m, pc.addr);
            seg != 0 ==> Live(run[i], seg) && seg in run[i].desc && HasKey(run[i].desc[seg], Key(PageOf(pc.addr)))
  {
    var s := run[i];
    var Thread(es, pc) := ThreadOf(s, t);
    RunKeepsInv(run, labels, i);
    assert ThreadOk(s, s.threads[t]);
    AnswerSound(s.desc, es, s.m, pc.addr);
    assert AbsentUnlessLive(s, FindAnswer(es, s.m, pc.addr));
  }
}
