/** When live segments do not overlap and no insertion runs out of memory, the trie holds every
    registered segment completely, so each thread's cache recovers from stale entries. */
module RegistryRecovery {
  import opened Platform
  import opened Radix
  import opened AtomicMap
  import opened SubSegment
  import opened TlsCache
  import opened CachedLookup
  import opened ConcurrentRegistry

  ghost predicate HoldsAll(s: Registry, seg: nat) {
    seg in s.desc && forall k :: HasKey(s.desc[seg], k) ==> Get(s.m, k) == seg
  }

  ghost predicate ApartFromAll(s: Registry, o: nat, p: nat) {
    o in s.desc && p in s.desc && Live(s, o) && Live(s, p) && o != p ==> Disjoint(s.desc[o], s.desc[p])
  }

  /** The segment whose insertion is complete but which is not yet marked registered. */
  ghost predicate CleanThread(s: Registry, pc: Pc) {
    match pc
    case Inserting(seg, page) => forall q :: First(s, seg) <= q < page && q < Last(s, seg) ==> Get(s.m, Key(q)) == seg
    case Looking(_, goal, _) => goal.ForRegister? ==> HoldsAll(s, goal.seg)
    case Settling(_, goal, _, _) => goal.ForRegister? ==> HoldsAll(s, goal.seg)
    case Widening(_, goal, _, _) => goal.ForRegister? ==> HoldsAll(s, goal.seg)
    case _ => true
  }

  ghost predicate RegisteredHolds(s: Registry, seg: nat) {
    seg in s.desc && LifeOf(s, seg).Registered? ==> HoldsAll(s, seg)
  }

  ghost predicate CleanInv(s: Registry) {
    s.clean ==>
      && (forall o, p {:trigger ApartFromAll(s, o, p)} :: ApartFromAll(s, o, p))
      && (forall seg {:trigger RegisteredHolds(s, seg)} :: RegisteredHolds(s, seg))
      && (forall t {:trigger s.threads[t]} :: t in s.threads ==> CleanThread(s, s.threads[t].pc))
  }

  /** A step writes only slots of the segment its thread works on. */
  lemma WritesOwnPages(s: Registry, l: Label, k: nat)
    requires ThreadOk(s, ThreadOf(s, l.thread)) && Enabled(s, l)
    ensures var pc := ThreadOf(s, l.thread).pc;
            || Get(Act(s, l).m, k) == Get(s.m, k)
            || ((pc.Inserting? || pc.Clearing?) && pc.seg in s.desc && Live(s, pc.seg) && HasKey(s.desc[pc.seg], k))
  {
    var pc := ThreadOf(s, l.thread).pc;
    if pc.Inserting? || pc.Clearing? {
      assert First(s, pc.seg) <= pc.page < Last(s, pc.seg) ==> HasKey(s.desc[pc.seg], Key(pc.page));
    }
  }

  /** Work on one live segment does not disturb the slots of another. */
  lemma OthersHeld(s: Registry, l: Label, seg: nat, k: nat)
    requires ThreadOk(s, ThreadOf(s, l.thread)) && Enabled(s, l)
    requires seg in s.desc && Live(s, seg) && HasKey(s.desc[seg], k) && Get(s.m, k) == seg
    requires seg !in Working(ThreadOf(s, l.thread).pc)
    requires forall o :: ApartFromAll(s, o, seg)
    ensures Get(Act(s, l).m, k) == seg
  {
    var pc := ThreadOf(s, l.thread).pc;
    WritesOwnPages(s, l, k);
    if pc.Inserting? || pc.Clearing? {
      assert ApartFromAll(s, pc.seg, seg);
    }
  }

  lemma CleanOthers(s: Registry, l: Label, pc: Pc)
    requires ThreadOk(s, ThreadOf(s, l.thread)) && Enabled(s, l) && CleanThread(s, pc)
    requires Act(s, l).desc == s.desc
    requires forall o, p :: ApartFromAll(s, o, p)
    requires forall seg :: seg in Working(pc) ==> seg in s.desc && Live(s, seg)
    requires Working(pc) !! Working(ThreadOf(s, l.thread).pc)
    ensures CleanThread(Act(s, l), pc)
  {
    var s' := Act(s, l);
    forall seg, k | seg in Working(pc) && HasKey(s.desc[seg], k) && Get(s.m, k) == seg ensures Get(s'.m, k) == seg {
      OthersHeld(s, l, seg, k);
    }
    if pc.Inserting? {
      forall q | First(s, pc.seg) <= q < pc.page && q < Last(s, pc.seg) ensures Get(s'.m, Key(q)) == pc.seg {
        assert HasKey(s.desc[pc.seg], Key(q));
        assert pc.seg in Working(pc);
      }
    }
  }

  /** The stepping thread's own part: a completed insertion loop has mapped every page. */
  lemma CleanOwn(s: Registry, l: Label)
    requires ThreadOk(s, ThreadOf(s, l.thread)) && Enabled(s, l) && Act(s, l).clean
    requires CleanThread(s, ThreadOf(s, l.thread).pc)
    ensures CleanThread(Act(s, l), ThreadOf(Act(s, l), l.thread).pc)
  {
    var s', pc := Act(s, l), ThreadOf(s, l.thread).pc;
    if pc.Inserting? && pc.page >= Last(s, pc.seg) {
      forall k | HasKey(s.desc[pc.seg], k) ensures Get(s.m, k) == pc.seg {
        var q :| First(s, pc.seg) <= q < Last(s, pc.seg) && Key(q) == k;
      }
    }
  }

  lemma LiveStaysApart(s: Registry, l: Label, o: nat, p: nat)
    requires Inv(s) && CleanInv(s) && Enabled(s, l) && Act(s, l).clean
    ensures ApartFromAll(Act(s, l), o, p)
  {
    var s', pc := Act(s, l), ThreadOf(s, l.thread).pc;
    OwnThreadOk(s, l.thread);
    assert ApartFromAll(s, o, p);
    if pc.Out? && l.choice.Register? {
      assert DisjointFromLive(s, l.choice.seg);
    }
  }

  lemma RegisteredStaysHeld(s: Registry, l: Label, seg: nat)
    requires Inv(s) && CleanInv(s) && Enabled(s, l) && s.clean && Act(s, l).clean
    ensures RegisteredHolds(Act(s, l), seg)
  {
    var s', pc := Act(s, l), ThreadOf(s, l.thread).pc;
    OwnThreadOk(s, l.thread);
    assert RegisteredHolds(s, seg);
    assert s'.desc == s.desc;
    if seg in s.desc && LifeOf(s, seg).Registered? {
      forall k | HasKey(s.desc[seg], k) ensures Get(s'.m, k) == seg {
        OthersHeld(s, l, seg, k);
      }
    }
  }

  lemma StepKeepsClean(s: Registry, l: Label)
    requires Inv(s) && CleanInv(s) && Enabled(s, l)
    ensures CleanInv(Act(s, l))
  {
    var s' := Act(s, l);
    if s'.clean {
      OwnStep(s, l);
      OwnThreadOk(s, l.thread);
      forall o, p ensures ApartFromAll(s', o, p) {
        LiveStaysApart(s, l, o, p);
      }
      forall seg ensures RegisteredHolds(s', seg) {
        RegisteredStaysHeld(s, l, seg);
      }
      forall t | t in s'.threads ensures CleanThread(s', s'.threads[t].pc) {
        if t == l.thread {
          CleanOwn(s, l);
        } else {
          WorkingApart(s, l, t);
          OwnThreadOk(s, t);
          CleanOthers(s, l, s.threads[t].pc);
        }
      }
    }
  }

  lemma {:induction false} RunKeepsClean(run: seq<Registry>, labels: seq<Label>, i: nat)
    requires ConcurrentRegistry.IsRun(run, labels) && i < |run|
    ensures CleanInv(run[i])
  {
    if i > 0 {
      RunKeepsClean(run, labels, i - 1);
      RunKeepsInv(run, labels, i - 1);
      assert StepsAt(run, labels, i - 1);
      StepKeepsClean(run[i - 1], labels[i - 1]);
    }
  }

  /** No registration or removal is under way. */
  ghost predicate Quiet(s: Registry) {
    forall seg :: LifeOf(s, seg).Unborn? || LifeOf(s, seg).Registered? || LifeOf(s, seg).Retired?
  }

  /** In a quiet state of a clean run each segment sits on all its pages or on none. */
  lemma QuietIsFullyInserted(run: seq<Registry>, labels: seq<Label>, i: nat)
    requires ConcurrentRegistry.IsRun(run, labels) && i < |run| && run[i].clean && Quiet(run[i])
    ensures FullyInserted(run[i].desc, run[i].m)
  {
    var s := run[i];
    RunKeepsInv(run, labels, i);
    RunKeepsClean(run, labels, i);
    forall seg | seg != 0 ensures AllOrNothing(s.desc, s.m, seg) {
      assert RegisteredHolds(s, seg) && AbsentUnlessLive(s, seg);
    }
  }

  /** A page entry of a live segment cannot vouch for an address of a registered one. */
  lemma HitIsOwner(s: Registry, es: Cached, addr: nat, o: nat)
    requires Inv(s) && CleanInv(s) && s.clean && CacheOk(s.desc, es)
    requires o in s.desc && LifeOf(s, o).Registered? && HasKey(s.desc[o], Key(PageOf(addr)))
    requires ProbeAt(es, s.m, addr).Hit?
    ensures FindAnswer(es, s.m, addr) == o
  {
    var e := es[FirstCover(es, addr, 0)];
    assert EntryOk(s.desc, e) && AbsentUnlessLive(s, e.seg) && ApartFromAll(s, e.seg, o);
  }

  /** What a find in a clean run answers for an address of a registered segment, at the moment it reads: that
      segment or, after a stale hit, nothing. Other segments may be coming and going. */
  lemma OwnerOrNull(run: seq<Registry>, labels: seq<Label>, i: nat, t: nat, addr: nat, o: nat)
    requires ConcurrentRegistry.IsRun(run, labels) && i < |run| && run[i].clean
    requires o in run[i].desc && LifeOf(run[i], o).Registered? && HasKey(run[i].desc[o], Key(PageOf(addr)))
    ensures var es := ThreadOf(run[i], t).cache;
            FindAnswer(es, run[i].m, addr) == if ProbeAt(es, run[i].m, addr).Stale? then 0 else o
  {
    var s, es := run[i], ThreadOf(run[i], t).cache;
    RunKeepsInv(run, labels, i);
    RunKeepsClean(run, labels, i);
    OwnThreadOk(s, t);
    assert RegisteredHolds(s, o);
    if ProbeAt(es, s.m, addr).Hit? {
      HitIsOwner(s, es, addr, o);
    }
  }

  /** And for an address of no live segment: nothing. */
  lemma NobodyIsNull(run: seq<Registry>, labels: seq<Label>, i: nat, t: nat, addr: nat)
    requires ConcurrentRegistry.IsRun(run, labels) && i < |run|
    requires forall o :: o in run[i].desc && Live(run[i], o) ==> !HasKey(run[i].desc[o], Key(PageOf(addr)))
    ensures FindAnswer(ThreadOf(run[i], t).cache, run[i].m, addr) == 0
  {
    var s, es := run[i], ThreadOf(run[i], t).cache;
    RunKeepsInv(run, labels, i);
    OwnThreadOk(s, t);
    AnswerSound(s.desc, es, s.m, addr);
    assert AbsentUnlessLive(s, FindAnswer(es, s.m, addr));
  }

  // ---- recovery ----

  /** The step inserts or clears a page, or ends such a loop. */
  predicate Mutates(s: Registry, l: Label) {
    ThreadOf(s, l.thread).pc.Inserting? || ThreadOf(s, l.thread).pc.Clearing?
  }

  ghost predicate Undisturbed(run: seq<Registry>, labels: seq<Label>, i: nat, k: nat) {
    k <= |labels| < |run| && forall x :: i <= x < k ==> !Mutates(run[x], labels[x])
  }

  /** Step x is thread t returning from find(addr). */
  predicate ReturnsAt(run: seq<Registry>, labels: seq<Label>, x: nat, t: nat, addr: nat) {
    x < |labels| && x < |run| && labels[x].thread == t
    && ThreadOf(run[x], t).pc.Returning? && ThreadOf(run[x], t).pc.addr == addr
  }

  predicate ReturnsTruth(run: seq<Registry>, labels: seq<Label>, x: nat, t: nat, addr: nat) {
    ReturnsAt(run, labels, x, t, addr) && ThreadOf(run[x], t).pc.answer == Truth(run[x].m, addr)
  }

  /** How many finds of addr thread t completes from state i to state k. */
  function Returns(run: seq<Registry>, labels: seq<Label>, t: nat, addr: nat, i: nat, k: nat): nat {
    if k <= i then 0
    else Returns(run, labels, t, addr, i, k - 1) + if ReturnsAt(run, labels, k - 1, t, addr) then 1 else 0
  }

  /** How many of them return anything but what the trie holds. */
  function WrongReturns(run: seq<Registry>, labels: seq<Label>, t: nat, addr: nat, i: nat, k: nat): nat {
    if k <= i then 0
    else WrongReturns(run, labels, t, addr, i, k - 1)
         + if ReturnsAt(run, labels, k - 1, t, addr) && !ReturnsTruth(run, labels, k - 1, t, addr) then 1 else 0
  }

  /** Where a thread stands in a find, as long as the mapping stays as it is. */
  ghost predicate Tracked(m: map<nat, nat>, th: Thread) {
    match th.pc
    case Looking(_, goal, _) => goal.ForFind?
    case Settling(addr, goal, _, probe) => goal.ForFind? && probe == ProbeAt(th.cache, m, addr)
    case Widening(_, goal, _, answer) => goal.ForFind? && (answer != 0 ==> TopFresh(th.cache, m, answer))
    case _ => true
  }

  /** The wrong answers a thread may still return for addr: stale entries, and one on its way out. */
  function Budget(m: map<nat, nat>, th: Thread, addr: nat): nat {
    StaleCount(th.cache, m, addr)
    + if (th.pc.Widening? || th.pc.Returning?) && th.pc.addr == addr && th.pc.answer != Truth(m, addr) then 1 else 0
  }

  /** The mapping stands still and is complete. */
  ghost predicate AtRest(s: Registry) {
    MapOk(s.desc, s.m) && FullyInserted(s.desc, s.m)
  }

  lemma SettleWithinBudget(desc: Descriptors, m: map<nat, nat>, th: Thread, addr: nat)
    requires MapOk(desc, m) && FullyInserted(desc, m) && CacheOk(desc, th.cache)
    requires th.pc.Settling? && Tracked(m, th)
    ensures var answer := Answer(th.cache, th.pc.probe);
            var th' := Thread(Settle(th.cache, th.pc.addr, th.pc.probe),
                              Widening(th.pc.addr, th.pc.goal, th.pc.gone, answer));
            Tracked(m, th') && Budget(m, th', addr) <= Budget(m, th, addr)
  {
    SettleLowers(th.cache, m, th.pc.addr, addr);
    SettleTop(th.cache, m, th.pc.addr);
    DisagreesIffStale(desc, th.cache, m, th.pc.addr);
  }

  /** One step of the thread itself: its wrong answers come out of its budget. */
  lemma OwnFindStep(s: Registry, l: Label, addr: nat)
    requires Enabled(s, l) && AtRest(s) && !Mutates(s, l)
    requires var th := ThreadOf(s, l.thread); Tracked(s.m, th) && CacheOk(s.desc, th.cache)
    ensures Act(s, l).m == s.m
    ensures var th, th' := ThreadOf(s, l.thread), ThreadOf(Act(s, l), l.thread);
            && Tracked(s.m, th')
            && Budget(s.m, th', addr)
               + (if th.pc.Returning? && th.pc.addr == addr && th.pc.answer != Truth(s.m, addr) then 1 else 0)
               <= Budget(s.m, th, addr)
  {
    var th := ThreadOf(s, l.thread);
    if th.pc.Settling? {
      SettleWithinBudget(s.desc, s.m, th, addr);
    } else if th.pc.Widening? {
      WidenKeepsCount(s.desc, th.cache, s.m, th.pc.answer, addr);
    }
  }

  lemma RunStep(run: seq<Registry>, labels: seq<Label>, x: nat, t: nat, addr: nat)
    requires ConcurrentRegistry.IsRun(run, labels) && x < |labels| && !Mutates(run[x], labels[x])
    requires AtRest(run[x]) && Tracked(run[x].m, ThreadOf(run[x], t))
    ensures run[x + 1].m == run[x].m && run[x + 1].desc == run[x].desc && Tracked(run[x].m, ThreadOf(run[x + 1], t))
    ensures Budget(run[x].m, ThreadOf(run[x + 1], t), addr)
            + (if ReturnsAt(run, labels, x, t, addr) && !ReturnsTruth(run, labels, x, t, addr) then 1 else 0)
            <= Budget(run[x].m, ThreadOf(run[x], t), addr)
  {
    assert StepsAt(run, labels, x);
    RunKeepsInv(run, labels, x);
    OwnThreadOk(run[x], t);
    if labels[x].thread == t {
      OwnFindStep(run[x], labels[x], addr);
    }
  }

  lemma {:induction false} WrongWithinBudget(run: seq<Registry>, labels: seq<Label>, i: nat, k: nat, t: nat, addr: nat)
    requires ConcurrentRegistry.IsRun(run, labels) && i <= k && Undisturbed(run, labels, i, k)
    requires AtRest(run[i]) && ThreadOf(run[i], t).pc.Out?
    ensures run[k].m == run[i].m && AtRest(run[k]) && Tracked(run[k].m, ThreadOf(run[k], t))
    ensures WrongReturns(run, labels, t, addr, i, k) + Budget(run[i].m, ThreadOf(run[k], t), addr)
         <= StaleCount(ThreadOf(run[i], t).cache, run[i].m, addr)
  {
    if i < k {
      WrongWithinBudget(run, labels, i, k - 1, t, addr);
      RunStep(run, labels, k - 1, t, addr);
    }
  }

  /** If not all of the finds were wrong, one of them was right. */
  lemma {:induction false} SomeReturnsTruth(run: seq<Registry>, labels: seq<Label>, i: nat, k: nat, t: nat, addr: nat)
    returns (x: nat)
    requires WrongReturns(run, labels, t, addr, i, k) < Returns(run, labels, t, addr, i, k)
    ensures i <= x < k && ReturnsTruth(run, labels, x, t, addr)
    ensures Returns(run, labels, t, addr, i, x) < Returns(run, labels, t, addr, i, k)
  {
    if ReturnsTruth(run, labels, k - 1, t, addr) {
      x := k - 1;
    } else {
      x := SomeReturnsTruth(run, labels, i, k - 1, t, addr);
    }
  }

  /** The state after n of the finds. */
  lemma {:induction false} AfterReturns(run: seq<Registry>, labels: seq<Label>, i: nat, k: nat, t: nat, addr: nat,
                                        n: nat) returns (j: nat)
    requires i <= k && n <= Returns(run, labels, t, addr, i, k)
    ensures i <= j <= k && Returns(run, labels, t, addr, i, j) == n
  {
    if Returns(run, labels, t, addr, i, k) == n {
      j := k;
    } else {
      j := AfterReturns(run, labels, i, k - 1, t, addr, n);
    }
  }

  /** Recovery in every run: from any quiet state on, with whatever stale entries other threads' removals left
      in a thread's cache, and as long as no page is inserted or cleared, the thread's finds of an address
      return anything but the trie's answer at most as often as stale entries covered the address, so at most
      16 times, whatever else the thread looks up in between. */
  lemma ThreadRecovers(run: seq<Registry>, labels: seq<Label>, i: nat, k: nat, t: nat, addr: nat)
    requires ConcurrentRegistry.IsRun(run, labels) && i <= k && Undisturbed(run, labels, i, k)
    requires run[i].clean && Quiet(run[i]) && ThreadOf(run[i], t).pc.Out?
    ensures WrongReturns(run, labels, t, addr, i, k)
         <= StaleCount(ThreadOf(run[i], t).cache, run[i].m, addr) <= CACHE_SIZE
  {
    RunKeepsInv(run, labels, i);
    OwnThreadOk(run[i], t);
    QuietIsFullyInserted(run, labels, i);
    WrongWithinBudget(run, labels, i, k, t, addr);
    StaleCountBound(ThreadOf(run[i], t).cache, run[i].m, addr);
  }

  /** And one of the first 17 of these finds returns the trie's answer. */
  lemma RecoversWithinSeventeen(run: seq<Registry>, labels: seq<Label>, i: nat, k: nat, t: nat, addr: nat)
    returns (x: nat)
    requires ConcurrentRegistry.IsRun(run, labels) && i <= k && Undisturbed(run, labels, i, k)
    requires run[i].clean && Quiet(run[i]) && ThreadOf(run[i], t).pc.Out?
    requires Returns(run, labels, t, addr, i, k) > CACHE_SIZE
    ensures i <= x < k && ReturnsAt(run, labels, x, t, addr) && Returns(run, labels, t, addr, i, x) <= CACHE_SIZE
    ensures ThreadOf(run[x], t).pc.answer == Truth(run[i].m, addr)
  {
    var j := AfterReturns(run, labels, i, k, t, addr, CACHE_SIZE + 1);
    ThreadRecovers(run, labels, i, j, t, addr);
    x := SomeReturnsTruth(run, labels, i, j, t, addr);
    RunKeepsInv(run, labels, i);
    QuietIsFullyInserted(run, labels, i);
    WrongWithinBudget(run, labels, i, x, t, addr);
  }

  // ---- warm caches ----

  /** The top entry is the whole segment. */
  predicate Warm(es: Cached, x: Extent, seg: nat) {
    |es| > 0 && es[0].Used? && es[0].seg == seg && es[0].base == x.base && es[0].end == x.base + x.size
  }

  predicate OnTop(es: Cached, seg: nat) {
    |es| > 0 && es[0].Used? && es[0].seg == seg
  }

  predicate ToBeWarm(s: Registry, seg: nat) {
    seg != 0 && seg in s.desc && s.desc[seg].size > 0 && s.clean
  }

  /** What a thread on its way has on top of its cache. A registration looks its own base address up on an emptied
      cache. */
  predicate Warming(s: Registry, th: Thread) {
    match th.pc
    case Looking(addr, goal, _) =>
      goal.ForRegister? && goal.seg in s.desc ==> th.cache == AllVacant() && addr == s.desc[goal.seg].base
    case Settling(addr, goal, _, probe) =>
      && (probe.Hit? ==> probe.i < |th.cache| && th.cache[probe.i].Used?)
      && (goal.ForRegister? && ToBeWarm(s, goal.seg) ==>
            th.cache == AllVacant() && addr == s.desc[goal.seg].base && probe == Fetched(goal.seg))
    case Widening(_, goal, _, answer) =>
      if goal.ForFind? then answer != 0 ==> OnTop(th.cache, answer)
      else ToBeWarm(s, goal.seg) ==> OnTop(th.cache, goal.seg)
    case Returning(_, answer, _) => answer in s.desc && answer != 0 ==> Warm(th.cache, s.desc[answer], answer)
    case _ => true
  }

  /** On an emptied cache, the page of its base leads a complete segment's registration to the segment itself. */
  lemma ProbeOfBase(s: Registry, seg: nat)
    requires HoldsAll(s, seg) && s.desc[seg].size > 0
    ensures ProbeAt(AllVacant(), s.m, s.desc[seg].base) == Fetched(seg)
  {
    ByteHasKey(s.desc[seg], s.desc[seg].base);
    assert FirstCover<nat>(AllVacant(), s.desc[seg].base, 0) == CACHE_SIZE;
  }

  lemma WarmingStep(s: Registry, l: Label)
    requires Enabled(s, l) && Warming(s, ThreadOf(s, l.thread)) && |ThreadOf(s, l.thread).cache| == CACHE_SIZE
    requires var pc := ThreadOf(s, l.thread).pc;
             pc.Looking? && pc.goal.ForRegister? && s.clean ==> HoldsAll(s, pc.goal.seg)
    ensures Warming(Act(s, l), ThreadOf(Act(s, l), l.thread))
  {
    var pc := ThreadOf(s, l.thread).pc;
    if pc.Looking? && pc.goal.ForRegister? && s.clean && s.desc[pc.goal.seg].size > 0 {
      ProbeOfBase(s, pc.goal.seg);
    }
  }

  lemma {:induction false} RunWarms(run: seq<Registry>, labels: seq<Label>, i: nat, t: nat)
    requires ConcurrentRegistry.IsRun(run, labels) && i < |run|
    ensures Warming(run[i], ThreadOf(run[i], t))
  {
    if i > 0 {
      RunWarms(run, labels, i - 1, t);
      RunKeepsInv(run, labels, i - 1);
      RunKeepsClean(run, labels, i - 1);
      assert StepsAt(run, labels, i - 1);
      OwnThreadOk(run[i - 1], t);
      if labels[i - 1].thread == t {
        assert run[i - 1].clean && t in run[i - 1].threads ==> CleanThread(run[i - 1], run[i - 1].threads[t].pc);
        WarmingStep(run[i - 1], labels[i - 1]);
      }
    }
  }

  /** In every run a find that returns a segment leaves all of it cached on top, so that the next address inside it is
      answered without a traversal of the trie. */
  lemma FindWarms(run: seq<Registry>, labels: seq<Label>, i: nat, t: nat, addr: nat)
    requires ConcurrentRegistry.IsRun(run, labels) && i < |run|
    requires ThreadOf(run[i], t).pc.Returning? && ThreadOf(run[i], t).pc.answer != 0
    ensures var seg, es := ThreadOf(run[i], t).pc.answer, ThreadOf(run[i], t).cache;
            && seg in run[i].desc && Warm(es, run[i].desc[seg], seg)
            && (run[i].desc[seg].base <= addr < run[i].desc[seg].base + run[i].desc[seg].size ==>
                  !ProbeAt(es, run[i].m, addr).Fetched? && FirstCover(es, addr, 0) == 0)
  {
    RunWarms(run, labels, i, t);
    RunKeepsInv(run, labels, i);
    OwnThreadOk(run[i], t);
  }

  /** In every clean run a thread that has registered a segment has all of it cached on top. */
  lemma RegisterWarms(run: seq<Registry>, labels: seq<Label>, i: nat, seg: nat)
    requires ConcurrentRegistry.IsRun(run, labels) && i < |labels| && run[i].clean
    requires var pc := ThreadOf(run[i], labels[i].thread).pc; pc.Widening? && pc.goal == ForRegister(seg)
    ensures LifeOf(run[i + 1], seg).Registered? && seg in run[i].desc
    ensures run[i].desc[seg].size > 0 ==> Warm(ThreadOf(run[i + 1], labels[i].thread).cache, run[i].desc[seg], seg)
  {
    RunWarms(run, labels, i, labels[i].thread);
    RunKeepsInv(run, labels, i);
    OwnThreadOk(run[i], labels[i].thread);
    assert StepsAt(run, labels, i);
  }

  /** A thread that has removed a segment has nothing stale cached: from a quiet state right after, and as long as no
      page is inserted or cleared, all its finds return what the trie holds. */
  lemma RemoverIsNeverWrong(run: seq<Registry>, labels: seq<Label>, i: nat, k: nat, addr: nat)
    requires ConcurrentRegistry.IsRun(run, labels) && i < k && Undisturbed(run, labels, i + 1, k)
    requires ThreadOf(run[i], labels[i].thread).pc.Clearing? && ThreadOf(run[i + 1], labels[i].thread).pc.Out?
    requires run[i + 1].clean && Quiet(run[i + 1])
    ensures WrongReturns(run, labels, labels[i].thread, addr, i + 1, k) == 0
  {
    var t := labels[i].thread;
    assert StepsAt(run, labels, i);
    assert ThreadOf(run[i + 1], t).cache == AllVacant();
    ThreadRecovers(run, labels, i + 1, k, t, addr);
    NothingStale(AllVacant(), run[i + 1].m, addr);
  }

  lemma {:induction false} NothingStale(es: Cached, m: map<nat, nat>, addr: nat)
    requires forall i :: 0 <= i < |es| ==> es[i].Vacant?
    ensures StaleCount(es, m, addr) == 0
  {
    if es != [] {
      NothingStale(es[1..], m, addr);
    }
  }

  // ---- a stale hit in a run ----

  lemma Extend(run: seq<Registry>, labels: seq<Label>, l: Label) returns (run': seq<Registry>, labels': seq<Label>)
    requires ConcurrentRegistry.IsRun(run, labels) && Enabled(run[|run| - 1], l)
    ensures ConcurrentRegistry.IsRun(run', labels')
    ensures run' == run + [Act(run[|run| - 1], l)] && labels' == labels + [l]
  {
    run', labels' := run + [Act(run[|run| - 1], l)], labels + [l];
    forall i: nat | i < |labels'| ensures StepsAt(run', labels', i) {
      assert i < |labels| ==> StepsAt(run, labels, i);
    }
  }

  /** Some other thread's whole operation, as far as the rest can see. */
  ghost predicate LeavesOthers(s: Registry, s': Registry, t: nat) {
    && s'.desc == s.desc && ThreadOf(s', t).pc.Out?
    && forall u :: u != t ==> ThreadOf(s', u) == ThreadOf(s, u)
  }

  /** One step of thread t, seen from outside: only t's own state and what it writes may change. */
  lemma StepOutside(s: Registry, l: Label)
    requires Enabled(s, l)
    ensures var s', th := Act(s, l), ThreadOf(s, l.thread);
            && s'.desc == s.desc && s'.m == MapAfter(s, th.pc, l.choice) && s'.life == LifeAfter(s, th.pc, l.choice)
            && s'.clean == CleanAfter(s, th.pc, l.choice)
            && ThreadOf(s', l.thread) == Thread(OwnCacheAfter(s, th), PcAfter(s, th, l.choice))
            && forall u :: u != l.thread ==> ThreadOf(s', u) == ThreadOf(s, u)
  {
  }

  /** A step of a find changes nothing but the thread's own state. */
  lemma FindStepLocal(s: Registry, l: Label)
    requires Enabled(s, l)
    requires var pc := ThreadOf(s, l.thread).pc;
             if pc.Out? then l.choice.Find? else pc.Looking? || pc.Settling? || (pc.Widening? && pc.goal.ForFind?)
    ensures var s', th := Act(s, l), ThreadOf(s, l.thread);
            && s'.desc == s.desc && s'.m == s.m && s'.life == s.life && s'.clean == s.clean
            && ThreadOf(s', l.thread) == Thread(OwnCacheAfter(s, th), PcAfter(s, th, l.choice))
            && forall u :: u != l.thread ==> ThreadOf(s', u) == ThreadOf(s, u)
  {
  }

  /** A find that nobody interrupts: what its steps do together. */
  lemma FindUninterrupted(run0: seq<Registry>, labels0: seq<Label>, t: nat, addr: nat)
    returns (run: seq<Registry>, labels: seq<Label>)
    requires ConcurrentRegistry.IsRun(run0, labels0) && ThreadOf(run0[|run0| - 1], t).pc.Out?
    ensures ConcurrentRegistry.IsRun(run, labels)
    ensures var s, s' := run0[|run0| - 1], run[|run| - 1];
            var es := ThreadOf(s, t).cache;
            && s'.desc == s.desc && s'.m == s.m && s'.life == s.life && s'.clean == s.clean
            && ThreadOf(s', t) == Thread(FindCache(s.desc, es, s.m, addr),
                                         Returning(addr, FindAnswer(es, s.m, addr), RetiredSegments(s)))
            && forall u :: u != t ==> ThreadOf(s', u) == ThreadOf(s, u)
  {
    var s0 := run0[|run0| - 1];
    run, labels := Extend(run0, labels0, Label(t, Find(addr)));
    FindStepLocal(s0, Label(t, Find(addr)));
    var s1 := run[|run| - 1];
    run, labels := Extend(run, labels, Label(t, Go));
    FindStepLocal(s1, Label(t, Go));
    var s2 := run[|run| - 1];
    run, labels := Extend(run, labels, Label(t, Go));
    FindStepLocal(s2, Label(t, Go));
    var s3 := run[|run| - 1];
    run, labels := Extend(run, labels, Label(t, Go));
    FindStepLocal(s3, Label(t, Go));
  }

  /** The page loop of a registration, up to the warming lookup. */
  lemma InsertPage(run0: seq<Registry>, labels0: seq<Label>, t: nat, seg: nat)
    returns (run: seq<Registry>, labels: seq<Label>)
    requires ConcurrentRegistry.IsRun(run0, labels0)
    requires var s := run0[|run0| - 1];
             && ThreadOf(s, t).pc.Out? && seg != 0 && seg in s.desc && s.desc[seg] == SECOND_PAGE
             && LifeOf(s, seg).Unborn? && DisjointFromLive(s, seg)
    ensures ConcurrentRegistry.IsRun(run, labels)
    ensures var s, s' := run0[|run0| - 1], run[|run| - 1];
            && s'.desc == s.desc && s'.m == s.m[Key(1) := seg] && s'.life == s.life[seg := Registering]
            && s'.clean == s.clean
            && ThreadOf(s', t).pc == Looking(PAGE_SIZE, ForRegister(seg), {})
            && forall u :: u != t ==> ThreadOf(s', u) == ThreadOf(s, u)
  {
    SecondPage();
    run, labels := Extend(run0, labels0, Label(t, Register(seg)));
    StepOutside(run0[|run0| - 1], Label(t, Register(seg)));
    var s1 := run[|run| - 1];
    run, labels := Extend(run, labels, Label(t, Go));
    StepOutside(s1, Label(t, Go));
    var s2 := run[|run| - 1];
    run, labels := Extend(run, labels, Label(t, Go));
    StepOutside(s2, Label(t, Go));
  }

  lemma RegisterPage(run0: seq<Registry>, labels0: seq<Label>, t: nat, seg: nat)
    returns (run: seq<Registry>, labels: seq<Label>)
    requires ConcurrentRegistry.IsRun(run0, labels0)
    requires var s := run0[|run0| - 1];
             && ThreadOf(s, t).pc.Out? && seg != 0 && seg in s.desc && s.desc[seg] == SECOND_PAGE
             && LifeOf(s, seg).Unborn? && DisjointFromLive(s, seg)
    ensures ConcurrentRegistry.IsRun(run, labels)
    ensures var s, s' := run0[|run0| - 1], run[|run| - 1];
            && LeavesOthers(s, s', t) && s'.m == s.m[Key(1) := seg] && s'.life == s.life[seg := Registered]
            && s'.clean == s.clean
  {
    run, labels := InsertPage(run0, labels0, t, seg);
    var s1 := run[|run| - 1];
    run, labels := Extend(run, labels, Label(t, Go));
    FindStepLocal(s1, Label(t, Go));
    var s2 := run[|run| - 1];
    run, labels := Extend(run, labels, Label(t, Go));
    FindStepLocal(s2, Label(t, Go));
    var s3 := run[|run| - 1];
    run, labels := Extend(run, labels, Label(t, Go));
    StepOutside(s3, Label(t, Go));
  }

  lemma UnregisterPage(run0: seq<Registry>, labels0: seq<Label>, t: nat, seg: nat)
    returns (run: seq<Registry>, labels: seq<Label>)
    requires ConcurrentRegistry.IsRun(run0, labels0)
    requires var s := run0[|run0| - 1];
             ThreadOf(s, t).pc.Out? && seg in s.desc && s.desc[seg] == SECOND_PAGE && LifeOf(s, seg).Registered?
    ensures ConcurrentRegistry.IsRun(run, labels)
    ensures var s, s' := run0[|run0| - 1], run[|run| - 1];
            && LeavesOthers(s, s', t) && s'.m == s.m - {Key(1)} && s'.life == s.life[seg := Retired]
            && s'.clean == s.clean
  {
    SecondPage();
    run, labels := Extend(run0, labels0, Label(t, Unregister(seg)));
    run, labels := Extend(run, labels, Label(t, Go));
    assert ThreadOf(run[|run| - 1], t).pc == Clearing(seg, 2);
    run, labels := Extend(run, labels, Label(t, Go));
  }

  /** The cache's top entry is the second page, owned by `seg`. */
  predicate TopIsPage(es: Cached, seg: nat) {
    |es| > 0 && es[0] == Used(PAGE_SIZE, PAGE_SIZE + PAGE_SIZE, seg, Key(1))
  }

  /** A find on an empty cache caches the whole segment. */
  lemma FirstFindCaches(desc: Descriptors, m: map<nat, nat>, seg: nat)
    requires seg != 0 && seg in desc && desc[seg] == SECOND_PAGE && m == map[Key(1) := seg]
    ensures TopIsPage(FindCache(desc, AllVacant(), m, PAGE_SIZE), seg)
  {
    SecondPage();
    assert FirstCover<nat>(AllVacant(), PAGE_SIZE, 0) == CACHE_SIZE;
  }

  /** Thread t finds a segment that thread u registered. */
  lemma FoundSegment(desc: Descriptors, seg: nat, t: nat, u: nat) returns (run: seq<Registry>, labels: seq<Label>)
    requires seg != 0 && seg in desc && desc[seg] == SECOND_PAGE && t != u && EndsBelow(desc)
    ensures ConcurrentRegistry.IsRun(run, labels)
    ensures var s := run[|run| - 1];
            && s.desc == desc && s.m == map[Key(1) := seg] && s.life == map[seg := Registered] && s.clean
            && ThreadOf(s, t).pc.Out? && ThreadOf(s, u).pc.Out? && TopIsPage(ThreadOf(s, t).cache, seg)
  {
    run, labels := [Registry(desc, map[], map[], map[], true)], [];
    run, labels := RegisterPage(run, labels, u, seg);
    FirstFindCaches(desc, run[|run| - 1].m, seg);
    run, labels := FindUninterrupted(run, labels, t, PAGE_SIZE);
    run, labels := Extend(run, labels, Label(t, Go));
  }

  /** Then u replaces it by another segment on the same page. */
  lemma ReplacedSegment(former: nat, now: nat, t: nat, u: nat) returns (run: seq<Registry>, labels: seq<Label>)
    requires former != 0 && now != 0 && former != now && t != u
    ensures ConcurrentRegistry.IsRun(run, labels)
    ensures var s := run[|run| - 1];
            && s.desc == map[former := SECOND_PAGE, now := SECOND_PAGE] && s.m == map[Key(1) := now] && s.clean
            && s.life == map[former := Retired, now := Registered]
            && ThreadOf(s, t).pc.Out? && TopIsPage(ThreadOf(s, t).cache, former)
  {
    PageSizeBound();
    run, labels := FoundSegment(map[former := SECOND_PAGE, now := SECOND_PAGE], former, t, u);
    run, labels := UnregisterPage(run, labels, u, former);
    run, labels := RegisterPage(run, labels, u, now);
  }

  /** It does happen: after a clean run that is at rest, with segments well inside the address space, a thread
      that cached the former owner of a page is told that the page has no owner. */
  lemma StaleHitHidesSegment(former: nat, now: nat, t: nat, u: nat, addr: nat)
    returns (run: seq<Registry>, labels: seq<Label>)
    requires former != 0 && now != 0 && former != now && t != u && PAGE_SIZE <= addr < PAGE_SIZE + PAGE_SIZE
    ensures ConcurrentRegistry.IsRun(run, labels)
    ensures var s, pc := run[|run| - 1], ThreadOf(run[|run| - 1], t).pc;
            && s.clean && Quiet(s) && now in s.desc && s.desc[now] == SECOND_PAGE
            && (forall seg :: LifeOf(s, seg).Registered? <==> seg == now)
            && pc.Returning? && pc.addr == addr && pc.answer == 0 && Truth(s.m, addr) == now
  {
    SecondPage();
    PageSpan(PAGE_SIZE, addr);
    run, labels := ReplacedSegment(former, now, t, u);
    assert FirstCover(ThreadOf(run[|run| - 1], t).cache, addr, 0) == 0;
    run, labels := FindUninterrupted(run, labels, t, addr);
  }
}
