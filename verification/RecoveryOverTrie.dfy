/** Soundness and recovery of lookups, carried over from the registry on an atomic map to the registry on the real
    trie. */
module RecoveryOverTrie {
  import opened Platform
  import opened Radix
  import opened TrieHeap
  import opened SubSegment
  import opened TlsCache
  import opened CachedLookup
  import opened RegistryOverTrie
  import Trie = ConcurrentTrie
  import Reg = ConcurrentRegistry
  import Rec = RegistryRecovery

  /** Step i is the shared read that decides what thread t's lookup answers. */
  ghost predicate ReadsAt(run: seq<State>, labels: seq<Label>, i: nat, t: nat) {
    && i < |labels| && i + 1 < |run| && Enabled(run[i], labels[i]) && labels[i].thread == t
    && Seen(run[i], labels[i]).Makes? && LocalOf(run[i], t).pc.Looking?
  }

  /** The answer it decides on. */
  function Decided(run: seq<State>, i: nat, t: nat): nat
    requires i + 1 < |run|
  {
    var th := AbsThread(LocalOf(run[i + 1], t), Trie.PcOf(run[i + 1].trie, t));
    if th.pc.Settling? then Answer(th.cache, th.pc.probe) else 0
  }

  /** Until its read the thread has not left the lookup. */
  lemma ReadOutside(s: State, l: Label)
    requires Inv(s) && Enabled(s, l) && Seen(s, l).Makes? && LocalOf(s, l.thread).pc.Looking?
    ensures Reg.ThreadOf(Abs(s), l.thread) == Reg.Thread(AbsCache(LocalOf(s, l.thread).cache), LocalOf(s, l.thread).pc)
  {
    assert LocalOk(s, l.thread);
    AbsThreadOf(s, l.thread);
    if l.choice.InTrie? {
      TrieStepFacts(s, l);
    }
  }

  /** The registry's own reading step. */
  lemma LookOutcome(r: Reg.Registry, made: Reg.Label)
    requires Reg.Enabled(r, made) && Reg.ThreadOf(r, made.thread).pc.Looking?
    ensures var Thread(es, pc) := Reg.ThreadOf(r, made.thread);
            Reg.ThreadOf(Reg.Act(r, made), made.thread)
            == Reg.Thread(es, Reg.Settling(pc.addr, pc.goal, pc.gone, ProbeAt(es, r.m, pc.addr)))
  {
  }

  lemma ReadStep(s: State, l: Label)
    requires Inv(s) && Enabled(s, l) && Seen(s, l).Makes? && LocalOf(s, l.thread).pc.Looking?
    ensures Reg.ThreadOf(Abs(s), l.thread).pc == LocalOf(s, l.thread).pc
    ensures var es := Reg.ThreadOf(Abs(s), l.thread).cache;
            var Looking(addr, goal, gone) := LocalOf(s, l.thread).pc;
            var th := AbsThread(LocalOf(Act(s, l), l.thread), Trie.PcOf(Act(s, l).trie, l.thread));
            th == Reg.Thread(es, Reg.Settling(addr, goal, gone, ProbeAt(es, Abs(s).m, addr)))
  {
    StepRefines(s, l);
    ReadOutside(s, l);
    LookOutcome(Abs(s), Seen(s, l).made);
    StepKeepsInv(s, l);
    assert LocalOk(Act(s, l), l.thread);
    AbsThreadOf(Act(s, l), l.thread);
  }

  /** The step decides on what a cached lookup over the atomic map answers at that moment. */
  lemma ReadDecides(run: seq<State>, labels: seq<Label>, i: nat, t: nat)
    requires IsRun(run, labels) && ReadsAt(run, labels, i, t)
    ensures AbsPc(LocalOf(run[i + 1], t).pc, Trie.PcOf(run[i + 1].trie, t)).Settling?
    ensures Reg.ThreadOf(Abs(run[i]), t).pc == LocalOf(run[i], t).pc
    ensures Decided(run, i, t)
         == FindAnswer(Reg.ThreadOf(Abs(run[i]), t).cache, Abs(run[i]).m, LocalOf(run[i], t).pc.addr)
  {
    RunKeepsInv(run, labels, i);
    assert StepsAt(run, labels, i);
    ReadStep(run[i], labels[i]);
  }

  /** A non-null answer is a segment that was registered and not yet retired at the read, and owns the page. */
  lemma LookupSound(run: seq<State>, labels: seq<Label>, i: nat, t: nat)
    requires IsRun(run, labels) && ReadsAt(run, labels, i, t)
    ensures AbsPc(LocalOf(run[i + 1], t).pc, Trie.PcOf(run[i + 1].trie, t)).Settling?
    ensures var s, seg := run[i], Decided(run, i, t);
            seg != 0 ==>
              && Reg.Live(Abs(s), seg) && seg in s.desc
              && HasKey(s.desc[seg], Key(PageOf(LocalOf(s, t).pc.addr)))
  {
    var spec, steps, at := Refines(run, labels, i);
    assert StateTracked(run, spec, at, i);
    ReadDecides(run, labels, i, t);
    Reg.LookupSound(spec, steps, at[i], t);
  }

  // ---- counting completed finds ----

  predicate ReturnsAt(run: seq<State>, labels: seq<Label>, x: nat, t: nat, addr: nat) {
    x < |labels| && x < |run| && labels[x].thread == t
    && LocalOf(run[x], t).pc.Returning? && LocalOf(run[x], t).pc.addr == addr
  }

  /** What the trie holds for an address. */
  function Held(s: State, addr: nat): nat {
    Truth(Contents(s.trie.tree), addr)
  }

  predicate ReturnsTruth(run: seq<State>, labels: seq<Label>, x: nat, t: nat, addr: nat) {
    ReturnsAt(run, labels, x, t, addr) && LocalOf(run[x], t).pc.answer == Held(run[x], addr)
  }

  /** How many finds of addr thread t completes from state i to state k, and how many of them return anything but
      what the trie holds. */
  function Returns(run: seq<State>, labels: seq<Label>, t: nat, addr: nat, i: nat, k: nat): nat {
    if k <= i then 0
    else Returns(run, labels, t, addr, i, k - 1) + if ReturnsAt(run, labels, k - 1, t, addr) then 1 else 0
  }

  function WrongReturns(run: seq<State>, labels: seq<Label>, t: nat, addr: nat, i: nat, k: nat): nat {
    if k <= i then 0
    else WrongReturns(run, labels, t, addr, i, k - 1)
         + if ReturnsAt(run, labels, k - 1, t, addr) && !ReturnsTruth(run, labels, k - 1, t, addr) then 1 else 0
  }

  /** The step belongs to a page loop. */
  predicate Works(s: State, l: Label) {
    LocalOf(s, l.thread).pc.Inserting? || LocalOf(s, l.thread).pc.Clearing?
  }

  /** No thread works on a page loop. */
  ghost predicate Undisturbed(run: seq<State>, labels: seq<Label>, i: nat, k: nat) {
    && k <= |labels| < |run|
    && forall x :: i <= x < k ==> !Works(run[x], labels[x])
  }

  /** A thread works on a page loop, or returns, exactly when its registry thread does. */
  lemma SameStage(s: State, t: nat)
    requires LocalOk(s, t)
    ensures var pc, pc' := LocalOf(s, t).pc, Reg.ThreadOf(Abs(s), t).pc;
            && (pc.Inserting? <==> pc'.Inserting?) && (pc.Clearing? <==> pc'.Clearing?)
            && (pc.Returning? <==> pc'.Returning?) && (pc.Returning? ==> pc' == pc)
  {
    AbsThreadOf(s, t);
  }

  /** What one step is in the registry's run. */
  lemma StepMatches(run: seq<State>, labels: seq<Label>, spec: seq<Reg.Registry>, steps: seq<Reg.Label>, at: seq<nat>,
                    x: nat, t: nat, addr: nat)
    requires IsRun(run, labels) && Tracks(run, labels, spec, steps, at) && x + 1 < |at|
    ensures x < |labels| && at[x] <= at[x + 1] <= at[x] + 1 && at[x + 1] < |spec|
    ensures at[x + 1] == at[x] ==> !ReturnsAt(run, labels, x, t, addr)
    ensures at[x + 1] == at[x] + 1 ==>
              && at[x] < |steps| && steps[at[x]].thread == labels[x].thread
              && (ReturnsAt(run, labels, x, t, addr) <==> Rec.ReturnsAt(spec, steps, at[x], t, addr))
              && (ReturnsTruth(run, labels, x, t, addr) <==> Rec.ReturnsTruth(spec, steps, at[x], t, addr))
              && (Rec.ReturnsAt(spec, steps, at[x], t, addr) ==>
                    LocalOf(run[x], t).pc == Reg.ThreadOf(spec[at[x]], t).pc)
  {
    assert StepTracked(run, labels, steps, at, x);
    assert StateTracked(run, spec, at, x) && StateTracked(run, spec, at, x + 1);
    RunKeepsInv(run, labels, x);
    assert LocalOk(run[x], t);
    SameStage(run[x], t);
  }

  lemma {:induction false} CountsMatch(run: seq<State>, labels: seq<Label>, spec: seq<Reg.Registry>,
                                       steps: seq<Reg.Label>, at: seq<nat>, t: nat, addr: nat, i: nat, k: nat)
    requires IsRun(run, labels) && Tracks(run, labels, spec, steps, at) && i <= k < |at|
    ensures at[i] <= at[k] < |spec|
    ensures Returns(run, labels, t, addr, i, k) == Rec.Returns(spec, steps, t, addr, at[i], at[k])
    ensures WrongReturns(run, labels, t, addr, i, k) == Rec.WrongReturns(spec, steps, t, addr, at[i], at[k])
  {
    assert StateTracked(run, spec, at, k);
    if i < k {
      CountsMatch(run, labels, spec, steps, at, t, addr, i, k - 1);
      StepMatches(run, labels, spec, steps, at, k - 1, t, addr);
    }
  }

  lemma StepMutates(run: seq<State>, labels: seq<Label>, spec: seq<Reg.Registry>, steps: seq<Reg.Label>, at: seq<nat>,
                    y: nat)
    requires IsRun(run, labels) && Tracks(run, labels, spec, steps, at) && y + 1 < |at| && at[y + 1] == at[y] + 1
    requires y < |labels| && !Works(run[y], labels[y])
    ensures at[y] < |steps| && at[y] < |spec| && !Rec.Mutates(spec[at[y]], steps[at[y]])
  {
    assert StepTracked(run, labels, steps, at, y) && StateTracked(run, spec, at, y);
    RunKeepsInv(run, labels, y);
    assert LocalOk(run[y], labels[y].thread);
    SameStage(run[y], labels[y].thread);
  }

  /** The step of this run behind a step of the registry's run. */
  lemma {:induction false} StepBehind(run: seq<State>, labels: seq<Label>, spec: seq<Reg.Registry>,
                                      steps: seq<Reg.Label>, at: seq<nat>, i: nat, k: nat, x: nat) returns (y: nat)
    requires Tracks(run, labels, spec, steps, at) && i <= k < |at| && at[i] <= x < at[k]
    ensures i <= y < k && at[y] == x && at[y + 1] == x + 1
  {
    assert StepTracked(run, labels, steps, at, k - 1);
    if x < at[k - 1] {
      y := StepBehind(run, labels, spec, steps, at, i, k - 1, x);
    } else {
      y := k - 1;
    }
  }

  /** The window of the registry's run that a window of this run stands for. */
  lemma Window(run: seq<State>, labels: seq<Label>, i: nat, k: nat, t: nat, addr: nat)
    returns (spec: seq<Reg.Registry>, steps: seq<Reg.Label>, at: seq<nat>)
    requires IsRun(run, labels) && i <= k && Undisturbed(run, labels, i, k) && LocalOf(run[i], t).pc.Out?
    ensures Reg.IsRun(spec, steps) && |at| == k + 1 && Tracks(run, labels, spec, steps, at)
    ensures at[i] <= at[k] < |spec| && Rec.Undisturbed(spec, steps, at[i], at[k])
    ensures spec[at[i]] == Abs(run[i])
    ensures Reg.ThreadOf(spec[at[i]], t) == Reg.Thread(AbsCache(LocalOf(run[i], t).cache), Reg.Out)
    ensures Returns(run, labels, t, addr, i, k) == Rec.Returns(spec, steps, t, addr, at[i], at[k])
    ensures WrongReturns(run, labels, t, addr, i, k) == Rec.WrongReturns(spec, steps, t, addr, at[i], at[k])
  {
    spec, steps, at := Refines(run, labels, k);
    CountsMatch(run, labels, spec, steps, at, t, addr, i, k);
    assert StateTracked(run, spec, at, i);
    SamePlace(run, labels, spec, steps, at, i, t);
    RunKeepsInv(run, labels, i);
    assert LocalOk(run[i], t);
    AbsThreadOf(run[i], t);
    forall x | at[i] <= x < at[k] ensures x < |steps| && x < |spec| && !Rec.Mutates(spec[x], steps[x]) {
      var y := StepBehind(run, labels, spec, steps, at, i, k, x);
      StepMutates(run, labels, spec, steps, at, y);
    }
  }

  /** Recovery over the real trie: in every run, from a clean state on in which no registration or removal is under
      way, and as long as no thread inserts or clears a page, a thread's finds of an address return anything but what
      the trie holds at most as often as stale entries covered the address, so at most 16 times. */
  lemma ThreadRecovers(run: seq<State>, labels: seq<Label>, i: nat, k: nat, t: nat, addr: nat)
    requires IsRun(run, labels) && i <= k && Undisturbed(run, labels, i, k)
    requires run[i].clean && Rec.Quiet(Abs(run[i])) && LocalOf(run[i], t).pc.Out?
    ensures WrongReturns(run, labels, t, addr, i, k)
         <= StaleCount(AbsCache(LocalOf(run[i], t).cache), Contents(run[i].trie.tree), addr) <= CACHE_SIZE
  {
    var spec, steps, at := Window(run, labels, i, k, t, addr);
    Rec.ThreadRecovers(spec, steps, at[i], at[k], t, addr);
  }

  /** And one of the first 17 of these finds returns what the trie holds. */
  lemma RecoversWithinSeventeen(run: seq<State>, labels: seq<Label>, i: nat, k: nat, t: nat, addr: nat) returns (y: nat)
    requires IsRun(run, labels) && i <= k && Undisturbed(run, labels, i, k)
    requires run[i].clean && Rec.Quiet(Abs(run[i])) && LocalOf(run[i], t).pc.Out?
    requires Returns(run, labels, t, addr, i, k) > CACHE_SIZE
    ensures i <= y < k && ReturnsAt(run, labels, y, t, addr) && Returns(run, labels, t, addr, i, y) <= CACHE_SIZE
    ensures LocalOf(run[y], t).pc.answer == Held(run[i], addr)
  {
    var spec, steps, at := Window(run, labels, i, k, t, addr);
    var x := Rec.RecoversWithinSeventeen(spec, steps, at[i], at[k], t, addr);
    y := StepBehind(run, labels, spec, steps, at, i, k, x);
    StepMatches(run, labels, spec, steps, at, y, t, addr);
    CountsMatch(run, labels, spec, steps, at, t, addr, i, y);
  }
}
