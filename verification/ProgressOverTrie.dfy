/** On the real trie every operation of the registry completes, and completely unless the allocator refuses memory. */
module ProgressOverTrie {
  import opened Platform
  import opened Radix
  import opened TrieHeap
  import opened SubSegment
  import opened RegistryOverTrie
  import Trie = ConcurrentTrie
  import Reg = ConcurrentRegistry
  import Rec = RegistryRecovery

  // ---- nothing is dropped without a refusal ----

  /** The allocator refuses memory in this step. */
  predicate Refused(l: Label) {
    l.choice == InTrie(Trie.Heap(0))
  }

  /** A registration starts that shares a page with another live segment. */
  ghost predicate Overlaps(s: State, l: Label) {
    && LocalOf(s, l.thread).pc.Out? && l.choice.InRegistry? && l.choice.choice.Register?
    && !Reg.DisjointFromLive(Abs(s), l.choice.choice.seg)
  }

  lemma CleanStep(s: State, l: Label)
    requires Inv(s) && Enabled(s, l) && s.clean
    ensures Act(s, l).clean <==> !Refused(l) && !Overlaps(s, l)
  {
    assert LocalOk(s, l.thread);
    if l.choice.InTrie? {
      TrieStepFacts(s, l);
    }
  }

  /** In every run `clean` says exactly that no memory was refused and no registration overlapped so far. */
  lemma {:induction false} CleanIff(run: seq<State>, labels: seq<Label>, i: nat)
    requires IsRun(run, labels) && i < |run|
    ensures run[i].clean <==> forall x :: 0 <= x < i ==> !Refused(labels[x]) && !Overlaps(run[x], labels[x])
  {
    if i > 0 {
      CleanIff(run, labels, i - 1);
      RunKeepsInv(run, labels, i - 1);
      assert StepsAt(run, labels, i - 1);
      if run[i - 1].clean {
        CleanStep(run[i - 1], labels[i - 1]);
      }
    }
  }

  /** So a segment is on all its pages once it is registered, in every run without refusals and overlaps. */
  lemma RegisteredIsComplete(run: seq<State>, labels: seq<Label>, i: nat, seg: nat, k: nat)
    requires IsRun(run, labels) && i < |run|
    requires forall x :: 0 <= x < i ==> !Refused(labels[x]) && !Overlaps(run[x], labels[x])
    requires seg in run[i].desc && Reg.LifeOf(Abs(run[i]), seg).Registered? && HasKey(run[i].desc[seg], k)
    ensures AtomicMap.Get(Contents(run[i].trie.tree), k) == seg
  {
    var spec, steps, at := Refines(run, labels, i);
    assert StateTracked(run, spec, at, i);
    CleanIff(run, labels, i);
    Rec.RunKeepsClean(spec, steps, at[i]);
    assert Rec.RegisteredHolds(spec[at[i]], seg);
  }

  // ---- every operation completes ----

  /** More than the steps of one trie operation. */
  const ROUND: nat := 4 * LEVELS + 2

  /** Steps enough for n steps of the registry's code. */
  function Rounds(n: nat): nat {
    if n == 0 then 0 else Rounds(n - 1) + ROUND
  }

  lemma {:induction false} RoundDrops(a: nat, b: nat)
    requires a < b
    ensures Rounds(a) + ROUND <= Rounds(b)
  {
    if a + 1 < b {
      RoundDrops(a, b - 1);
    }
  }

  /** What is left of the current round: a trie operation, or a step of the registry's own. */
  function RoundLeft(at: Trie.Pc): int {
    if at.Outside? then ROUND - 1 else Trie.ToGo(at)
  }

  /** How many steps of its own a thread still needs to finish what it does. */
  function ToGo(s: State, t: nat): int {
    Rounds(Reg.ToGo(s.desc, LocalOf(s, t).pc)) + RoundLeft(Trie.PcOf(s.trie, t))
  }

  /** A returned operation is one step on in the registry's code. */
  lemma ReturnDrops(desc: Descriptors, mine: Local, at: Trie.Pc)
    requires at.Leaving? && NextCall(desc, mine) == Some(at.op)
    ensures Reg.ToGo(desc, Returned(mine, at).pc) < Reg.ToGo(desc, mine.pc)
  {
  }

  lemma TrieStepDrops(s: State, l: Label)
    requires Inv(s) && Enabled(s, l) && l.choice.InTrie?
    ensures ToGo(Act(s, l), l.thread) < ToGo(s, l.thread)
  {
    var t, at, s' := l.thread, Trie.PcOf(s.trie, l.thread), Act(s, l);
    var pc, pc' := LocalOf(s, t).pc, LocalOf(s', t).pc;
    assert LocalOk(s, t) && Trie.Sound(s.trie.tree, at);
    TrieStepFrame(s, l);
    if at.Leaving? {
      ReturnDrops(s.desc, LocalOf(s, t), at);
      RoundDrops(Reg.ToGo(s.desc, pc'), Reg.ToGo(s.desc, pc));
    } else {
      Trie.StepsCount(s.trie.tree, at, l.choice.step);
    }
  }

  lemma LocalStepDrops(s: State, l: Label)
    requires Inv(s) && Enabled(s, l) && l.choice.InRegistry? && !LocalOf(s, l.thread).pc.Out?
    ensures ToGo(Act(s, l), l.thread) < ToGo(s, l.thread)
  {
    var mine, c := LocalOf(s, l.thread), l.choice.choice;
    var pc' := LocalAfter(s, mine, c).pc;
    assert LocalOk(s, l.thread);
    LocalPcMatches(s, l.thread, c);
    Reg.PcDrops(Abs(s), Reg.Thread(AbsCache(mine.cache), mine.pc), c);
    RoundDrops(Reg.ToGo(s.desc, pc'), Reg.ToGo(s.desc, mine.pc));
    LocalMoves(s, l);
  }

  lemma LocalMoves(s: State, l: Label)
    requires Enabled(s, l) && l.choice.InRegistry?
    ensures LocalOf(Act(s, l), l.thread) == LocalAfter(s, LocalOf(s, l.thread), l.choice.choice)
    ensures Act(s, l).trie == s.trie && Act(s, l).desc == s.desc
  {
  }

  lemma OwnStepDrops(s: State, l: Label)
    requires Inv(s) && Enabled(s, l) && !LocalOf(s, l.thread).pc.Out?
    ensures ToGo(Act(s, l), l.thread) < ToGo(s, l.thread)
  {
    if l.choice.InTrie? {
      TrieStepDrops(s, l);
    } else {
      LocalStepDrops(s, l);
    }
  }

  lemma CallStep(s: State, l: Label)
    requires Inv(s) && Enabled(s, l) && LocalOf(s, l.thread).pc.Out?
    ensures l.choice.InRegistry?
    ensures ToGo(Act(s, l), l.thread) <= Rounds(Reg.StepsFor(s.desc, l.choice.choice)) + ROUND - 1
  {
    var pc' := LocalOf(Act(s, l), l.thread).pc;
    assert LocalOk(s, l.thread);
    var n, bound := Reg.ToGo(s.desc, pc'), Reg.StepsFor(s.desc, l.choice.choice);
    if n < bound {
      RoundDrops(n, bound);
    }
  }

  lemma OtherStepKeeps(s: State, l: Label, t: nat)
    requires Enabled(s, l) && t != l.thread
    ensures ToGo(Act(s, l), t) == ToGo(s, t)
  {
    if l.choice.InTrie? {
      TrieStepFrame(s, l);
    }
  }

  function Steps(labels: seq<Label>, t: nat, i: nat, k: nat): nat {
    if k <= i || k > |labels| then 0
    else Steps(labels, t, i, k - 1) + if labels[k - 1].thread == t then 1 else 0
  }

  lemma RunDrops(run: seq<State>, labels: seq<Label>, k: nat, t: nat)
    requires IsRun(run, labels) && k < |labels| && !LocalOf(run[k], t).pc.Out?
    ensures ToGo(run[k + 1], t) + (if labels[k].thread == t then 1 else 0) <= ToGo(run[k], t)
  {
    RunKeepsInv(run, labels, k);
    assert StepsAt(run, labels, k);
    if labels[k].thread == t {
      OwnStepDrops(run[k], labels[k]);
    } else {
      OtherStepKeeps(run[k], labels[k], t);
    }
  }

  lemma RunCalls(run: seq<State>, labels: seq<Label>, j: nat, t: nat)
    requires IsRun(run, labels) && j < |labels| && labels[j].thread == t && LocalOf(run[j], t).pc.Out?
    ensures labels[j].choice.InRegistry?
    ensures ToGo(run[j + 1], t) <= Rounds(Reg.StepsFor(run[j].desc, labels[j].choice.choice)) + ROUND - 1
  {
    RunKeepsInv(run, labels, j);
    assert StepsAt(run, labels, j);
    CallStep(run[j], labels[j]);
  }

  lemma {:induction false} StepsWithin(run: seq<State>, labels: seq<Label>, i: nat, k: nat, t: nat)
    requires IsRun(run, labels) && i <= k < |run|
    requires forall x :: i <= x < k ==> !LocalOf(run[x], t).pc.Out?
    ensures Steps(labels, t, i, k) + ToGo(run[k], t) <= ToGo(run[i], t)
  {
    if i < k {
      StepsWithin(run, labels, i, k - 1, t);
      RunDrops(run, labels, k - 1, t);
    }
  }

  /** Wait-freedom over the real trie: from its call at j on, an operation takes at most 4 * LEVELS + 2 steps of its
      thread for each step of the registry's code, however the other threads run and whatever races are lost. */
  lemma WaitFree(run: seq<State>, labels: seq<Label>, j: nat, k: nat, t: nat)
    requires IsRun(run, labels) && j < k < |run| && labels[j].thread == t && LocalOf(run[j], t).pc.Out?
    requires forall x :: j < x < k ==> !LocalOf(run[x], t).pc.Out?
    ensures labels[j].choice.InRegistry?
    ensures Steps(labels, t, j + 1, k) + ToGo(run[k], t)
         <= Rounds(Reg.StepsFor(run[j].desc, labels[j].choice.choice)) + ROUND - 1
  {
    RunCalls(run, labels, j, t);
    StepsWithin(run, labels, j + 1, k, t);
  }

  // ---- a run in which a registration completes ----

  lemma Extend(run: seq<State>, labels: seq<Label>, l: Label) returns (run': seq<State>, labels': seq<Label>)
    requires IsRun(run, labels) && Enabled(run[|run| - 1], l)
    ensures run' == run + [Act(run[|run| - 1], l)] && labels' == labels + [l] && IsRun(run', labels')
  {
    run', labels' := run + [Act(run[|run| - 1], l)], labels + [l];
    forall i: nat | i < |labels'| ensures StepsAt(run', labels', i) {
      assert i < |labels| ==> StepsAt(run, labels, i);
    }
  }

  /** A thread inside an operation can always take a step that is not refused memory. */
  lemma CanStep(s: State, t: nat) returns (l: Label)
    requires Inv(s) && !LocalOf(s, t).pc.Out?
    ensures Enabled(s, l) && l.thread == t && !Refused(l) && !Overlaps(s, l)
  {
    var at, mine := Trie.PcOf(s.trie, t), LocalOf(s, t);
    assert LocalOk(s, t) && Trie.Sound(s.trie.tree, at);
    AbsThreadOf(s, t);
    if at.NeedNode? {
      var a := Trie.FreshAddress(s.trie.tree.nodes);
      l := Label(t, InTrie(Trie.Heap(a)));
    } else if !at.Outside? {
      l := Label(t, InTrie(Trie.Go));
    } else if NextCall(s.desc, mine).Some? {
      l := Label(t, InTrie(Trie.Call(NextCall(s.desc, mine).op)));
    } else {
      l := Label(t, InRegistry(Reg.Go));
    }
  }

  /** One step of the thread alone. */
  lemma StepAlone(run0: seq<State>, labels0: seq<Label>, t: nat) returns (run: seq<State>, labels: seq<Label>)
    requires IsRun(run0, labels0) && !LocalOf(run0[|run0| - 1], t).pc.Out?
    ensures IsRun(run, labels) && |run| == |run0| + 1 && run0 <= run && labels0 <= labels
    ensures var l := labels[|labels0|]; l.thread == t && !Refused(l) && !Overlaps(run0[|run0| - 1], l)
    ensures 0 <= ToGo(run[|run| - 1], t) < ToGo(run0[|run0| - 1], t)
  {
    var s := run0[|run0| - 1];
    RunKeepsInv(run0, labels0, |run0| - 1);
    var l := CanStep(s, t);
    OwnStepDrops(s, l);
    run, labels := Extend(run0, labels0, l);
    ToGoPositive(run, labels, t);
  }

  /** Running alone, a thread inside an operation finishes it without being refused memory. */
  lemma {:induction false} RunAlone(run0: seq<State>, labels0: seq<Label>, t: nat)
    returns (run: seq<State>, labels: seq<Label>)
    requires IsRun(run0, labels0) && !LocalOf(run0[|run0| - 1], t).pc.Out?
    ensures IsRun(run, labels) && run0 <= run && labels0 <= labels && LocalOf(run[|run| - 1], t).pc.Out?
    ensures forall x :: |labels0| <= x < |labels| ==> Alone(run, labels, x, t)
    decreases ToGo(run0[|run0| - 1], t)
  {
    run, labels := StepAlone(run0, labels0, t);
    var run1, labels1 := run, labels;
    if !LocalOf(run1[|run1| - 1], t).pc.Out? {
      run, labels := RunAlone(run1, labels1, t);
    }
    assert run[|labels0|] == run0[|run0| - 1] && labels[|labels0|] == labels1[|labels0|];
    forall x | |labels0| <= x < |labels| ensures Alone(run, labels, x, t) {
      assert x > |labels0| ==> Alone(run, labels, x, t);
    }
  }

  /** Step x is one of the thread inside its operation, with memory. */
  ghost predicate Alone(run: seq<State>, labels: seq<Label>, x: nat, t: nat) {
    && x < |labels| && x < |run| && labels[x].thread == t
    && !Refused(labels[x]) && !Overlaps(run[x], labels[x]) && !LocalOf(run[x], t).pc.Out?
  }

  lemma ToGoPositive(run: seq<State>, labels: seq<Label>, t: nat)
    requires IsRun(run, labels)
    ensures ToGo(run[|run| - 1], t) >= 0
  {
    var s := run[|run| - 1];
    RunKeepsInv(run, labels, |run| - 1);
    assert Trie.Sound(s.trie.tree, Trie.PcOf(s.trie, t));
  }

  /** Where a thread that registers `seg` is, or has got to. */
  predicate RegisterStage(s: State, t: nat, seg: nat) {
    var pc := LocalOf(s, t).pc;
    match pc
    case Out => seg in s.life && s.life[seg].Registered?
    case Inserting(o, _) => o == seg
    case Looking(_, goal, _) => goal == Reg.ForRegister(seg)
    case Settling(_, goal, _, _) => goal == Reg.ForRegister(seg)
    case Widening(_, goal, _, _) => goal == Reg.ForRegister(seg)
    case _ => false
  }

  lemma RegisterStep(s: State, l: Label, seg: nat)
    requires LocalOk(s, l.thread) && Enabled(s, l)
    requires if LocalOf(s, l.thread).pc.Out? then l.choice == InRegistry(Reg.Register(seg))
             else RegisterStage(s, l.thread, seg)
    ensures RegisterStage(Act(s, l), l.thread, seg)
  {
  }

  lemma {:induction false} RegisterEnds(run: seq<State>, labels: seq<Label>, j: nat, k: nat, t: nat, seg: nat)
    requires IsRun(run, labels) && j < k < |run| && LocalOf(run[j], t).pc.Out?
    requires labels[j] == Label(t, InRegistry(Reg.Register(seg)))
    requires forall x :: j < x < k ==> Alone(run, labels, x, t)
    ensures RegisterStage(run[k], t, seg)
  {
    if j + 1 < k {
      RegisterEnds(run, labels, j, k - 1, t, seg);
      assert Alone(run, labels, k - 1, t);
    }
    RunKeepsInv(run, labels, k - 1);
    assert StepsAt(run, labels, k - 1);
    assert LocalOk(run[k - 1], t);
    RegisterStep(run[k - 1], labels[k - 1], seg);
  }

  /** A thread calls register_segment on an empty trie. */
  lemma CallRegister(seg: nat, root: Addr, t: nat) returns (run: seq<State>, labels: seq<Label>)
    requires Aligned(seg) && Aligned(root)
    ensures IsRun(run, labels) && |run| == 2 && run[0].desc == map[seg := SECOND_PAGE]
    ensures LocalOf(run[0], t).pc.Out? && !LocalOf(run[1], t).pc.Out?
    ensures labels[0] == Label(t, InRegistry(Reg.Register(seg))) && !Overlaps(run[0], labels[0])
  {
    PageSizeBound();
    var machine := Trie.Machine(Tree(map[root := EmptyNode()], root, map[Top := root]), map[]);
    run, labels := [State(map[seg := SECOND_PAGE], machine, map[], map[], true)], [];
    run, labels := Extend(run, labels, Label(t, InRegistry(Reg.Register(seg))));
  }

  /** ... and completes the call alone. */
  lemma RegisterAlone(seg: nat, root: Addr, t: nat) returns (run: seq<State>, labels: seq<Label>)
    requires Aligned(seg) && Aligned(root)
    ensures IsRun(run, labels) && |run| > 1 && run[0].desc == map[seg := SECOND_PAGE]
    ensures RegisterStage(run[|run| - 1], t, seg) && LocalOf(run[|run| - 1], t).pc.Out?
    ensures forall x :: 0 <= x < |labels| ==> !Refused(labels[x]) && !Overlaps(run[x], labels[x])
  {
    var run1, labels1 := CallRegister(seg, root, t);
    run, labels := RunAlone(run1, labels1, t);
    assert run[0] == run1[0] && run[1] == run1[1] && labels[0] == labels1[0];
    forall x | 0 < x < |labels| ensures Alone(run, labels, x, t) {
      assert |labels1| <= x < |labels|;
    }
    RegisterEnds(run, labels, 0, |run| - 1, t, seg);
    forall x | 0 <= x < |labels| ensures !Refused(labels[x]) && !Overlaps(run[x], labels[x]) {
      assert x > 0 ==> Alone(run, labels, x, t);
    }
  }

  /** A run without refusals: one thread registers a segment over the real trie, and the trie then maps it. */
  lemma RegistrationCompletes(seg: nat, root: Addr, t: nat) returns (run: seq<State>, labels: seq<Label>)
    requires Aligned(seg) && Aligned(root)
    ensures IsRun(run, labels) && run[|run| - 1].clean && LocalOf(run[|run| - 1], t).pc.Out?
    ensures Reg.LifeOf(Abs(run[|run| - 1]), seg).Registered?
    ensures AtomicMap.Get(Contents(run[|run| - 1].trie.tree), Key(PageOf(PAGE_SIZE))) == seg
  {
    run, labels := RegisterAlone(seg, root, t);
    CleanIff(run, labels, |run| - 1);
    LastDesc(run, labels, |run| - 1);
    ByteHasKey(SECOND_PAGE, PAGE_SIZE);
    RegisteredIsComplete(run, labels, |run| - 1, seg, Key(PageOf(PAGE_SIZE)));
  }

  lemma {:induction false} LastDesc(run: seq<State>, labels: seq<Label>, i: nat)
    requires IsRun(run, labels) && i < |run|
    ensures run[i].desc == run[0].desc
  {
    if i > 0 {
      assert StepsAt(run, labels, i - 1);
      LastDesc(run, labels, i - 1);
    }
  }
}
