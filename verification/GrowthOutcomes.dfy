/** What calls of growth, opening and discovery achieve in every run: they end, they let go of their locks, and only a
    failed system call, or enough free memory, keeps them from doing what they are for. */
module GrowthOutcomes {
  import opened Platform
  import opened Chunks
  import opened Mappings
  import opened GrowthProtocol
  import opened GrowthSafety
  import opened PositionIndependence

  // ---- every call ends ----

  /** How many steps of its own a thread still needs to finish its call; the table has at most 64 entries. */
  function ToGo(pc: Pc): nat {
    match pc
    case Idle => 0
    case WantGrow(_) => 7
    case Sizing(_) => 6
    case Truncating(_, _, _) => 5
    case Appending(_, _, _) => 4
    case WriteOffset(_) => 3
    case WriteSize(_) => 2
    case WriteCount(_) => 1
    case Reading => 1
    case Checking(_) => 3 + MAX_SUB_SEGMENTS
    case Discovering(_, i, count, _) => 2 + if i < count then count - i else 0
    case Discovered(_, _) => 1
    case Opening(i, count) => 1 + if i < count then count - i else 0
  }

  lemma StepDrops(w: World, l: Label)
    requires w.count <= MAX_SUB_SEGMENTS && Enabled(w, l)
    ensures var pc, pc' := PcOf(w, l.id), PcOf(Act(w, l), l.id);
            if pc.Idle? then ToGo(pc') <= 3 + MAX_SUB_SEGMENTS else ToGo(pc') < ToGo(pc)
    ensures forall u :: u != l.id ==> PcOf(Act(w, l), u) == PcOf(w, u)
  {
  }

  function Steps(labels: seq<Label>, id: Tid, i: nat, k: nat): nat {
    if k <= i || k > |labels| then 0
    else Steps(labels, id, i, k - 1) + if labels[k - 1].id == id then 1 else 0
  }

  /** In every run a call takes at most 67 steps of its thread, apart from waiting for locks. */
  lemma {:induction false} CallsEnd(run: seq<World>, labels: seq<Label>, j: nat, k: nat, id: Tid)
    requires IsRun(run, labels) && j < k < |run| && labels[j].id == id && PcOf(run[j], id).Idle?
    requires forall x :: j < x < k ==> !PcOf(run[x], id).Idle?
    ensures Steps(labels, id, j + 1, k) + ToGo(PcOf(run[k], id)) <= 3 + MAX_SUB_SEGMENTS
  {
    assert StepsAt(run, labels, k - 1);
    TableNeverFull(run, labels, k - 1);
    StepDrops(run[k - 1], labels[k - 1]);
    if j + 1 < k {
      CallsEnd(run, labels, j, k - 1, id);
    }
  }

  // ---- no lock is left behind ----

  ghost predicate GrowHolder(w: World) {
    w.growMtx != {} ==> exists id :: id in w.pcs && HoldsGrow(w.pcs[id])
  }

  ghost predicate ListHolder(w: World, p: nat) {
    p in w.listMtx ==> Tid(p, w.listMtx[p]) in w.pcs && HoldsList(w.pcs[Tid(p, w.listMtx[p])])
  }

  lemma HoldersStep(w: World, l: Label)
    requires Inv(w) && Enabled(w, l) && GrowHolder(w) && forall p :: ListHolder(w, p)
    ensures GrowHolder(Act(w, l)) && forall p :: ListHolder(Act(w, l), p)
  {
    var w' := Act(w, l);
    OwnPcOk(w, l.id);
    if w'.growMtx != {} {
      if HoldsGrow(w'.pcs[l.id]) {
        assert l.id in w'.pcs;
      } else {
        var id :| id in w.pcs && HoldsGrow(w.pcs[id]);
        assert id in w'.pcs && HoldsGrow(w'.pcs[id]);
      }
    }
    forall p ensures ListHolder(w', p) {
      assert ListHolder(w, p);
    }
  }

  /** In every run a lock that is taken has a thread in the section it guards. */
  lemma {:induction false} NoLockLeft(run: seq<World>, labels: seq<Label>, i: nat)
    requires IsRun(run, labels) && i < |run|
    ensures GrowHolder(run[i]) && forall p :: ListHolder(run[i], p)
  {
    if i > 0 {
      NoLockLeft(run, labels, i - 1);
      RunKeepsInv(run, labels, i - 1);
      assert StepsAt(run, labels, i - 1);
      HoldersStep(run[i - 1], labels[i - 1]);
    }
  }

  // ---- growth ----

  /** The list with the chunk that a growth adds to `cs`. */
  function Extended(req: Request, cs: seq<Chunk>): seq<Chunk> {
    cs + [Chunk(TotalSize(cs), NewChunkSize(req, cs))]
  }

  /** Where a growth stands that found the list `cs`, and what the list is by now. */
  predicate GrowStage(pc: Pc, list: seq<Chunk>, req: Request, cs: seq<Chunk>) {
    match pc
    case Truncating(r, size, _) => r == req && size == NewChunkSize(req, cs) && list == cs
    case Appending(r, size, _) => r == req && size == NewChunkSize(req, cs) && list == cs
    case WriteOffset(_) => list == Extended(req, cs)
    case WriteSize(_) => list == Extended(req, cs)
    case WriteCount(_) => list == Extended(req, cs)
    case _ => false
  }

  predicate Publishes(pc: Pc) {
    pc.WriteOffset? || pc.WriteSize? || pc.WriteCount?
  }

  /** Resizing, or publishing, leaves the list alone. */
  lemma QuietStep(w: World, l: Label)
    requires GrowerOk(w) && Enabled(w, l) && PcOk(w, l.id, PcOf(w, l.id)) && l.choice != Fail
    requires PcOf(w, l.id).Truncating? || Publishes(PcOf(w, l.id))
    ensures Grower(Act(w, l)) == Grower(w)
    ensures var pc, pc' := PcOf(w, l.id), PcOf(Act(w, l), l.id);
            match pc
            case Truncating(r, size, snapshot) => pc' == Appending(r, size, snapshot)
            case WriteOffset(idx) => pc' == WriteSize(idx)
            case WriteSize(idx) => pc' == WriteCount(idx)
            case _ => pc' == Idle && Act(w, l).count == |Grower(w)|
  {
  }

  lemma GrowStageStep(w: World, l: Label, req: Request, cs: seq<Chunk>)
    requires GrowerOk(w) && Enabled(w, l) && PcOk(w, l.id, PcOf(w, l.id)) && l.choice != Fail
    requires GrowStage(PcOf(w, l.id), Grower(w), req, cs) && |cs| < MAX_SUB_SEGMENTS
    ensures if PcOf(w, l.id).WriteCount?
            then PcOf(Act(w, l), l.id).Idle? && Grower(Act(w, l)) == Extended(req, cs) && Act(w, l).count == |cs| + 1
            else GrowStage(PcOf(Act(w, l), l.id), Grower(Act(w, l)), req, cs)
  {
    if PcOf(w, l.id).Appending? {
      AppendOutcome(w, l);
    } else {
      QuietStep(w, l);
    }
  }

  /** While one thread holds grow_mtx_, no other changes the list. */
  lemma OthersLeaveList(w: World, l: Label, id: Tid)
    requires Inv(w) && Enabled(w, l) && HoldsGrow(PcOf(w, id)) && l.id != id
    ensures Grower(Act(w, l)) == Grower(w) && PcOf(Act(w, l), id) == PcOf(w, id)
  {
    OwnPcOk(w, id);
    OwnPcOk(w, l.id);
    OtherGrowth(w, l);
  }

  lemma RunGrowStage(run: seq<World>, labels: seq<Label>, x: nat, id: Tid, req: Request, cs: seq<Chunk>)
    requires IsRun(run, labels) && x < |labels| && labels[x] != Label(id, Fail) && |cs| < MAX_SUB_SEGMENTS
    requires GrowStage(PcOf(run[x], id), Grower(run[x]), req, cs)
    ensures if labels[x].id == id && PcOf(run[x], id).WriteCount?
            then PcOf(run[x + 1], id).Idle? && run[x + 1].count == |cs| + 1 && Grower(run[x + 1]) == Extended(req, cs)
            else GrowStage(PcOf(run[x + 1], id), Grower(run[x + 1]), req, cs)
  {
    RunKeepsInv(run, labels, x);
    assert StepsAt(run, labels, x);
    OwnPcOk(run[x], id);
    if labels[x].id == id {
      GrowStageStep(run[x], labels[x], req, cs);
    } else {
      OthersLeaveList(run[x], labels[x], id);
    }
  }

  /** The look at the list. */
  lemma SizingDecides(run: seq<World>, labels: seq<Label>, i: nat, id: Tid, req: Request)
    requires IsRun(run, labels) && i < |labels| && PcOf(run[i], id) == Sizing(req) && labels[i].id == id
    ensures labels[i].choice.Free? && Grower(run[i + 1]) == Grower(run[i]) && run[i + 1].count == run[i].count
    ensures if Declines(req, Grower(run[i]), labels[i].choice.bytes) then PcOf(run[i + 1], id).Idle?
            else GrowStage(PcOf(run[i + 1], id), Grower(run[i + 1]), req, Grower(run[i]))
    ensures |Grower(run[i])| < MAX_SUB_SEGMENTS
  {
    TableNeverFull(run, labels, i);
    RunKeepsInv(run, labels, i);
    OwnPcOk(run[i], id);
    assert StepsAt(run, labels, i);
  }

  lemma {:induction false} GrowthStages(run: seq<World>, labels: seq<Label>, i: nat, x: nat, id: Tid, req: Request)
    requires IsRun(run, labels) && i < x < |run| && PcOf(run[i], id) == Sizing(req)
    requires labels[i].id == id && labels[i].choice.Free? && !Declines(req, Grower(run[i]), labels[i].choice.bytes)
    requires forall y :: i < y < x ==> HoldsGrow(PcOf(run[y], id)) && labels[y] != Label(id, Fail)
    requires HoldsGrow(PcOf(run[x], id))
    ensures GrowStage(PcOf(run[x], id), Grower(run[x]), req, Grower(run[i])) && |Grower(run[i])| < MAX_SUB_SEGMENTS
  {
    SizingDecides(run, labels, i, id, req);
    if i + 1 < x {
      GrowthStages(run, labels, i, x - 1, id, req);
      RunGrowStage(run, labels, x - 1, id, req, Grower(run[i]));
    }
  }

  lemma GrowthEnds(run: seq<World>, labels: seq<Label>, i: nat, k: nat, id: Tid, req: Request)
    requires IsRun(run, labels) && i < k < |run| && PcOf(run[i], id) == Sizing(req)
    requires labels[i].id == id && labels[i].choice.Free?
    requires forall y :: i < y < k ==> HoldsGrow(PcOf(run[y], id)) && labels[y] != Label(id, Fail)
    requires !HoldsGrow(PcOf(run[k], id))
    ensures var cs := Grower(run[i]);
            if Declines(req, cs, labels[i].choice.bytes)
            then k == i + 1 && Grower(run[k]) == cs && run[k].count == run[i].count
            else Grower(run[k]) == Extended(req, cs) && run[k].count == |Grower(run[k])|
  {
    SizingDecides(run, labels, i, id, req);
    if !Declines(req, Grower(run[i]), labels[i].choice.bytes) && k > i + 1 {
      GrowthStages(run, labels, i, k - 1, id, req);
      RunGrowStage(run, labels, k - 1, id, req, Grower(run[i]));
    }
  }

  /** The fill level at which growing is not needed: all that is asked for is free, or half of the last chunk. */
  predicate Plenty(req: Request, last: nat, bytes: nat) {
    if req.Foreground? then req.min <= bytes else last <= 2 * bytes + 1
  }

  lemma DeclinesWhenPlenty(req: Request, cs: seq<Chunk>, bytes: nat)
    requires cs != []
    ensures Declines(req, cs, bytes) <==> Plenty(req, cs[|cs| - 1].size, bytes)
  {
  }

  /** A growth that looks at the list in state i and is over in state k, with the lock held in between. If plenty is
      free, at that look, it changes nothing. Otherwise, unless one of its system calls fails, the list has one more
      chunk of exactly the size wanted at the end of the file, and the chunk is published. */
  lemma GrowthAchieves(run: seq<World>, labels: seq<Label>, i: nat, k: nat, id: Tid, req: Request)
    requires IsRun(run, labels) && i < k < |run| && PcOf(run[i], id) == Sizing(req)
    requires labels[i].id == id && labels[i].choice.Free?
    requires forall y :: i < y < k ==> HoldsGrow(PcOf(run[y], id)) && labels[y] != Label(id, Fail)
    requires !HoldsGrow(PcOf(run[k], id))
    ensures Grower(run[i]) != []
    ensures var cs := Grower(run[i]);
            if Plenty(req, cs[|cs| - 1].size, labels[i].choice.bytes)
            then k == i + 1 && Grower(run[k]) == cs && run[k].count == run[i].count
            else Grower(run[k]) == Extended(req, cs) && run[k].count == |Grower(run[k])|
  {
    assert Grower(run[i]) != [] by {
      RunKeepsInv(run, labels, i);
    }
    DeclinesWhenPlenty(req, Grower(run[i]), labels[i].choice.bytes);
    GrowthEnds(run, labels, i, k, id, req);
  }

  /** The size wanted, in numbers: the least whole number of pages that holds the request (1 MiB in the background) and
      twice the last chunk, unless rounding up wraps. */
  lemma AppendedSize(run: seq<World>, labels: seq<Label>, i: nat, req: Request)
    requires IsRun(run, labels) && i < |run| && (req.Foreground? ==> req.min + PAGE_SIZE <= WORD)
    ensures var cs := Grower(run[i]);
            && cs != [] && DivMod.Rem(NewChunkSize(req, cs), PAGE_SIZE) == 0
            && Wanted(req, cs[|cs| - 1].size) <= NewChunkSize(req, cs) < Wanted(req, cs[|cs| - 1].size) + PAGE_SIZE
  {
    RunKeepsInv(run, labels, i);
    TotalFits(run[i].procs[0]);
    LastBelowTotal(Grower(run[i]));
    NewChunkGrows(req, Grower(run[i]));
  }

  /** A caller of grow waits for its turn and then looks at the list for its own request; the background worker looks
      if nobody else is growing, and gives up otherwise. */
  lemma GrowthStarts(run: seq<World>, labels: seq<Label>, i: nat, id: Tid)
    requires IsRun(run, labels) && i < |labels| && labels[i].id == id
    ensures PcOf(run[i], id).Idle? && labels[i].choice.CallGrow? ==>
              PcOf(run[i + 1], id) == WantGrow(labels[i].choice.min)
    ensures PcOf(run[i], id).WantGrow? ==>
              run[i].growMtx == {} && PcOf(run[i + 1], id) == Sizing(Foreground(PcOf(run[i], id).min))
    ensures PcOf(run[i], id).Idle? && labels[i].choice.CallBackground? ==>
              PcOf(run[i + 1], id) == if run[i].growMtx == {} then Sizing(Background) else Idle
  {
    assert StepsAt(run, labels, i);
  }

  // ---- discovery ----

  /** Inside lazy_discover_growth, before its answer. */
  predicate Scanning(w: World, id: Tid, off: nat) {
    PcOf(w, id) == Checking(off) || (PcOf(w, id).Discovering? && PcOf(w, id).off == off)
  }

  lemma {:induction false} ScanStages(run: seq<World>, labels: seq<Label>, i: nat, k: nat, id: Tid, off: nat)
    requires IsRun(run, labels) && i <= k < |run| && PcOf(run[i], id) == Checking(off)
    requires forall x :: i <= x < k ==> !PcOf(run[x], id).Discovered? && !PcOf(run[x], id).Idle?
    requires forall x :: i <= x < k ==> labels[x] != Label(id, Fail)
    ensures Scanning(run[k], id, off) || (PcOf(run[k], id).Discovered? && PcOf(run[k], id).off == off)
  {
    if i < k {
      ScanStages(run, labels, i, k - 1, id, off);
      assert StepsAt(run, labels, k - 1);
    }
  }

  /** A call of lazy_discover_growth that has the lock in state i and has left its search in state k, with no mapping
      failed in between, comes back with an answer; and the answer is true if the offset was published when it took the
      lock, in an opener, or if the grower has the offset itself. */
  lemma DiscoveryAchieves(run: seq<World>, labels: seq<Label>, i: nat, k: nat, id: Tid, off: nat)
    requires IsRun(run, labels) && i < k < |run| && PcOf(run[i], id) == Checking(off)
    requires forall x :: i <= x < k ==> Scanning(run[x], id, off) && labels[x] != Label(id, Fail)
    requires !Scanning(run[k], id, off)
    ensures PcOf(run[k], id).Discovered? && PcOf(run[k], id).off == off
    ensures PcOf(run[k], id).result <==> off < TotalSize(ProcOf(run[k], id.proc).chunks)
    ensures id.proc != 0 && off < TotalSize(Published(run[i])) ==> PcOf(run[k], id).result
  {
    ScanStages(run, labels, i, k, id, off);
    RunKeepsInv(run, labels, k);
    OwnPcOk(run[k], id);
    if id.proc != 0 && off < TotalSize(Published(run[i])) {
      DiscoverySucceeds(run, labels, i, k, id, off);
    }
  }

  // ---- opening ----

  /** Mapping the first n published chunks. */
  predicate OpenStage(pc: Pc, n: nat) {
    pc.Opening? && pc.count == n && pc.i <= n
  }

  lemma OpenStep(w: World, l: Label, n: nat)
    requires Enabled(w, l) && PcOk(w, l.id, PcOf(w, l.id)) && OpenStage(PcOf(w, l.id), n) && l.choice != Fail
    ensures if PcOf(w, l.id).i == n then PcOf(Act(w, l), l.id).Idle? && |ProcOf(Act(w, l), l.id.proc).chunks| == n
            else OpenStage(PcOf(Act(w, l), l.id), n)
  {
  }

  lemma RunOpenStep(run: seq<World>, labels: seq<Label>, x: nat, id: Tid, n: nat)
    requires IsRun(run, labels) && x < |labels| && OpenStage(PcOf(run[x], id), n) && labels[x] != Label(id, Fail)
    ensures if labels[x].id == id && PcOf(run[x], id).i == n
            then PcOf(run[x + 1], id).Idle? && |ProcOf(run[x + 1], id.proc).chunks| == n
            else OpenStage(PcOf(run[x + 1], id), n)
  {
    RunKeepsInv(run, labels, x);
    OwnPcOk(run[x], id);
    assert StepsAt(run, labels, x);
    if labels[x].id == id {
      OpenStep(run[x], labels[x], n);
    }
  }

  /** The call maps the first chunk and reads how many there are. */
  lemma OpenStarts(run: seq<World>, labels: seq<Label>, i: nat, id: Tid)
    requires IsRun(run, labels) && i < |labels| && labels[i].id == id && labels[i].choice.CallOpen?
    requires PcOf(run[i], id).Idle?
    ensures OpenStage(PcOf(run[i + 1], id), run[i].count)
  {
    RunKeepsInv(run, labels, i);
    assert StepsAt(run, labels, i);
  }

  lemma {:induction false} OpenStages(run: seq<World>, labels: seq<Label>, i: nat, x: nat, id: Tid)
    requires IsRun(run, labels) && i < x < |run| && labels[i].id == id && labels[i].choice.CallOpen?
    requires PcOf(run[i], id).Idle?
    requires forall y :: i < y < x ==> PcOf(run[y], id).Opening? && labels[y] != Label(id, Fail)
    requires PcOf(run[x], id).Opening?
    ensures OpenStage(PcOf(run[x], id), run[i].count)
  {
    OpenStarts(run, labels, i, id);
    if i + 1 < x {
      OpenStages(run, labels, i, x - 1, id);
      RunOpenStep(run, labels, x - 1, id, run[i].count);
    }
  }

  /** A list with as many chunks as were published once is what was published. */
  lemma SameLength(run: seq<World>, labels: seq<Label>, i: nat, k: nat, p: nat)
    requires IsRun(run, labels) && i <= k < |run| && p != 0 && p in run[k].procs
    requires |run[k].procs[p].chunks| == run[i].count
    ensures run[k].procs[p].chunks == Published(run[i])
  {
    PublishedForGood(run, labels, i, k);
    PublishedTiles(run, labels, k);
    RunKeepsInv(run, labels, i);
    assert Published(run[i]) == Published(run[k])[..run[i].count];
  }

  /** A process that opens the manager in state i and is done in state k, with no mapping failed, has mapped exactly the
      chunks that were published when it read the table. */
  lemma OpeningAchieves(run: seq<World>, labels: seq<Label>, i: nat, k: nat, id: Tid)
    requires IsRun(run, labels) && i + 1 < k < |run|
    requires labels[i].id == id && labels[i].choice.CallOpen? && PcOf(run[i], id).Idle?
    requires forall y :: i < y < k ==> PcOf(run[y], id).Opening? && labels[y] != Label(id, Fail)
    requires !PcOf(run[k], id).Opening?
    ensures ProcOf(run[k], id.proc).chunks == Published(run[i])
  {
    OpenStages(run, labels, i, k - 1, id);
    RunOpenStep(run, labels, k - 1, id, run[i].count);
    OpenerOpens(run, labels, i, k - 1, id);
    SameLength(run, labels, i, k, id.proc);
  }

  /** Who opens does not grow, and something is always published. */
  lemma OpenerOpens(run: seq<World>, labels: seq<Label>, i: nat, x: nat, id: Tid)
    requires IsRun(run, labels) && i < |run| && x < |run| && PcOf(run[x], id).Opening?
    ensures id.proc != 0 && run[i].count > 0
  {
    RunKeepsInv(run, labels, i);
    RunKeepsInv(run, labels, x);
    OwnPcOk(run[x], id);
  }

  // ---- a run in which an opener discovers a chunk ----

  const MEBI: nat := 0x10_0000

  /** Powers of two from the page size on are whole pages. */
  lemma WholePages(n: nat)
    requires n >= PAGE_SHIFT
    ensures DivMod.Rem(Pow2(n), PAGE_SIZE) == 0
  {
    Pow2Adds(n - PAGE_SHIFT, PAGE_SHIFT);
    DivMod.Unique(Pow2(n), PAGE_SIZE, Pow2(n - PAGE_SHIFT), 0);
  }

  lemma PowersOfKibi(kibi: nat, mebi: nat)
    requires Pow2(kibi) == 1024 && mebi == kibi + kibi >= PAGE_SHIFT
    ensures DivMod.Rem(MEBI, PAGE_SIZE) == 0 && DivMod.Rem(1024 * MEBI, PAGE_SIZE) == 0
  {
    Pow2Adds(kibi, kibi);
    Pow2Adds(kibi, mebi);
    WholePages(mebi);
    WholePages(kibi + mebi);
  }

  lemma WholeMebis()
    ensures DivMod.Rem(MEBI, PAGE_SIZE) == 0 && DivMod.Rem(1024 * MEBI, PAGE_SIZE) == 0
  {
    assert Pow2(10) == 1024;
    PowersOfKibi(10, 20);
  }

  /** The first chunk, as the creator and the opener map it, and the one that follows. */
  const FIRST := Chunk(0, MEBI)

  function Second(): Chunk {
    Chunk(MEBI, NewChunkSize(Foreground(1), [FIRST]))
  }

  lemma SecondFits()
    ensures TotalSize([FIRST]) == MEBI && 2 * MEBI <= Second().size < 3 * MEBI
    ensures CanMap(Proc([FIRST], [MEBI]), 1024 * MEBI, Second().size)
    ensures DivMod.Rem(TotalSize([FIRST]), WORD) == MEBI
  {
    assert [FIRST][..0] == [];
    PageSizeBound();
    WholeMebis();
    NewChunkGrows(Foreground(1), [FIRST]);
    WrapOnce(MEBI);
  }

  function Table(second: Chunk): seq<Chunk> {
    [FIRST, second] + seq(MAX_SUB_SEGMENTS - 2, _ => Chunk(0, 0))
  }

  /** Both processes have the first chunk, and nobody is inside a call. */
  function Opened(): World {
    World(MEBI, Table(Chunk(0, 0)), 1, map[0 := Proc([FIRST], [MEBI]), 1 := Proc([FIRST], [MEBI])], {}, map[],
          map[Tid(1, 0) := Idle], true)
  }

  lemma RunToOpened() returns (run: seq<World>, labels: seq<Label>)
    ensures IsRun(run, labels) && run[|run| - 1] == Opened()
  {
    var id, first := Tid(1, 0), Proc([FIRST], [MEBI]);
    var w := World(MEBI, Table(Chunk(0, 0)), 1, map[0 := first], {}, map[], map[], true);
    WholeMebis();
    PageSizeBound();
    assert w.procs.Keys == {0};
    run, labels := [w], [];
    run, labels := Extend(run, labels, Label(id, CallOpen(MEBI)));
    assert run[1] == World(MEBI, Table(Chunk(0, 0)), 1, map[0 := first, 1 := first], {}, map[1 := 0],
                           map[id := Opening(1, 1)], true);
    run, labels := Extend(run, labels, Label(id, Go));
    assert run[2].listMtx == map[];
  }

  /** The creator's first growth is about to map its chunk. */
  function Resized(): World {
    Opened().(fileSize := MEBI + Second().size, growMtx := {0},
              pcs := map[Tid(1, 0) := Idle, Tid(0, 0) := Appending(Foreground(1), Second().size, MEBI)])
  }

  lemma RunToSized() returns (run: seq<World>, labels: seq<Label>)
    ensures IsRun(run, labels)
    ensures run[|run| - 1] == Opened().(growMtx := {0},
                                        pcs := map[Tid(1, 0) := Idle, Tid(0, 0) := Sizing(Foreground(1))])
  {
    run, labels := RunToOpened();
    run, labels := Extend(run, labels, Label(Tid(0, 0), CallGrow(1)));
    assert run[|run| - 1] == Opened().(pcs := map[Tid(1, 0) := Idle, Tid(0, 0) := WantGrow(1)]);
    run, labels := Extend(run, labels, Label(Tid(0, 0), Go));
  }

  lemma RunToResized() returns (run: seq<World>, labels: seq<Label>)
    ensures IsRun(run, labels) && run[|run| - 1] == Resized()
  {
    var id := Tid(0, 0);
    SecondFits();
    PageSizeBound();
    run, labels := RunToSized();
    run, labels := Extend(run, labels, Label(id, Free(0)));
    assert run[|run| - 1] == Opened().(growMtx := {0},
                                       pcs := map[Tid(1, 0) := Idle,
                                                  id := Truncating(Foreground(1), Second().size, MEBI)]);
    run, labels := Extend(run, labels, Label(id, Go));
    WrapOnce(MEBI + Second().size);
  }

  /** The creator has grown; the opener does not know yet. */
  function Grown(): World {
    Opened().(fileSize := MEBI + Second().size, entries := Table(Second()), count := 2,
              procs := map[0 := Proc([FIRST, Second()], [MEBI, 1024 * MEBI]), 1 := Proc([FIRST], [MEBI])],
              pcs := map[Tid(1, 0) := Idle, Tid(0, 0) := Idle])
  }

  /** The chunk is mapped, its entry not yet written. */
  function Appended(): World {
    Resized().(procs := map[0 := Proc([FIRST, Second()], [MEBI, 1024 * MEBI]), 1 := Proc([FIRST], [MEBI])],
               listMtx := map[0 := 0], pcs := map[Tid(1, 0) := Idle, Tid(0, 0) := WriteOffset(1)])
  }

  lemma RunToAppended() returns (run: seq<World>, labels: seq<Label>)
    ensures IsRun(run, labels) && run[|run| - 1] == Appended()
  {
    SecondFits();
    run, labels := RunToResized();
    assert WithChunk(Proc([FIRST], [MEBI]), Second(), 1024 * MEBI) == Proc([FIRST, Second()], [MEBI, 1024 * MEBI]);
    run, labels := Extend(run, labels, Label(Tid(0, 0), MapAt(1024 * MEBI)));
  }

  lemma RunToGrown() returns (run: seq<World>, labels: seq<Label>)
    ensures IsRun(run, labels) && run[|run| - 1] == Grown()
  {
    var id, c := Tid(0, 0), Second();
    run, labels := RunToAppended();
    run, labels := Extend(run, labels, Label(id, Go));
    assert run[|run| - 1] == Appended().(entries := Table(Chunk(MEBI, 0)),
                                         pcs := map[Tid(1, 0) := Idle, id := WriteSize(1)]);
    run, labels := Extend(run, labels, Label(id, Go));
    assert run[|run| - 1] == Appended().(entries := Table(c), pcs := map[Tid(1, 0) := Idle, id := WriteCount(1)]);
    run, labels := Extend(run, labels, Label(id, Go));
    assert run[|run| - 1].listMtx == map[];
  }

  lemma RunToSearching() returns (run: seq<World>, labels: seq<Label>)
    ensures IsRun(run, labels)
    ensures run[|run| - 1] == Grown().(listMtx := map[1 := 0],
                                       pcs := map[Tid(0, 0) := Idle, Tid(1, 0) := Discovering(MEBI, 1, 2, false)])
  {
    SecondFits();
    run, labels := RunToGrown();
    run, labels := Extend(run, labels, Label(Tid(1, 0), CallDiscover(MEBI)));
    run, labels := Extend(run, labels, Label(Tid(1, 0), Go));
  }

  /** Then it asks for an offset in the new chunk, maps it and gets the answer true. */
  lemma DiscoveryRun() returns (run: seq<World>, labels: seq<Label>)
    ensures IsRun(run, labels)
    ensures var w := run[|run| - 1];
            && PcOf(w, Tid(1, 0)) == Discovered(MEBI, true) && 1 in w.procs
            && w.procs[1].chunks == Published(w) == [FIRST, Second()]
  {
    var id, both := Tid(1, 0), [FIRST, Second()];
    SecondFits();
    run, labels := RunToSearching();
    assert WithChunk(Proc([FIRST], [MEBI]), Second(), 1024 * MEBI) == Proc(both, [MEBI, 1024 * MEBI]);
    run, labels := Extend(run, labels, Label(id, MapAt(1024 * MEBI)));
    assert PcOf(run[|run| - 1], id) == Discovering(MEBI, 2, 2, true);
    assert both[..1] == [FIRST];
    run, labels := Extend(run, labels, Label(id, Go));
  }
}
