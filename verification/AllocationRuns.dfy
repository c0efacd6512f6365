/** Allocation and deallocation by any number of threads of any number of processes, interleaved with growth,
    opening and discovery. Blocks are named by file offsets; a process sees them where it has mapped their chunks. */
module AllocationRuns {
  import opened Platform
  import opened Chunks
  import opened Mappings
  import opened PointerEncoding
  import opened PositionIndependence
  import opened SegmentManager
  import opened GrowthSafety
  import Outcomes = GrowthOutcomes
  import G = GrowthProtocol

  /** Where a thread stands in allocate or deallocate; where it stands inside grow is in the growth protocol's state.
      In Finding and Freeing, `i` and `b` are auxiliary: the live block that the caller gives back. */
  datatype Call =
    | Outside
    | Trying(bytes: nat, k: nat, again: bool)          // holds list_mtx_, about to ask inner allocator k
    | MustGrow(bytes: nat)                             // about to call grow
    | Growing(bytes: nat)                              // inside grow
    | Got(i: nat, b: Block)                            // about to return a block of segment i
    | Finding(addr: nat, i: nat, b: Block)             // about to look up the owner of addr
    | Freeing(addr: nat, k: nat, i: nat, b: Block)     // about to give addr to inner allocator k

  /** The growth protocol's state, and the live blocks of each segment's inner allocator. */
  datatype State = State(w: G.World, live: seq<set<Block>>, calls: map<G.Tid, Call>)

  datatype Choice = Growth(choice: G.Choice) | Allocate(bytes: nat) | NoRoom | Room(b: Block) | Proceed
    | Deallocate(i: nat, b: Block) | Look(stale: bool)

  datatype Label = Label(id: G.Tid, choice: Choice)

  function CallOf(s: State, id: G.Tid): Call {
    if id in s.calls then s.calls[id] else Outside
  }

  /** The file itself, as if every chunk were mapped at its own offset. */
  function File(cs: seq<Chunk>): Proc {
    Proc(cs, seq(|cs|, i requires 0 <= i < |cs| => cs[i].off))
  }

  /** Where a process sees a file offset of chunk k. */
  function Seen(p: Proc, k: nat, off: nat): int
    requires k < |p.chunks| && k < |p.bases|
  {
    p.bases[k] + off - p.chunks[k].off
  }

  /** The block a thread has in its hands: handed out to it, or being given back by it. */
  function Handles(c: Call): set<(nat, Block)> {
    match c
    case Got(i, b) => {(i, b)}
    case Finding(_, i, b) => {(i, b)}
    case Freeing(_, _, i, b) => {(i, b)}
    case _ => {}
  }

  /** The step of the growth protocol that a step makes: taking and releasing list_mtx_, or a step of grow. */
  datatype Inner = None | Some(choice: G.Choice)

  function InnerStep(s: State, l: Label): Inner {
    match CallOf(s, l.id)
    case Outside =>
      if l.choice.Growth? then Some(l.choice.choice) else if l.choice.Allocate? then Some(G.CallRead) else None
    case Trying(_, k, _) => if l.choice.NoRoom? then None else Some(G.Go)
    case MustGrow(bytes) => Some(G.CallGrow(if bytes < WORD then WithHeadRoom(bytes) else 0))
    case Growing(_) => if l.choice.Growth? then Some(l.choice.choice) else Some(G.CallRead)
    case _ => None
  }

  /** The owner as the process's registry finds it, in its list at that moment. */
  function Owner(s: State, id: G.Tid, addr: nat): nat {
    var p := G.ProcOf(s.w, id.proc);
    if |p.bases| == |p.chunks| then FindShared(p, addr, 0) else 0
  }

  /** An inner allocator hands out any block inside its segment and apart from its live blocks. A caller gives back a
      live block, one that its process has mapped and that nobody else has in hands. Only the growing process runs
      out of room. */
  ghost predicate Enabled(s: State, l: Label) {
    var mine := G.ProcOf(s.w, l.id.proc);
    && (InnerStep(s, l).Some? ==> G.Enabled(s.w, G.Label(l.id, InnerStep(s, l).choice)))
    && match CallOf(s, l.id)
       case Outside =>
         (match l.choice
          case Growth(_) => true
          case Allocate(bytes) => G.PcOf(s.w, l.id).Idle? && bytes < WORD
          case Deallocate(i, b) =>
            && G.PcOf(s.w, l.id).Idle? && i < |mine.chunks| && i < |mine.bases| && i < |s.live| && b in s.live[i]
            && Seen(mine, i, b.addr) >= 0 && forall u :: u in s.calls ==> (i, b) !in Handles(s.calls[u])
          case _ => false)
       case Trying(bytes, k, again) =>
         if k < |mine.chunks| then
           || l.choice.NoRoom?
           || (l.choice.Room? && l.choice.b.len >= bytes && k < |s.live| && k < |G.Grower(s.w)|
               && Available(File(G.Grower(s.w)), s.live, k, l.choice.b))
         else l.choice.Proceed? && (again || l.id.proc == 0)
       case MustGrow(_) => l.choice.Proceed?
       case Growing(_) => if G.PcOf(s.w, l.id).Idle? then l.choice.Proceed? else l.choice.Growth?
       case Got(_, _) => l.choice.Proceed?
       case Finding(_, _, _) => l.choice.Look?
       case Freeing(_, _, _, _) => l.choice.Proceed?
  }

  function CallAfter(s: State, l: Label): Call {
    var mine := G.ProcOf(s.w, l.id.proc);
    match CallOf(s, l.id)
    case Outside =>
      (match l.choice
       case Allocate(bytes) => Trying(bytes, 0, false)
       case Deallocate(i, b) =>
         if i < |mine.chunks| && i < |mine.bases| && Seen(mine, i, b.addr) >= 0
         then Finding(Seen(mine, i, b.addr), i, b) else Outside
       case _ => Outside)
    case Trying(bytes, k, again) =>
      if l.choice.NoRoom? then Trying(bytes, k + 1, again)
      else if l.choice.Room? then Got(k, l.choice.b)
      else if again then Outside else MustGrow(bytes)
    case MustGrow(bytes) => Growing(bytes)
    case Growing(bytes) =>
      if !l.choice.Growth? then Trying(bytes, 0, true) else if l.choice.choice.Fail? then Outside else Growing(bytes)
    case Got(_, _) => Outside
    case Finding(addr, i, b) =>
      if l.choice.Look? && l.choice.stale then Outside else Freeing(addr, Owner(s, l.id, addr), i, b)
    case Freeing(_, _, _, _) => Outside
  }

  /** Inner allocator k takes back whatever starts where this process sees `addr`. */
  function Released(s: State, l: Label, addr: nat, k: nat): seq<set<Block>> {
    var mine := G.ProcOf(s.w, l.id.proc);
    if k < |s.live| && k < |mine.chunks| && k < |mine.bases|
    then s.live[k := set c | c in s.live[k] && Seen(mine, k, c.addr) != addr] else s.live
  }

  /** A new chunk comes with an inner allocator that has handed out nothing. */
  function LiveAfter(s: State, l: Label, w': G.World): seq<set<Block>> {
    match CallOf(s, l.id)
    case Trying(_, k, _) => if l.choice.Room? && k < |s.live| then WithBlock(s.live, k, l.choice.b) else s.live
    case Freeing(addr, k, _, _) => Released(s, l, addr, k)
    case _ => if |G.Grower(w')| > |s.live| then s.live + [{}] else s.live
  }

  ghost function WorldAfter(s: State, l: Label): G.World
    requires Enabled(s, l)
  {
    match InnerStep(s, l)
    case None => s.w
    case Some(c) => G.Act(s.w, G.Label(l.id, c))
  }

  ghost function Act(s: State, l: Label): State
    requires Enabled(s, l)
  {
    State(WorldAfter(s, l), LiveAfter(s, l, WorldAfter(s, l)), s.calls[l.id := CallAfter(s, l)])
  }

  ghost predicate Init(s: State) {
    G.Init(s.w) && s.live == [{}] && s.calls == map[]
  }

  ghost predicate StepsAt(run: seq<State>, labels: seq<Label>, i: nat) {
    i + 1 < |run| && i < |labels| && Enabled(run[i], labels[i]) && run[i + 1] == Act(run[i], labels[i])
  }

  ghost predicate IsRun(run: seq<State>, labels: seq<Label>) {
    && |run| == |labels| + 1 && Init(run[0])
    && forall i {:trigger StepsAt(run, labels, i)} :: 0 <= i < |labels| ==> StepsAt(run, labels, i)
  }

  // ---- the invariant ----

  /** A thread that gives back a block holds its address in its own process. */
  ghost predicate CallOk(s: State, id: G.Tid, c: Call) {
    var mine := G.ProcOf(s.w, id.proc);
    match c
    case Trying(_, _, _) => G.PcOf(s.w, id).Reading?
    case Got(i, b) => i < |s.live| && b in s.live[i]
    case Finding(addr, i, b) =>
      i < |s.live| && b in s.live[i] && i < |mine.chunks| && i < |mine.bases| && addr == Seen(mine, i, b.addr)
    case Freeing(addr, k, i, b) =>
      i < |s.live| && b in s.live[i] && i < |mine.chunks| && i < |mine.bases| && addr == Seen(mine, i, b.addr) && k == i
    case _ => true
  }

  predicate Apart(s: State, t: G.Tid, u: G.Tid) {
    t in s.calls && u in s.calls && (t != u ==> Handles(s.calls[t]) !! Handles(s.calls[u]))
  }

  ghost predicate Inv(s: State) {
    && GrowthSafety.Inv(s.w) && LiveOk(G.Grower(s.w), s.live)
    && (forall id {:trigger s.calls[id]} :: id in s.calls ==> CallOk(s, id, s.calls[id]))
    && (forall t, u {:trigger Apart(s, t, u)} :: t in s.calls && u in s.calls ==> Apart(s, t, u))
  }

  // ---- what a step does to the chunks ----

  /** At most one chunk more. */
  predicate OneMore(cs: seq<Chunk>, ds: seq<Chunk>) {
    ds == cs || (|ds| == |cs| + 1 && ds == cs + [ds[|cs|]])
  }

  lemma SameGrower(w: G.World, l: G.Label)
    requires GrowerOk(w) && G.Enabled(w, l) && PcOk(w, l.id, G.PcOf(w, l.id)) && !G.PcOf(w, l.id).Appending?
    ensures G.Grower(G.Act(w, l)) == G.Grower(w)
  {
    if !G.HoldsGrow(G.PcOf(w, l.id)) {
      OtherGrowth(w, l);
    }
  }

  lemma GrowerExtends(w: G.World, l: G.Label)
    requires GrowthSafety.Inv(w) && G.Enabled(w, l)
    ensures OneMore(G.Grower(w), G.Grower(G.Act(w, l)))
  {
    OwnPcOk(w, l.id);
    if G.PcOf(w, l.id).Appending? {
      AppendOutcome(w, l);
    } else {
      SameGrower(w, l);
    }
  }

  /** Every process keeps what it has mapped, and every other thread its place. */
  ghost predicate Keeps(w: G.World, w': G.World, id: G.Tid) {
    && (forall p :: p in w.procs ==> p in w'.procs && ProcGrows(w.procs[p], w'.procs[p]))
    && (forall u :: u != id ==> G.PcOf(w', u) == G.PcOf(w, u))
  }

  lemma GrowthKeeps(w: G.World, l: G.Label)
    requires G.Enabled(w, l)
    ensures Keeps(w, G.Act(w, l), l.id)
  {
    forall p | p in w.procs ensures p in G.Act(w, l).procs && ProcGrows(w.procs[p], G.Act(w, l).procs[p]) {
      StepGrowsProc(w, l, p);
    }
  }

  /** The world moves by one step of the growth protocol, or not at all. */
  lemma WorldStep(s: State, l: Label)
    requires GrowthSafety.Inv(s.w) && Enabled(s, l)
    ensures GrowthSafety.Inv(WorldAfter(s, l)) && Keeps(s.w, WorldAfter(s, l), l.id)
    ensures OneMore(G.Grower(s.w), G.Grower(WorldAfter(s, l)))
  {
    if InnerStep(s, l).Some? {
      var gl := G.Label(l.id, InnerStep(s, l).choice);
      GrowthSafety.StepKeepsInv(s.w, gl);
      GrowerExtends(s.w, gl);
      GrowthKeeps(s.w, gl);
    }
  }

  /** Taking or releasing list_mtx_ moves no chunk. */
  lemma LockStep(s: State, l: Label)
    requires GrowthSafety.Inv(s.w) && Enabled(s, l)
    requires CallOf(s, l.id).Trying? ==> G.PcOf(s.w, l.id).Reading?
    requires CallOf(s, l.id).Trying? || CallOf(s, l.id).Freeing?
    ensures G.Grower(WorldAfter(s, l)) == G.Grower(s.w)
  {
    if InnerStep(s, l).Some? {
      OwnPcOk(s.w, l.id);
      SameGrower(s.w, G.Label(l.id, InnerStep(s, l).choice));
    }
  }

  // ---- what a step does to the blocks ----

  /** A block is seen inside its chunk in every process that has mapped it. */
  lemma SeenInside(w: G.World, live: seq<set<Block>>, p: nat, i: nat, b: Block)
    requires GrowthSafety.Inv(w) && BlocksOk(File(G.Grower(w)), live) && i < |live| && b in live[i]
    requires i < |G.ProcOf(w, p).chunks|
    ensures var mine := G.ProcOf(w, p);
            && p in w.procs && ShmOk(mine) && mine.chunks <= G.Grower(w)
            && mine.bases[i] <= Seen(mine, i, b.addr)
            && Seen(mine, i, b.addr) + b.len <= mine.bases[i] + mine.chunks[i].size
  {
    ListDecodes(w, p);
    assert OpenerOk(w, p);
    assert InChunk(File(G.Grower(w)), i, b);
    assert G.ProcOf(w, p).chunks[i] == G.Grower(w)[i];
  }

  /** The registry leads a process back to the segment a block came from, however many segments there are by now. */
  lemma OwnerIsSource(s: State, id: G.Tid, i: nat, b: Block)
    requires GrowthSafety.Inv(s.w) && BlocksOk(File(G.Grower(s.w)), s.live) && i < |s.live| && b in s.live[i]
    requires i < |G.ProcOf(s.w, id.proc).chunks| && i < |G.ProcOf(s.w, id.proc).bases|
    ensures Seen(G.ProcOf(s.w, id.proc), i, b.addr) >= 0
    ensures Owner(s, id, Seen(G.ProcOf(s.w, id.proc), i, b.addr)) == i
  {
    SeenInside(s.w, s.live, id.proc, i, b);
    assert InChunk(File(G.Grower(s.w)), i, b);
    FindSharedUnique(G.ProcOf(s.w, id.proc), i, Seen(G.ProcOf(s.w, id.proc), i, b.addr));
  }

  /** What is released is exactly the block given back. */
  lemma ReleasedIsOne(s: State, l: Label, i: nat, b: Block)
    requires BlocksOk(File(G.Grower(s.w)), s.live) && i < |s.live| && b in s.live[i]
    requires i < |G.ProcOf(s.w, l.id.proc).chunks| && i < |G.ProcOf(s.w, l.id.proc).bases|
    requires Seen(G.ProcOf(s.w, l.id.proc), i, b.addr) >= 0
    ensures Released(s, l, Seen(G.ProcOf(s.w, l.id.proc), i, b.addr), i) == s.live[i := s.live[i] - {b}]
  {
    var mine := G.ProcOf(s.w, l.id.proc);
    RemoveIsOne(File(G.Grower(s.w)), s.live, i, b);
    assert (set c | c in s.live[i] && Seen(mine, i, c.addr) != Seen(mine, i, b.addr))
        == (set c | c in s.live[i] && c.addr != b.addr);
  }

  lemma FileExtends(cs: seq<Chunk>, c: Chunk)
    ensures File(cs + [c]) == WithChunk(File(cs), c, c.off)
  {
  }

  /** The inner allocators cover the chunks and keep their blocks in order. */
  ghost predicate LiveOk(cs: seq<Chunk>, live: seq<set<Block>>) {
    |live| == |cs| && BlocksOk(File(cs), live)
  }

  /** A step that frees nothing keeps every live block. */
  ghost predicate KeepsLive(live: seq<set<Block>>, live': seq<set<Block>>) {
    |live| <= |live'| && forall j :: 0 <= j < |live| ==> live[j] <= live'[j]
  }

  lemma FreeStep(s: State, l: Label)
    requires Inv(s) && Enabled(s, l) && CallOf(s, l.id).Freeing?
    ensures var c, w' := CallOf(s, l.id), WorldAfter(s, l);
            && c.k == c.i && c.i < |s.live| && c.b in s.live[c.i]
            && LiveAfter(s, l, w') == s.live[c.i := s.live[c.i] - {c.b}] && LiveOk(G.Grower(w'), LiveAfter(s, l, w'))
  {
    var c := CallOf(s, l.id);
    assert CallOk(s, l.id, s.calls[l.id]);
    LockStep(s, l);
    ReleasedIsOne(s, l, c.i, c.b);
    BlocksRemove(File(G.Grower(s.w)), s.live, c.i, c.b);
  }

  lemma TryStep(s: State, l: Label)
    requires Inv(s) && Enabled(s, l) && CallOf(s, l.id).Trying?
    ensures var w' := WorldAfter(s, l);
            LiveOk(G.Grower(w'), LiveAfter(s, l, w')) && KeepsLive(s.live, LiveAfter(s, l, w'))
  {
    var call := CallOf(s, l.id);
    assert CallOk(s, l.id, s.calls[l.id]);
    LockStep(s, l);
    if l.choice.Room? {
      BlocksAdd(File(G.Grower(s.w)), s.live, call.k, l.choice.b);
    }
  }

  /** A fresh segment. */
  lemma SegmentStep(cs: seq<Chunk>, ds: seq<Chunk>, live: seq<set<Block>>)
    requires LiveOk(cs, live) && OneMore(cs, ds)
    ensures LiveOk(ds, if |ds| > |live| then live + [{}] else live)
  {
    if ds != cs {
      FileExtends(cs, ds[|cs|]);
      BlocksAppend(File(cs), live, ds[|cs|], ds[|cs|].off);
    }
  }

  /** The blocks after a step: as before, with a fresh segment, one block more, or one less. */
  lemma BlocksStep(s: State, l: Label)
    requires Inv(s) && Enabled(s, l)
    ensures LiveOk(G.Grower(Act(s, l).w), Act(s, l).live)
    ensures CallOf(s, l.id).Freeing? ==>
              var c := CallOf(s, l.id); c.i < |s.live| && Act(s, l).live == s.live[c.i := s.live[c.i] - {c.b}]
    ensures !CallOf(s, l.id).Freeing? ==> KeepsLive(s.live, Act(s, l).live)
  {
    if CallOf(s, l.id).Freeing? {
      FreeStep(s, l);
    } else if CallOf(s, l.id).Trying? {
      TryStep(s, l);
    } else {
      WorldStep(s, l);
      SegmentStep(G.Grower(s.w), G.Grower(WorldAfter(s, l)), s.live);
    }
  }

  // ---- every step keeps the invariant ----

  /** A block in somebody else's hands stays live. */
  lemma OtherBlockStays(s: State, l: Label, u: G.Tid, j: nat, c: Block)
    requires Inv(s) && Enabled(s, l) && u != l.id && u in s.calls && (j, c) in Handles(s.calls[u])
    requires j < |s.live| && c in s.live[j]
    ensures j < |Act(s, l).live| && c in Act(s, l).live[j]
  {
    BlocksStep(s, l);
    if CallOf(s, l.id).Freeing? {
      assert Apart(s, l.id, u);
      assert (CallOf(s, l.id).i, CallOf(s, l.id).b) in Handles(s.calls[l.id]);
    }
  }

  /** A thread that stands still is as well off after another's step, if the block in its hands stays. */
  lemma StandsStill(s: State, s': State, id: G.Tid, u: G.Tid, c: Call)
    requires CallOk(s, u, c) && Keeps(s.w, s'.w, id) && u != id
    requires forall i, b :: (i, b) in Handles(c) ==> i < |s'.live| && b in s'.live[i]
    ensures CallOk(s', u, c)
  {
    match c
    case Got(i, b) => assert (i, b) in Handles(c);
    case Finding(_, i, b) => assert (i, b) in Handles(c);
    case Freeing(_, _, i, b) => assert (i, b) in Handles(c);
    case _ =>
  }

  lemma OtherCallOk(s: State, l: Label, u: G.Tid)
    requires Inv(s) && Enabled(s, l) && u != l.id && u in s.calls
    ensures CallOk(Act(s, l), u, s.calls[u])
  {
    assert CallOk(s, u, s.calls[u]);
    WorldStep(s, l);
    forall i, b | (i, b) in Handles(s.calls[u]) ensures i < |Act(s, l).live| && b in Act(s, l).live[i] {
      OtherBlockStays(s, l, u, i, b);
    }
    StandsStill(s, Act(s, l), l.id, u, s.calls[u]);
  }

  lemma OwnCallOk(s: State, l: Label)
    requires Inv(s) && Enabled(s, l)
    ensures CallOk(Act(s, l), l.id, CallAfter(s, l))
  {
    assert l.id in s.calls ==> CallOk(s, l.id, s.calls[l.id]);
    BlocksStep(s, l);
    match CallOf(s, l.id)
    case Finding(_, i, b) => OwnerIsSource(s, l.id, i, b);
    case _ =>
  }

  /** A block handed out is new, so nobody else has it. */
  lemma NewBlockApart(s: State, k: nat, b: Block, u: G.Tid)
    requires Inv(s) && u in s.calls
    requires k < |s.live| && k < |G.Grower(s.w)| && Available(File(G.Grower(s.w)), s.live, k, b)
    ensures (k, b) !in Handles(s.calls[u])
  {
    assert CallOk(s, u, s.calls[u]);
  }

  lemma HandlesStep(s: State, l: Label, u: G.Tid)
    requires Inv(s) && Enabled(s, l) && u in s.calls && u != l.id
    ensures Handles(CallAfter(s, l)) !! Handles(s.calls[u])
  {
    if l.id in s.calls {
      assert Apart(s, l.id, u);
    }
    if CallOf(s, l.id).Trying? && l.choice.Room? {
      NewBlockApart(s, CallOf(s, l.id).k, l.choice.b, u);
    }
  }

  lemma HandlesApart(s: State, l: Label, t: G.Tid, u: G.Tid)
    requires Inv(s) && Enabled(s, l) && t in Act(s, l).calls && u in Act(s, l).calls
    ensures Apart(Act(s, l), t, u)
  {
    if t != u && t == l.id {
      HandlesStep(s, l, u);
    } else if t != u && u == l.id {
      HandlesStep(s, l, t);
    } else if t != u {
      assert Apart(s, t, u);
    }
  }

  lemma StepKeepsInv(s: State, l: Label)
    requires Inv(s) && Enabled(s, l)
    ensures Inv(Act(s, l))
  {
    var s' := Act(s, l);
    WorldStep(s, l);
    BlocksStep(s, l);
    forall u | u in s'.calls ensures CallOk(s', u, s'.calls[u]) {
      if u == l.id {
        OwnCallOk(s, l);
      } else {
        OtherCallOk(s, l, u);
      }
    }
    forall t, u | t in s'.calls && u in s'.calls ensures Apart(s', t, u) {
      HandlesApart(s, l, t, u);
    }
  }

  lemma {:induction false} RunKeepsInv(run: seq<State>, labels: seq<Label>, x: nat)
    requires IsRun(run, labels) && x < |run|
    ensures Inv(run[x])
  {
    if x > 0 {
      RunKeepsInv(run, labels, x - 1);
      assert StepsAt(run, labels, x - 1);
      StepKeepsInv(run[x - 1], labels[x - 1]);
    } else {
      GrowthSafety.InitHolds(run[0].w);
    }
  }

  // ---- what it means for callers ----

  /** Blocks of two chunks of a tiling are apart in the file. */
  lemma ChunksApart(cs: seq<Chunk>, i: nat, j: nat)
    requires Tiles(cs) && i < j < |cs|
    ensures cs[i].off + cs[i].size <= cs[j].off
  {
    TotalMonotone(cs, i, j);
  }

  /** Process p, if it has both blocks mapped, sees them apart. */
  predicate SeenApart(w: G.World, p: nat, i: nat, b: Block, j: nat, c: Block) {
    var mine := G.ProcOf(w, p);
    i < |mine.chunks| && i < |mine.bases| && j < |mine.chunks| && j < |mine.bases| ==>
      || Seen(mine, i, b.addr) + b.len <= Seen(mine, j, c.addr)
      || Seen(mine, j, c.addr) + c.len <= Seen(mine, i, b.addr)
  }

  lemma MappedApart(p: Proc, i: nat, j: nat)
    requires Placed(p) && i < |p.bases| && j < |p.bases| && i != j
    ensures RangesApart(p.bases[i], p.chunks[i].size, p.bases[j], p.chunks[j].size)
  {
    if j < i {
      assert RangesApart(p.bases[j], p.chunks[j].size, p.bases[i], p.chunks[i].size);
    }
  }

  lemma ImagesApart(w: G.World, live: seq<set<Block>>, p: nat, i: nat, b: Block, j: nat, c: Block)
    requires GrowthSafety.Inv(w) && LiveOk(G.Grower(w), live) && i < |live| && j < |live|
    requires b in live[i] && c in live[j] && (i, b) != (j, c)
    ensures SeenApart(w, p, i, b, j, c)
  {
    var mine := G.ProcOf(w, p);
    if i < |mine.chunks| && i < |mine.bases| && j < |mine.chunks| && j < |mine.bases| {
      SeenInside(w, live, p, i, b);
      SeenInside(w, live, p, j, c);
      if i == j {
        assert BlocksApart(b, c);
      } else {
        MappedApart(mine, i, j);
      }
    }
  }

  /** In every run live blocks never overlap: not in the file, whatever segments they belong to, and not in any process
      that has their chunks mapped. */
  lemma NeverOverlap(run: seq<State>, labels: seq<Label>, x: nat, i: nat, j: nat, b: Block, c: Block)
    requires IsRun(run, labels) && x < |run| && i < |run[x].live| && j < |run[x].live|
    requires b in run[x].live[i] && c in run[x].live[j] && (i, b) != (j, c)
    ensures BlocksApart(b, c)
    ensures forall p {:trigger SeenApart(run[x].w, p, i, b, j, c)} :: SeenApart(run[x].w, p, i, b, j, c)
  {
    var cs := G.Grower(run[x].w);
    RunKeepsInv(run, labels, x);
    assert InChunk(File(cs), i, b) && InChunk(File(cs), j, c);
    if i < j {
      ChunksApart(cs, i, j);
    } else if j < i {
      ChunksApart(cs, j, i);
    }
    forall p ensures SeenApart(run[x].w, p, i, b, j, c) {
      ImagesApart(run[x].w, run[x].live, p, i, b, j, c);
    }
  }

  /** In every run a block handed out lies inside its segment and overlaps nothing live, in any segment. */
  lemma HandedOutFresh(run: seq<State>, labels: seq<Label>, x: nat)
    requires IsRun(run, labels) && x < |labels| && CallOf(run[x], labels[x].id).Trying? && labels[x].choice.Room?
    ensures var s, k, b := run[x], CallOf(run[x], labels[x].id).k, labels[x].choice.b;
            && CallOf(run[x + 1], labels[x].id) == Got(k, b) && k < |s.live| == |G.Grower(s.w)|
            && InChunk(File(G.Grower(s.w)), k, b)
            && forall j, c :: 0 <= j < |s.live| && c in s.live[j] ==> BlocksApart(b, c)
  {
    var s, k, b := run[x], CallOf(run[x], labels[x].id).k, labels[x].choice.b;
    assert StepsAt(run, labels, x);
    RunKeepsInv(run, labels, x);
    var cs := G.Grower(s.w);
    forall j, c | 0 <= j < |s.live| && c in s.live[j] ensures BlocksApart(b, c) {
      assert InChunk(File(cs), j, c);
      if j < k {
        ChunksApart(cs, j, k);
      } else if k < j {
        ChunksApart(cs, k, j);
      }
    }
  }

  /** In every run a block that is given back, and not hidden by a stale lookup, reaches the inner allocator that handed
      it out, whatever was allocated, freed, grown and discovered since, and only that block is released. */
  lemma FreedWhereHandedOut(run: seq<State>, labels: seq<Label>, x: nat)
    requires IsRun(run, labels) && x < |labels| && CallOf(run[x], labels[x].id).Freeing?
    ensures var c := CallOf(run[x], labels[x].id);
            && c.k == c.i && c.i < |run[x].live| && c.b in run[x].live[c.i]
            && run[x + 1].live == run[x].live[c.i := run[x].live[c.i] - {c.b}]
  {
    var s := run[x];
    assert StepsAt(run, labels, x);
    RunKeepsInv(run, labels, x);
    assert CallOk(s, labels[x].id, s.calls[labels[x].id]);
    BlocksStep(s, labels[x]);
  }

  lemma StaysThisStep(s: State, l: Label, i: nat, b: Block)
    requires Inv(s) && Enabled(s, l) && i < |s.live| && b in s.live[i] && !Frees(s, l, i, b)
    ensures i < |Act(s, l).live| && b in Act(s, l).live[i]
  {
    BlocksStep(s, l);
  }

  /** The step gives this block back to its inner allocator. */
  predicate Frees(s: State, l: Label, i: nat, b: Block) {
    CallOf(s, l.id).Freeing? && CallOf(s, l.id).i == i && CallOf(s, l.id).b == b
  }

  /** Conservation: a live block stays live until it is itself freed. */
  lemma {:induction false} StaysUntilFreed(run: seq<State>, labels: seq<Label>, x: nat, y: nat, i: nat, b: Block)
    requires IsRun(run, labels) && x <= y < |run| && i < |run[x].live| && b in run[x].live[i]
    requires forall z :: x <= z < y ==> !Frees(run[z], labels[z], i, b)
    ensures i < |run[y].live| && b in run[y].live[i]
  {
    if x < y {
      StaysUntilFreed(run, labels, x, y - 1, i, b);
      RunKeepsInv(run, labels, y - 1);
      assert StepsAt(run, labels, y - 1);
      StaysThisStep(run[y - 1], labels[y - 1], i, b);
    }
  }

  // ---- what a call of allocate does ----

  predicate Allocating(c: Call) {
    c.Trying? || c.MustGrow? || c.Growing?
  }

  /** In this step the thread's inner allocator j refuses its request. */
  predicate RefusedAt(run: seq<State>, labels: seq<Label>, z: nat, id: G.Tid, bytes: nat, j: nat, again: bool) {
    z < |labels| && z < |run| && labels[z] == Label(id, NoRoom) && CallOf(run[z], id) == Trying(bytes, j, again)
  }

  /** Between the states x and y inner allocator j has refused. */
  ghost predicate Refused(run: seq<State>, labels: seq<Label>, x: nat, y: nat, id: G.Tid, bytes: nat, j: nat,
                          again: bool)
  {
    exists z :: x < z < y && RefusedAt(run, labels, z, id, bytes, j, again)
  }

  /** In this step the thread has asked every segment its process has, and all have refused. */
  ghost predicate GaveUpAt(run: seq<State>, labels: seq<Label>, x: nat, f: nat, id: G.Tid, bytes: nat, again: bool) {
    && x < f < |run| && f < |labels| && labels[f] == Label(id, Proceed)
    && CallOf(run[f], id).Trying? && CallOf(run[f], id).bytes == bytes && CallOf(run[f], id).again == again
    && forall j :: 0 <= j < |G.ProcOf(run[f].w, id.proc).chunks| ==> Refused(run, labels, x, f, id, bytes, j, again)
  }

  /** In this step the thread calls grow, having given up before. */
  ghost predicate GrewAt(run: seq<State>, labels: seq<Label>, x: nat, g: nat, id: G.Tid, bytes: nat) {
    && x < g < |run| && g < |labels| && labels[g].id == id && CallOf(run[g], id) == MustGrow(bytes)
    && exists f: nat :: f < g && GaveUpAt(run, labels, x, f, id, bytes, false)
  }

  /** What has happened so far, by the place the thread is at. */
  ghost predicate History(run: seq<State>, labels: seq<Label>, x: nat, y: nat, id: G.Tid, bytes: nat)
    requires y < |run|
  {
    match CallOf(run[y], id)
    case Trying(n, k, again) =>
      && n == bytes && (forall j :: 0 <= j < k ==> Refused(run, labels, x, y, id, bytes, j, again))
      && (again ==> exists g: nat :: g < y && GrewAt(run, labels, x, g, id, bytes))
    case MustGrow(n) => n == bytes && exists f: nat :: f < y && GaveUpAt(run, labels, x, f, id, bytes, false)
    case Growing(n) => n == bytes && exists g: nat :: g < y && GrewAt(run, labels, x, g, id, bytes)
    case _ => true
  }

  lemma RefusedStays(run: seq<State>, labels: seq<Label>, x: nat, y: nat, id: G.Tid, bytes: nat, again: bool)
    ensures forall j: nat {:trigger Refused(run, labels, x, y + 1, id, bytes, j, again)} ::
              Refused(run, labels, x, y, id, bytes, j, again) ==> Refused(run, labels, x, y + 1, id, bytes, j, again)
  {
    forall j: nat {:trigger Refused(run, labels, x, y + 1, id, bytes, j, again)} |
        Refused(run, labels, x, y, id, bytes, j, again)
      ensures Refused(run, labels, x, y + 1, id, bytes, j, again)
    {
      var z :| x < z < y && RefusedAt(run, labels, z, id, bytes, j, again);
      assert z < y + 1;
    }
  }

  lemma OwnHistory(run: seq<State>, labels: seq<Label>, x: nat, y: nat, id: G.Tid, bytes: nat)
    requires x < y < |labels| && |run| == |labels| + 1 && History(run, labels, x, y, id, bytes)
    requires labels[y].id == id && Allocating(CallOf(run[y], id)) && Enabled(run[y], labels[y])
    requires CallOf(run[y + 1], id) == CallAfter(run[y], labels[y])
    ensures History(run, labels, x, y + 1, id, bytes)
  {
    var c := CallOf(run[y], id);
    match c
    case Trying(_, k, again) =>
      RefusedStays(run, labels, x, y, id, bytes, again);
      if labels[y].choice.NoRoom? {
        assert RefusedAt(run, labels, y, id, bytes, k, again);
      } else if labels[y].choice.Proceed? && !again {
        assert GaveUpAt(run, labels, x, y, id, bytes, false);
      }
    case MustGrow(_) => assert GrewAt(run, labels, x, y, id, bytes);
    case _ =>
  }

  lemma OtherHistory(run: seq<State>, labels: seq<Label>, x: nat, y: nat, id: G.Tid, bytes: nat)
    requires x < y < |labels| && |run| == |labels| + 1 && History(run, labels, x, y, id, bytes)
    requires CallOf(run[y + 1], id) == CallOf(run[y], id)
    ensures History(run, labels, x, y + 1, id, bytes)
  {
    RefusedStays(run, labels, x, y, id, bytes, false);
    RefusedStays(run, labels, x, y, id, bytes, true);
  }

  lemma {:induction false} HistoryHolds(run: seq<State>, labels: seq<Label>, x: nat, y: nat, id: G.Tid, bytes: nat)
    requires IsRun(run, labels) && x < y < |run|
    requires CallOf(run[x], id).Outside? && labels[x] == Label(id, Allocate(bytes))
    requires forall z :: x < z < y ==> Allocating(CallOf(run[z], id))
    ensures History(run, labels, x, y, id, bytes)
  {
    assert StepsAt(run, labels, y - 1);
    if x + 1 < y {
      HistoryHolds(run, labels, x, y - 1, id, bytes);
      if labels[y - 1].id == id {
        OwnHistory(run, labels, x, y - 1, id, bytes);
      } else {
        OtherHistory(run, labels, x, y - 1, id, bytes);
      }
    }
  }

  /** What a call of allocate(bytes) comes to (call at x, over in state y): a block of at least that many bytes; or an
      exception because its grow failed; or an exception after every segment has refused, the thread has called grow,
      and every segment has refused again. */
  lemma AllocateOutcome(run: seq<State>, labels: seq<Label>, x: nat, y: nat, id: G.Tid, bytes: nat)
    requires IsRun(run, labels) && x + 1 < y < |run|
    requires CallOf(run[x], id).Outside? && labels[x] == Label(id, Allocate(bytes))
    requires forall z :: x < z < y ==> Allocating(CallOf(run[z], id))
    requires !Allocating(CallOf(run[y], id))
    ensures CallOf(run[y], id).Got? ==>
              labels[y - 1] == Label(id, Room(CallOf(run[y], id).b)) && CallOf(run[y], id).b.len >= bytes
    ensures !CallOf(run[y], id).Got? ==>
              || labels[y - 1] == Label(id, Growth(G.Fail))
              || (GaveUpAt(run, labels, x, y - 1, id, bytes, true)
                  && exists g: nat :: g < y - 1 && GrewAt(run, labels, x, g, id, bytes))
  {
    HistoryHolds(run, labels, x, y - 1, id, bytes);
    assert StepsAt(run, labels, y - 1) && Allocating(CallOf(run[y - 1], id));
  }

  // ---- every call ends ----

  /** How many steps of its own a thread still needs, with at most 64 segments. */
  function ToGo(s: State, id: G.Tid): int {
    match CallOf(s, id)
    case Outside => 0
    case Trying(_, k, again) => (if again then 70 else 300) - k
    case MustGrow(_) => 200
    case Growing(_) => 100 + Outcomes.ToGo(G.PcOf(s.w, id))
    case Got(_, _) => 1
    case Finding(_, _, _) => 2
    case Freeing(_, _, _, _) => 1
  }

  ghost predicate PlaceOk(s: State, id: G.Tid) {
    match CallOf(s, id)
    case Trying(_, k, _) => k <= MAX_SUB_SEGMENTS
    case Growing(_) => Outcomes.ToGo(G.PcOf(s.w, id)) <= 7
    case _ => true
  }

  lemma OwnStepDrops(s: State, l: Label)
    requires Inv(s) && Enabled(s, l) && !CallOf(s, l.id).Outside? && PlaceOk(s, l.id)
    requires |G.ProcOf(s.w, l.id.proc).chunks| <= MAX_SUB_SEGMENTS && s.w.count <= MAX_SUB_SEGMENTS
    ensures PlaceOk(Act(s, l), l.id) && 0 <= ToGo(Act(s, l), l.id) < ToGo(s, l.id)
  {
    if CallOf(s, l.id).Growing? && l.choice.Growth? {
      Outcomes.StepDrops(s.w, G.Label(l.id, l.choice.choice));
    }
  }

  /** No list is longer than 28. */
  lemma ListsShort(w: G.World, p: nat)
    requires GrowthSafety.Inv(w)
    ensures |G.ProcOf(w, p).chunks| <= 28 && w.count <= 28
  {
    TotalFits(w.procs[0]);
    AtMost28(G.Grower(w));
    ListTiles(w, p);
    if p in w.procs && p != 0 {
      assert OpenerOk(w, p);
    }
  }

  lemma OtherStepKeeps(s: State, l: Label, id: G.Tid)
    requires Inv(s) && Enabled(s, l) && l.id != id
    ensures ToGo(Act(s, l), id) == ToGo(s, id) && (PlaceOk(s, id) ==> PlaceOk(Act(s, l), id))
    ensures CallOf(Act(s, l), id) == CallOf(s, id)
  {
    WorldStep(s, l);
  }

  lemma {:induction false} PlacesOk(run: seq<State>, labels: seq<Label>, y: nat, id: G.Tid)
    requires IsRun(run, labels) && y < |run|
    ensures PlaceOk(run[y], id)
  {
    if y > 0 {
      var s, l := run[y - 1], labels[y - 1];
      PlacesOk(run, labels, y - 1, id);
      RunKeepsInv(run, labels, y - 1);
      assert StepsAt(run, labels, y - 1);
      ListsShort(s.w, l.id.proc);
      if l.id != id {
        OtherStepKeeps(s, l, id);
      } else if !CallOf(s, id).Outside? {
        OwnStepDrops(s, l);
      }
    }
  }

  lemma RunDrops(run: seq<State>, labels: seq<Label>, y: nat, id: G.Tid)
    requires IsRun(run, labels) && y < |labels| && !CallOf(run[y], id).Outside?
    ensures ToGo(run[y + 1], id) + (if labels[y].id == id then 1 else 0) <= ToGo(run[y], id)
  {
    RunKeepsInv(run, labels, y);
    PlacesOk(run, labels, y, id);
    assert StepsAt(run, labels, y);
    if labels[y].id == id {
      ListsShort(run[y].w, id.proc);
      OwnStepDrops(run[y], labels[y]);
    } else {
      OtherStepKeeps(run[y], labels[y], id);
    }
  }

  function Steps(labels: seq<Label>, id: G.Tid, i: nat, k: nat): nat {
    if k <= i || k > |labels| then 0
    else Steps(labels, id, i, k - 1) + if labels[k - 1].id == id then 1 else 0
  }

  lemma {:induction false} StepsWithin(run: seq<State>, labels: seq<Label>, i: nat, k: nat, id: G.Tid)
    requires IsRun(run, labels) && i <= k < |run|
    requires forall z :: i <= z < k ==> !CallOf(run[z], id).Outside?
    ensures Steps(labels, id, i, k) + ToGo(run[k], id) <= ToGo(run[i], id)
  {
    if i < k {
      StepsWithin(run, labels, i, k - 1, id);
      RunDrops(run, labels, k - 1, id);
    }
  }

  /** In every run a call of allocate or deallocate, also one that grows, ends within 300 steps of its thread, apart
      from waiting for locks. */
  lemma CallsEnd(run: seq<State>, labels: seq<Label>, j: nat, k: nat, id: G.Tid)
    requires IsRun(run, labels) && j < k < |run| && labels[j].id == id && CallOf(run[j], id).Outside?
    requires forall z :: j < z < k ==> !CallOf(run[z], id).Outside?
    ensures Steps(labels, id, j + 1, k) <= 300
  {
    assert StepsAt(run, labels, j);
    StepsWithin(run, labels, j + 1, k, id);
    PlacesOk(run, labels, k, id);
  }

  // ---- a run ----

  lemma Extend(run: seq<State>, labels: seq<Label>, l: Label) returns (run': seq<State>, labels': seq<Label>)
    requires IsRun(run, labels) && Enabled(run[|run| - 1], l)
    ensures run' == run + [Act(run[|run| - 1], l)] && labels' == labels + [l] && IsRun(run', labels')
  {
    run', labels' := run + [Act(run[|run| - 1], l)], labels + [l];
    forall i: nat | i < |labels'| ensures StepsAt(run', labels', i) {
      assert i < |labels| ==> StepsAt(run, labels, i);
    }
  }

  /** A creator with a single chunk. */
  function Fresh(): G.World {
    G.World(Outcomes.MEBI, Outcomes.Table(Chunk(0, 0)), 1, map[0 := Proc([Outcomes.FIRST], [Outcomes.MEBI])],
            {}, map[], map[], true)
  }

  /** Idle in the growth protocol, with these blocks and this place in the thread's own call. */
  function Quiet(live: set<Block>, c: Call): State {
    State(Fresh().(pcs := map[G.Tid(0, 0) := G.Idle]), [live], map[G.Tid(0, 0) := c])
  }

  lemma RunToTrying(bytes: nat) returns (run: seq<State>, labels: seq<Label>)
    requires bytes < WORD
    ensures IsRun(run, labels)
    ensures run[|run| - 1] == State(Fresh().(listMtx := map[0 := 0], pcs := map[G.Tid(0, 0) := G.Reading]), [{}],
                                    map[G.Tid(0, 0) := Trying(bytes, 0, false)])
  {
    Outcomes.WholeMebis();
    PageSizeBound();
    assert Fresh().procs.Keys == {0};
    run, labels := [State(Fresh(), [{}], map[])], [];
    run, labels := Extend(run, labels, Label(G.Tid(0, 0), Allocate(bytes)));
    assert run[1].w.procs == Fresh().procs;
  }

  /** A thread allocates the first bytes of the chunk. */
  lemma RunToBlock(bytes: nat) returns (run: seq<State>, labels: seq<Label>)
    requires 0 < bytes <= MIN_SEGMENT_SIZE
    ensures IsRun(run, labels) && run[|run| - 1] == Quiet({Block(0, bytes)}, Got(0, Block(0, bytes)))
  {
    var id, b := G.Tid(0, 0), Block(0, bytes);
    run, labels := RunToTrying(bytes);
    assert InChunk(File([Outcomes.FIRST]), 0, b);
    var none: set<Block> := {};
    assert none + {b} == {b} && WithBlock([none], 0, b) == [{b}];
    run, labels := Extend(run, labels, Label(id, Room(b)));
    assert run[|run| - 1].w == Fresh().(pcs := map[id := G.Idle]);
  }

  lemma RunToFreeing(bytes: nat) returns (run: seq<State>, labels: seq<Label>)
    requires 0 < bytes <= MIN_SEGMENT_SIZE
    ensures IsRun(run, labels)
    ensures run[|run| - 1] == Quiet({Block(0, bytes)}, Freeing(Outcomes.MEBI, 0, 0, Block(0, bytes)))
  {
    var id, b := G.Tid(0, 0), Block(0, bytes);
    run, labels := RunToBlock(bytes);
    run, labels := Extend(run, labels, Label(id, Proceed));
    assert run[|run| - 1] == Quiet({b}, Outside);
    run, labels := Extend(run, labels, Label(id, Deallocate(0, b)));
    assert run[|run| - 1] == Quiet({b}, Finding(Outcomes.MEBI, 0, b));
    RunKeepsInv(run, labels, |run| - 1);
    OwnerIsSource(run[|run| - 1], id, 0, b);
    run, labels := Extend(run, labels, Label(id, Look(false)));
  }

  /** A thread allocates a block and gives it back. */
  lemma AllocateAndFree(bytes: nat) returns (run: seq<State>, labels: seq<Label>)
    requires 0 < bytes <= MIN_SEGMENT_SIZE
    ensures IsRun(run, labels) && |run| > 1
    ensures run[|run| - 2].live == [{Block(0, bytes)}] && run[|run| - 1] == Quiet({}, Outside)
  {
    var id, b := G.Tid(0, 0), Block(0, bytes);
    run, labels := RunToFreeing(bytes);
    RunKeepsInv(run, labels, |run| - 1);
    FreeStep(run[|run| - 1], Label(id, Proceed));
    var none: set<Block> := {};
    assert {b} - {b} == none && [{b}][0 := none] == [none];
    run, labels := Extend(run, labels, Label(id, Proceed));
  }
}
