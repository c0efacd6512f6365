/** Growth and discovery: process 0 created the segment file and is the only one that grows it, from
    any number of threads; any number of other processes open it and map new chunks on demand. */
module GrowthProtocol {
  import opened DivMod
  import opened Platform
  import opened Chunks
  import opened Mappings

  datatype Tid = Tid(proc: nat, thread: nat)

  /** Program points. Growing threads hold grow_mtx_ from Sizing on; WriteOffset and later hold
      list_mtx_ too, and so do the program points of discovery and of read-only sections. */
  datatype Pc =
    | Idle
    | WantGrow(min: nat)                                        // blocked on grow_mtx_
    | Sizing(req: Request)                                      // about to look at the list
    | Truncating(req: Request, size: nat, snapshot: nat)        // about to resize the file
    | Appending(req: Request, size: nat, snapshot: nat)         // about to re-lock, map and append
    | WriteOffset(idx: nat)                                     // publishing entry idx
    | WriteSize(idx: nat)
    | WriteCount(idx: nat)
    | Reading                                                   // allocate, find, get_size, ...
    | Checking(off: nat)                                        // lazy_discover_growth(off)
    | Discovering(off: nat, i: nat, count: nat, found: bool)
    | Discovered(off: nat, result: bool)
    | Opening(i: nat, count: nat)                               // open_all_segments

  /** The shared file and table, every process's list, and the locks. `listMtx` maps a process to
      the thread that holds its list_mtx_. `tame` is auxiliary: the last
      successful resize was not for a request that wraps the file size. */
  datatype World = World(fileSize: nat, entries: seq<Chunk>, count: nat, procs: map<nat, Proc>,
                         growMtx: set<nat>, listMtx: map<nat, nat>, pcs: map<Tid, Pc>, tame: bool)

  /** What callers, the operating system and the inner allocators' fill level decide. */
  datatype Choice = Go | Fail | Free(bytes: nat) | MapAt(base: nat)
    | CallGrow(min: nat) | CallBackground | CallRead | CallDiscover(off: nat) | CallOpen(base: nat)

  datatype Label = Label(id: Tid, choice: Choice)

  function PcOf(w: World, id: Tid): Pc {
    if id in w.pcs then w.pcs[id] else Idle
  }

  function ProcOf(w: World, p: nat): Proc {
    if p in w.procs then w.procs[p] else Proc([], [])
  }

  predicate ListFree(w: World, p: nat) {
    p !in w.listMtx
  }

  /** The list of the growing process. */
  function Grower(w: World): seq<Chunk> {
    ProcOf(w, 0).chunks
  }

  /** The chunks any opener may rely on. */
  function Published(w: World): seq<Chunk> {
    if w.count <= |w.entries| then w.entries[..w.count] else w.entries
  }

  function EntryAt(w: World, i: nat): Chunk {
    if i < |w.entries| then w.entries[i] else Chunk(0, 0)
  }

  predicate Enabled(w: World, l: Label) {
    var p, c := l.id.proc, l.choice;
    match PcOf(w, l.id)
    case Idle =>
      (match c
       case CallGrow(min) => p == 0 && min < WORD
       case CallBackground => p == 0
       case CallRead => p in w.procs && ListFree(w, p)
       case CallDiscover(_) => p in w.procs && ListFree(w, p)
       case CallOpen(base) => p !in w.procs && ListFree(w, p) && CanMap(Proc([], []), base, EntryAt(w, 0).size)
       case _ => false)
    case WantGrow(_) => c.Go? && w.growMtx == {}
    case Sizing(_) => c.Free? && ListFree(w, p)
    case Truncating(_, _, _) => c.Go? || c.Fail?
    case Appending(_, size, _) => ListFree(w, p) && (c.Fail? || (c.MapAt? && CanMap(ProcOf(w, p), c.base, size)))
    case Discovering(_, i, count, _) => MapsNext(w, p, i, count, c)
    case Opening(i, count) => MapsNext(w, p, i, count, c)
    case _ => c.Go?
  }

  /** The loop over unmapped table entries: map the next one, fail, or be done. */
  predicate MapsNext(w: World, p: nat, i: nat, count: nat, c: Choice) {
    if i < count then c.Fail? || (c.MapAt? && CanMap(ProcOf(w, p), c.base, EntryAt(w, i).size)) else c.Go?
  }

  /** A background growth appends only if its snapshot of the size still holds; a foreground growth
      does not look again. */
  predicate Appends(w: World, pc: Pc, c: Choice) {
    pc.Appending? && c.MapAt? && (pc.req.Background? ==> pc.snapshot == TotalSize(Grower(w)))
  }

  function PcAfter(w: World, id: Tid, pc: Pc, c: Choice): Pc {
    var mine := ProcOf(w, id.proc).chunks;
    match pc
    case Idle =>
      (match c
       case CallGrow(min) => WantGrow(min)
       case CallBackground => if w.growMtx == {} then Sizing(Background) else Idle
       case CallRead => Reading
       case CallDiscover(off) => Checking(off)
       case CallOpen(_) => Opening(1, w.count)
       case _ => Idle)
    case WantGrow(min) => Sizing(Foreground(min))
    case Sizing(req) =>
      if c.Free? && Declines(req, mine, c.bytes) then Idle
      else Truncating(req, NewChunkSize(req, mine), Rem(TotalSize(mine), WORD))
    case Truncating(req, size, snapshot) => if c.Fail? then Idle else Appending(req, size, snapshot)
    case Appending(_, _, _) =>
      if Appends(w, pc, c) && |mine| < MAX_SUB_SEGMENTS then WriteOffset(|mine|) else Idle
    case WriteOffset(idx) => WriteSize(idx)
    case WriteSize(idx) => WriteCount(idx)
    case WriteCount(_) => Idle
    case Reading => Idle
    case Checking(off) =>
      if off < TotalSize(mine) then Discovered(off, true) else Discovering(off, |mine|, w.count, false)
    case Discovering(off, i, count, found) =>
      if i < count then if c.Fail? then Idle else Discovering(off, i + 1, count, true)
      else Discovered(off, found && off < TotalSize(mine))
    case Discovered(_, _) => Idle
    case Opening(i, count) => if i < count && !c.Fail? then Opening(i + 1, count) else Idle
  }

  predicate HoldsGrow(pc: Pc) {
    pc.Sizing? || pc.Truncating? || pc.Appending? || pc.WriteOffset? || pc.WriteSize? || pc.WriteCount?
  }

  predicate HoldsList(pc: Pc) {
    || pc.WriteOffset? || pc.WriteSize? || pc.WriteCount? || pc.Reading?
    || pc.Checking? || pc.Discovering? || pc.Discovered? || pc.Opening?
  }

  /** Locks are taken and released with the program point. */
  function GrowMtxAfter(w: World, id: Tid, pc: Pc, pc': Pc): set<nat> {
    if HoldsGrow(pc') then {id.thread} else if HoldsGrow(pc) then {} else w.growMtx
  }

  function ListMtxAfter(w: World, id: Tid, pc: Pc, pc': Pc): map<nat, nat> {
    if HoldsList(pc') then w.listMtx[id.proc := id.thread]
    else if HoldsList(pc) then w.listMtx - {id.proc} else w.listMtx
  }

  /** The list of the stepping process: growing, opening and discovering append to it. */
  function ProcAfter(w: World, id: Tid, pc: Pc, c: Choice): Proc {
    var me := ProcOf(w, id.proc);
    match pc
    case Idle => if c.CallOpen? then Proc([EntryAt(w, 0)], [c.base]) else me
    case Appending(_, size, snapshot) => if Appends(w, pc, c) then WithChunk(me, Chunk(snapshot, size), c.base) else me
    case Discovering(_, i, count, _) =>
      if i < count && c.MapAt? then WithChunk(me, EntryAt(w, i), c.base) else me
    case Opening(i, count) => if i < count && c.MapAt? then WithChunk(me, EntryAt(w, i), c.base) else me
    case _ => me
  }

  function EntriesAfter(w: World, pc: Pc): seq<Chunk> {
    match pc
    case WriteOffset(idx) =>
      if idx < |w.entries| && idx < |Grower(w)|
      then w.entries[idx := w.entries[idx].(off := Grower(w)[idx].off)] else w.entries
    case WriteSize(idx) =>
      if idx < |w.entries| && idx < |Grower(w)|
      then w.entries[idx := w.entries[idx].(size := Grower(w)[idx].size)] else w.entries
    case _ => w.entries
  }

  /** One atomic step. */
  function Act(w: World, l: Label): World
    requires Enabled(w, l)
  {
    var id, c, pc := l.id, l.choice, PcOf(w, l.id);
    var pc' := PcAfter(w, id, pc, c);
    World(if pc.Truncating? && !c.Fail? then Rem(pc.snapshot + pc.size, WORD) else w.fileSize,
          EntriesAfter(w, pc),
          if pc.WriteCount? then pc.idx + 1 else w.count,
          if id.proc in w.procs || c.CallOpen? then w.procs[id.proc := ProcAfter(w, id, pc, c)] else w.procs,
          GrowMtxAfter(w, id, pc, pc'), ListMtxAfter(w, id, pc, pc'), w.pcs[id := pc'],
          if pc.Truncating? && !c.Fail? then !Wraps(pc.req, TotalSize(Grower(w))) else w.tame)
  }

  /** Just after the creator's constructor: one chunk of whole pages, published, nobody else there. */
  ghost predicate Init(w: World) {
    && w.pcs == map[] && w.growMtx == {} && w.listMtx == map[] && w.tame
    && |w.entries| == MAX_SUB_SEGMENTS && w.count == 1
    && w.entries[0].off == 0 && w.entries[0].size >= MIN_SEGMENT_SIZE && Rem(w.entries[0].size, PAGE_SIZE) == 0
    && w.procs.Keys == {0} && w.procs[0].chunks == [w.entries[0]] && Placed(w.procs[0])
    && w.fileSize == w.entries[0].size
  }

  ghost predicate StepsAt(run: seq<World>, labels: seq<Label>, i: nat) {
    i + 1 < |run| && i < |labels| && Enabled(run[i], labels[i]) && run[i + 1] == Act(run[i], labels[i])
  }

  ghost predicate IsRun(run: seq<World>, labels: seq<Label>) {
    && |run| == |labels| + 1 && Init(run[0])
    && forall i {:trigger StepsAt(run, labels, i)} :: 0 <= i < |labels| ==> StepsAt(run, labels, i)
  }
}
