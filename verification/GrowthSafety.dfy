/** What holds in every run of the growth and discovery protocol. */
module GrowthSafety {
  import opened DivMod
  import opened Platform
  import opened Chunks
  import opened Mappings
  import opened GrowthProtocol

  // ---- the invariant ----

  /** Every chunk in the grower's list is published, up to the table's capacity. */
  predicate Synced(w: World) {
    w.count == if |Grower(w)| <= MAX_SUB_SEGMENTS then |Grower(w)| else MAX_SUB_SEGMENTS
  }

  predicate GrowMine(w: World, id: Tid) {
    id.proc == 0 && w.growMtx == {id.thread}
  }

  predicate ListMine(w: World, id: Tid) {
    id.proc in w.procs && id.proc in w.listMtx && w.listMtx[id.proc] == id.thread
  }

  predicate RequestOk(r: Request) {
    r.Foreground? ==> r.min < WORD
  }

  /** Entry idx is being written: it is the grower's newest chunk and not yet counted. */
  predicate Publishing(w: World, idx: nat) {
    idx == w.count && idx + 1 == |Grower(w)| && idx < MAX_SUB_SEGMENTS == |w.entries|
  }

  ghost predicate PcOk(w: World, id: Tid, pc: Pc) {
    && (HoldsGrow(pc) ==> GrowMine(w, id))
    && (HoldsList(pc) ==> ListMine(w, id))
    && var mine := ProcOf(w, id.proc).chunks;
       match pc
       case Idle => true
       case WantGrow(min) => id.proc == 0 && RequestOk(Foreground(min))
       case Sizing(req) => RequestOk(req) && Synced(w)
       case Truncating(req, size, snapshot) =>
         && RequestOk(req) && Synced(w) && size == NewChunkSize(req, Grower(w))
         && snapshot == TotalSize(Grower(w)) && GoodSize(Grower(w), req, size)
       case Appending(req, size, snapshot) =>
         && RequestOk(req) && Synced(w)
         && snapshot == TotalSize(Grower(w)) && GoodSize(Grower(w), req, size)
       case WriteOffset(idx) => Publishing(w, idx)
       case WriteSize(idx) => Publishing(w, idx) && w.entries[idx].off == Grower(w)[idx].off
       case WriteCount(idx) => Publishing(w, idx) && w.entries[idx] == Grower(w)[idx]
       case Reading => true
       case Checking(_) => true
       case Discovering(off, i, count, found) =>
         && i == |mine| && (if id.proc == 0 then count <= i else count <= w.count)
         && (!found ==> off >= TotalSize(mine))
       case Discovered(off, result) => result <==> off < TotalSize(mine)
       case Opening(i, count) => id.proc != 0 && i == |mine| && count <= w.count
  }

  /** The grower's list: tiling chunks of whole pages that at least double. */
  ghost predicate GoodList(cs: seq<Chunk>) {
    && cs != [] && Tiles(cs) && Doubling(cs)
    && forall i :: 0 <= i < |cs| ==> Rem(cs[i].size, PAGE_SIZE) == 0
  }

  /** Table and grower agree on everything published. */
  ghost predicate TableOk(w: World) {
    && |w.entries| == MAX_SUB_SEGMENTS && 1 <= w.count <= MAX_SUB_SEGMENTS && w.count <= |Grower(w)|
    && w.entries[..w.count] == Grower(w)[..w.count]
  }

  /** An opener's list is a prefix of the published table. */
  ghost predicate OpenerOk(w: World, p: nat) {
    p in w.procs && p != 0 ==> 1 <= |w.procs[p].chunks| <= w.count && w.procs[p].chunks <= Published(w)
  }

  /** The grower's list and the table. */
  ghost predicate GrowerOk(w: World) {
    && 0 in w.procs && GoodList(Grower(w)) && TableOk(w)
    && (w.growMtx == {} ==> Synced(w))
  }

  ghost predicate Inv(w: World) {
    && GrowerOk(w)
    && (forall p {:trigger w.procs[p]} :: p in w.procs ==> Placed(w.procs[p]))
    && (forall p {:trigger OpenerOk(w, p)} :: OpenerOk(w, p))
    && (forall id {:trigger w.pcs[id]} :: id in w.pcs ==> PcOk(w, id, w.pcs[id]))
  }

  // ---- what a step leaves alone ----

  /** Only the holder of grow_mtx_ changes the grower's list, the table or the file. */
  ghost predicate GrowStateKept(w: World, w': World) {
    && Grower(w') == Grower(w) && w'.entries == w.entries && w'.count == w.count && w'.fileSize == w.fileSize
    && w'.tame == w.tame && (w.growMtx != {} ==> w'.growMtx == w.growMtx)
  }

  /** Only the holder of a process's list_mtx_ changes its list or releases the lock. */
  ghost predicate ListKept(w: World, w': World, p: nat) {
    && ProcOf(w', p) == ProcOf(w, p) && (p in w.procs ==> p in w'.procs)
    && (p in w.listMtx ==> p in w'.listMtx && w'.listMtx[p] == w.listMtx[p])
  }

  lemma OtherGrowth(w: World, l: Label)
    requires Enabled(w, l) && PcOk(w, l.id, PcOf(w, l.id)) && 0 in w.procs && !HoldsGrow(PcOf(w, l.id))
    ensures GrowStateKept(w, Act(w, l))
  {
  }

  lemma OtherList(w: World, l: Label, p: nat)
    requires Enabled(w, l) && PcOk(w, l.id, PcOf(w, l.id))
    requires l.id.proc != p || (p in w.listMtx && !HoldsList(PcOf(w, l.id)))
    ensures ListKept(w, Act(w, l), p)
  {
  }

  lemma OthersStayOk(w: World, l: Label, u: Tid)
    requires Inv(w) && Enabled(w, l) && u in w.pcs && u != l.id
    ensures PcOk(Act(w, l), u, w.pcs[u])
  {
    var w', pc := Act(w, l), w.pcs[u];
    assert PcOk(w, u, pc);
    OwnPcOk(w, l.id);
    if HoldsGrow(pc) {
      OtherGrowth(w, l);
    }
    if HoldsList(pc) {
      OtherList(w, l, u.proc);
    }
    CountGrows(w, l);
  }

  lemma OwnPcOk(w: World, id: Tid)
    requires Inv(w)
    ensures PcOk(w, id, PcOf(w, id))
  {
  }

  lemma CountGrows(w: World, l: Label)
    requires Enabled(w, l) && PcOk(w, l.id, PcOf(w, l.id))
    ensures Act(w, l).count >= w.count
  {
  }

  // ---- the grower, the table and the file ----

  lemma LastBelowTotal(cs: seq<Chunk>)
    requires cs != []
    ensures cs[|cs| - 1].size <= TotalSize(cs)
  {
  }

  /** The next chunk, if it can be mapped at all, keeps the list tiling and doubling. */
  lemma GoodListAppend(cs: seq<Chunk>, r: Request, c: Chunk)
    requires GoodList(cs) && c.off == TotalSize(cs) && c.size > 0 && GoodSize(cs, r, c.size)
    ensures GoodList(cs + [c]) && TotalSize(cs + [c]) == TotalSize(cs) + c.size
  {
    TilesAppend(cs, c);
  }

  lemma {:induction false} TotalWholePages(cs: seq<Chunk>, n: nat) returns (q: nat)
    requires n <= |cs| && forall i :: 0 <= i < |cs| ==> Rem(cs[i].size, PAGE_SIZE) == 0
    ensures TotalSize(cs[..n]) == q * PAGE_SIZE
  {
    if n == 0 {
      q := 0;
    } else {
      q := TotalWholePages(cs, n - 1);
      assert cs[..n][..n - 1] == cs[..n - 1];
      QuotRem(cs[n - 1].size, PAGE_SIZE);
      Distribute(q, Quot(cs[n - 1].size, PAGE_SIZE), PAGE_SIZE, 1);
      q := q + Quot(cs[n - 1].size, PAGE_SIZE);
    }
  }

  /** A rounded-up size carries whole pages past 2^64 as soon as the size itself comes within a page. */
  lemma RoundedReaches(v: nat, q: nat)
    requires v + PAGE_SIZE <= WORD
    ensures AlignUp(v) + q * PAGE_SIZE >= WORD <==> v + q * PAGE_SIZE + PAGE_SIZE > WORD
  {
    var n, w := Quot(AlignUp(v), PAGE_SIZE), Pow2(64 - PAGE_SHIFT);
    AlignUpRounds(v);
    QuotRem(AlignUp(v), PAGE_SIZE);
    WordIsWholePages();
    Distribute(n, q, PAGE_SIZE, 1);
    if n + q < w {
      MulMonotone(n + q + 1, w, PAGE_SIZE);
      Distribute(n + q, 1, PAGE_SIZE, 1);
    } else {
      MulMonotone(w, n + q, PAGE_SIZE);
    }
  }

  lemma ChunkReaches(cs: seq<Chunk>, r: Request)
    requires GoodList(cs) && TotalSize(cs) <= ADDRESS_SPACE && RequestOk(r)
    ensures TotalSize(cs) + NewChunkSize(r, cs) >= WORD <==> Wraps(r, TotalSize(cs))
  {
    var last := cs[|cs| - 1].size;
    var v := Max(if r.Foreground? then r.min else MIN_SEGMENT_SIZE, last * 2);
    LastBelowTotal(cs);
    PageSizeBound();
    Unique(last * 2, WORD, 0, last * 2);
    Unique(v, WORD, 0, v);
    AlignUpRounds(v);
    var q := TotalWholePages(cs, |cs|);
    assert cs[..|cs|] == cs;
    if v + PAGE_SIZE <= WORD {
      RoundedReaches(v, q);
    }
  }

  /** The new file size: the tiled size plus the next chunk, unless that wraps. */
  lemma ResizedTo(cs: seq<Chunk>, r: Request, n: nat)
    requires GoodList(cs) && TotalSize(cs) <= ADDRESS_SPACE && RequestOk(r) && n == NewChunkSize(r, cs) < WORD
    ensures Rem(TotalSize(cs) + n, WORD) == TotalSize(cs) + n - if Wraps(r, TotalSize(cs)) then WORD else 0
    ensures Wraps(r, TotalSize(cs)) ==> n > ADDRESS_SPACE
  {
    ChunkReaches(cs, r);
    WrapOnce(TotalSize(cs) + n);
  }

  /** A step that leaves the grower's list, the table and the locks' meaning alone. */
  lemma GrowerOkKept(w: World, w': World)
    requires GrowerOk(w) && 0 in w'.procs && Grower(w') == Grower(w) && w'.entries == w.entries && w'.count == w.count
    requires w'.growMtx == {} ==> Synced(w)
    ensures GrowerOk(w')
  {
  }

  lemma GrowerOkAppended(w: World, w': World, c: Chunk)
    requires GrowerOk(w) && 0 in w'.procs && w'.entries == w.entries && w'.count == w.count && Synced(w)
    requires Grower(w') == Grower(w) + [c] && GoodList(Grower(w) + [c])
    requires w'.growMtx == {} ==> |Grower(w)| >= MAX_SUB_SEGMENTS
    ensures GrowerOk(w')
  {
    assert Grower(w')[..w.count] == Grower(w)[..w.count];
  }

  /** The append, spelled out. A background growth's second look at the size always agrees with its
      first, so it appends whenever the mapping succeeds, exactly as a foreground growth does. */
  lemma AppendOutcome(w: World, l: Label)
    requires 0 in w.procs && Enabled(w, l) && PcOf(w, l.id).Appending? && PcOk(w, l.id, PcOf(w, l.id))
    ensures var w', pc, cs := Act(w, l), PcOf(w, l.id), Grower(w);
            && 0 in w'.procs && w'.entries == w.entries && w'.count == w.count
            && w'.fileSize == w.fileSize && w'.tame == w.tame
            && Grower(w') == (if l.choice.MapAt? then cs + [Chunk(TotalSize(cs), pc.size)] else cs)
            && (l.choice.MapAt? ==> 0 < pc.size <= ADDRESS_SPACE)
            && PcOf(w', l.id) == (if l.choice.MapAt? && |cs| < MAX_SUB_SEGMENTS then WriteOffset(|cs|) else Idle)
  {
  }

  lemma AppendKeepsGrower(w: World, l: Label)
    requires GrowerOk(w) && Placed(w.procs[0]) && Enabled(w, l) && PcOf(w, l.id).Appending?
    requires PcOk(w, l.id, PcOf(w, l.id))
    ensures GrowerOk(Act(w, l))
  {
    var w', pc, cs := Act(w, l), PcOf(w, l.id), Grower(w);
    AppendOutcome(w, l);
    if l.choice.MapAt? {
      GoodListAppend(cs, pc.req, Chunk(TotalSize(cs), pc.size));
      GrowerOkAppended(w, w', Chunk(TotalSize(cs), pc.size));
    } else {
      GrowerOkKept(w, w');
    }
  }

  lemma AppendPc(w: World, l: Label)
    requires GrowerOk(w) && Enabled(w, l) && PcOf(w, l.id).Appending? && PcOk(w, l.id, PcOf(w, l.id))
    ensures PcOk(Act(w, l), l.id, PcOf(Act(w, l), l.id))
  {
    AppendOutcome(w, l);
  }

  /** Writing an entry that is not counted yet changes nothing published. */
  lemma EntryWriteKeepsGrower(w: World, l: Label)
    requires GrowerOk(w) && Enabled(w, l) && PcOk(w, l.id, PcOf(w, l.id))
    requires PcOf(w, l.id).WriteOffset? || PcOf(w, l.id).WriteSize?
    ensures GrowerOk(Act(w, l)) && PcOk(Act(w, l), l.id, PcOf(Act(w, l), l.id))
  {
    var w' := Act(w, l);
    assert Grower(w') == Grower(w);
    assert w'.entries[..w.count] == w.entries[..w.count];
  }

  lemma PrefixExtends(a: seq<Chunk>, b: seq<Chunk>, n: nat)
    requires n < |a| && n < |b| && a[..n] == b[..n] && a[n] == b[n]
    ensures a[..n + 1] == b[..n + 1]
  {
    assert a[..n + 1] == a[..n] + [a[n]] && b[..n + 1] == b[..n] + [b[n]];
  }

  /** Raising the count publishes the entry written before. */
  lemma CountWriteKeepsGrower(w: World, l: Label)
    requires GrowerOk(w) && Enabled(w, l) && PcOk(w, l.id, PcOf(w, l.id)) && PcOf(w, l.id).WriteCount?
    ensures GrowerOk(Act(w, l)) && PcOk(Act(w, l), l.id, PcOf(Act(w, l), l.id))
  {
    var w', n := Act(w, l), w.count;
    assert Grower(w') == Grower(w) && w'.entries == w.entries && w'.count == n + 1;
    PrefixExtends(w.entries, Grower(w), n);
  }

  /** The first critical section: an exact snapshot of the size and a good size for the chunk. */
  lemma SizingStep(w: World, l: Label)
    requires GrowerOk(w) && Placed(w.procs[0]) && Enabled(w, l) && PcOk(w, l.id, PcOf(w, l.id)) && PcOf(w, l.id).Sizing?
    ensures GrowerOk(Act(w, l)) && PcOk(Act(w, l), l.id, PcOf(Act(w, l), l.id))
  {
    var pc, cs := PcOf(w, l.id), Grower(w);
    assert Rem(TotalSize(cs), WORD) == TotalSize(cs) && GoodSize(cs, pc.req, NewChunkSize(pc.req, cs)) by {
      TotalFits(w.procs[0]);
      LastBelowTotal(cs);
      NewChunkGrows(pc.req, cs);
      Unique(TotalSize(cs), WORD, 0, TotalSize(cs));
    }
    GrowerOkKept(w, Act(w, l));
  }

  lemma ResizeOutcome(w: World, l: Label)
    requires 0 in w.procs && Enabled(w, l) && PcOk(w, l.id, PcOf(w, l.id)) && PcOf(w, l.id).Truncating?
    ensures var w', pc := Act(w, l), PcOf(w, l.id);
            && 0 in w'.procs && Grower(w') == Grower(w) && w'.entries == w.entries && w'.count == w.count
            && Synced(w) && w'.tame == (if l.choice.Fail? then w.tame else !Wraps(pc.req, TotalSize(Grower(w))))
            && if l.choice.Fail? then w'.fileSize == w.fileSize && PcOf(w', l.id) == Idle
               else && w'.fileSize == Rem(TotalSize(Grower(w)) + pc.size, WORD)
                    && PcOf(w', l.id) == Appending(pc.req, pc.size, pc.snapshot) && GrowMine(w', l.id)
  {
  }

  lemma FileAfterResize(cs: seq<Chunk>, r: Request, n: nat, file: nat)
    requires GoodList(cs) && TotalSize(cs) <= ADDRESS_SPACE && RequestOk(r) && n == NewChunkSize(r, cs) < WORD
    requires file == Rem(TotalSize(cs) + n, WORD)
    ensures if Wraps(r, TotalSize(cs)) then file < TotalSize(cs) && n > ADDRESS_SPACE else file == TotalSize(cs) + n
  {
    ResizedTo(cs, r, n);
  }

  lemma ResizedValues(cs: seq<Chunk>, pc: Pc, file: nat)
    requires GoodList(cs) && TotalSize(cs) <= ADDRESS_SPACE && pc.Truncating? && RequestOk(pc.req)
    requires pc.size == NewChunkSize(pc.req, cs) < WORD && file == Rem(TotalSize(cs) + pc.size, WORD)
    ensures Resized(cs, pc, file)
  {
    FileAfterResize(cs, pc.req, pc.size, file);
  }

  /** The file covers the list and the next chunk, or falls short of the list; in that case the next chunk is too large
      to be mapped. */
  predicate Resized(cs: seq<Chunk>, pc: Pc, file: nat) {
    pc.Truncating? && if Wraps(pc.req, TotalSize(cs)) then file < TotalSize(cs) && pc.size > ADDRESS_SPACE
                      else file == TotalSize(cs) + pc.size
  }

  lemma ResizedFile(w: World, l: Label, w': World)
    requires GrowerOk(w) && Placed(w.procs[0]) && Enabled(w, l) && w' == Act(w, l)
    requires PcOk(w, l.id, PcOf(w, l.id)) && PcOf(w, l.id).Truncating? && l.choice.Go?
    ensures Resized(Grower(w), PcOf(w, l.id), w'.fileSize)
  {
    ResizeOutcome(w, l);
    TotalFits(w.procs[0]);
    ResizedValues(Grower(w), PcOf(w, l.id), w'.fileSize);
  }

  lemma ResizeStep(w: World, l: Label)
    requires GrowerOk(w) && Placed(w.procs[0]) && Enabled(w, l)
    requires PcOk(w, l.id, PcOf(w, l.id)) && PcOf(w, l.id).Truncating?
    ensures GrowerOk(Act(w, l)) && PcOk(Act(w, l), l.id, PcOf(Act(w, l), l.id))
  {
    ResizeOutcome(w, l);
    GrowerOkKept(w, Act(w, l));
  }

  lemma OtherStepKeepsGrower(w: World, l: Label)
    requires GrowerOk(w) && Enabled(w, l) && PcOk(w, l.id, PcOf(w, l.id)) && !HoldsGrow(PcOf(w, l.id))
    ensures GrowerOk(Act(w, l))
  {
    OtherGrowth(w, l);
    CountGrows(w, l);
  }

  // ---- the stepping process's list and the thread's program point ----

  lemma PublishedGrows(w: World, l: Label)
    requires GrowerOk(w) && Enabled(w, l) && GrowerOk(Act(w, l)) && PcOk(w, l.id, PcOf(w, l.id))
    ensures Published(w) <= Published(Act(w, l))
  {
    var w' := Act(w, l);
    CountGrows(w, l);
    assert forall i :: 0 <= i < w.count ==> w'.entries[i] == w.entries[i];
  }

  /** How a step changes the list of a process that does not grow. */
  lemma OpenerList(w: World, l: Label, p: nat)
    requires Enabled(w, l) && PcOk(w, l.id, PcOf(w, l.id)) && p != 0 && p in Act(w, l).procs
    ensures var pc, cs, cs' := PcOf(w, l.id), ProcOf(w, p).chunks, Act(w, l).procs[p].chunks;
            || (p in w.procs && cs' == cs)
            || cs' == [EntryAt(w, 0)]
            || (p in w.procs && |cs| < w.count && cs' == cs + [EntryAt(w, |cs|)])
  {
  }

  lemma PrefixStep(cs: seq<Chunk>, cs': seq<Chunk>, pub: seq<Chunk>, pub': seq<Chunk>)
    requires cs <= pub <= pub' && pub != []
    requires cs' == cs || cs' == [pub[0]] || (|cs| < |pub| && cs' == cs + [pub[|cs|]])
    ensures cs' <= pub'
  {
  }

  /** The chunk mapped next by an opener is the next published one. */
  lemma OpenerStep(w: World, l: Label, p: nat)
    requires GrowerOk(w) && Enabled(w, l) && GrowerOk(Act(w, l)) && PcOk(w, l.id, PcOf(w, l.id)) && OpenerOk(w, p)
    ensures OpenerOk(Act(w, l), p)
  {
    if p != 0 && p in Act(w, l).procs {
      PublishedGrows(w, l);
      OpenerList(w, l, p);
      PrefixStep(ProcOf(w, p).chunks, Act(w, l).procs[p].chunks, Published(w), Published(Act(w, l)));
    }
  }

  lemma PlacedStep(w: World, l: Label, p: nat)
    requires Enabled(w, l) && p in Act(w, l).procs && (p in w.procs ==> Placed(w.procs[p]))
    ensures Placed(Act(w, l).procs[p])
  {
    var pc := PcOf(w, l.id);
    var me := ProcOf(w, l.id.proc);
    if p == l.id.proc && (pc.Discovering? || pc.Opening?) && l.choice.MapAt? {
      PlacedAppend(me, EntryAt(w, pc.i), l.choice.base);
    } else if p == l.id.proc && Appends(w, pc, l.choice) {
      PlacedAppend(me, Chunk(pc.snapshot, pc.size), l.choice.base);
    } else if p == l.id.proc && pc.Idle? && l.choice.CallOpen? {
      PlacedAppend(Proc([], []), EntryAt(w, 0), l.choice.base);
    }
  }

  /** The new program point of a thread that calls, or waits for, grow or a read-only section. */
  lemma CallPcStep(w: World, l: Label)
    requires GrowerOk(w) && Enabled(w, l) && PcOk(w, l.id, PcOf(w, l.id)) && OpenerOk(w, l.id.proc)
    requires PcOf(w, l.id).Idle? || PcOf(w, l.id).WantGrow? || PcOf(w, l.id).Reading? || PcOf(w, l.id).Discovered?
    ensures PcOk(Act(w, l), l.id, PcOf(Act(w, l), l.id))
  {
    OtherGrowth(w, l);
  }

  /** The new program point of a thread that opens or discovers. */
  lemma CheckPcStep(w: World, l: Label)
    requires GrowerOk(w) && Enabled(w, l) && PcOk(w, l.id, PcOf(w, l.id)) && PcOf(w, l.id).Checking?
    ensures PcOk(Act(w, l), l.id, PcOf(Act(w, l), l.id))
  {
  }

  lemma MapPcStep(w: World, l: Label)
    requires GrowerOk(w) && Enabled(w, l) && PcOk(w, l.id, PcOf(w, l.id))
    requires PcOf(w, l.id).Discovering? || PcOf(w, l.id).Opening?
    ensures PcOk(Act(w, l), l.id, PcOf(Act(w, l), l.id))
  {
  }

  lemma GrowerAndPcStep(w: World, l: Label)
    requires Inv(w) && Enabled(w, l)
    ensures GrowerOk(Act(w, l)) && PcOk(Act(w, l), l.id, PcOf(Act(w, l), l.id))
  {
    var pc := PcOf(w, l.id);
    OwnPcOk(w, l.id);
    assert OpenerOk(w, l.id.proc);
    if pc.Appending? {
      AppendKeepsGrower(w, l);
      AppendPc(w, l);
    } else if pc.WriteOffset? || pc.WriteSize? {
      EntryWriteKeepsGrower(w, l);
    } else if pc.WriteCount? {
      CountWriteKeepsGrower(w, l);
    } else if pc.Sizing? {
      SizingStep(w, l);
    } else if pc.Truncating? {
      ResizeStep(w, l);
    } else {
      OtherStepKeepsGrower(w, l);
      if pc.Checking? {
        CheckPcStep(w, l);
      } else if pc.Discovering? || pc.Opening? {
        MapPcStep(w, l);
      } else {
        CallPcStep(w, l);
      }
    }
  }

  lemma StepKeepsInv(w: World, l: Label)
    requires Inv(w) && Enabled(w, l)
    ensures Inv(Act(w, l))
  {
    var w' := Act(w, l);
    OwnPcOk(w, l.id);
    GrowerAndPcStep(w, l);
    forall p | p in w'.procs ensures Placed(w'.procs[p]) {
      PlacedStep(w, l, p);
    }
    forall p ensures OpenerOk(w', p) {
      assert OpenerOk(w, p);
      OpenerStep(w, l, p);
    }
    forall u | u in w'.pcs ensures PcOk(w', u, w'.pcs[u]) {
      if u != l.id {
        OthersStayOk(w, l, u);
      }
    }
  }

  lemma InitHolds(w: World)
    requires Init(w)
    ensures Inv(w)
  {
    var cs := Grower(w);
    assert cs[..0] == [];
    assert cs[..1] == cs && w.entries[..1] == cs;
  }

  lemma NextKeepsInv(w: World, l: Label, w': World)
    requires Inv(w) && Enabled(w, l) && w' == Act(w, l)
    ensures Inv(w')
  {
    StepKeepsInv(w, l);
  }

  lemma {:induction false} RunKeepsInv(run: seq<World>, labels: seq<Label>, i: nat)
    requires IsRun(run, labels) && i < |run|
    ensures Inv(run[i])
  {
    if i == 0 {
      InitHolds(run[0]);
    } else {
      RunKeepsInv(run, labels, i - 1);
      assert StepsAt(run, labels, i - 1);
      NextKeepsInv(run[i - 1], labels[i - 1], run[i]);
    }
  }

  // ---- the file ----

  /** The chunk about to be mapped: the file covers it, or it is too large to be mapped. */
  predicate NextFits(w: World, size: nat) {
    if w.tame then w.fileSize >= TotalSize(Grower(w)) + size else size > ADDRESS_SPACE
  }

  ghost predicate NextFitsFor(w: World, id: Tid) {
    PcOf(w, id).Appending? ==> NextFits(w, PcOf(w, id).size)
  }

  ghost predicate FileOk(w: World) {
    && (w.tame <==> w.fileSize >= TotalSize(Grower(w)))
    && forall id {:trigger NextFitsFor(w, id)} :: NextFitsFor(w, id)
  }

  /** File and list agree, and the stepping thread's next chunk fits. */
  predicate FileFits(w: World, id: Tid) {
    && (w.tame <==> w.fileSize >= TotalSize(Grower(w)))
    && (PcOf(w, id).Appending? ==> NextFits(w, PcOf(w, id).size))
  }

  lemma ResizeFits(w: World, l: Label, w': World)
    requires GrowerOk(w) && Placed(w.procs[0]) && FileFits(w, l.id) && Enabled(w, l) && w' == Act(w, l)
    requires PcOk(w, l.id, PcOf(w, l.id)) && PcOf(w, l.id).Truncating?
    ensures FileFits(w', l.id)
  {
    ResizeOutcome(w, l);
    if l.choice.Go? {
      ResizedFile(w, l, w');
    }
  }

  lemma AppendFits(w: World, l: Label, w': World)
    requires GrowerOk(w) && FileFits(w, l.id) && Enabled(w, l) && w' == Act(w, l)
    requires PcOk(w, l.id, PcOf(w, l.id)) && PcOf(w, l.id).Appending?
    ensures FileFits(w', l.id)
  {
    AppendOutcome(w, l);
    if l.choice.MapAt? {
      TilesAppend(Grower(w), Chunk(TotalSize(Grower(w)), PcOf(w, l.id).size));
    }
  }

  /** What a step of the thread that holds grow_mtx_ does to the file. */
  lemma GrowerFileStep(w: World, l: Label, w': World)
    requires GrowerOk(w) && Placed(w.procs[0]) && FileFits(w, l.id) && Enabled(w, l) && w' == Act(w, l)
    requires PcOk(w, l.id, PcOf(w, l.id)) && HoldsGrow(PcOf(w, l.id))
    ensures FileFits(w', l.id)
  {
    if PcOf(w, l.id).Truncating? {
      ResizeFits(w, l, w');
    } else if PcOf(w, l.id).Appending? {
      AppendFits(w, l, w');
    } else {
      assert Grower(w') == Grower(w);
    }
  }

  /** No other thread is about to map a chunk while one holds grow_mtx_. */
  lemma OtherNextFits(w: World, l: Label, id: Tid)
    requires 0 in w.procs && Enabled(w, l) && PcOk(w, l.id, PcOf(w, l.id)) && PcOk(w, id, PcOf(w, id))
    requires id != l.id && NextFitsFor(w, id)
    ensures NextFitsFor(Act(w, l), id)
  {
    if PcOf(w, id).Appending? {
      OtherGrowth(w, l);
    }
  }

  /** A thread that does not hold grow_mtx_ leaves the file alone. */
  lemma OtherFileStep(w: World, l: Label, w': World)
    requires 0 in w.procs && Enabled(w, l) && PcOk(w, l.id, PcOf(w, l.id)) && !HoldsGrow(PcOf(w, l.id))
    requires FileFits(w, l.id) && w' == Act(w, l)
    ensures FileFits(w', l.id)
  {
    OtherGrowth(w, l);
  }

  lemma FileStep(w: World, l: Label, w': World)
    requires Inv(w) && FileOk(w) && Enabled(w, l) && w' == Act(w, l)
    ensures FileOk(w')
  {
    OwnPcOk(w, l.id);
    assert NextFitsFor(w, l.id);
    if HoldsGrow(PcOf(w, l.id)) {
      GrowerFileStep(w, l, w');
    } else {
      OtherFileStep(w, l, w');
    }
    forall id ensures NextFitsFor(w', id) {
      if id != l.id {
        assert NextFitsFor(w, id);
        OwnPcOk(w, id);
        OtherNextFits(w, l, id);
      }
    }
  }

  lemma {:induction false} RunKeepsFile(run: seq<World>, labels: seq<Label>, i: nat)
    requires IsRun(run, labels) && i < |run|
    ensures FileOk(run[i])
  {
    if i > 0 {
      RunKeepsFile(run, labels, i - 1);
      RunKeepsInv(run, labels, i - 1);
      assert StepsAt(run, labels, i - 1);
      FileStep(run[i - 1], labels[i - 1], run[i]);
    } else {
      assert Grower(run[0])[..0] == [];
    }
  }

  // ---- what it means for users ----

  /** In every state of every run the published chunks tile the file from offset 0, each opener's
      list is a prefix of them, and they are a prefix of the grower's own list. */
  lemma PublishedTiles(run: seq<World>, labels: seq<Label>, i: nat)
    requires IsRun(run, labels) && i < |run|
    ensures Tiles(Published(run[i])) && Tiles(Grower(run[i])) && Published(run[i]) <= Grower(run[i])
    ensures forall p :: p in run[i].procs && p != 0 ==> run[i].procs[p].chunks <= Published(run[i])
  {
    var w := run[i];
    RunKeepsInv(run, labels, i);
    TilesPrefix(Grower(w), w.count);
    forall p | p in w.procs && p != 0 ensures w.procs[p].chunks <= Published(w) {
      assert OpenerOk(w, p);
    }
  }

  lemma StepPublishes(w: World, l: Label)
    requires Inv(w) && Enabled(w, l)
    ensures Published(w) <= Published(Act(w, l))
  {
    StepKeepsInv(w, l);
    OwnPcOk(w, l.id);
    PublishedGrows(w, l);
  }

  lemma RunPublishes(run: seq<World>, labels: seq<Label>, j: nat)
    requires IsRun(run, labels) && j < |labels|
    ensures Published(run[j]) <= Published(run[j + 1])
  {
    RunKeepsInv(run, labels, j);
    assert StepsAt(run, labels, j);
    StepPublishes(run[j], labels[j]);
  }

  lemma PrefixTransitive(a: seq<Chunk>, b: seq<Chunk>, c: seq<Chunk>)
    requires a <= b <= c
    ensures a <= c
  {
  }

  /** Once published, a chunk stays where it is. */
  lemma {:induction false} PublishedForGood(run: seq<World>, labels: seq<Label>, i: nat, j: nat)
    requires IsRun(run, labels) && i <= j < |run|
    ensures Published(run[i]) <= Published(run[j])
  {
    if i < j {
      PublishedForGood(run, labels, i, j - 1);
      RunPublishes(run, labels, j - 1);
      PrefixTransitive(Published(run[i]), Published(run[j - 1]), Published(run[j]));
    }
  }

  /** The size a grower computed before resizing the file is still the exact size of the list when
      it comes back to append, whatever other threads did in between. */
  lemma SnapshotStaysExact(run: seq<World>, labels: seq<Label>, i: nat, id: Tid)
    requires IsRun(run, labels) && i < |run| && (PcOf(run[i], id).Truncating? || PcOf(run[i], id).Appending?)
    ensures PcOf(run[i], id).snapshot == TotalSize(Grower(run[i]))
  {
    RunKeepsInv(run, labels, i);
    OwnPcOk(run[i], id);
  }

  /** Chunks a process can see never overlap and never exceed the address space, so there are at
      most 28, and publishing never meets the table's limit. */
  lemma TableNeverFull(run: seq<World>, labels: seq<Label>, i: nat)
    requires IsRun(run, labels) && i < |run|
    ensures TotalSize(Grower(run[i])) >= MIN_SEGMENT_SIZE * (Pow2(|Grower(run[i])|) - 1)
    ensures run[i].count <= |Grower(run[i])| <= 28
  {
    var w := run[i];
    RunKeepsInv(run, labels, i);
    TotalFits(w.procs[0]);
    AtMost28(Grower(w));
    DoublingTotal(Grower(w), |Grower(w)|);
    assert Grower(w)[..|Grower(w)|] == Grower(w);
  }

  /** lazy_discover_growth answers true exactly when the offset is now covered by a mapped chunk. */
  lemma DiscoverExact(run: seq<World>, labels: seq<Label>, i: nat, id: Tid)
    requires IsRun(run, labels) && i < |run| && PcOf(run[i], id).Discovered?
    ensures var cs, pc := ProcOf(run[i], id.proc).chunks, PcOf(run[i], id);
            pc.result <==> exists k :: 0 <= k < |cs| && Inside(cs[k], pc.off)
  {
    var w := run[i];
    var cs, pc := ProcOf(w, id.proc).chunks, PcOf(w, id);
    RunKeepsInv(run, labels, i);
    OwnPcOk(w, id);
    ListTiles(w, id.proc);
    if pc.result {
      var k := TilesCover(cs, pc.off);
    }
    if k :| 0 <= k < |cs| && Inside(cs[k], pc.off) {
      InsideBelowTotal(cs, k, pc.off);
    }
  }

  lemma ListTiles(w: World, p: nat)
    requires Inv(w)
    ensures Tiles(ProcOf(w, p).chunks) && Placed(ProcOf(w, p))
    ensures p in w.procs && p != 0 ==> w.procs[p].chunks <= Published(w)
  {
    if p in w.procs && p != 0 {
      assert OpenerOk(w, p);
      TilesPrefix(Grower(w), |w.procs[p].chunks|);
      assert w.procs[p].chunks == Grower(w)[..|w.procs[p].chunks|];
    }
  }

  /** The file covers chunk k of process p. */
  predicate Covered(w: World, p: nat, k: nat) {
    p in w.procs && k < |w.procs[p].chunks| ==> w.procs[p].chunks[k].off + w.procs[p].chunks[k].size <= w.fileSize
  }

  lemma CoveredWhenTame(w: World, p: nat, k: nat)
    requires Inv(w) && FileOk(w) && w.tame
    ensures Covered(w, p, k)
  {
    if p in w.procs && k < |w.procs[p].chunks| {
      var cs := Grower(w);
      assert OpenerOk(w, p);
      assert k < |cs| && w.procs[p].chunks[k] == cs[k];
      TotalMonotone(cs, k, |cs|);
      assert cs[..|cs|] == cs;
    }
  }

  /** A file shorter than the tiling does not cover its last chunk. */
  lemma LastUncovered(w: World)
    requires GrowerOk(w) && w.fileSize < TotalSize(Grower(w))
    ensures !Covered(w, 0, |Grower(w)| - 1)
  {
    var cs := Grower(w);
    assert cs[..|cs| - 1] + [cs[|cs| - 1]] == cs;
  }

  /** In every state of every run the file covers every chunk any process has mapped, also after mappings
      failed half way, exactly when the last successful resize was not for a request that wraps. */
  lemma FileCoversMappings(run: seq<World>, labels: seq<Label>, i: nat)
    requires IsRun(run, labels) && i < |run|
    ensures (forall p, k {:trigger Covered(run[i], p, k)} :: Covered(run[i], p, k)) <==> run[i].tame
    ensures run[i].fileSize >= TotalSize(Grower(run[i])) <==> run[i].tame
  {
    var w := run[i];
    RunKeepsInv(run, labels, i);
    RunKeepsFile(run, labels, i);
    if w.tame {
      forall p, k ensures Covered(w, p, k) {
        CoveredWhenTame(w, p, k);
      }
    } else {
      LastUncovered(w);
      assert !Covered(w, 0, |Grower(w)| - 1);
    }
  }

  /** In every run, when a growth comes back to append, it appends one chunk of the size it computed at
      the end of the tiling, exactly if the mapping succeeds. A background growth looks at the size a second
      time and declines if it changed; it never has. */
  lemma AppendsWhenMapped(run: seq<World>, labels: seq<Label>, i: nat)
    requires IsRun(run, labels) && i < |labels| && PcOf(run[i], labels[i].id).Appending?
    ensures var cs, pc := Grower(run[i]), PcOf(run[i], labels[i].id);
            Grower(run[i + 1]) == if labels[i].choice.MapAt? then cs + [Chunk(TotalSize(cs), pc.size)] else cs
    ensures labels[i].choice.MapAt? ==> PcOf(run[i + 1], labels[i].id) == WriteOffset(|Grower(run[i])|)
  {
    assert StepsAt(run, labels, i);
    RunKeepsInv(run, labels, i);
    OwnPcOk(run[i], labels[i].id);
    AppendOutcome(run[i], labels[i]);
    TableNeverFull(run, labels, i);
  }

  // ---- requests that wrap the file size ----

  /** In every run, a successful resize leaves the file smaller than the chunks in use exactly when the
      request wraps. The background worker's never does. */
  lemma ResizeShrinksIff(run: seq<World>, labels: seq<Label>, i: nat)
    requires IsRun(run, labels) && i < |labels| && PcOf(run[i], labels[i].id).Truncating? && labels[i].choice.Go?
    ensures run[i + 1].fileSize < TotalSize(Grower(run[i + 1]))
       <==> Wraps(PcOf(run[i], labels[i].id).req, TotalSize(Grower(run[i])))
    ensures var req, cs := PcOf(run[i], labels[i].id).req, Grower(run[i]);
            !Wraps(req, TotalSize(cs)) ==> run[i + 1].fileSize == TotalSize(cs) + NewChunkSize(req, cs)
  {
    assert StepsAt(run, labels, i);
    RunKeepsInv(run, labels, i);
    OwnPcOk(run[i], labels[i].id);
    ResizedFile(run[i], labels[i], run[i + 1]);
    ResizeOutcome(run[i], labels[i]);
  }

  lemma Extend(run: seq<World>, labels: seq<Label>, l: Label) returns (run': seq<World>, labels': seq<Label>)
    requires IsRun(run, labels) && Enabled(run[|run| - 1], l)
    ensures IsRun(run', labels') && run'[|run'| - 1] == Act(run[|run| - 1], l)
    ensures run' == run + [Act(run[|run| - 1], l)] && labels' == labels + [l]
  {
    run', labels' := run + [Act(run[|run| - 1], l)], labels + [l];
    forall i: nat | i < |labels'| ensures StepsAt(run', labels', i) {
      assert i < |labels| ==> StepsAt(run, labels, i);
    }
  }

  /** A first call of grow gets the lock. */
  lemma GrowToSizing(w: World, id: Tid, min: nat) returns (run: seq<World>, labels: seq<Label>)
    requires Init(w) && id.proc == 0 && min < WORD
    ensures IsRun(run, labels) && run[0] == w && |run| == 3
    ensures PcOf(run[2], id) == Sizing(Foreground(min)) && Grower(run[2]) == Grower(w) && ListFree(run[2], 0)
  {
    run, labels := [w], [];
    run, labels := Extend(run, labels, Label(id, CallGrow(min)));
    run, labels := Extend(run, labels, Label(id, Go));
  }

  /** With no byte free it reaches the resize with an exact snapshot. */
  lemma GrowToResize(w: World, id: Tid, min: nat) returns (run: seq<World>, labels: seq<Label>)
    requires Init(w) && id.proc == 0 && 0 < min < WORD
    ensures IsRun(run, labels) && run[0] == w && |run| == 4
    ensures PcOf(run[3], id)
         == Truncating(Foreground(min), NewChunkSize(Foreground(min), Grower(w)), TotalSize(Grower(w)))
    ensures Grower(run[3]) == Grower(w)
  {
    run, labels := GrowToSizing(w, id, min);
    run, labels := Extend(run, labels, Label(id, Free(0)));
    TotalFits(w.procs[0]);
    WrapOnce(TotalSize(Grower(w)));
  }

  /** It does happen, at once after creation and whatever the initial size: grow(2^64 - page size) takes the
      last page of the only chunk out of the file. */
  lemma FileCanShrink(w: World, t: nat, huge: nat) returns (run: seq<World>, labels: seq<Label>)
    requires Init(w) && huge + PAGE_SIZE == WORD
    ensures IsRun(run, labels) && run[0] == w
    ensures run[|run| - 1].fileSize == TotalSize(Grower(run[|run| - 1])) - PAGE_SIZE
  {
    var id := Tid(0, t);
    PageSizeBound();
    run, labels := GrowToResize(w, id, huge);
    run, labels := Extend(run, labels, Label(id, Go));
    assert Grower(run[4]) == Grower(w);
    InitHolds(w);
    TotalFits(w.procs[0]);
    HugeRequestShrinksFile(Grower(w), huge);
  }
}
