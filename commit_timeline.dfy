/**
 * The commit timeline of a surface (src/ifs/wl_surface/commit_timeline.rs).
 *
 * Every surface owns a timeline: a FIFO of entries that could not be applied
 * at commit time.  Timelines are numbered; surface `s` owns timeline `s`.
 * A commit entry waits on counters (sync-obj points, shm uploads, implicit
 * dmabuf polls), on the fifo barrier and on a commit time.  Wait and Signal
 * entries order a sub-surface's commits after those of the timeline it
 * previously followed.  All timelines share one depth counter that equals
 * the number of queued entries.
 *
 * The linked list of the source is a `seq<Entry>` per timeline; node
 * identity is the entry's key (commit id or wait id), which never changes
 * while the entry's counters do.
 */
module CommitTimeline {
  import opened Wrappers
  import opened MachineInt

  const MAX_TIMELINE_DEPTH: nat := 256

  // ---------------------------------------------------------------------
  // Commit data collected from a pending state tree
  // ---------------------------------------------------------------------

  datatype BufferKind = ShmBuffer | DmabufBuffer(planes: nat) | OtherBuffer

  /** A pending state with the pending states of its sub-surfaces. */
  datatype PendingTree = PendingTree(
    surface: nat,
    buffer: Option<Option<BufferKind>>,
    explicitSync: bool,
    hasAcquirePoint: bool,
    commitTime: Option<nat>,
    subsurfaces: seq<PendingTree>)

  /** What `CommitDataCollector` gathers: numbers of points, shm buffers and
    * implicit dmabuf fds, and the largest commit time (0 when none). */
  datatype Collected = Collected(acquirePoints: nat, shmUploads: nat, implicitDmabufs: nat, commitTime: nat)

  const NothingCollected := Collected(0, 0, 0, 0)

  function Add(a: Collected, b: Collected): Collected {
    Collected(a.acquirePoints + b.acquirePoints, a.shmUploads + b.shmUploads,
              a.implicitDmabufs + b.implicitDmabufs, Max(a.commitTime, b.commitTime))
  }

  /** What one pending state contributes on its own. */
  function NodeData(p: PendingTree): Collected {
    var shm := if p.buffer == Some(Some(ShmBuffer)) then 1 else 0;
    var fds := if !p.explicitSync && p.buffer.Some? && p.buffer.value.Some? && p.buffer.value.value.DmabufBuffer?
               then p.buffer.value.value.planes else 0;
    Collected(if p.hasAcquirePoint then 1 else 0, shm, fds, p.commitTime.GetOr(0))
  }

  /** The pending states of a tree in visiting order. */
  function Flatten(p: PendingTree): seq<PendingTree>
    decreases p, 1
  {
    [p] + FlattenAll(p.subsurfaces)
  }

  function FlattenAll(ps: seq<PendingTree>): seq<PendingTree>
    decreases ps, 0
  {
    if |ps| == 0 then [] else Flatten(ps[0]) + FlattenAll(ps[1..])
  }

  /** Reference definition: the collected data of a flat list of states. */
  function Summarize(nodes: seq<PendingTree>): Collected {
    if |nodes| == 0 then NothingCollected else Add(NodeData(nodes[0]), Summarize(nodes[1..]))
  }

  lemma {:induction false} SummarizeAppend(a: seq<PendingTree>, b: seq<PendingTree>)
    ensures Summarize(a + b) == Add(Summarize(a), Summarize(b))
  {
    if |a| == 0 {
      assert a + b == b;
    } else {
      assert (a + b)[1..] == a[1..] + b;
      SummarizeAppend(a[1..], b);
    }
  }

  /** `CommitDataCollector::collect`: the recursive walk over the pending
    * tree gathers exactly the data of its flattened list of states. */
  function Collect(acc: Collected, p: PendingTree): (r: Collected)
    ensures r == Add(acc, Summarize(Flatten(p)))
    decreases p, 1
  {
    var here := Add(acc, NodeData(p));
    SummarizeAppend([p], FlattenAll(p.subsurfaces));
    CollectAll(here, p.subsurfaces)
  }

  function CollectAll(acc: Collected, ps: seq<PendingTree>): (r: Collected)
    ensures r == Add(acc, Summarize(FlattenAll(ps)))
    decreases ps, 0
  {
    if |ps| == 0 then acc
    else
      SummarizeAppend(Flatten(ps[0]), FlattenAll(ps[1..]));
      CollectAll(Collect(acc, ps[0]), ps[1..])
  }

  /** The commit time is the maximum over all states of the tree. */
  lemma {:induction false} SummarizeTimeIsMax(nodes: seq<PendingTree>)
    ensures forall k :: 0 <= k < |nodes| && nodes[k].commitTime.Some? ==> nodes[k].commitTime.value <= Summarize(nodes).commitTime
    ensures Summarize(nodes).commitTime == 0 || exists k :: 0 <= k < |nodes| && nodes[k].commitTime == Some(Summarize(nodes).commitTime)
  {
    if |nodes| > 0 {
      SummarizeTimeIsMax(nodes[1..]);
      var rest := Summarize(nodes[1..]);
      if rest.commitTime != 0 && rest.commitTime > nodes[0].commitTime.GetOr(0) {
        var k :| 0 <= k < |nodes[1..]| && nodes[1..][k].commitTime == Some(rest.commitTime);
        assert nodes[k + 1].commitTime == Some(Summarize(nodes).commitTime);
      }
      forall k | 0 <= k < |nodes| && nodes[k].commitTime.Some?
        ensures nodes[k].commitTime.value <= Summarize(nodes).commitTime
      {
        if k > 0 { assert nodes[k] == nodes[1..][k - 1]; }
      }
    }
  }

  /** States with explicit sync never contribute implicit dmabuf fds;  a
    * non-explicit dmabuf contributes one fd per plane. */
  lemma {:induction false} ExplicitSyncHasNoImplicitFds(nodes: seq<PendingTree>)
    requires forall k :: 0 <= k < |nodes| ==> nodes[k].explicitSync
    ensures Summarize(nodes).implicitDmabufs == 0
  {
    if |nodes| > 0 {
      assert forall k :: 0 <= k < |nodes[1..]| ==> nodes[1..][k] == nodes[k + 1];
      ExplicitSyncHasNoImplicitFds(nodes[1..]);
    }
  }

  /** Only shm buffers are counted as uploads. */
  lemma {:induction false} NoShmNoUploads(nodes: seq<PendingTree>)
    requires forall k :: 0 <= k < |nodes| ==> nodes[k].buffer != Some(Some(ShmBuffer))
    ensures Summarize(nodes).shmUploads == 0
  {
    if |nodes| > 0 {
      assert forall k :: 0 <= k < |nodes[1..]| ==> nodes[1..][k] == nodes[k + 1];
      NoShmNoUploads(nodes[1..]);
    }
  }

  lemma CollectedFromNothing(p: PendingTree)
    ensures Collect(NothingCollected, p) == Summarize(Flatten(p))
  {
  }

  // ---------------------------------------------------------------------
  // Commit times
  // ---------------------------------------------------------------------

  /** The output margins a commit time is measured against. */
  datatype Margins = Margins(renderMargin: nat, flipMargin: Option<nat>, refresh: nat) {
    ghost predicate Valid() {
      IsU64(renderMargin) && IsU64(refresh) && (flipMargin.Some? ==> IsU64(flipMargin.value))
    }
  }

  /** `register_commit_time`: the instant at which a commit with the
    * given desired presentation time must be released. */
  function CommitTimeout(time: nat, m: Margins): (r: nat)
    requires IsU64(time) && m.Valid()
    ensures r <= time
    ensures var margin := Min(m.renderMargin + m.flipMargin.GetOr(0), m.refresh);
            r == if margin <= time then time - margin else 0
  {
    var presentMargin := Min(SatAddU64(m.renderMargin, m.flipMargin.GetOr(0)), m.refresh);
    SatSub(time, presentMargin)
  }

  datatype TimesState = TimesReady | TimesQueued(time: nat) | TimesRegistered

  function RegisterCommitTime(time: nat, m: Margins, now: nat): (r: TimesState)
    requires IsU64(time) && m.Valid()
    ensures r.TimesReady? || r.TimesRegistered?
  {
    if CommitTimeout(time, m) <= now then TimesReady else TimesRegistered
  }

  /** A commit time is ready at `now` exactly when `now` plus the present
    * margin (render plus flip margin, at most one refresh) reaches it. */
  lemma CommitTimeReadyIff(time: nat, m: Margins, now: nat)
    requires IsU64(time) && m.Valid()
    ensures RegisterCommitTime(time, m, now).TimesReady? <==>
            time <= now + Min(m.renderMargin + m.flipMargin.GetOr(0), m.refresh)
  {
  }

  // ---------------------------------------------------------------------
  // Entries
  // ---------------------------------------------------------------------

  datatype FifoState = FifoQueued | FifoRegistered | Mailbox
  datatype UploadState = NoUpload | UploadTodo | UploadScheduled

  /** A queued commit and its dependency counters.  `uploadsStarted` is the
    * number of shm uploads the renderer starts once the commit reaches the
    * head (the Vulkan upload path itself is not part of this model). */
  datatype Commit = Commit(
    id: nat,
    syncObj: nat,
    pendingUploads: nat,
    upload: UploadState,
    uploadsStarted: nat,
    polls: nat,
    fifo: FifoState,
    times: TimesState,
    serial: Option<nat>,
    setsFifoBarrier: bool)

  datatype Entry =
    | CommitEntry(c: Commit)
    | Wait(wid: nat, signalled: bool)
    | Signal(target: nat, swid: nat)

  /** The identity of an entry, unaffected by counter and flag updates. */
  datatype Key = CommitKey(id: nat) | WaitKey(wid: nat) | SignalKey(target: nat, wid: nat)

  function KeyOf(e: Entry): Key {
    match e
    case CommitEntry(c) => CommitKey(c.id)
    case Wait(w, _) => WaitKey(w)
    case Signal(t, w) => SignalKey(t, w)
  }

  function Keys(s: seq<Entry>): seq<Key>
  {
    seq(|s|, k requires 0 <= k < |s| => KeyOf(s[k]))
  }

  /** The commit ids among a sequence of keys, in order. */
  function CommitIds(ks: seq<Key>): seq<nat> {
    if |ks| == 0 then []
    else (if ks[0].CommitKey? then [ks[0].id] else []) + CommitIds(ks[1..])
  }

  lemma {:induction false} CommitIdsAppend(a: seq<Key>, b: seq<Key>)
    ensures CommitIds(a + b) == CommitIds(a) + CommitIds(b)
  {
    if |a| == 0 {
      assert a + b == b;
    } else {
      assert (a + b)[1..] == a[1..] + b;
      CommitIdsAppend(a[1..], b);
    }
  }

  /** `b` is what remains of `a` after removing entries from its front. */
  ghost predicate Drained(a: seq<Key>, b: seq<Key>) {
    |b| <= |a| && b == a[|a| - |b|..]
  }

  function Removed(a: seq<Key>, b: seq<Key>): seq<Key>
    requires |b| <= |a|
  {
    a[..|a| - |b|]
  }

  lemma DrainCompose(a: seq<Key>, b: seq<Key>, c: seq<Key>)
    requires Drained(a, b) && Drained(b, c)
    ensures Drained(a, c)
    ensures Removed(a, c) == Removed(a, b) + Removed(b, c)
    ensures CommitIds(Removed(a, c)) == CommitIds(Removed(a, b)) + CommitIds(Removed(b, c))
  {
    assert a[..|a| - |c|] == a[..|a| - |b|] + b[..|b| - |c|];
    CommitIdsAppend(Removed(a, b), Removed(b, c));
  }

  lemma DrainPop(a: seq<Key>, b: seq<Key>)
    requires Drained(a, b) && |b| > 0
    ensures Drained(a, b[1..])
    ensures CommitIds(Removed(a, b[1..])) == CommitIds(Removed(a, b)) + (if b[0].CommitKey? then [b[0].id] else [])
  {
    assert Removed(a, b[1..]) == Removed(a, b) + [b[0]];
    CommitIdsAppend(Removed(a, b), [b[0]]);
  }

  /** Removing from the front takes the commit ids from the front. */
  lemma {:induction false} CommitIdsPrefix(a: seq<Key>, n: nat)
    requires n <= |a|
    ensures CommitIds(a[..n]) <= CommitIds(a)
  {
    assert a == a[..n] + a[n..];
    CommitIdsAppend(a[..n], a[n..]);
  }

  /** One applied commit: the surface and the commit id. */
  datatype Applied = Applied(surface: nat, id: nat)

  /** The ids of the commits applied to surface `y`, in application order. */
  function AppliedOn(log: seq<Applied>, y: nat): seq<nat> {
    if |log| == 0 then []
    else AppliedOn(log[..|log| - 1], y) + (if log[|log| - 1].surface == y then [log[|log| - 1].id] else [])
  }

  lemma AppliedOnSnoc(log: seq<Applied>, a: Applied, y: nat)
    ensures AppliedOn(log + [a], y) == AppliedOn(log, y) + (if a.surface == y then [a.id] else [])
  {
    assert (log + [a])[..|log|] == log;
  }

  /** Number of entries over all timelines. */
  function TotalEntries(l: seq<seq<Entry>>): nat {
    if |l| == 0 then 0 else TotalEntries(l[..|l| - 1]) + |l[|l| - 1]|
  }

  /** A Wait that has not been signalled yet. */
  predicate Pending(e: Entry) {
    e.Wait? && !e.signalled
  }

  function UnsignalledIn(s: seq<Entry>): nat {
    if |s| == 0 then 0 else (if Pending(s[0]) then 1 else 0) + UnsignalledIn(s[1..])
  }

  /** Number of waits not yet signalled, over all timelines. */
  function Unsignalled(l: seq<seq<Entry>>): nat {
    if |l| == 0 then 0 else Unsignalled(l[..|l| - 1]) + UnsignalledIn(l[|l| - 1])
  }

  lemma {:induction false} TotalUpdate(l: seq<seq<Entry>>, i: nat, s: seq<Entry>)
    requires i < |l|
    ensures TotalEntries(l[i := s]) + |l[i]| == TotalEntries(l) + |s|
    ensures Unsignalled(l[i := s]) + UnsignalledIn(l[i]) == Unsignalled(l) + UnsignalledIn(s)
    decreases |l|
  {
    var n := |l| - 1;
    if i < n {
      assert l[i := s][..n] == l[..n][i := s];
      TotalUpdate(l[..n], i, s);
    } else {
      assert l[i := s][..n] == l[..n];
    }
  }

  lemma {:induction false} UnsignalledPop(s: seq<Entry>)
    requires |s| > 0
    ensures UnsignalledIn(s[1..]) <= UnsignalledIn(s)
    ensures !s[0].Wait? ==> UnsignalledIn(s[1..]) == UnsignalledIn(s)
  {
  }

  lemma {:induction false} UnsignalledSet(s: seq<Entry>, k: nat, e: Entry)
    requires k < |s|
    ensures UnsignalledIn(s[k := e]) + (if Pending(s[k]) then 1 else 0)
         == UnsignalledIn(s) + (if Pending(e) then 1 else 0)
  {
    if k > 0 {
      assert s[k := e][1..] == s[1..][k - 1 := e];
      UnsignalledSet(s[1..], k - 1, e);
    }
  }

  /** Keys record every Signal's target timeline; a Signal never targets its
    * own timeline. */
  ghost predicate SignalsOk(i: nat, n: nat, ks: seq<Key>) {
    forall k :: 0 <= k < |ks| && ks[k].SignalKey? ==> ks[k].target < n && ks[k].target != i
  }

  /** The head entry of a timeline is a Wait. */
  predicate HeadIsWait(ks: seq<Key>) {
    |ks| > 0 && ks[0].WaitKey?
  }

  /** Lexicographic order on (total entries, unsignalled waits). */
  ghost predicate LexLe(t: nat, u: nat, t0: nat, u0: nat) {
    t < t0 || (t == t0 && u <= u0)
  }

  function FindKey(s: seq<Entry>, key: Key): (k: nat)
    ensures k <= |s|
    ensures k < |s| ==> KeyOf(s[k]) == key
    ensures forall j :: 0 <= j < k ==> KeyOf(s[j]) != key
  {
    if |s| == 0 then 0
    else if KeyOf(s[0]) == key then 0
    else 1 + FindKey(s[1..], key)
  }

  // ---------------------------------------------------------------------
  // maybe_apply for a commit at the head of its timeline
  // ---------------------------------------------------------------------

  /** The surface serial window of `serial_is_unblocked`. */
  predicate SerialBlocked(serial: nat, unblocked: nat, scheduled: nat) {
    unblocked < serial <= scheduled
  }

  /** The outcome of examining a commit at the head of its timeline: whether
    * it is applied, its updated counters, and which waiter it registered. */
  datatype Step = Step(apply: bool, c: Commit, fifoWaiter: bool, timeWaiter: Option<nat>, treeBlocked: bool)

  function MaybeApplyCommit(c: Commit, barrierSet: bool, m: Margins, now: nat, unblocked: nat, scheduled: nat): (r: Step)
    requires m.Valid() && (c.times.TimesQueued? ==> IsU64(c.times.time))
    ensures r.c.id == c.id && r.c.serial == c.serial && r.c.setsFifoBarrier == c.setsFifoBarrier
    ensures r.c.syncObj == c.syncObj && r.c.polls == c.polls
    // outstanding dependencies keep the commit queued
    ensures c.syncObj > 0 || c.polls > 0 || (barrierSet && !c.fifo.Mailbox?) || c.times.TimesRegistered? ==> !r.apply
    ensures c.pendingUploads > 0 && c.upload != UploadTodo ==> !r.apply
    ensures r.apply ==> r.c.pendingUploads == 0 && r.c.times.TimesReady? &&
                        (c.serial.Some? ==> !SerialBlocked(c.serial.value, unblocked, scheduled))
    // a commit without dependencies is applied
    ensures (c.syncObj == 0 && c.pendingUploads == 0 && c.polls == 0 && (barrierSet ==> c.fifo.Mailbox?) &&
             c.times.TimesReady? && (c.serial.Some? ==> !SerialBlocked(c.serial.value, unblocked, scheduled)))
            ==> r.apply
    // a queued fifo wait is registered exactly once, on a set barrier
    ensures r.fifoWaiter <==> barrierSet && c.fifo.FifoQueued?
    ensures r.fifoWaiter ==> r.c.fifo.FifoRegistered?
    ensures r.timeWaiter.Some? <==> r.c.times.TimesRegistered? && c.times.TimesQueued?
    ensures r.treeBlocked ==> !r.apply
    ensures !r.c.times.TimesQueued?
  {
    var c1 := if c.pendingUploads > 0 && c.upload == UploadTodo
              then c.(pendingUploads := c.uploadsStarted, upload := UploadScheduled) else c;
    var unmet := c1.syncObj > 0 || c1.pendingUploads > 0 || c1.polls > 0;
    var regFifo := barrierSet && c1.fifo.FifoQueued?;
    var c2 := if regFifo then c1.(fifo := FifoRegistered) else c1;
    var unmetFifo := barrierSet && !c1.fifo.Mailbox?;
    var times := if c2.times.TimesQueued? then RegisterCommitTime(c2.times.time, m, now) else c2.times;
    var timeWaiter := if c2.times.TimesQueued? && times.TimesRegistered? then Some(c2.times.time) else None;
    var c3 := c2.(times := times);
    if unmet || unmetFifo || times.TimesRegistered? then Step(false, c3, regFifo, timeWaiter, false)
    else if c3.serial.Some? && SerialBlocked(c3.serial.value, unblocked, scheduled) then Step(false, c3, regFifo, timeWaiter, true)
    else Step(true, c3, regFifo, timeWaiter, false)
  }

  /** Whether `commit` must queue rather than apply immediately. */
  function MustBeQueued(d: Collected, ownEmpty: bool, fifoBarrierWait: bool, barrierSet: bool, serial: Option<nat>,
                        unblocked: nat, scheduled: nat): (r: bool)
    ensures !r <==> d.acquirePoints == 0 && d.shmUploads == 0 && d.implicitDmabufs == 0 && d.commitTime == 0 &&
                    ownEmpty && !(fifoBarrierWait && barrierSet) &&
                    (serial.Some? ==> !SerialBlocked(serial.value, unblocked, scheduled))
  {
    var hasDependencies := d.acquirePoints > 0 || d.shmUploads > 0 || d.implicitDmabufs > 0 || d.commitTime > 0;
    var queued := hasDependencies || !ownEmpty || (fifoBarrierWait && barrierSet);
    if !queued && serial.Some? then SerialBlocked(serial.value, unblocked, scheduled) else queued
  }

  datatype TimelineError = Depth

  /** A completed dependency of a queued commit. `LatchDone` is the commit
    * time reached through `before_latch` rather than the timeout. */
  datatype Dependency = SyncObjDone | UploadDone | PollDone | TimeoutDone | LatchDone
  datatype TimeWaiter = TimeWaiter(id: nat, present: nat)
  datatype BeforeLatchResult = LatchNone | LatchYield

  /** A request to flush a timeline from the entry with the given key. */
  datatype FlushRequest = FlushRequest(timeline: nat, key: Key)

  /** The pending state handed to `commit`: the pending tree plus the fields
    * of the root state that the timeline looks at. */
  datatype PendingCommit = PendingCommit(
    tree: PendingTree,
    fifoBarrierWait: bool,
    fifoBarrierSet: bool,
    serial: Option<nat>,
    uploadsStarted: nat,
    setsFifoBarrier: bool)

  /** The queued commit built by `commit` from the collected data: one
    * sync-obj wait per acquire point, one poll per implicit dmabuf plane,
    * an upload to start when there are shm buffers, a fifo wait when the
    * commit waits on the barrier, and a commit time when one was given. */
  function NewCommit(id: nat, d: Collected, pc: PendingCommit): (c: Commit)
    ensures c.id == id && c.syncObj == d.acquirePoints && c.pendingUploads == d.shmUploads && c.polls == d.implicitDmabufs
    ensures c.upload == UploadTodo <==> d.shmUploads > 0
    ensures c.fifo == FifoQueued <==> pc.fifoBarrierWait
    ensures c.times.TimesQueued? <==> d.commitTime > 0
    ensures c.times.TimesQueued? ==> c.times.time == d.commitTime
    ensures !c.times.TimesRegistered? && c.serial == pc.serial && c.setsFifoBarrier == pc.setsFifoBarrier
  {
    Commit(id, d.acquirePoints, d.shmUploads, if d.shmUploads > 0 then UploadTodo else NoUpload,
           pc.uploadsStarted, d.implicitDmabufs, if pc.fifoBarrierWait then FifoQueued else Mailbox,
           if d.commitTime > 0 then TimesQueued(d.commitTime) else TimesReady,
           pc.serial, pc.setsFifoBarrier)
  }

  predicate TreeIn(p: PendingTree, n: nat)
    decreases p
  {
    p.surface < n && (p.commitTime.Some? ==> IsU64(p.commitTime.value)) &&
    forall k :: 0 <= k < |p.subsurfaces| ==> TreeIn(p.subsurfaces[k], n)
  }

  lemma {:induction false} TreeTimesBounded(p: PendingTree, n: nat)
    requires TreeIn(p, n)
    ensures forall k :: 0 <= k < |Flatten(p)| && Flatten(p)[k].commitTime.Some? ==> IsU64(Flatten(p)[k].commitTime.value)
    decreases p, 1
  {
    TreeTimesBoundedAll(p.subsurfaces, n);
  }

  lemma {:induction false} TreeTimesBoundedAll(ps: seq<PendingTree>, n: nat)
    requires forall k :: 0 <= k < |ps| ==> TreeIn(ps[k], n)
    ensures forall k :: 0 <= k < |FlattenAll(ps)| && FlattenAll(ps)[k].commitTime.Some? ==> IsU64(FlattenAll(ps)[k].commitTime.value)
    decreases ps, 0
  {
    if |ps| > 0 {
      TreeTimesBounded(ps[0], n);
      TreeTimesBoundedAll(ps[1..], n);
      var a, b := Flatten(ps[0]), FlattenAll(ps[1..]);
      assert forall k :: 0 <= k < |a + b| ==> (a + b)[k] == if k < |a| then a[k] else b[k - |a|];
    }
  }

  lemma CollectedTimeBounded(p: PendingTree, n: nat)
    requires TreeIn(p, n)
    ensures IsU64(Collect(NothingCollected, p).commitTime)
  {
    TreeTimesBounded(p, n);
    SummarizeTimeIsMax(Flatten(p));
  }

  /** `b` extends every timeline of `a` at its end, adding no commits. */
  ghost predicate Grown(a: seq<seq<Entry>>, b: seq<seq<Entry>>) {
    |a| == |b| &&
    forall y :: 0 <= y < |a| ==> a[y] <= b[y] && CommitIds(Keys(b[y])) == CommitIds(Keys(a[y]))
  }

  lemma GrownTrans(a: seq<seq<Entry>>, b: seq<seq<Entry>>, c: seq<seq<Entry>>)
    requires Grown(a, b) && Grown(b, c)
    ensures Grown(a, c)
  {
  }

  lemma GrownByOne(a: seq<seq<Entry>>, t: nat, e: Entry)
    requires t < |a| && !e.CommitEntry?
    ensures Grown(a, a[t := a[t] + [e]])
  {
    forall y | 0 <= y < |a|
      ensures CommitIds(Keys(a[t := a[t] + [e]][y])) == CommitIds(Keys(a[y]))
    {
      if y == t {
        assert Keys(a[t] + [e]) == Keys(a[t]) + [KeyOf(e)];
        CommitIdsAppend(Keys(a[t]), [KeyOf(e)]);
      }
    }
  }

  /** The effect of a flush on every timeline: entries are removed only from
    * the front, and the commits applied to a surface are exactly the commits
    * removed from its timeline, in timeline order. */
  ghost predicate Flushed(L0: seq<seq<Entry>>, A0: seq<Applied>, L1: seq<seq<Entry>>, A1: seq<Applied>) {
    |L1| == |L0| && forall y :: 0 <= y < |L0| ==> FlushedOne(L0[y], A0, L1[y], A1, y)
  }

  /** `Flushed` for timeline `y` alone. */
  ghost predicate FlushedOne(a0: seq<Entry>, A0: seq<Applied>, a1: seq<Entry>, A1: seq<Applied>, y: nat) {
    Drained(Keys(a0), Keys(a1)) &&
    AppliedOn(A1, y) == AppliedOn(A0, y) + CommitIds(Removed(Keys(a0), Keys(a1)))
  }

  lemma FlushedOneTrans(a0: seq<Entry>, A0: seq<Applied>, a1: seq<Entry>, A1: seq<Applied>,
                        a2: seq<Entry>, A2: seq<Applied>, y: nat)
    requires FlushedOne(a0, A0, a1, A1, y) && FlushedOne(a1, A1, a2, A2, y)
    ensures FlushedOne(a0, A0, a2, A2, y)
  {
    DrainCompose(Keys(a0), Keys(a1), Keys(a2));
  }

  /** Timelines other than `x` whose head is not a Wait keep their entries. */
  ghost predicate OthersKept(x: nat, L0: seq<seq<Entry>>, L1: seq<seq<Entry>>) {
    |L1| == |L0| &&
    forall y :: 0 <= y < |L0| && y != x && !HeadIsWait(Keys(L0[y])) ==> Keys(L1[y]) == Keys(L0[y])
  }

  ghost predicate SameKeys(L0: seq<seq<Entry>>, L1: seq<seq<Entry>>) {
    |L1| == |L0| && forall y :: 0 <= y < |L0| ==> Keys(L1[y]) == Keys(L0[y])
  }

  lemma FlushedTrans(L0: seq<seq<Entry>>, A0: seq<Applied>, L1: seq<seq<Entry>>, A1: seq<Applied>,
                     L2: seq<seq<Entry>>, A2: seq<Applied>)
    requires Flushed(L0, A0, L1, A1) && Flushed(L1, A1, L2, A2)
    ensures Flushed(L0, A0, L2, A2)
  {
    forall y | 0 <= y < |L0|
      ensures FlushedOne(L0[y], A0, L2[y], A2, y)
    {
      FlushedOneTrans(L0[y], A0, L1[y], A1, L2[y], A2, y);
    }
  }

  lemma KeptTrans(x: nat, L0: seq<seq<Entry>>, L1: seq<seq<Entry>>, L2: seq<seq<Entry>>)
    requires OthersKept(x, L0, L1) && OthersKept(x, L1, L2)
    ensures OthersKept(x, L0, L2)
  {
    forall y | 0 <= y < |L0| && y != x && !HeadIsWait(Keys(L0[y]))
      ensures Keys(L2[y]) == Keys(L0[y])
    {
      assert Keys(L1[y]) == Keys(L0[y]);
    }
  }

  /** Flushing timeline `t` keeps `x` (whose head is not a Wait) and every
    * timeline kept so far. */
  lemma KeptAcross(x: nat, t: nat, L0: seq<seq<Entry>>, L1: seq<seq<Entry>>, L2: seq<seq<Entry>>)
    requires x < |L0| && t < |L0| && t != x && HeadIsWait(Keys(L0[t]))
    requires OthersKept(x, L0, L1) && OthersKept(t, L1, L2)
    ensures OthersKept(x, L0, L2)
  {
    forall y | 0 <= y < |L0| && y != x && !HeadIsWait(Keys(L0[y]))
      ensures Keys(L2[y]) == Keys(L0[y])
    {
      assert Keys(L1[y]) == Keys(L0[y]);
    }
  }

  /** Same as `KeptTrans`; named for the loop of `FlushHead`. */
  lemma KeptByHead(x: nat, L0: seq<seq<Entry>>, L1: seq<seq<Entry>>, L2: seq<seq<Entry>>)
    requires OthersKept(x, L0, L1) && OthersKept(x, L1, L2)
    ensures OthersKept(x, L0, L2)
  {
    KeptTrans(x, L0, L1, L2);
  }

  /** Changing no keys and logging nothing is a trivial flush. */
  lemma FlushedRefl(L0: seq<seq<Entry>>, A0: seq<Applied>, L1: seq<seq<Entry>>)
    requires SameKeys(L0, L1)
    ensures Flushed(L0, A0, L1, A0)
  {
    forall y | 0 <= y < |L0|
      ensures FlushedOne(L0[y], A0, L1[y], A0, y)
    {
      var ks := Keys(L1[y]);
      assert ks[|ks| - |ks|..] == ks;
      assert Removed(Keys(L0[y]), ks) == [];
    }
  }

  lemma SameKeysAfterSet(L0: seq<seq<Entry>>, t: nat, k: nat, e: Entry)
    requires t < |L0| && k < |L0[t]| && KeyOf(e) == KeyOf(L0[t][k])
    ensures SameKeys(L0, L0[t := L0[t][k := e]])
  {
    assert Keys(L0[t][k := e]) == Keys(L0[t]);
  }

  lemma KeptRefl(x: nat, L0: seq<seq<Entry>>, L1: seq<seq<Entry>>)
    requires SameKeys(L0, L1)
    ensures OthersKept(x, L0, L1)
  {
  }

  /** Removing the head of `x`, and logging it when it is a commit, is a
    * flush step that keeps every other timeline. */
  lemma FlushedPop(L0: seq<seq<Entry>>, A0: seq<Applied>, x: nat)
    requires x < |L0| && |L0[x]| > 0
    ensures var A1 := if L0[x][0].CommitEntry? then A0 + [Applied(x, L0[x][0].c.id)] else A0;
            Flushed(L0, A0, L0[x := L0[x][1..]], A1) && OthersKept(x, L0, L0[x := L0[x][1..]])
  {
    var A1 := if L0[x][0].CommitEntry? then A0 + [Applied(x, L0[x][0].c.id)] else A0;
    var L1 := L0[x := L0[x][1..]];
    forall y | 0 <= y < |L0|
      ensures FlushedOne(L0[y], A0, L1[y], A1, y)
    {
      if L0[x][0].CommitEntry? {
        AppliedOnSnoc(A0, Applied(x, L0[x][0].c.id), y);
      }
      var ks := Keys(L0[y]);
      if y == x {
        assert Keys(L1[y]) == ks[1..];
        assert Removed(ks, ks[1..]) == [ks[0]];
        assert CommitIds([ks[0]]) == (if ks[0].CommitKey? then [ks[0].id] else []) + CommitIds([]);
      } else {
        assert ks[|ks| - |ks|..] == ks;
        assert Removed(ks, ks) == [];
      }
    }
  }

  /** Effective timelines exist and margins are 64-bit. */
  ghost predicate EnvironmentOk(effective: seq<nat>, margins: seq<Margins>) {
    (forall s :: 0 <= s < |effective| ==> effective[s] < |effective|) &&
    (forall s :: 0 <= s < |margins| ==> margins[s].Valid())
  }

  /** Queued commit times are 64-bit values. */
  ghost predicate TimesOk(s: seq<Entry>) {
    forall k :: 0 <= k < |s| && s[k].CommitEntry? && s[k].c.times.TimesQueued? ==> IsU64(s[k].c.times.time)
  }

  /** Every Signal names another, existing timeline. */
  ghost predicate ListsOk(l: seq<seq<Entry>>) {
    forall i :: 0 <= i < |l| ==> SignalsOk(i, |l|, Keys(l[i])) && TimesOk(l[i])
  }

  lemma ListsOkUpdate(l: seq<seq<Entry>>, i: nat, s: seq<Entry>)
    requires ListsOk(l) && i < |l| && SignalsOk(i, |l|, Keys(s)) && TimesOk(s)
    ensures ListsOk(l[i := s])
  {
  }

  lemma ListsOkAppend(l: seq<seq<Entry>>, i: nat, e: Entry)
    requires ListsOk(l) && i < |l|
    requires e.Signal? ==> e.target < |l| && e.target != i
    requires e.CommitEntry? && e.c.times.TimesQueued? ==> IsU64(e.c.times.time)
    ensures ListsOk(l[i := l[i] + [e]])
  {
    assert Keys(l[i] + [e]) == Keys(l[i]) + [KeyOf(e)];
    ListsOkUpdate(l, i, l[i] + [e]);
  }

  lemma ListsOkPop(l: seq<seq<Entry>>, i: nat)
    requires ListsOk(l) && i < |l| && |l[i]| > 0
    ensures ListsOk(l[i := l[i][1..]])
  {
    assert Keys(l[i][1..]) == Keys(l[i])[1..];
    ListsOkUpdate(l, i, l[i][1..]);
  }

  lemma ListsOkSet(l: seq<seq<Entry>>, i: nat, k: nat, e: Entry)
    requires ListsOk(l) && i < |l| && k < |l[i]| && KeyOf(e) == KeyOf(l[i][k])
    requires e.CommitEntry? && e.c.times.TimesQueued? ==> IsU64(e.c.times.time)
    ensures ListsOk(l[i := l[i][k := e]])
    ensures Keys(l[i][k := e]) == Keys(l[i])
  {
    assert Keys(l[i][k := e]) == Keys(l[i]);
    ListsOkUpdate(l, i, l[i][k := e]);
  }

  /** The head Signal of a timeline names another timeline. */
  lemma HeadSignal(l: seq<seq<Entry>>, x: nat)
    requires ListsOk(l) && x < |l| && |l[x]| > 0 && l[x][0].Signal?
    ensures l[x][0].target < |l| && l[x][0].target != x
  {
    assert Keys(l[x])[0] == KeyOf(l[x][0]);
  }

  // ---------------------------------------------------------------------
  // Conservation of commits
  // ---------------------------------------------------------------------

  /** The history of surface `y`: the commits applied to it, in order,
    * followed by the commits still queued on its timeline, in order. */
  ghost function History(L: seq<seq<Entry>>, A: seq<Applied>, y: nat): seq<nat>
    requires y < |L|
  {
    AppliedOn(A, y) + CommitIds(Keys(L[y]))
  }

  /** No commit is lost, duplicated or reordered between two states. */
  ghost predicate Conserved(L0: seq<seq<Entry>>, A0: seq<Applied>, L1: seq<seq<Entry>>, A1: seq<Applied>) {
    |L1| == |L0| && forall y :: 0 <= y < |L0| ==> History(L1, A1, y) == History(L0, A0, y)
  }

  /** Between two states exactly commit `id` of surface `x` was added to the
    * end of its history. */
  ghost predicate Enqueued(L0: seq<seq<Entry>>, A0: seq<Applied>, L1: seq<seq<Entry>>, A1: seq<Applied>,
                           x: nat, id: nat) {
    |L1| == |L0| &&
    forall y :: 0 <= y < |L0| ==> History(L1, A1, y) == History(L0, A0, y) + (if y == x then [id] else [])
  }

  /** Flushing moves commits from the front of the queue to the end of the
    * applied log, so it conserves every history. */
  lemma FlushedConserved(L0: seq<seq<Entry>>, A0: seq<Applied>, L1: seq<seq<Entry>>, A1: seq<Applied>)
    requires Flushed(L0, A0, L1, A1)
    ensures Conserved(L0, A0, L1, A1)
  {
    forall y | 0 <= y < |L0|
      ensures History(L1, A1, y) == History(L0, A0, y)
    {
      var a, b := Keys(L0[y]), Keys(L1[y]);
      assert FlushedOne(L0[y], A0, L1[y], A1, y);
      assert a == Removed(a, b) + b;
      CommitIdsAppend(Removed(a, b), b);
    }
  }

  lemma GrownConserved(L0: seq<seq<Entry>>, L1: seq<seq<Entry>>, A: seq<Applied>)
    requires Grown(L0, L1)
    ensures Conserved(L0, A, L1, A)
  {
  }

  lemma SameKeysConserved(L0: seq<seq<Entry>>, L1: seq<seq<Entry>>, A: seq<Applied>)
    requires SameKeys(L0, L1)
    ensures Conserved(L0, A, L1, A)
  {
  }

  lemma ConservedTrans(L0: seq<seq<Entry>>, A0: seq<Applied>, L1: seq<seq<Entry>>, A1: seq<Applied>,
                       L2: seq<seq<Entry>>, A2: seq<Applied>)
    requires Conserved(L0, A0, L1, A1) && Conserved(L1, A1, L2, A2)
    ensures Conserved(L0, A0, L2, A2)
  {
  }

  /** Appending a commit to timeline `x` adds it to the end of the history
    * of `x`. */
  lemma AppendEnqueued(L: seq<seq<Entry>>, A: seq<Applied>, x: nat, c: Commit)
    requires x < |L|
    ensures Enqueued(L, A, L[x := L[x] + [CommitEntry(c)]], A, x, c.id)
  {
    assert Keys(L[x] + [CommitEntry(c)]) == Keys(L[x]) + [CommitKey(c.id)];
    CommitIdsAppend(Keys(L[x]), [CommitKey(c.id)]);
  }

  /** Applying a commit of a surface with an empty timeline adds it to the
    * end of that surface's history. */
  lemma ImmediateEnqueued(L: seq<seq<Entry>>, A: seq<Applied>, x: nat, id: nat)
    requires x < |L| && L[x] == []
    ensures Enqueued(L, A, L, A + [Applied(x, id)], x, id)
  {
    forall y | 0 <= y < |L|
      ensures History(L, A + [Applied(x, id)], y) == History(L, A, y) + (if y == x then [id] else [])
    {
      AppliedOnSnoc(A, Applied(x, id), y);
    }
  }

  lemma EnqueuedBetween(L0: seq<seq<Entry>>, A0: seq<Applied>, L1: seq<seq<Entry>>, A1: seq<Applied>,
                        L2: seq<seq<Entry>>, A2: seq<Applied>, L3: seq<seq<Entry>>, A3: seq<Applied>,
                        x: nat, id: nat)
    requires Conserved(L0, A0, L1, A1) && Enqueued(L1, A1, L2, A2, x, id) && Conserved(L2, A2, L3, A3)
    ensures Enqueued(L0, A0, L3, A3, x, id)
  {
  }

  /** Pending flush requests name existing timelines. */
  ghost predicate RequestsIn(reqs: seq<FlushRequest>, n: nat) {
    forall i :: 0 <= i < |reqs| ==> reqs[i].timeline < n
  }

  // ---------------------------------------------------------------------
  // The shared timelines
  // ---------------------------------------------------------------------

  class CommitTimelines {
    /** Entries of each timeline, head first. */
    var lists: seq<seq<Entry>>
    /** The shared depth counter. */
    var depth: nat
    /** `effective_timeline` of each surface. */
    var effective: seq<nat>
    var fifoBarrierSet: seq<bool>
    var fifoWaiter: seq<Option<nat>>
    var timeWaiter: seq<Option<TimeWaiter>>
    var treeBlockWaiter: seq<Option<nat>>
    /** The tree-serial window of each surface (owned by the surface). */
    var unblockedSerial: seq<nat>
    var scheduledSerial: seq<nat>
    /** The output margins of each surface. */
    var margins: seq<Margins>
    /** Commits handed to `apply_state`, in order. */
    var applied: seq<Applied>
    /** The asynchronous flush queue. */
    var flushRequests: seq<FlushRequest>
    var nextWaitId: nat
    var nextCommitId: nat

    ghost predicate Valid()
      reads this
    {
      var n := |lists|;
      |effective| == n && |fifoBarrierSet| == n && |fifoWaiter| == n && |timeWaiter| == n &&
      |treeBlockWaiter| == n && |unblockedSerial| == n && |scheduledSerial| == n && |margins| == n &&
      EnvironmentOk(effective, margins) && ListsOk(lists) && depth == TotalEntries(lists) &&
      RequestsIn(flushRequests, n)
    }

    constructor (surfaces: nat, m: seq<Margins>)
      requires |m| == surfaces && forall s :: 0 <= s < surfaces ==> m[s].Valid()
      ensures Valid() && |lists| == surfaces && depth == 0 && applied == [] && flushRequests == []
      ensures forall s :: 0 <= s < surfaces ==> lists[s] == [] && effective[s] == s && !fifoBarrierSet[s]
    {
      lists := seq(surfaces, _ => []);
      depth := 0;
      effective := seq(surfaces, s => s);
      fifoBarrierSet := seq(surfaces, _ => false);
      fifoWaiter := seq(surfaces, _ => None);
      timeWaiter := seq(surfaces, _ => None);
      treeBlockWaiter := seq(surfaces, _ => None);
      unblockedSerial := seq(surfaces, _ => 0);
      scheduledSerial := seq(surfaces, _ => 0);
      margins := m;
      applied := [];
      flushRequests := [];
      nextWaitId := 0;
      nextCommitId := 0;
      new;
      ZeroTotal(lists);
      assert forall i :: 0 <= i < |lists| ==> Keys(lists[i]) == [];
    }

    static lemma {:induction false} ZeroTotal(l: seq<seq<Entry>>)
      requires forall i :: 0 <= i < |l| ==> l[i] == []
      ensures TotalEntries(l) == 0
    {
      if |l| > 0 {
        ZeroTotal(l[..|l| - 1]);
      }
    }

    /** `add_entry`: appends to a timeline and increments the depth. */
    method AddEntry(t: nat, e: Entry)
      requires Valid() && t < |lists|
      requires e.Signal? ==> e.target < |lists| && e.target != t
      requires e.CommitEntry? && e.c.times.TimesQueued? ==> IsU64(e.c.times.time)
      modifies this`lists, this`depth
      ensures Valid()
      ensures lists == old(lists)[t := old(lists)[t] + [e]]
      ensures depth == old(depth) + 1
    {
      TotalUpdate(lists, t, lists[t] + [e]);
      ListsOkAppend(lists, t, e);
      lists := lists[t := lists[t] + [e]];
      depth := depth + 1;
    }

    /** Removes the head entry of a timeline once it has been applied. */
    method PopHead(x: nat)
      requires Valid() && x < |lists| && |lists[x]| > 0
      modifies this`lists, this`depth
      ensures Valid()
      ensures lists == old(lists)[x := old(lists)[x][1..]]
      ensures depth == old(depth) - 1
      ensures LexLe(TotalEntries(lists), Unsignalled(lists), TotalEntries(old(lists)), Unsignalled(old(lists)))
      ensures TotalEntries(lists) < TotalEntries(old(lists))
      ensures Keys(lists[x]) == Keys(old(lists)[x])[1..]
    {
      TotalUpdate(lists, x, lists[x][1..]);
      UnsignalledPop(lists[x]);
      ListsOkPop(lists, x);
      assert Keys(lists[x][1..]) == Keys(lists[x])[1..];
      lists := lists[x := lists[x][1..]];
      depth := depth - 1;
    }

    /** Replaces an entry by one with the same key. */
    method SetEntry(t: nat, k: nat, e: Entry)
      requires Valid() && t < |lists| && k < |lists[t]| && KeyOf(e) == KeyOf(lists[t][k])
      requires e.CommitEntry? && e.c.times.TimesQueued? ==> IsU64(e.c.times.time)
      modifies this`lists
      ensures Valid()
      ensures lists == old(lists)[t := old(lists)[t][k := e]]
      ensures forall y :: 0 <= y < |lists| ==> Keys(lists[y]) == Keys(old(lists)[y])
      ensures Unsignalled(lists) + (if Pending(old(lists)[t][k]) then 1 else 0)
           == Unsignalled(old(lists)) + (if Pending(e) then 1 else 0)
    {
      TotalUpdate(lists, t, lists[t][k := e]);
      UnsignalledSet(lists[t], k, e);
      ListsOkSet(lists, t, k, e);
      lists := lists[t := lists[t][k := e]];
    }

    /** `apply_state` as far as the timeline sees it: the commit is logged
      * and a fifo barrier set by the commit takes effect. */
    method ApplyCommit(x: nat, c: Commit)
      requires Valid() && x < |lists|
      modifies this`applied, this`fifoBarrierSet
      ensures Valid()
      ensures applied == old(applied) + [Applied(x, c.id)]
      ensures fifoBarrierSet == if c.setsFifoBarrier then old(fifoBarrierSet)[x := true] else old(fifoBarrierSet)
    {
      applied := applied + [Applied(x, c.id)];
      if c.setsFifoBarrier {
        fifoBarrierSet := fifoBarrierSet[x := true];
      }
    }

    /** Records the waiters a head commit registered. */
    method RecordWaiters(x: nat, id: nat, s: Step)
      requires Valid() && x < |lists|
      modifies this`fifoWaiter, this`timeWaiter, this`treeBlockWaiter
      ensures Valid()
      ensures fifoWaiter == if s.fifoWaiter then old(fifoWaiter)[x := Some(id)] else old(fifoWaiter)
      ensures timeWaiter == if s.timeWaiter.Some? then old(timeWaiter)[x := Some(TimeWaiter(id, s.timeWaiter.value))] else old(timeWaiter)
      ensures treeBlockWaiter == if s.treeBlocked then old(treeBlockWaiter)[x := Some(id)] else old(treeBlockWaiter)
    {
      if s.fifoWaiter {
        fifoWaiter := fifoWaiter[x := Some(id)];
      }
      if s.timeWaiter.Some? {
        timeWaiter := timeWaiter[x := Some(TimeWaiter(id, s.timeWaiter.value))];
      }
      if s.treeBlocked {
        treeBlockWaiter := treeBlockWaiter[x := Some(id)];
      }
    }

    /** The fields a flush does not touch. */
    /** One iteration of `flush_from` on the head of `x`; `go` says whether
      * the head was applied and removed. */
    method FlushStep(x: nat, now: nat) returns (go: bool)
      requires Valid() && x < |lists| && |lists[x]| > 0
      modifies this`lists, this`depth, this`applied, this`fifoBarrierSet, this`fifoWaiter, this`timeWaiter, this`treeBlockWaiter
      ensures Valid()
      ensures LexLe(TotalEntries(lists), Unsignalled(lists), TotalEntries(old(lists)), Unsignalled(old(lists)))
      ensures Flushed(old(lists), old(applied), lists, applied) && OthersKept(x, old(lists), lists)
      ensures if go then |lists[x]| < |old(lists)[x]| else |lists[x]| == |old(lists)[x]|
      decreases TotalEntries(lists), Unsignalled(lists), 3
    {
      match lists[x][0] {
        case CommitEntry(c) =>
          assert TimesOk(lists[x]);
          var s := MaybeApplyCommit(c, fifoBarrierSet[x], margins[x], now, unblockedSerial[x], scheduledSerial[x]);
          ghost var L0, A0 := lists, applied;
          FlushCommit(x, s);
          go := s.apply;
          if go {
            FlushedPop(L0, A0, x);
          } else {
            SameKeysAfterSet(L0, x, 0, CommitEntry(s.c));
            FlushedRefl(L0, A0, lists);
            KeptRefl(x, L0, lists);
          }
        case Wait(w, signalled) =>
          go := signalled;
          if signalled {
            FlushedPop(lists, applied, x);
            PopHead(x);
          } else {
            FlushedRefl(lists, applied, lists);
            KeptRefl(x, lists, lists);
          }
        case Signal(t, w) =>
          go := true;
          FlushSignal(x, now);
      }
    }

    /** A Signal at the head of `x`: its Wait is signalled (see `SignalWait`)
      * and the Signal is removed. */
    method FlushSignal(x: nat, now: nat)
      requires Valid() && x < |lists| && |lists[x]| > 0 && lists[x][0].Signal?
      modifies this`lists, this`depth, this`applied, this`fifoBarrierSet, this`fifoWaiter, this`timeWaiter, this`treeBlockWaiter
      ensures Valid()
      ensures LexLe(TotalEntries(lists), Unsignalled(lists), TotalEntries(old(lists)), Unsignalled(old(lists)))
      ensures Flushed(old(lists), old(applied), lists, applied) && OthersKept(x, old(lists), lists)
      ensures |lists[x]| < |old(lists)[x]|
      decreases TotalEntries(lists), Unsignalled(lists), 2
    {
      ghost var L0, A0 := lists, applied;
      assert Keys(L0[x])[0] == KeyOf(L0[x][0]);
      SignalWait(x, now);
      ghost var L2, A2 := lists, applied;
      assert |L2[x]| == |Keys(L2[x])| == |Keys(L0[x])| == |L0[x]|;
      assert Keys(L2[x])[0] == KeyOf(L2[x][0]);
      assert !L2[x][0].CommitEntry?;
      FlushedPop(lists, applied, x);
      PopHead(x);
      FlushedTrans(L0, A0, L2, A2, lists, applied);
      KeptTrans(x, L0, L2, lists);
    }

    /** The Wait named by the Signal at the head of `x` is marked signalled,
      * if it is still queued and unsignalled. Timeline `x` itself keeps its
      * entries. */
    method SignalWait(x: nat, now: nat)
      requires Valid() && x < |lists| && |lists[x]| > 0 && lists[x][0].Signal?
      modifies this`lists, this`depth, this`applied, this`fifoBarrierSet, this`fifoWaiter, this`timeWaiter, this`treeBlockWaiter
      ensures Valid()
      ensures LexLe(TotalEntries(lists), Unsignalled(lists), TotalEntries(old(lists)), Unsignalled(old(lists)))
      ensures Flushed(old(lists), old(applied), lists, applied) && OthersKept(x, old(lists), lists)
      ensures Keys(lists[x]) == Keys(old(lists)[x])
      decreases TotalEntries(lists), Unsignalled(lists), 1
    {
      var t, w := lists[x][0].target, lists[x][0].swid;
      HeadSignal(lists, x);
      var k := FindKey(lists[t], WaitKey(w));
      if k < |lists[t]| && Pending(lists[t][k]) {
        MarkSignalled(x, t, k, now);
      } else {
        FlushedRefl(lists, applied, lists);
        KeptRefl(x, lists, lists);
      }
    }

    /** Marks the pending Wait at index `k` of timeline `t` signalled and,
      * when it is at the head, flushes `t`. Timeline `x` is not `t` and its
      * head is not a Wait, so its entries are kept. */
    method MarkSignalled(x: nat, t: nat, k: nat, now: nat)
      requires Valid() && x < |lists| && t < |lists| && t != x
      requires |lists[x]| > 0 && !lists[x][0].Wait?
      requires k < |lists[t]| && Pending(lists[t][k])
      modifies this`lists, this`depth, this`applied, this`fifoBarrierSet, this`fifoWaiter, this`timeWaiter, this`treeBlockWaiter
      ensures Valid()
      ensures LexLe(TotalEntries(lists), Unsignalled(lists), TotalEntries(old(lists)), Unsignalled(old(lists)))
      ensures Flushed(old(lists), old(applied), lists, applied) && OthersKept(x, old(lists), lists)
      ensures Keys(lists[x]) == Keys(old(lists)[x])
      decreases TotalEntries(lists), Unsignalled(lists), 0
    {
      ghost var L0, A0 := lists, applied;
      SetEntry(t, k, Wait(lists[t][k].wid, true));
      FlushedRefl(L0, A0, lists);
      KeptRefl(x, L0, lists);
      if k == 0 {
        ghost var L1 := lists;
        assert Keys(L0[t])[0] == KeyOf(L0[t][0]);
        assert Keys(L1[x])[0] == KeyOf(L1[x][0]);
        FlushHead(t, now);
        FlushedTrans(L0, A0, L1, A0, lists, applied);
        KeptAcross(x, t, L0, L1, lists);
      }
    }

    /** The commit case of `maybe_apply` once its outcome `s` is known: the
      * waiters are recorded, and an applied commit is logged and removed. */
    method FlushCommit(x: nat, s: Step)
      requires Valid() && x < |lists| && |lists[x]| > 0 && lists[x][0].CommitEntry?
      requires s.c.id == lists[x][0].c.id && !s.c.times.TimesQueued?
      modifies this`lists, this`depth, this`applied, this`fifoBarrierSet, this`fifoWaiter, this`timeWaiter, this`treeBlockWaiter
      ensures Valid()
      ensures s.apply ==> lists == old(lists)[x := old(lists)[x][1..]] && applied == old(applied) + [Applied(x, s.c.id)]
      ensures !s.apply ==> lists == old(lists)[x := old(lists)[x][0 := CommitEntry(s.c)]] && applied == old(applied)
      ensures LexLe(TotalEntries(lists), Unsignalled(lists), TotalEntries(old(lists)), Unsignalled(old(lists)))
    {
      RecordWaiters(x, s.c.id, s);
      if s.apply {
        ApplyCommit(x, s.c);
        PopHead(x);
      } else {
        SetEntry(x, 0, CommitEntry(s.c));
      }
    }

    /** `flush_from` on the head of timeline `x`: applies entries from the
      * head for as long as `maybe_apply` allows.  Only the head is ever
      * applied; a Signal marks its Wait and flushes the Wait's timeline when
      * the Wait is at its head.  For every timeline the entries removed are
      * a prefix, the commits applied are exactly the commits of that prefix
      * in order, and each removal decrements the depth (`Valid`). */
    method FlushHead(x: nat, now: nat)
      requires Valid() && x < |lists|
      modifies this`lists, this`depth, this`applied, this`fifoBarrierSet, this`fifoWaiter, this`timeWaiter, this`treeBlockWaiter
      ensures Valid()
      ensures LexLe(TotalEntries(lists), Unsignalled(lists), TotalEntries(old(lists)), Unsignalled(old(lists)))
      ensures Flushed(old(lists), old(applied), lists, applied) && OthersKept(x, old(lists), lists)
      decreases TotalEntries(lists), Unsignalled(lists), 4
    {
      ghost var L0, A0 := lists, applied;
      FlushedRefl(L0, A0, lists);
      KeptRefl(x, L0, lists);
      var go := true;
      while go && |lists[x]| > 0
        invariant Valid()
        invariant LexLe(TotalEntries(lists), Unsignalled(lists), TotalEntries(L0), Unsignalled(L0))
        invariant Flushed(L0, A0, lists, applied) && OthersKept(x, L0, lists)
        decreases |lists[x]| + (if go then 1 else 0)
      {
        ghost var L1, A1 := lists, applied;
        go := FlushStep(x, now);
        FlushedTrans(L0, A0, L1, A1, lists, applied);
        KeptByHead(x, L0, L1, lists);
      }
    }

    /** `flush_from(node)` for the entry with key `key` of timeline `x`: a
      * node with a predecessor is not applied. */
    method FlushFrom(x: nat, key: Key, now: nat)
      requires Valid() && x < |lists|
      modifies this`lists, this`depth, this`applied, this`fifoBarrierSet, this`fifoWaiter, this`timeWaiter, this`treeBlockWaiter
      ensures Valid() && |lists| == |old(lists)| && effective == old(effective)
      ensures (|old(lists)[x]| == 0 || KeyOf(old(lists)[x][0]) != key) ==> lists == old(lists) && applied == old(applied)
      ensures Flushed(old(lists), old(applied), lists, applied)
      ensures flushRequests == old(flushRequests)
    {
      if |lists[x]| > 0 && KeyOf(lists[x][0]) == key {
        FlushHead(x, now);
      } else {
        FlushedRefl(lists, applied, lists);
      }
    }

    /** `set_effective_timeline` for one surface: when the effective
      * timeline changes away from a non-empty one, a fresh Wait is appended
      * to the new timeline and a Signal for it to the old one. */
    method SwitchEffective(s: nat, e: nat)
      requires Valid() && s < |lists| && e < |lists|
      modifies this`effective, this`lists, this`depth, this`nextWaitId
      ensures Valid() && nextWaitId >= old(nextWaitId)
      ensures effective == old(effective)[s := e]
      ensures var prev := old(effective)[s];
              if prev != e && |old(lists)[prev]| > 0 then
                lists == old(lists)[e := old(lists)[e] + [Wait(old(nextWaitId), false)]]
                                   [prev := old(lists)[prev] + [Signal(e, old(nextWaitId))]] &&
                depth == old(depth) + 2
              else
                lists == old(lists) && depth == old(depth)
      ensures Grown(old(lists), lists)
    {
      var prev := effective[s];
      effective := effective[s := e];
      if prev != e && |lists[prev]| > 0 {
        var w := nextWaitId;
        nextWaitId := nextWaitId + 1;
        ghost var L0 := lists;
        AddEntry(e, Wait(w, false));
        GrownByOne(L0, e, Wait(w, false));
        ghost var L1 := lists;
        AddEntry(prev, Signal(e, w));
        GrownByOne(L1, prev, Signal(e, w));
        GrownTrans(L0, L1, lists);
      }
    }

    /** `set_effective_timeline` over a pending tree: every surface of the
      * tree follows timeline `e`; timelines only grow at their ends, by
      * Wait and Signal entries. */
    method SetEffectiveTimeline(p: PendingTree, e: nat)
      requires Valid() && e < |lists| && TreeIn(p, |lists|)
      modifies this`effective, this`lists, this`depth, this`nextWaitId
      ensures Valid() && Grown(old(lists), lists)
      ensures effective[p.surface] == e
      ensures forall s :: 0 <= s < |effective| ==> effective[s] == old(effective)[s] || effective[s] == e
      decreases p
    {
      SwitchEffective(p.surface, e);
      var i := 0;
      while i < |p.subsurfaces|
        invariant Valid() && 0 <= i <= |p.subsurfaces|
        invariant Grown(old(lists), lists)
        invariant effective[p.surface] == e
        invariant forall s :: 0 <= s < |effective| ==> effective[s] == old(effective)[s] || effective[s] == e
      {
        ghost var Lb := lists;
        SetEffectiveTimeline(p.subsurfaces[i], e);
        GrownTrans(old(lists), Lb, lists);
        i := i + 1;
      }
    }

    /** `commit`: a commit without dependencies on a surface whose own
      * timeline is empty is applied at once; otherwise it is queued on the
      * surface's own timeline (unless the shared depth limit is reached),
      * the pending tree is switched to that timeline, and the timeline is
      * flushed when the new commit is at its head and needs examining. */
    method CommitSurface(x: nat, pc: PendingCommit, now: nat) returns (r: Result<(), TimelineError>)
      requires Valid() && x < |lists| && pc.tree.surface == x && TreeIn(pc.tree, |lists|)
      modifies this`lists, this`depth, this`applied, this`fifoBarrierSet, this`fifoWaiter, this`timeWaiter, this`treeBlockWaiter, this`effective, this`nextWaitId, this`nextCommitId
      ensures Valid()
      ensures var q := MustBeQueued(Collect(NothingCollected, pc.tree), old(lists)[x] == [], pc.fifoBarrierWait,
                                    old(fifoBarrierSet)[x], pc.serial, old(unblockedSerial)[x], old(scheduledSerial)[x]);
              (!q ==> r.Ok? && lists == old(lists) && applied == old(applied) + [Applied(x, old(nextCommitId))]) &&
              (q && old(depth) >= MAX_TIMELINE_DEPTH ==> r == Err(Depth)) &&
              (q && old(depth) < MAX_TIMELINE_DEPTH ==> r.Ok?)
      ensures r.Ok? ==> Enqueued(old(lists), old(applied), lists, applied, x, old(nextCommitId))
      ensures r.Err? ==> lists == old(lists) && applied == old(applied) && effective == old(effective)
    {
      var d := Collect(NothingCollected, pc.tree);
      CollectedTimeBounded(pc.tree, |lists|);
      r := CommitCollected(x, pc, d, now);
    }

    /** `commit` once the pending tree's data `d` has been collected. */
    method CommitCollected(x: nat, pc: PendingCommit, d: Collected, now: nat) returns (r: Result<(), TimelineError>)
      requires Valid() && x < |lists| && TreeIn(pc.tree, |lists|) && IsU64(d.commitTime)
      modifies this`lists, this`depth, this`applied, this`fifoBarrierSet, this`fifoWaiter, this`timeWaiter, this`treeBlockWaiter, this`effective, this`nextWaitId, this`nextCommitId
      ensures Valid()
      ensures var q := MustBeQueued(d, old(lists)[x] == [], pc.fifoBarrierWait,
                                    old(fifoBarrierSet)[x], pc.serial, old(unblockedSerial)[x], old(scheduledSerial)[x]);
              (!q ==> r.Ok? && lists == old(lists) && applied == old(applied) + [Applied(x, old(nextCommitId))]) &&
              (q && old(depth) >= MAX_TIMELINE_DEPTH ==> r == Err(Depth)) &&
              (q && old(depth) < MAX_TIMELINE_DEPTH ==> r.Ok?)
      ensures r.Ok? ==> Enqueued(old(lists), old(applied), lists, applied, x, old(nextCommitId))
      ensures r.Err? ==> lists == old(lists) && applied == old(applied) && effective == old(effective)
    {
      var queued := MustBeQueued(d, lists[x] == [], pc.fifoBarrierWait, fifoBarrierSet[x], pc.serial,
                                 unblockedSerial[x], scheduledSerial[x]);
      var id := nextCommitId;
      var c := NewCommit(id, d, pc);
      if !queued {
        ApplyImmediately(x, c);
        nextCommitId := nextCommitId + 1;
        r := Ok(());
      } else if depth >= MAX_TIMELINE_DEPTH {
        r := Err(Depth);
      } else {
        nextCommitId := nextCommitId + 1;
        var needsFlush := pc.fifoBarrierWait || pc.serial.Some? || d.shmUploads > 0 || d.commitTime > 0;
        QueueCommit(x, pc.tree, c, needsFlush, now);
        r := Ok(());
      }
    }

    /** The immediate path of `commit`: the surface's own timeline is empty
      * and the commit is applied at once. */
    method ApplyImmediately(x: nat, c: Commit)
      requires Valid() && x < |lists| && lists[x] == []
      modifies this`applied, this`fifoBarrierSet
      ensures Valid() && applied == old(applied) + [Applied(x, c.id)]
      ensures Enqueued(lists, old(applied), lists, applied, x, c.id)
    {
      ImmediateEnqueued(lists, applied, x, c.id);
      ApplyCommit(x, c);
    }

    /** The queued path of `commit`: the pending tree follows the surface's
      * own timeline, the commit is appended to it, and the timeline is
      * flushed when `needsFlush` and the commit is at the head. */
    method QueueCommit(x: nat, tree: PendingTree, c: Commit, needsFlush: bool, now: nat)
      requires Valid() && x < |lists| && TreeIn(tree, |lists|)
      requires c.times.TimesQueued? ==> IsU64(c.times.time)
      modifies this`lists, this`depth, this`applied, this`fifoBarrierSet, this`fifoWaiter, this`timeWaiter, this`treeBlockWaiter, this`effective, this`nextWaitId
      ensures Valid()
      ensures Enqueued(old(lists), old(applied), lists, applied, x, c.id)
    {
      ghost var L0, A0 := lists, applied;
      SetEffectiveTimeline(tree, x);
      GrownConserved(L0, lists, A0);
      ghost var L1 := lists;
      AppendEnqueued(L1, A0, x, c);
      AddEntry(x, CommitEntry(c));
      ghost var L2 := lists;
      if needsFlush && |lists[x]| == 1 {
        FlushHead(x, now);
      } else {
        FlushedRefl(L2, A0, lists);
      }
      FlushedConserved(L2, A0, lists, applied);
      EnqueuedBetween(L0, A0, L1, A0, L2, A0, lists, applied, x, c.id);
    }

    /** The source-side effect of a completed dependency on a commit. */
    static function Completed(c: Commit, dep: Dependency): (r: Commit)
      ensures r.id == c.id && r.fifo == c.fifo && r.serial == c.serial
      ensures dep.SyncObjDone? ==> r == c.(syncObj := SatSub(c.syncObj, 1))
      ensures dep.UploadDone? ==> r == c.(pendingUploads := SatSub(c.pendingUploads, 1))
      ensures dep.PollDone? ==> r == c.(polls := SatSub(c.polls, 1))
      ensures dep.TimeoutDone? || dep.LatchDone? ==> r == c.(times := TimesReady)
    {
      match dep
      case SyncObjDone => c.(syncObj := SatSub(c.syncObj, 1))
      case UploadDone => c.(pendingUploads := SatSub(c.pendingUploads, 1))
      case PollDone => c.(polls := SatSub(c.polls, 1))
      case TimeoutDone => c.(times := TimesReady)
      case LatchDone => c.(times := TimesReady)
    }

    /** Applies `Completed` to the queued commit `id` of timeline `x`, if it
      * is still queued. */
    method CompleteDependency(x: nat, id: nat, dep: Dependency) returns (k: nat)
      requires Valid() && x < |lists|
      modifies this`lists
      ensures Valid() && SameKeys(old(lists), lists)
      ensures k == FindKey(old(lists)[x], CommitKey(id))
      ensures k < |old(lists)[x]| ==> old(lists)[x][k].CommitEntry?
      ensures k < |old(lists)[x]| ==>
                lists == old(lists)[x := old(lists)[x][k := CommitEntry(Completed(old(lists)[x][k].c, dep))]]
      ensures k >= |old(lists)[x]| ==> lists == old(lists)
    {
      k := FindKey(lists[x], CommitKey(id));
      if k < |lists[x]| {
        assert TimesOk(lists[x]);
        var e := CommitEntry(Completed(lists[x][k].c, dep));
        SetEntry(x, k, e);
        SameKeysAfterSet(old(lists), x, k, e);
      }
    }

    /** The completion callbacks (sync-obj wait, shm upload, implicit-sync
      * poll, commit timeout): the commit's dependency is marked done and
      * its timeline is flushed from it. A commit that is not at the head
      * is only updated. */
    method DependencyDone(x: nat, id: nat, dep: Dependency, now: nat)
      requires Valid() && x < |lists| && !dep.LatchDone?
      modifies this`lists, this`depth, this`applied, this`fifoBarrierSet, this`fifoWaiter, this`timeWaiter, this`treeBlockWaiter
      ensures Valid()
      ensures Conserved(old(lists), old(applied), lists, applied)
      ensures var k := FindKey(old(lists)[x], CommitKey(id));
              (k >= |old(lists)[x]| ==> lists == old(lists) && applied == old(applied)) &&
              (0 < k < |old(lists)[x]| ==>
                 lists == old(lists)[x := old(lists)[x][k := CommitEntry(Completed(old(lists)[x][k].c, dep))]] &&
                 applied == old(applied))
    {
      if dep.TimeoutDone? {
        timeWaiter := timeWaiter[x := None];
      }
      ghost var L0, A0 := lists, applied;
      var k := CompleteDependency(x, id, dep);
      SameKeysConserved(L0, lists, A0);
      ghost var L1 := lists;
      if k < |lists[x]| {
        assert KeyOf(lists[x][k]) == CommitKey(id);
        assert k > 0 ==> KeyOf(L0[x][0]) != CommitKey(id) && lists[x][0] == L0[x][0];
        FlushFrom(x, CommitKey(id), now);
        FlushedConserved(L1, A0, lists, applied);
      } else {
        FlushedRefl(L1, A0, lists);
      }
      ConservedTrans(L0, A0, L1, A0, lists, applied);
    }

    /** `before_latch`: when the registered commit time of `x` is due by the
      * `present` time, the commit becomes ready, a flush of it is queued and
      * the latch yields. */
    method BeforeLatch(x: nat, present: nat) returns (res: BeforeLatchResult)
      requires Valid() && x < |lists|
      modifies this`lists, this`timeWaiter, this`flushRequests
      ensures Valid() && SameKeys(old(lists), lists)
      ensures res == LatchYield <==> old(timeWaiter)[x].Some? && old(timeWaiter)[x].value.present <= present
      ensures res == LatchYield ==>
                timeWaiter == old(timeWaiter)[x := None] &&
                flushRequests == old(flushRequests) + [FlushRequest(x, CommitKey(old(timeWaiter)[x].value.id))]
      ensures res == LatchNone ==>
                lists == old(lists) && timeWaiter == old(timeWaiter) && flushRequests == old(flushRequests)
    {
      match timeWaiter[x]
      case Some(w) =>
        if w.present <= present {
          var _ := CompleteDependency(x, w.id, LatchDone);
          flushRequests := flushRequests + [FlushRequest(x, CommitKey(w.id))];
          timeWaiter := timeWaiter[x := None];
          res := LatchYield;
        } else {
          res := LatchNone;
        }
      case None =>
        res := LatchNone;
    }

    method SetFifoBarrier(x: nat)
      requires Valid() && x < |lists|
      modifies this`fifoBarrierSet
      ensures Valid() && fifoBarrierSet == old(fifoBarrierSet)[x := true]
    {
      fifoBarrierSet := fifoBarrierSet[x := true];
    }

    /** `clear_fifo_barrier`: the barrier is lowered and a commit waiting
      * for it is queued for flushing. */
    method ClearFifoBarrier(x: nat)
      requires Valid() && x < |lists|
      modifies this`fifoBarrierSet, this`fifoWaiter, this`flushRequests
      ensures Valid() && fifoBarrierSet == old(fifoBarrierSet)[x := false] && fifoWaiter == old(fifoWaiter)[x := None]
      ensures flushRequests == old(flushRequests) +
                (if old(fifoWaiter)[x].Some? then [FlushRequest(x, CommitKey(old(fifoWaiter)[x].value))] else [])
    {
      fifoBarrierSet := fifoBarrierSet[x := false];
      if fifoWaiter[x].Some? {
        flushRequests := flushRequests + [FlushRequest(x, CommitKey(fifoWaiter[x].value))];
      }
      fifoWaiter := fifoWaiter[x := None];
    }

    /** The surface's tree-serial window changes (`handle_acked_serial` and
      * the tree barriers are not part of this model). */
    method SetSerials(x: nat, unblocked: nat, scheduled: nat)
      requires Valid() && x < |lists|
      modifies this`unblockedSerial, this`scheduledSerial
      ensures Valid()
      ensures unblockedSerial == old(unblockedSerial)[x := unblocked]
      ensures scheduledSerial == old(scheduledSerial)[x := scheduled]
    {
      unblockedSerial := unblockedSerial[x := unblocked];
      scheduledSerial := scheduledSerial[x := scheduled];
    }

    /** `tree_unblocked`: a commit blocked on its tree serial is flushed. */
    method TreeUnblocked(x: nat, now: nat)
      requires Valid() && x < |lists|
      modifies this`lists, this`depth, this`applied, this`fifoBarrierSet, this`fifoWaiter, this`timeWaiter, this`treeBlockWaiter
      ensures Valid() && Conserved(old(lists), old(applied), lists, applied)
      ensures old(treeBlockWaiter)[x].None? ==> lists == old(lists) && applied == old(applied)
    {
      var w := treeBlockWaiter[x];
      treeBlockWaiter := treeBlockWaiter[x := None];
      ghost var L0, A0 := lists, applied;
      if w.Some? {
        FlushFrom(x, CommitKey(w.value), now);
      } else {
        FlushedRefl(L0, A0, lists);
      }
      FlushedConserved(L0, A0, lists, applied);
    }

    /** `process_flush_requests`: the queued requests are served in order
      * until the queue is empty. */
    method ProcessFlushRequests(now: nat)
      requires Valid()
      modifies this`lists, this`depth, this`applied, this`fifoBarrierSet, this`fifoWaiter, this`timeWaiter, this`treeBlockWaiter, this`flushRequests
      ensures Valid() && flushRequests == []
      ensures Conserved(old(lists), old(applied), lists, applied)
    {
      ghost var L0, A0 := lists, applied;
      FlushedRefl(L0, A0, lists);
      while |flushRequests| > 0
        invariant Valid() && Flushed(L0, A0, lists, applied)
        decreases |flushRequests|
      {
        ghost var L1, A1 := lists, applied;
        ServeRequest(now);
        FlushedTrans(L0, A0, L1, A1, lists, applied);
      }
      FlushedConserved(L0, A0, lists, applied);
    }

    /** Takes the oldest flush request and flushes its timeline from the
      * entry it names. */
    method ServeRequest(now: nat)
      requires Valid() && |flushRequests| > 0
      modifies this`lists, this`depth, this`applied, this`fifoBarrierSet, this`fifoWaiter, this`timeWaiter, this`treeBlockWaiter, this`flushRequests
      ensures Valid() && flushRequests == old(flushRequests)[1..]
      ensures Flushed(old(lists), old(applied), lists, applied)
      ensures var req := old(flushRequests)[0];
              (|old(lists)[req.timeline]| == 0 || KeyOf(old(lists)[req.timeline][0]) != req.key) ==>
                lists == old(lists) && applied == old(applied)
    {
      var req := flushRequests[0];
      assert req.timeline < |lists|;
      flushRequests := flushRequests[1..];
      FlushFrom(req.timeline, req.key, now);
    }
  }
}
