/**
 * Experts read from the drive into a cache of a fixed number of slots: one
 * client holds, waits for, releases and prefetches places, and any number of
 * workers read them. Each method is what happens while the lock is held once,
 * or one read outside it, so every interleaving is some order of them.
 */
module ExpertStream {
  import opened Basics
  import opened ExpertPlan
  import opened Ring

  datatype State = Empty | Reading | Ready | Failed

  datatype Entry = Entry(place: int, state: State, users: nat, lastUse: nat, prefetched: bool, buf: Bytes)

  /** A reader: at rest, or reading a slot's runs, this many of them done, all well so far or not. */
  datatype Worker = Resting | Busy(slot: nat, run: nat, ok: bool)

  /** A call to the drive: for which place, and how many bytes it asks for. */
  datatype Call = Call(place: nat, asked: nat)

  /** Where a part is in memory. */
  datatype Pointer = Pointer(slot: nat, at: nat)

  // ---- Contents ----

  /** A run's needed bytes are in the buffer. */
  ghost predicate RunRead(files: seq<Bytes>, run: Run, buf: Bytes) {
    && run.file < |files| && run.start + run.needed <= |files[run.file]| && run.dst + run.needed <= |buf|
    && buf[run.dst..run.dst + run.needed] == files[run.file][run.start..run.start + run.needed]
  }

  ghost predicate ReadTo(files: seq<Bytes>, plan: Plan, runs: nat, buf: Bytes) {
    runs <= |plan.runs| && forall r :: 0 <= r < runs ==> RunRead(files, plan.runs[r], buf)
  }

  /** The buffer shows a part: exactly the file's bytes from its offset on. */
  ghost predicate ShowsPart(files: seq<Bytes>, part: Extent, at: nat, buf: Bytes) {
    && part.file < |files| && part.End() <= |files[part.file]| && at + part.length <= |buf|
    && buf[at..at + part.length] == files[part.file][part.offset..part.End()]
  }

  /** A place whose file ends before one of its parts does. */
  ghost predicate CutOff(files: seq<Bytes>, parts: seq<Extent>) {
    exists j :: 0 <= j < |parts| && parts[j].file < |files| && parts[j].End() > |files[parts[j].file]|
  }

  /** From the call numbered from on, the drive gave an error, or less than was asked of it, for a place. */
  ghost predicate FellShort(drive: nat -> int, calls: seq<Call>, from: nat, p: int) {
    exists k :: from <= k < |calls| && calls[k].place == p && drive(k) < calls[k].asked
  }

  /** The places a read of which may have failed so far: every other read was well. */
  ghost function SpoiltBy(files: seq<Bytes>, places: seq<seq<Extent>>, drive: nat -> int, calls: seq<Call>): set<int> {
    set p: int | 0 <= p < |places| && (CutOff(files, places[p]) || FellShort(drive, calls, 0, p))
  }

  /** Every part of a place whose runs are read is shown where the plan says. */
  lemma ReadShows(files: seq<Bytes>, parts: seq<Extent>, plan: Plan, buf: Bytes)
    requires Plans(parts, plan) && ReadTo(files, plan, |plan.runs|, buf)
    ensures forall j :: 0 <= j < |parts| ==> ShowsPart(files, parts[j], plan.partAt[j], buf)
  {
    forall j | 0 <= j < |parts|
      ensures ShowsPart(files, parts[j], plan.partAt[j], buf)
    {
      var part, at := parts[j], plan.partAt[j];
      assert Placed(part, plan.runs, at);
      var r :| 0 <= r < |plan.runs| && In(part, plan.runs[r], at);
      assert RunRead(files, plan.runs[r], buf);
      PartShows(files, part, plan.runs[r], at, buf);
    }
  }

  lemma PartShows(files: seq<Bytes>, part: Extent, run: Run, at: nat, buf: Bytes)
    requires RunRead(files, run, buf) && In(part, run, at)
    ensures ShowsPart(files, part, at, buf)
  {
    var x, n := part.offset - run.start, part.length;
    Slice(buf, run.dst, run.needed, x, n);
    Slice(files[run.file], run.start, run.needed, x, n);
  }

  lemma Slice(s: Bytes, from: nat, len: nat, x: nat, n: nat)
    requires from + len <= |s| && x + n <= len
    ensures s[from..from + len][x..x + n] == s[from + x..from + x + n]
  {
    var a, b := s[from..from + len][x..x + n], s[from + x..from + x + n];
    assert forall k :: 0 <= k < n ==> a[k] == b[k];
  }

  /** Bytes written where one run goes leave the runs before it as they were. */
  lemma OtherRunsStay(files: seq<Bytes>, plan: Plan, r: nat, buf: Bytes, after: Bytes)
    requires Laid(plan.runs, plan.bytes) && r < |plan.runs| && ReadTo(files, plan, r, buf) && plan.bytes <= |buf|
    requires |after| == |buf| && after[..plan.runs[r].dst] == buf[..plan.runs[r].dst]
    ensures ReadTo(files, plan, r, after)
  {
    forall s | 0 <= s < r
      ensures RunRead(files, plan.runs[s], after)
    {
      var run := plan.runs[s];
      assert RunRead(files, run, buf);
      assert run.dst + run.length <= plan.runs[r].dst;
      assert after[run.dst..run.dst + run.needed] == after[..plan.runs[r].dst][run.dst..run.dst + run.needed];
      assert buf[run.dst..run.dst + run.needed] == buf[..plan.runs[r].dst][run.dst..run.dst + run.needed];
    }
  }

  // ---- The state ----

  ghost function ReadingSet(slots: seq<Entry>): set<nat> {
    set i: nat | i < |slots| && slots[i].state == Reading
  }

  /** The slots workers are reading. */
  ghost function BusySlots(workers: seq<Worker>): multiset<nat> {
    if workers == [] then multiset{} else BusySlots(workers[..|workers| - 1]) + BusySlot(workers[|workers| - 1])
  }

  ghost function BusySlot(worker: Worker): multiset<nat> {
    if worker.Busy? then multiset{worker.slot} else multiset{}
  }

  lemma {:induction false} BusyChanges(workers: seq<Worker>, w: nat, now: Worker)
    requires w < |workers|
    ensures BusySlots(workers[w := now]) + BusySlot(workers[w]) == BusySlots(workers) + BusySlot(now)
  {
    hide BusySlot;
    var n, after := |workers| - 1, workers[w := now];
    if w == n {
      assert after[..n] == workers[..n];
      Swapped(BusySlots(workers[..n]), BusySlot(now), BusySlot(workers[w]));
    } else {
      assert after[..n] == workers[..n][w := now] && after[n] == workers[n];
      BusyChanges(workers[..n], w, now);
      Swapped(BusySlots(after[..n]), BusySlot(workers[n]), BusySlot(workers[w]));
      Swapped(BusySlots(workers[..n]), BusySlot(workers[n]), BusySlot(now));
    }
  }

  lemma Swapped(a: multiset<nat>, b: multiset<nat>, c: multiset<nat>)
    ensures a + b + c == a + c + b
  {
  }

  lemma {:induction false} BusyIn(workers: seq<Worker>, w: nat)
    requires w < |workers| && workers[w].Busy?
    ensures workers[w].slot in BusySlots(workers)
  {
    if w < |workers| - 1 { BusyIn(workers[..|workers| - 1], w); }
  }

  lemma {:induction false} AllRest(workers: seq<Worker>)
    requires forall w :: 0 <= w < |workers| ==> workers[w].Resting?
    ensures BusySlots(workers) == multiset{}
  {
    if workers != [] { AllRest(workers[..|workers| - 1]); }
  }

  /** Runs the workers still have to read. */
  ghost function RunsLeft(slots: seq<Entry>, plans: seq<Plan>, workers: seq<Worker>): nat {
    if workers == [] then 0
    else RunsLeft(slots, plans, workers[..|workers| - 1]) + WorkerLeft(slots, plans, workers[|workers| - 1])
  }

  ghost function WorkerLeft(slots: seq<Entry>, plans: seq<Plan>, worker: Worker): nat {
    if worker.Busy? && worker.slot < |slots| && 0 <= slots[worker.slot].place < |plans|
       && worker.ok && worker.run <= |plans[slots[worker.slot].place].runs|
    then |plans[slots[worker.slot].place].runs| - worker.run else 0
  }

  /** Runs left depend on the slots' places alone. */
  lemma {:induction false} LeftChanges(a: seq<Entry>, b: seq<Entry>, plans: seq<Plan>, workers: seq<Worker>, w: nat,
      now: Worker)
    requires |a| == |b| && (forall i :: 0 <= i < |a| ==> a[i].place == b[i].place) && w < |workers|
    ensures RunsLeft(b, plans, workers[w := now]) + WorkerLeft(a, plans, workers[w]) ==
        RunsLeft(a, plans, workers) + WorkerLeft(b, plans, now)
  {
    var n := |workers| - 1;
    if w == n {
      assert workers[w := now][..n] == workers[..n];
      LeftSame(a, b, plans, workers[..n]);
    } else {
      assert workers[w := now][..n] == workers[..n][w := now];
      LeftChanges(a, b, plans, workers[..n], w, now);
    }
  }

  lemma {:induction false} LeftSame(a: seq<Entry>, b: seq<Entry>, plans: seq<Plan>, workers: seq<Worker>)
    requires |a| == |b| && (forall i :: 0 <= i < |a| ==> a[i].place == b[i].place)
    ensures RunsLeft(b, plans, workers) == RunsLeft(a, plans, workers)
  {
    if workers != [] { LeftSame(a, b, plans, workers[..|workers| - 1]); }
  }

  /** Each place's slot and each slot's place say the same. */
  ghost predicate Inverse(slots: seq<Entry>, location: seq<int>) {
    && (forall p :: 0 <= p < |location| ==>
          location[p] == -1 || (0 <= location[p] < |slots| && slots[location[p]].place == p))
    && (forall i :: 0 <= i < |slots| ==>
          slots[i].place == -1 || (0 <= slots[i].place < |location| && location[slots[i].place] == i))
  }

  /** A slot is empty when it has no place, and its users are the holds on its place. */
  ghost predicate Tallied(slots: seq<Entry>, location: seq<int>, held: multiset<nat>, slotBytes: nat) {
    && (forall i :: 0 <= i < |slots| ==>
          && (slots[i].state == Empty <==> slots[i].place == -1) && |slots[i].buf| == slotBytes
          && (slots[i].place == -1 ==> slots[i].users == 0)
          && (slots[i].place >= 0 ==> slots[i].users == held[slots[i].place]))
    && (forall p :: p in held ==> p < |location| && location[p] >= 0)
  }

  /** Each slot being read is queued once or held by one worker, and no other slot is either. */
  ghost predicate EachReadOnce(slots: seq<Entry>, waiting: seq<nat>, workers: seq<Worker>) {
    multiset(waiting) + BusySlots(workers) == multiset(ReadingSet(slots))
  }

  /**
   * A slot that is ready holds its place's runs, and a worker has read what it says it has. A slot
   * fails, and a worker gives up, only when the drive fell short.
   */
  ghost predicate Faithful(files: seq<Bytes>, plans: seq<Plan>, slots: seq<Entry>, workers: seq<Worker>,
      spoilt: set<int>)
  {
    && (forall i :: 0 <= i < |slots| && slots[i].state == Failed ==> slots[i].place in spoilt)
    && (forall i :: 0 <= i < |slots| && slots[i].state == Ready ==>
          0 <= slots[i].place < |plans| &&
              ReadTo(files, plans[slots[i].place], |plans[slots[i].place].runs|, slots[i].buf))
    && (forall w :: 0 <= w < |workers| && workers[w].Busy? ==>
          && workers[w].slot < |slots| && 0 <= slots[workers[w].slot].place < |plans|
          && workers[w].run <= |plans[slots[workers[w].slot].place].runs|
          && (!workers[w].ok ==> slots[workers[w].slot].place in spoilt)
          && (workers[w].ok ==>
              ReadTo(files, plans[slots[workers[w].slot].place], workers[w].run, slots[workers[w].slot].buf)))
  }

  /** What workers change: the buffers of slots being read, and that they are. */
  ghost predicate WorkersOnly(a: seq<Entry>, b: seq<Entry>) {
    && |a| == |b|
    && forall i :: 0 <= i < |a| ==>
         && b[i].place == a[i].place && b[i].users == a[i].users
         && (if a[i].state == Reading then b[i].state != Empty else b[i] == a[i])
  }

  lemma TakenOnce(slots: seq<Entry>, waiting: seq<nat>, workers: seq<Worker>, w: nat)
    requires EachReadOnce(slots, waiting, workers) && waiting != [] && w < |workers| && workers[w].Resting?
    ensures waiting[0] < |slots| && slots[waiting[0]].state == Reading
    ensures EachReadOnce(slots, waiting[1..], workers[w := Busy(waiting[0], 0, true)])
  {
    hide BusySlots;
    var i := waiting[0];
    BusyChanges(workers, w, Busy(i, 0, true));
    assert waiting == [i] + waiting[1..];
    Handed(multiset(waiting[1..]), multiset(waiting), BusySlots(workers),
        BusySlots(workers[w := Busy(i, 0, true)]), i);
    assert i in multiset(waiting) + BusySlots(workers);
    assert i in ReadingSet(slots);
  }

  lemma Handed(a: multiset<nat>, b: multiset<nat>, c: multiset<nat>, d: multiset<nat>, x: nat)
    requires b == multiset{x} + a && d + multiset{} == c + multiset{x}
    ensures a + d == b + c
  {
    assert d + multiset{} == d;
    assert a + (c + multiset{x}) == (multiset{x} + a) + c;
  }

  lemma NothingRead(files: seq<Bytes>, plan: Plan, buf: Bytes)
    ensures ReadTo(files, plan, 0, buf)
  {
  }

  /** No two workers read one slot, and what they read is being read. */
  lemma WorkersApart(slots: seq<Entry>, waiting: seq<nat>, workers: seq<Worker>, w: nat)
    requires EachReadOnce(slots, waiting, workers) && w < |workers| && workers[w].Busy?
    ensures workers[w].slot < |slots| && slots[workers[w].slot].state == Reading && workers[w].slot !in waiting
    ensures forall v :: 0 <= v < |workers| && v != w && workers[v].Busy? ==> workers[v].slot != workers[w].slot
  {
    var i := workers[w].slot;
    BusyIn(workers, w);
    assert i in multiset(ReadingSet(slots));
    assert multiset(waiting)[i] + BusySlots(workers)[i] == 1;
    assert multiset(waiting)[i] == 0;
    forall v | 0 <= v < |workers| && v != w && workers[v].Busy?
      ensures workers[v].slot != i
    {
      if workers[v].slot == i {
        BusyTwice(workers, Min(v, w), Max(v, w));
        assert false;
      }
    }
  }

  lemma {:induction false} BusyTwice(workers: seq<Worker>, v: nat, w: nat)
    requires v < w < |workers| && workers[v].Busy? && workers[w].Busy? && workers[v].slot == workers[w].slot
    ensures BusySlots(workers)[workers[v].slot] >= 2
  {
    if w == |workers| - 1 { BusyIn(workers[..w], v); } else { BusyTwice(workers[..|workers| - 1], v, w); }
  }

  /** A worker that is done leaves its slot ready, or failed. */
  lemma FinishedOnce(slots: seq<Entry>, waiting: seq<nat>, workers: seq<Worker>, w: nat, now: Entry)
    requires EachReadOnce(slots, waiting, workers) && w < |workers| && workers[w].Busy? && workers[w].slot < |slots|
    requires now.state != Reading
    ensures EachReadOnce(slots[workers[w].slot := now], waiting, workers[w := Resting])
  {
    hide BusySlots;
    var i := workers[w].slot;
    WorkersApart(slots, waiting, workers, w);
    BusyChanges(workers, w, Resting);
    assert ReadingSet(slots[i := now]) == ReadingSet(slots) - {i};
    Without(ReadingSet(slots), i);
    Rearrange(multiset(waiting), BusySlots(workers[w := Resting]), BusySlots(workers), i);
    Cancel(multiset(waiting) + BusySlots(workers[w := Resting]), multiset(ReadingSet(slots) - {i}), i);
  }

  lemma Rearrange(a: multiset<nat>, b: multiset<nat>, c: multiset<nat>, x: nat)
    requires b + multiset{x} == c + multiset{}
    ensures (a + b) + multiset{x} == a + c
  {
    assert c + multiset{} == c && (a + b) + multiset{x} == a + (b + multiset{x});
  }

  /** A slot whose read is over, ready with everything read or failed, keeps the rest. */
  lemma ReadOver(files: seq<Bytes>, plans: seq<Plan>, slots: seq<Entry>, waiting: seq<nat>, workers: seq<Worker>,
      w: nat, location: seq<int>, held: multiset<nat>, slotBytes: nat, spoilt: set<int>)
    requires Faithful(files, plans, slots, workers, spoilt) && EachReadOnce(slots, waiting, workers) && w < |workers| &&
        workers[w].Busy?
    requires Inverse(slots, location) && Tallied(slots, location, held, slotBytes)
    requires workers[w].slot < |slots| && 0 <= slots[workers[w].slot].place < |plans|
    requires workers[w].ok ==> workers[w].run == |plans[slots[workers[w].slot].place].runs|
    ensures var i := workers[w].slot;
            var b := slots[i := slots[i].(state := if workers[w].ok then Ready else Failed)];
            && Faithful(files, plans, b, workers[w := Resting], spoilt)
            && EachReadOnce(b, waiting, workers[w := Resting])
            && Inverse(b, location) && Tallied(b, location, held, slotBytes) && WorkersOnly(slots, b)
            && ReadingSet(b) == ReadingSet(slots) - {i} && i in ReadingSet(slots)
  {
    hide ReadTo;
    WorkersApart(slots, waiting, workers, w);
    var i := workers[w].slot;
    FinishedOnce(slots, waiting, workers, w, slots[i].(state := if workers[w].ok then Ready else Failed));
    hide EachReadOnce;
  }

  lemma BusySame(workers: seq<Worker>, w: nat, now: Worker)
    requires w < |workers| && workers[w].Busy? && now.Busy? && workers[w].slot == now.slot
    ensures BusySlots(workers[w := now]) == BusySlots(workers)
  {
    hide BusySlots;
    BusyChanges(workers, w, now);
    Cancel(BusySlots(workers[w := now]), BusySlots(workers), now.slot);
  }

  lemma Without(s: set<nat>, x: nat)
    requires x in s
    ensures multiset(s - {x}) + multiset{x} == multiset(s)
  {
  }

  lemma Cancel(a: multiset<nat>, b: multiset<nat>, x: nat)
    requires a + multiset{x} == b + multiset{x}
    ensures a == b
  {
    assert a + multiset{x} - multiset{x} == a;
    assert b + multiset{x} - multiset{x} == b;
  }

  /** A run read into its own part of the buffer: what was read stays, and no other slot is touched. */
  lemma ReadFaithful(files: seq<Bytes>, plans: seq<Plan>, slots: seq<Entry>, waiting: seq<nat>, workers: seq<Worker>,
      w: nat, after: Bytes, ok: bool, spoilt: set<int>)
    requires Faithful(files, plans, slots, workers, spoilt) && EachReadOnce(slots, waiting, workers) && w < |workers|
    requires workers[w].Busy? && workers[w].ok && workers[w].slot < |slots| &&
        0 <= slots[workers[w].slot].place < |plans|
    requires var i, r, plan := workers[w].slot, workers[w].run, plans[slots[workers[w].slot].place];
             && r < |plan.runs| && Laid(plan.runs, plan.bytes) && plan.bytes <= |slots[i].buf| == |after|
             && after[..plan.runs[r].dst] == slots[i].buf[..plan.runs[r].dst]
             && (ok ==> RunRead(files, plan.runs[r], after)) && (!ok ==> slots[i].place in spoilt)
    ensures Faithful(files, plans, slots[workers[w].slot := slots[workers[w].slot].(buf := after)],
        workers[w := Busy(workers[w].slot, workers[w].run + 1, ok)], spoilt)
  {
    hide RunRead;
    hide EachReadOnce;
    WorkersApart(slots, waiting, workers, w);
    var i := workers[w].slot;
    OtherRunsStay(files, plans[slots[i].place], workers[w].run, slots[i].buf, after);
  }

  /** Bytes written into a slot being read change nothing else. */
  lemma BytesWritten(a: seq<Entry>, i: nat, after: Bytes, location: seq<int>, held: multiset<nat>, slotBytes: nat)
    requires i < |a| && a[i].state == Reading && |after| == |a[i].buf|
    requires Inverse(a, location) && Tallied(a, location, held, slotBytes)
    ensures var b := a[i := a[i].(buf := after)];
            && ReadingSet(b) == ReadingSet(a) && WorkersOnly(a, b) && Inverse(b, location) &&
                Tallied(b, location, held, slotBytes)
            && forall x :: 0 <= x < |a| ==> a[x].place == b[x].place
  {
  }

  /** More calls spoil no fewer places, and a place fallen short of is spoilt. */
  lemma SpoiltGrows(files: seq<Bytes>, places: seq<seq<Extent>>, drive: nat -> int, calls: seq<Call>, now: seq<Call>,
      p: nat)
    requires calls <= now && p < |places|
    ensures SpoiltBy(files, places, drive, calls) <= SpoiltBy(files, places, drive, now)
    ensures CutOff(files, places[p]) || FellShort(drive, now, |calls|, p) ==> p in SpoiltBy(files, places, drive, now)
  {
    hide CutOff;
    forall q: int | FellShort(drive, calls, 0, q)
      ensures FellShort(drive, now, 0, q)
    {
      var k :| 0 <= k < |calls| && calls[k].place == q && drive(k) < calls[k].asked;
      assert now[k] == calls[k];
    }
  }

  lemma SpoiltMore(files: seq<Bytes>, places: seq<seq<Extent>>, drive: nat -> int, calls: seq<Call>, now: seq<Call>)
    requires calls <= now
    ensures SpoiltBy(files, places, drive, calls) <= SpoiltBy(files, places, drive, now)
  {
    if places != [] { SpoiltGrows(files, places, drive, calls, now, 0); }
  }

  lemma FaithfulStill(files: seq<Bytes>, plans: seq<Plan>, slots: seq<Entry>, workers: seq<Worker>, spoilt: set<int>,
      more: set<int>)
    requires Faithful(files, plans, slots, workers, spoilt) && spoilt <= more
    ensures Faithful(files, plans, slots, workers, more)
  {
    hide ReadTo;
  }

  lemma FaithfulTaken(files: seq<Bytes>, plans: seq<Plan>, slots: seq<Entry>, workers: seq<Worker>, spoilt: set<int>,
      w: nat, i: nat)
    requires Faithful(files, plans, slots, workers, spoilt) && w < |workers|
    requires i < |slots| && 0 <= slots[i].place < |plans|
    ensures Faithful(files, plans, slots, workers[w := Busy(i, 0, true)], spoilt)
  {
    hide ReadTo;
    NothingRead(files, plans[slots[i].place], slots[i].buf);
  }

  /** A file's r bytes from off + total on, written after the total bytes already there. */
  function Written(file: Bytes, off: nat, buf: Bytes, dst: nat, total: nat, r: nat): Bytes
    requires off + total + r <= |file| && dst + total + r <= |buf|
  {
    buf[..dst + total] + file[off + total..off + total + r] + buf[dst + total + r..]
  }

  lemma ReadsOn(file: Bytes, off: nat, buf: Bytes, dst: nat, total: nat, r: nat)
    requires off + total + r <= |file| && dst + total + r <= |buf|
    requires total > 0 ==> buf[dst..dst + total] == file[off..off + total]
    ensures var after := Written(file, off, buf, dst, total, r);
            && |after| == |buf| && after[..dst] == buf[..dst]
            && after[dst..dst + total + r] == file[off..off + total + r]
  {
    var after := Written(file, off, buf, dst, total, r);
    assert after[dst..dst + total + r] == buf[dst..dst + total] + file[off + total..off + total + r];
  }

  /**
   * A read of n bytes at off for a place: as many as the drive gives, whole
   * sectors at a time until one falls short or the file ends, or an error,
   * which may come after some are written. The drive's answers are numbered
   * by the calls made: so many bytes at most, or an error when negative.
   */
  method ReadFile(file: Bytes, off: nat, n: nat, buf: Bytes, dst: nat, drive: nat -> int, calls: seq<Call>, p: nat)
    returns (got: int, after: Bytes, now: seq<Call>)
    requires dst + n <= |buf|
    ensures |after| == |buf| && after[..dst] == buf[..dst] && -1 <= got <= n
    ensures got > 0 ==> off + got <= |file| && after[dst..dst + got] == file[off..off + got]
    ensures calls <= now && (got < n ==> off + got >= |file| || FellShort(drive, now, |calls|, p))
  {
    hide Written;
    var total := 0;
    after, now := buf, calls;
    while total < n
      invariant 0 <= total <= n && |after| == |buf| && after[..dst] == buf[..dst] && calls <= now
      invariant total > 0 ==> off + total <= |file| && after[dst..dst + total] == file[off..off + total]
    {
      var k, asked := |now|, n - total;
      now := now + [Call(p, asked)];
      assert now[k].place == p;
      if drive(k) < 0 { return -1, after, now; }
      var left := if off + total < |file| then |file| - (off + total) else 0;
      var r := Min(Min(drive(k), asked), left);
      if r > 0 {
        ReadsOn(file, off, after, dst, total, r);
        after := Written(file, off, after, dst, total, r);
      }
      total := total + r;
      if r == 0 || total % SECTOR != 0 { break; }
    }
    got := total;
  }

  /** A run read, or not: well only when everything needed came, which only the drive or the file's end prevents. */
  method ReadRun(files: seq<Bytes>, run: Run, buf: Bytes, drive: nat -> int, calls: seq<Call>, p: nat)
    returns (after: Bytes, ok: bool, now: seq<Call>)
    requires run.file < |files| && run.dst + run.length <= |buf| && 0 < run.needed <= run.length
    ensures |after| == |buf| && after[..run.dst] == buf[..run.dst] && (ok ==> RunRead(files, run, after))
    ensures calls <= now
    ensures !ok ==> |files[run.file]| < run.start + run.needed || FellShort(drive, now, |calls|, p)
  {
    var got;
    got, after, now := ReadFile(files[run.file], run.start, run.length, buf, run.dst, drive, calls, p);
    ok := got >= 0 && got >= run.needed;
    if ok {
      assert after[run.dst..run.dst + run.needed] == after[run.dst..run.dst + got][..run.needed];
      assert files[run.file][run.start..run.start + run.needed] ==
          files[run.file][run.start..run.start + got][..run.needed];
    }
  }

  /** What is left to do: slots being read, slots queued, runs, and workers who may yet fall asleep. */
  datatype Left = Left(reading: nat, len: nat, runs: nat, awake: nat)

  ghost predicate Closer(a: Left, b: Left) {
    b.reading < a.reading || (b.reading == a.reading &&
        (b.len < a.len || (b.len == a.len && (b.runs < a.runs || (b.runs == a.runs && b.awake < a.awake)))))
  }

  /** Only resting workers sleep, and not all of them while a read is queued. */
  ghost predicate Wakeful(asleep: seq<bool>, workers: seq<Worker>, len: nat) {
    && |asleep| == |workers| && (forall w :: 0 <= w < |asleep| && asleep[w] ==> workers[w].Resting?)
    && (len > 0 ==> exists w :: 0 <= w < |asleep| && !asleep[w])
  }

  /** What a signal does: one sleeper wakes, if there is any. */
  ghost predicate Signalled(a: seq<bool>, b: seq<bool>) {
    if b == a then forall w :: 0 <= w < |a| ==> !a[w] else exists w :: 0 <= w < |a| && a[w] && b == a[w := false]
  }

  lemma SignalWakes(a: seq<bool>, b: seq<bool>, workers: seq<Worker>, len: nat)
    requires Wakeful(a, workers, len) && Signalled(a, b) && |workers| >= 1
    ensures Wakeful(b, workers, len + 1)
  {
    if b == a {
      assert !b[0];
    } else {
      var w :| 0 <= w < |a| && a[w] && b == a[w := false];
      assert !b[w];
    }
  }

  /** A worker at work is awake, and stays so. */
  lemma StaysWakeful(asleep: seq<bool>, workers: seq<Worker>, len: nat, w: nat, now: Worker, left: nat)
    requires Wakeful(asleep, workers, len) && w < |workers| && !asleep[w]
    ensures Wakeful(asleep, workers[w := now], left)
  {
  }

  lemma SameIsWorkersOnly(a: seq<Entry>)
    ensures WorkersOnly(a, a)
  {
  }

  lemma WorkersOnlyTwice(a: seq<Entry>, b: seq<Entry>, c: seq<Entry>)
    requires WorkersOnly(a, b) && WorkersOnly(b, c)
    ensures WorkersOnly(a, c)
  {
  }

  /** A slot that may be given away: nobody holds it and nothing reads into it. */
  predicate Free(e: Entry) { e.users == 0 && e.state != Reading }

  /** A slot goes before another: empty before used, then less used, then unused longer. */
  predicate GoesBefore(a: Entry, b: Entry, uses: seq<nat>) {
    b.place != -1 && (a.place == -1
      || (0 <= a.place < |uses| && 0 <= b.place < |uses|
          && (uses[a.place] < uses[b.place] || (uses[a.place] == uses[b.place] && a.lastUse < b.lastUse))))
  }

  ghost predicate InCache(slots: seq<Entry>, p: nat) { exists x :: 0 <= x < |slots| && slots[x].place == p }

  ghost predicate BeingRead(slots: seq<Entry>, p: nat) {
    exists x :: 0 <= x < |slots| && slots[x].place == p && slots[x].state == Reading
  }

  ghost function Changed(was: seq<Entry>, now: seq<Entry>): set<nat>
    requires |was| == |now|
  {
    set x: nat | x < |was| && now[x] != was[x]
  }

  /**
   * All that was done is that so many slots were given away, each to be read for one of some
   * places, and none that is still free goes before one of them.
   */
  ghost predicate OnlyBegun(ids: seq<nat>, was: seq<Entry>, now: seq<Entry>, uses: seq<nat>, count: int) {
    && |was| == |now| && |Changed(was, now)| == count
    && (forall x :: 0 <= x < |now| && now[x] != was[x] ==>
          Free(was[x]) && now[x].place in ids && now[x].state == Reading && now[x].prefetched)
    && (forall x, y :: 0 <= x < |now| && now[x] != was[x] && 0 <= y < |now| && Free(now[y]) ==>
          !GoesBefore(now[y], was[x], uses))
  }

  lemma NoneBegun(ids: seq<nat>, slots: seq<Entry>, uses: seq<nat>)
    ensures OnlyBegun(ids, slots, slots, uses, 0)
  {
    assert Changed(slots, slots) == {};
  }

  lemma OneBegun(ids: seq<nat>, was: seq<Entry>, s: seq<Entry>, now: seq<Entry>, uses: seq<nat>, count: int, x: nat)
    requires OnlyBegun(ids, was, s, uses, count) && x < |s| == |now| && Free(s[x]) && now == s[x := now[x]]
    requires now[x].place in ids && now[x].state == Reading && now[x].prefetched
    requires forall y :: 0 <= y < |s| && Free(s[y]) ==> !GoesBefore(s[y], s[x], uses)
    ensures OnlyBegun(ids, was, now, uses, count + 1)
  {
    hide GoesBefore;
    assert Changed(was, now) == Changed(was, s) + {x};
  }

  lemma StillBeingRead(ids: seq<nat>, was: seq<Entry>, s: seq<Entry>, now: seq<Entry>, x: nat)
    requires x < |s| == |now| && Free(s[x]) && now == s[x := now[x]]
    requires forall n :: 0 <= n < |ids| ==> BeingRead(s, ids[n]) || InCache(was, ids[n])
    ensures forall n :: 0 <= n < |ids| ==> BeingRead(now, ids[n]) || InCache(was, ids[n])
    ensures now[x].place >= 0 && now[x].state == Reading ==> BeingRead(now, now[x].place)
  {
    forall n | 0 <= n < |ids| && BeingRead(s, ids[n]) ensures BeingRead(now, ids[n]) {
      var y :| 0 <= y < |s| && s[y].place == ids[n] && s[y].state == Reading;
      assert now[y] == s[y];
    }
  }

  /** A place that has a slot had it all along, unless it is being read. */
  lemma Found(ids: seq<nat>, was: seq<Entry>, now: seq<Entry>, uses: seq<nat>, count: int, p: nat, x: nat)
    requires OnlyBegun(ids, was, now, uses, count) && x < |now| && now[x].place == p
    ensures BeingRead(now, p) || InCache(was, p)
  {
    if now[x] == was[x] { assert was[x].place == p; }
  }

  /** A slot is given away before another: empty, or no more used and, if as much, no later. */
  predicate ComesFirst(a: Entry, b: Entry, uses: seq<nat>) {
    || a.place == -1
    || (0 <= a.place < |uses| && 0 <= b.place < |uses|
          && (if uses[a.place] == uses[b.place] then a.lastUse <= b.lastUse else uses[a.place] < uses[b.place]))
  }

  lemma NoneBefore(slots: seq<Entry>, uses: seq<nat>, best: nat)
    requires best < |slots| && forall i :: 0 <= i < |slots| ==> -1 <= slots[i].place < |uses|
    requires forall i :: 0 <= i < |slots| && Free(slots[i]) ==> !GoesBefore(slots[i], slots[best], uses)
    ensures forall i :: 0 <= i < |slots| && Free(slots[i]) ==> ComesFirst(slots[best], slots[i], uses)
  {
  }

  /** The slot to give away among the first n, none of them empty. */
  ghost predicate BestOf(slots: seq<Entry>, uses: seq<nat>, n: nat, best: int) {
    && n <= |slots| && -1 <= best < n && (best == -1 <==> forall i :: 0 <= i < n ==> !Free(slots[i]))
    && (best != -1 ==> Free(slots[best]) && slots[best].place >= 0)
    && (best != -1 ==> forall i :: 0 <= i < n && Free(slots[i]) ==> !GoesBefore(slots[i], slots[best], uses))
  }

  lemma NoneYet(slots: seq<Entry>, uses: seq<nat>)
    ensures BestOf(slots, uses, 0, -1)
  {
  }

  lemma EmptyIsBest(slots: seq<Entry>, uses: seq<nat>, i: nat)
    requires i < |slots| && Free(slots[i]) && slots[i].place == -1
    ensures forall k :: 0 <= k < |slots| ==> !GoesBefore(slots[k], slots[i], uses)
  {
  }

  lemma NextBest(slots: seq<Entry>, uses: seq<nat>, n: nat, best: int)
    requires BestOf(slots, uses, n, best) && n < |slots| && (Free(slots[n]) ==> slots[n].place >= 0)
    requires forall i :: 0 <= i < |slots| ==> -1 <= slots[i].place < |uses|
    ensures if Free(slots[n]) && (best < 0 || GoesBefore(slots[n], slots[best], uses))
            then BestOf(slots, uses, n + 1, n)
            else BestOf(slots, uses, n + 1, best)
  {
    hide Free;
    hide GoesBefore;
    NotBeforeItself(slots[n], uses);
    if Free(slots[n]) && best >= 0 && GoesBefore(slots[n], slots[best], uses) {
      forall i | 0 <= i < n && Free(slots[i])
        ensures !GoesBefore(slots[i], slots[n], uses)
      {
        BeforeBoth(slots[i], slots[best], slots[n], uses);
      }
    }
  }

  lemma NotBeforeItself(a: Entry, uses: seq<nat>)
    ensures !GoesBefore(a, a, uses)
  {
  }

  lemma BeforeBoth(a: Entry, b: Entry, c: Entry, uses: seq<nat>)
    requires !GoesBefore(a, b, uses) && GoesBefore(c, b, uses) && 0 <= c.place < |uses| && -1 <= a.place < |uses|
    requires 0 <= b.place < |uses|
    ensures !GoesBefore(a, c, uses)
  {
  }

  lemma BestOfAll(slots: seq<Entry>, uses: seq<nat>, best: int)
    requires BestOf(slots, uses, |slots|, best)
    ensures best == -1 <==> forall i :: 0 <= i < |slots| ==> !Free(slots[i])
    ensures best != -1 ==> Free(slots[best])
    ensures best != -1 ==> forall i :: 0 <= i < |slots| && Free(slots[i]) ==> !GoesBefore(slots[i], slots[best], uses)
  {
  }

  /** A place held all along stays where it is, and once read stays as read. */
  ghost predicate Steady(a: seq<Entry>, la: seq<int>, ha: multiset<nat>, b: seq<Entry>, lb: seq<int>, hb: multiset<nat>)
  {
    |a| == |b| && |la| == |lb|
    && forall p :: p in ha && p in hb ==>
         && p < |la| && 0 <= la[p] < |a| && lb[p] == la[p]
         && (a[la[p]].state == Ready ==> b[lb[p]].state == Ready && b[lb[p]].buf == a[la[p]].buf)
  }

  /** What a client sees of a place it holds: each part pointer shows exactly the drive's bytes of its part. */
  ghost predicate Shown(files: seq<Bytes>, places: seq<seq<Extent>>, slots: seq<Entry>, location: seq<int>, p: nat,
      out: seq<Pointer>)
  {
    && p < |places| && p < |location| && 0 <= location[p] < |slots| && slots[location[p]].state == Ready
    && |out| == |places[p]|
    && forall j :: 0 <= j < |out| ==>
          out[j].slot == location[p] &&
          ShowsPart(files, places[p][j], out[j].at, slots[location[p]].buf)
  }

  /** Everything a client has been shown. */
  type Views = map<nat, seq<Pointer>>

  ghost predicate AllShown(files: seq<Bytes>, places: seq<seq<Extent>>, slots: seq<Entry>, location: seq<int>,
      held: multiset<nat>, views: Views)
  {
    forall p <- views :: p in held && Shown(files, places, slots, location, p, views[p])
  }

  /** What was shown stays shown, to the byte, for as long as its place stays held. */
  lemma StaysShown(files: seq<Bytes>, places: seq<seq<Extent>>, a: seq<Entry>, la: seq<int>, ha: multiset<nat>,
                   b: seq<Entry>, lb: seq<int>, hb: multiset<nat>, views: Views)
    requires AllShown(files, places, a, la, ha, views) && Steady(a, la, ha, b, lb, hb)
    ensures AllShown(files, places, b, lb, hb, map p | p in views && p in hb :: views[p])
  {
  }

  lemma SteadyTwice(a: seq<Entry>, la: seq<int>, ha: multiset<nat>, b: seq<Entry>, lb: seq<int>, hb: multiset<nat>,
      c: seq<Entry>, lc: seq<int>, hc: multiset<nat>)
    requires Steady(a, la, ha, b, lb, hb) && Steady(b, lb, hb, c, lc, hc)
    requires forall p :: p in ha && p in hc ==> p in hb
    ensures Steady(a, la, ha, c, lc, hc)
  {
  }

  /** A slot put in the queue to be read, when it was not being read: the ring has room for it. */
  lemma QueuedOnce(slots: seq<Entry>, waiting: seq<nat>, workers: seq<Worker>, i: nat, now: Entry)
    requires EachReadOnce(slots, waiting, workers) && i < |slots| && slots[i].state != Reading && now.state == Reading
    ensures EachReadOnce(slots[i := now], waiting + [i], workers) && |waiting| < |slots|
    ensures ReadingSet(slots[i := now]) == ReadingSet(slots) + {i}
  {
    assert ReadingSet(slots[i := now]) == ReadingSet(slots) + {i};
    assert multiset(ReadingSet(slots) + {i}) == multiset(ReadingSet(slots)) + multiset{i};
    assert multiset(waiting + [i]) == multiset(waiting) + multiset{i};
    Below(ReadingSet(slots) + {i}, |slots|);
    assert |multiset(waiting)| <= |multiset(ReadingSet(slots))|;
  }

  /** A free slot given to a place that has none. */
  lemma GivenAway(slots: seq<Entry>, location: seq<int>, held: multiset<nat>, slotBytes: nat, i: nat, p: nat,
      now: Entry)
    requires Inverse(slots, location) && Tallied(slots, location, held, slotBytes) && i < |slots| && Free(slots[i])
    requires p < |location| && location[p] == -1 && now.place == p && now.state == Reading && now.users == 0 &&
        now.buf == slots[i].buf
    ensures var l := (if slots[i].place >= 0 then location[slots[i].place := -1] else location)[p := i];
            && slots[i].place < |location| && Inverse(slots[i := now], l) &&
                Tallied(slots[i := now], l, held, slotBytes)
            && Steady(slots, location, held, slots[i := now], l, held)
  {
  }

  lemma Gripped(slots: seq<Entry>, location: seq<int>, held: multiset<nat>, slotBytes: nat, p: nat)
    requires Inverse(slots, location) && Tallied(slots, location, held, slotBytes)
    requires p < |location| && 0 <= location[p] < |slots|
    ensures var b := slots[location[p] := slots[location[p]].(users := slots[location[p]].users + 1)];
            && Inverse(b, location) && Tallied(b, location, held + multiset{p}, slotBytes)
            && Steady(slots, location, held, b, location, held + multiset{p})
  {
  }

  lemma Touched(slots: seq<Entry>, location: seq<int>, held: multiset<nat>, slotBytes: nat, x: nat, now: Entry)
    requires Inverse(slots, location) && Tallied(slots, location, held, slotBytes) && x < |slots|
    requires now == slots[x].(prefetched := now.prefetched, lastUse := now.lastUse)
    ensures Inverse(slots[x := now], location) && Tallied(slots[x := now], location, held, slotBytes)
    ensures Steady(slots, location, held, slots[x := now], location, held)
  {
  }

  /** A slot whose read failed, given the read again. */
  lemma ReadingKeeps(slots: seq<Entry>, location: seq<int>, held: multiset<nat>, slotBytes: nat, x: nat)
    requires Inverse(slots, location) && Tallied(slots, location, held, slotBytes)
    requires x < |slots| && slots[x].state == Failed
    ensures var b := slots[x := slots[x].(state := Reading)];
            && Inverse(b, location) && Tallied(b, location, held, slotBytes)
            && Steady(slots, location, held, b, location, held)
  {
  }

  /** A change to who uses a slot, or when it was used, changes nothing about its bytes. */
  lemma BytesStay(files: seq<Bytes>, plans: seq<Plan>, slots: seq<Entry>, waiting: seq<nat>, workers: seq<Worker>,
      i: nat, now: Entry, spoilt: set<int>)
    requires EachReadOnce(slots, waiting, workers) && Faithful(files, plans, slots, workers, spoilt) && i < |slots|
    requires now.place == slots[i].place && now.state == slots[i].state && now.buf == slots[i].buf
    ensures EachReadOnce(slots[i := now], waiting, workers) && Faithful(files, plans, slots[i := now], workers, spoilt)
  {
    hide ReadTo;
    assert ReadingSet(slots[i := now]) == ReadingSet(slots);
  }

  lemma SplitIds(ids: seq<nat>, i: nat)
    requires i < |ids|
    ensures multiset(ids[..i + 1]) == multiset(ids[..i]) + multiset{ids[i]}
    ensures multiset(ids[i..]) == multiset{ids[i]} + multiset(ids[i + 1..])
  {
    assert ids[i..] == [ids[i]] + ids[i + 1..] && ids[..i + 1] == ids[..i] + [ids[i]];
  }

  /** One more of a call's holds let go of. */
  lemma OneLess(all: multiset<nat>, held: multiset<nat>, ids: seq<nat>, i: nat)
    requires i < |ids| && held + multiset(ids[..i]) == all && multiset(ids[i..]) <= held
    ensures ids[i] in held && held - multiset{ids[i]} <= held
    ensures (held - multiset{ids[i]}) + multiset(ids[..i + 1]) == all
    ensures multiset(ids[i + 1..]) <= held - multiset{ids[i]}
  {
    SplitIds(ids, i);
    var x, a, b := ids[i], multiset(ids[..i]), multiset(ids[i + 1..]);
    assert x in multiset(ids[i..]);
    assert (held - multiset{x}) + (a + multiset{x}) == held + a;
  }

  lemma AllLess(held: multiset<nat>, all: multiset<nat>, ids: seq<nat>)
    requires held + multiset(ids) == all
    ensures held == all - multiset(ids)
  {
  }

  /** A hold let go of: one user less, and a slot whose read failed emptied with its last. */
  function Released(e: Entry): Entry
    requires e.users > 0
  {
    e.(users := e.users - 1)
  }

  function LetGoOf(e: Entry): Entry
    requires e.users > 0
  {
    var f := Released(e);
    if f.state == Failed && f.users == 0 then f.(place := -1, state := Empty, prefetched := false) else f
  }

  /** Letting go keeps the tables right. */
  lemma LettingGo(slots: seq<Entry>, location: seq<int>, held: multiset<nat>, slotBytes: nat, p: nat, empties: bool)
    requires Inverse(slots, location) && Tallied(slots, location, held, slotBytes) && p in held
    ensures p < |location| && 0 <= location[p] < |slots| && slots[location[p]].users > 0
    ensures var x := location[p];
            var now := if empties then LetGoOf(slots[x]) else Released(slots[x]);
            var l := if now.place == -1 then location[p := -1] else location;
            && Inverse(slots[x := now], l) && Tallied(slots[x := now], l, held - multiset{p}, slotBytes)
            && Steady(slots, location, held, slots[x := now], l, held - multiset{p})
  {
    var x := location[p];
    var now := if empties then LetGoOf(slots[x]) else Released(slots[x]);
    hide LetGoOf;
    hide Released;
    if now.place == -1 {
      EmptiedInverse(slots, location, x, now);
      EmptiedTally(slots, location, held, slotBytes, p, now);
    } else {
      SharedTally(slots, location, held, slotBytes, p, now);
    }
  }

  lemma EmptiedInverse(slots: seq<Entry>, location: seq<int>, x: nat, now: Entry)
    requires Inverse(slots, location) && x < |slots| && slots[x].place >= 0 && now.place == -1
    ensures Inverse(slots[x := now], location[slots[x].place := -1])
  {
  }

  lemma EmptiedTally(slots: seq<Entry>, location: seq<int>, held: multiset<nat>, slotBytes: nat, p: nat, now: Entry)
    requires Inverse(slots, location) && Tallied(slots, location, held, slotBytes) && p in held
    requires p < |location| && 0 <= location[p] < |slots| && held[p] == 1
    requires now.state == Empty && now.place == -1 && now.users == 0 && |now.buf| == slotBytes
    ensures Tallied(slots[location[p] := now], location[p := -1], held - multiset{p}, slotBytes)
    ensures Steady(slots, location, held, slots[location[p] := now], location[p := -1], held - multiset{p})
  {
  }

  lemma SharedTally(slots: seq<Entry>, location: seq<int>, held: multiset<nat>, slotBytes: nat, p: nat, now: Entry)
    requires Inverse(slots, location) && Tallied(slots, location, held, slotBytes) && p in held
    requires p < |location| && 0 <= location[p] < |slots|
    requires now == slots[location[p]].(users := slots[location[p]].users - 1)
    ensures Inverse(slots[location[p] := now], location)
    ensures Tallied(slots[location[p] := now], location, held - multiset{p}, slotBytes)
    ensures Steady(slots, location, held, slots[location[p] := now], location, held - multiset{p})
  {
  }

  /** A slot that is not being read, emptied or with other users, changes nothing being read and nothing read. */
  lemma NotReadStays(files: seq<Bytes>, plans: seq<Plan>, slots: seq<Entry>, waiting: seq<nat>, workers: seq<Worker>,
      x: nat, now: Entry, spoilt: set<int>)
    requires EachReadOnce(slots, waiting, workers) && Faithful(files, plans, slots, workers, spoilt) && x < |slots|
    requires now == slots[x].(users := now.users) || (slots[x].state != Reading && now.state == Empty)
    ensures EachReadOnce(slots[x := now], waiting, workers) && Faithful(files, plans, slots[x := now], workers, spoilt)
  {
    hide ReadTo;
    assert ReadingSet(slots[x := now]) == ReadingSet(slots);
    forall w | 0 <= w < |workers| && workers[w].Busy?
      ensures workers[w].slot == x ==> slots[x].state == Reading
    {
      WorkersApart(slots, waiting, workers, w);
    }
  }

  class Stream {
    const files: seq<Bytes>
    const places: seq<seq<Extent>>
    const plans: seq<Plan>
    const slotBytes: nat
    const drive: nat -> int
    var slots: seq<Entry>
    var location: seq<int>
    var uses: seq<nat>
    var ring: seq<nat>
    var head: nat
    var len: nat
    var workers: seq<Worker>
    var clock: nat
    var acquired: nat
    var hits: nat
    var inFlight: nat
    var misses: nat
    var prefetched: nat
    var prefetchUsed: nat
    var readsDone: nat
    var asleep: seq<bool>
    var held: multiset<nat>
    var calls: seq<Call>

    ghost predicate PlansFit() {
      && |plans| == |places|
      && forall p :: 0 <= p < |plans| ==>
            Readable(places[p], |files|) && Plans(places[p], plans[p]) &&
            plans[p].bytes <= slotBytes
    }

    ghost predicate RingFits() reads `ring, `head, `len, `slots { |ring| == |slots| && head < |ring| && len <= |ring| }

    ghost function Waiting(): seq<nat> requires RingFits() reads `ring, `head, `len, `slots { Queued(ring, head, len) }

    /** The places a read of which may have failed so far. */
    ghost function Spoilt(): set<int> reads `calls { SpoiltBy(files, places, drive, calls) }

    /** What every step keeps, the worker's and the client's. */
    ghost predicate Valid() reads `slots, `workers, `asleep, `ring, `head, `len, `location, `uses, `held, `calls {
      && PlansFit() && |slots| >= 2 && |workers| >= 1 && RingFits() && |location| == |places| == |uses|
      && Inverse(slots, location) && Tallied(slots, location, held, slotBytes)
      && EachReadOnce(slots, Waiting(), workers) && Faithful(files, plans, slots, workers, Spoilt())
      && Wakeful(asleep, workers, len)
    }

    /** Every acquisition is a hit, a wait for a read begun, or a miss; and no count of uses can outgrow 32 bits. */
    ghost predicate Counted() reads `acquired, `hits, `inFlight, `misses, `uses {
      && acquired == hits + inFlight + misses
      && forall p :: 0 <= p < |uses| ==> uses[p] <= 65536 + acquired % 65536
    }

    // ---- Workers ----

    /** A worker that rests and finds nothing queued sleeps. */
    method WorkerDozes(w: nat)
      requires Valid() && w < |workers| && !asleep[w] && workers[w].Resting? && len == 0
      modifies `asleep
      ensures Valid() && asleep == old(asleep)[w := true]
    {
      hide SpoiltBy;
      hide EachReadOnce;
      hide Faithful;
      hide Inverse;
      hide Tallied;
      asleep := asleep[w := true];
    }

    /** Wake one sleeping worker, if any. */
    method Signal()
      modifies `asleep
      ensures Signalled(old(asleep), asleep)
    {
      if exists w :: 0 <= w < |asleep| && asleep[w] {
        var w :| 0 <= w < |asleep| && asleep[w];
        asleep := asleep[w := false];
      }
    }

    /** A worker that rests takes the slot at the head of the queue. */
    method WorkerTakes(w: nat)
      requires Valid() && w < |workers| && !asleep[w] && workers[w].Resting? && len > 0
      modifies `head, `len, `workers
      ensures Valid() && len == old(len) - 1
      ensures Waiting() == old(Waiting())[1..] && workers == old(workers)[w := Busy(old(Waiting())[0], 0, true)]
    {
      hide SpoiltBy;
      hide EachReadOnce;
      hide Queued;
      hide ReadTo;
      hide Slot;
      Pop(ring, head, len);
      TakenOnce(slots, Waiting(), workers, w);
      FaithfulTaken(files, plans, slots, workers, Spoilt(), w, ring[head]);
      hide Faithful;
      StaysWakeful(asleep, workers, len, w, Busy(ring[head], 0, true), len - 1);
      hide Wakeful;
      workers := workers[w := Busy(ring[head], 0, true)];
      head, len := Slot(|ring|, head, 1), len - 1;
    }

    /** A busy worker reads its next run, outside the lock: it touches only its own slot's bytes. */
    method WorkerReads(w: nat)
      requires Valid() && w < |workers| && workers[w].Busy? && workers[w].ok
      requires workers[w].slot < |slots| && 0 <= slots[workers[w].slot].place < |plans|
      requires workers[w].run < |plans[slots[workers[w].slot].place].runs|
      modifies `slots, `workers, `calls
      ensures Valid() && WorkersOnly(old(slots), slots) && ReadingSet(slots) == old(ReadingSet(slots))
      ensures old(calls) <= calls
      ensures RunsLeft(slots, plans, workers) < old(RunsLeft(slots, plans, workers))
    {
      hide *;
      var i := workers[w].slot;
      var p := slots[i].place;
      RunFits(p, workers[w].run, i);
      var after, ok, now := ReadRun(files, plans[p].runs[workers[w].run], slots[i].buf, drive, calls, p);
      MissedIsSpoilt(p, workers[w].run, now, ok);
      WorkerRead(w, i, p, after, ok, now);
    }

    /** A read that failed spoilt its place. */
    lemma MissedIsSpoilt(p: nat, r: nat, now: seq<Call>, ok: bool)
      requires Valid() && p < |plans| && r < |plans[p].runs| && calls <= now
      requires plans[p].runs[r].file < |files|
      requires ok || |files[plans[p].runs[r].file]| < plans[p].runs[r].start + plans[p].runs[r].needed
          || FellShort(drive, now, |calls|, p)
      ensures Spoilt() <= SpoiltBy(files, places, drive, now)
      ensures !ok ==> p in SpoiltBy(files, places, drive, now)
    {
      hide SpoiltBy;
      hide FellShort;
      hide Faithful;
      hide EachReadOnce;
      SpoiltGrows(files, places, drive, calls, now, p);
      assert Tight(places[p], plans[p].runs[r]);
    }

    method WorkerRead(w: nat, i: nat, p: nat, after: Bytes, ok: bool, now: seq<Call>)
      requires Valid() && w < |workers| && workers[w].Busy? && workers[w].ok && workers[w].slot == i
      requires i < |slots| && p < |plans| && slots[i].place == p && workers[w].run < |plans[p].runs|
      requires var run := plans[p].runs[workers[w].run];
               && |after| == |slots[i].buf| == slotBytes && run.dst <= slotBytes &&
                   after[..run.dst] == slots[i].buf[..run.dst]
               && (ok ==> RunRead(files, run, after))
      requires calls <= now && Spoilt() <= SpoiltBy(files, places, drive, now)
      requires !ok ==> p in SpoiltBy(files, places, drive, now)
      modifies `slots, `workers, `calls
      ensures Valid() && WorkersOnly(old(slots), slots) && ReadingSet(slots) == old(ReadingSet(slots)) && calls == now
      ensures RunsLeft(slots, plans, workers) < old(RunsLeft(slots, plans, workers))
    {
      hide Faithful;
      hide Inverse;
      hide Tallied;
      hide Queued;
      hide RunsLeft;
      hide RunRead;
      hide BusySlots;
      hide ReadingSet;
      hide WorkersOnly;
      hide Plans;
      hide SpoiltBy;
      var r := workers[w].run;
      ghost var spoilt := SpoiltBy(files, places, drive, now);
      PlanLaid(p);
      WorkersApart(slots, Waiting(), workers, w);
      FaithfulStill(files, plans, slots, workers, Spoilt(), spoilt);
      ReadFaithful(files, plans, slots, Waiting(), workers, w, after, ok, spoilt);
      BytesWritten(slots, i, after, location, held, slotBytes);
      LeftChanges(slots, slots[i := slots[i].(buf := after)], plans, workers, w, Busy(i, r + 1, ok));
      BusySame(workers, w, Busy(i, r + 1, ok));
      StaysWakeful(asleep, workers, len, w, Busy(i, r + 1, ok), len);
      hide Wakeful;
      slots := slots[i := slots[i].(buf := after)];
      workers := workers[w := Busy(i, r + 1, ok)];
      calls := now;
    }

    lemma PlanLaid(p: nat)
      requires PlansFit() && p < |plans|
      ensures Laid(plans[p].runs, plans[p].bytes) && plans[p].bytes <= slotBytes
    {
    }

    lemma RunFits(p: nat, r: nat, i: nat)
      requires Valid() && p < |plans| && r < |plans[p].runs| && i < |slots|
      ensures plans[p].runs[r].file < |files| && plans[p].runs[r].dst + plans[p].runs[r].length <= slotBytes
      ensures 0 < plans[p].runs[r].needed <= plans[p].runs[r].length && |slots[i].buf| == slotBytes
    {
      hide Faithful;
      hide EachReadOnce;
      hide Inverse;
      hide SpoiltBy;
      assert Tight(places[p], plans[p].runs[r]);
    }

    /** A worker that has read everything, or failed, says so. */
    method WorkerFinishes(w: nat)
      requires Valid() && w < |workers| && workers[w].Busy?
      requires workers[w].slot < |slots| && 0 <= slots[workers[w].slot].place < |plans|
      requires workers[w].ok ==> workers[w].run == |plans[slots[workers[w].slot].place].runs|
      modifies `slots, `workers, `readsDone
      ensures Valid() && WorkersOnly(old(slots), slots) && workers == old(workers)[w := Resting]
      ensures ReadingSet(slots) == old(ReadingSet(slots)) - {old(workers[w].slot)} &&
          old(workers[w].slot) in old(ReadingSet(slots))
    {
      hide SpoiltBy;
      hide Faithful;
      hide Inverse;
      hide Tallied;
      hide EachReadOnce;
      hide Queued;
      hide ReadingSet;
      hide WorkersOnly;
      var i := workers[w].slot;
      ReadOver(files, plans, slots, Waiting(), workers, w, location, held, slotBytes, Spoilt());
      StaysWakeful(asleep, workers, len, w, Resting, len);
      hide Wakeful;
      readsDone := readsDone + |plans[slots[i].place].runs|;
      slots := slots[i := slots[i].(state := if workers[w].ok then Ready else Failed)];
      workers := workers[w := Resting];
    }

    /** What is left for the workers to do. */
    ghost function LeftNow(): Left reads `slots, `workers, `asleep, `len {
      Left(|ReadingSet(slots)|, len, RunsLeft(slots, plans, workers), Awake(asleep))
    }

    /** Whether a worker is awake: it goes on, or falls asleep. */
    predicate CanStep(w: nat) reads `workers, `asleep { w < |workers| == |asleep| && !asleep[w] }

    lemma WorkerFits(w: nat)
      requires Valid() && w < |workers| && workers[w].Busy?
      ensures workers[w].slot < |slots| && 0 <= slots[workers[w].slot].place < |plans|
      ensures workers[w].run <= |plans[slots[workers[w].slot].place].runs|
    {
      hide SpoiltBy;
    }

    /** Whatever one worker does next, and whether it was to finish a read and wake who waits for one. */
    method WorkerStep(w: nat) returns (finished: bool)
      requires Valid() && CanStep(w)
      modifies `slots, `workers, `asleep, `head, `len, `readsDone, `calls
      ensures Valid() && WorkersOnly(old(slots), slots) && Closer(old(LeftNow()), LeftNow()) && old(calls) <= calls
      ensures finished <==> ReadingSet(slots) != old(ReadingSet(slots))
    {
      hide SpoiltBy;
      hide Valid;
      hide RunsLeft;
      hide ReadingSet;
      hide Awake;
      finished := false;
      if workers[w].Resting? {
        if len > 0 {
          WorkerTakes(w);
        } else {
          AwakeChanges(asleep, w, true);
          WorkerDozes(w);
        }
      } else {
        WorkerFits(w);
        if workers[w].ok && workers[w].run < |plans[slots[workers[w].slot].place].runs| {
          WorkerReads(w);
        } else {
          WorkerFinishes(w);
          finished := true;
        }
      }
    }

    /** While a slot is being read, some worker is awake: no signal is lost. */
    lemma SomeWorkerCan() returns (w: nat)
      requires Valid() && ReadingSet(slots) != {}
      ensures CanStep(w)
    {
      hide SpoiltBy;
      if exists v :: 0 <= v < |workers| && workers[v].Busy? {
        w :| 0 <= w < |workers| && workers[w].Busy?;
      } else {
        AllRest(workers);
        assert |multiset(Waiting())| == |multiset(ReadingSet(slots))|;
        w :| 0 <= w < |asleep| && !asleep[w];
      }
    }

    /**
     * The client sleeps until a read has finished, which wakes it; by the
     * time it has the lock again workers may have done more.
     */
    method WaitDone()
      requires Valid() && ReadingSet(slots) != {}
      modifies `slots, `workers, `asleep, `head, `len, `readsDone, `calls
      ensures Valid() && WorkersOnly(old(slots), slots) && Closer(old(LeftNow()), LeftNow()) && old(calls) <= calls
    {
      hide SpoiltBy;
      hide Valid;
      hide RunsLeft;
      hide ReadingSet;
      hide WorkersOnly;
      hide Awake;
      SameIsWorkersOnly(slots);
      var woken := false;
      while !woken
        invariant Valid() && WorkersOnly(old(slots), slots) && old(calls) <= calls
        invariant if woken then Closer(old(LeftNow()), LeftNow()) else ReadingSet(slots) == old(ReadingSet(slots))
        invariant LeftNow() == old(LeftNow()) || Closer(old(LeftNow()), LeftNow())
        decreases LeftNow().reading, LeftNow().len, LeftNow().runs, LeftNow().awake
      {
        ghost var can := SomeWorkerCan();
        ghost var was := slots;
        var w: nat :| CanStep(w);
        woken := WorkerStep(w);
        WorkersOnlyTwice(old(slots), was, slots);
      }
      var more: bool := *;
      while more && exists v: nat :: v < |workers| && CanStep(v)
        invariant Valid() && WorkersOnly(old(slots), slots) && Closer(old(LeftNow()), LeftNow())
        invariant old(calls) <= calls
        decreases LeftNow().reading, LeftNow().len, LeftNow().runs, LeftNow().awake
      {
        var w: nat :| w < |workers| && CanStep(w);
        ghost var was := slots;
        var finished := WorkerStep(w);
        WorkersOnlyTwice(old(slots), was, slots);
        more := *;
      }
    }

    // ---- The client ----

    /** The slot to give away: free, and none goes before it. -1 when none is free. */
    method FreeSlot() returns (best: int)
      requires Valid()
      ensures best == -1 <==> forall i :: 0 <= i < |slots| ==> !Free(slots[i])
      ensures best != -1 ==> 0 <= best < |slots| && Free(slots[best])
      ensures best != -1 ==> forall i :: 0 <= i < |slots| && Free(slots[i]) ==> !GoesBefore(slots[i], slots[best], uses)
      ensures best != -1 ==> forall i :: 0 <= i < |slots| && Free(slots[i]) ==> ComesFirst(slots[best], slots[i], uses)
    {
      hide *;
      PlacesCounted();
      best := -1;
      NoneYet(slots, uses);
      var i := 0;
      while i < |slots|
        invariant i <= |slots| && -1 <= best < i && BestOf(slots, uses, i, best)
      {
        if Free(slots[i]) && slots[i].place < 0 {
          EmptyIsBest(slots, uses, i);
          NoneBefore(slots, uses, i);
          return i;
        }
        NextBest(slots, uses, i, best);
        if Free(slots[i]) {
          if best < 0 || GoesBefore(slots[i], slots[best], uses) { best := i; }
        }
        i := i + 1;
      }
      BestOfAll(slots, uses, best);
      if best >= 0 { NoneBefore(slots, uses, best); }
    }

    lemma PlacesCounted()
      requires Valid()
      ensures forall i :: 0 <= i < |slots| ==> -1 <= slots[i].place < |uses|
    {
    }

    /** A slot's read is queued, and a worker that sleeps is woken for it. */
    method Queue(i: nat, now: Entry, l: seq<int>)
      requires Valid() && i < |slots| && slots[i].state != Reading && now.state == Reading && |l| == |location|
      requires Inverse(slots[i := now], l) && Tallied(slots[i := now], l, held, slotBytes)
      modifies `slots, `asleep, `location, `ring, `len
      ensures Valid() && slots == old(slots)[i := now] && location == l
    {
      hide SpoiltBy;
      hide Faithful;
      hide Inverse;
      hide Tallied;
      hide EachReadOnce;
      hide Queued;
      hide Slot;
      hide Wakeful;
      QueuedOnce(slots, Waiting(), workers, i, now);
      FaithfulGiven(i, now);
      hide PlansFit;
      Push(ring, head, len, i);
      ghost var a := asleep;
      Signal();
      SignalWakes(a, asleep, workers, len);
      hide Signalled;
      slots, location := slots[i := now], l;
      ring, len := ring[Slot(|ring|, head, len) := i], len + 1;
    }

    /** A slot is given to a place, and its read queued. */
    method StartRead(i: nat, p: nat, prefetch: bool)
      requires Valid() && i < |slots| && Free(slots[i]) && p < |places| && location[p] == -1
      modifies `slots, `asleep, `location, `ring, `len, `clock
      ensures Valid() && location[p] == i && slots[i].place == p && slots[i].state == Reading
      ensures slots[i].prefetched == prefetch && slots == old(slots)[i := slots[i]]
      ensures Steady(old(slots), old(location), held, slots, location, held)
    {
      var x := slots[i];
      var now := x.(place := p, state := Reading, prefetched := prefetch, lastUse := clock + 1);
      GivenAway(slots, location, held, slotBytes, i, p, now);
      SizesOf();
      hide Valid;
      hide Steady;
      hide Inverse;
      hide Tallied;
      var l := if x.place >= 0 then location[x.place := -1] else location;
      clock := clock + 1;
      Queue(i, now, l[p := i]);
    }

    lemma SizesOf()
      requires Valid()
      ensures |location| == |places|
    {
      hide SpoiltBy;
    }

    lemma FaithfulGiven(i: nat, now: Entry)
      requires Valid() && i < |slots| && slots[i].state != Reading && now.state == Reading
      ensures Faithful(files, plans, slots[i := now], workers, Spoilt())
    {
      hide SpoiltBy;
      forall w | 0 <= w < |workers| && workers[w].Busy?
        ensures workers[w].slot != i
      {
        WorkersApart(slots, Waiting(), workers, w);
      }
    }

    /**
     * With fewer holds than slots and none free, some slot nobody holds is being read, so a waiting
     * hold will find one.
     */
    lemma UnheldIsRead() returns (i: nat)
      requires Valid() && |held| < |slots| && forall k :: 0 <= k < |slots| ==> !Free(slots[k])
      ensures i < |slots| && slots[i].users == 0 && slots[i].state == Reading && i in ReadingSet(slots)
    {
      hide SpoiltBy;
      var used := set k: nat | k < |slots| && slots[k].users > 0;
      hide EachReadOnce;
      hide Faithful;
      UsedAreHeld(used, held);
      i := OneLeft(used, |slots|);
    }

    /** Slots in use are no more than the holds. */
    lemma {:induction false} UsedAreHeld(used: set<nat>, h: multiset<nat>)
      requires Inverse(slots, location)
      requires forall k <- used :: k < |slots| && slots[k].place >= 0 && slots[k].place in h
      ensures |used| <= |h|
      decreases |used|
    {
      if used != {} {
        var k :| k in used;
        UsedAreHeld(used - {k}, h - multiset{slots[k].place});
      }
    }

    method Halve()
      requires Valid()
      modifies `uses
      ensures Valid() && forall q :: 0 <= q < |uses| ==> uses[q] == old(uses)[q] / 2
    {
      hide SpoiltBy;
      hide Inverse;
      hide Tallied;
      hide EachReadOnce;
      hide Faithful;
      var q := 0;
      while q < |uses|
        invariant q <= |uses| == |old(uses)|
        invariant forall k :: 0 <= k < |uses| ==> uses[k] == if k < q then old(uses)[k] / 2 else old(uses)[k]
      {
        uses := uses[q := uses[q] / 2];
        q := q + 1;
      }
    }

    /** A use is counted; every 65536 acquisitions the counts halve. */
    method CountUse(p: nat)
      requires Valid() && Counted() && p < |places|
      modifies `acquired, `uses
      ensures Valid() && acquired == old(acquired) + 1
      ensures forall q :: 0 <= q < |uses| ==> uses[q] <= 65536 + acquired % 65536
      ensures forall q :: 0 <= q < |uses| ==>
                uses[q] == (old(uses)[q] + (if q == p then 1 else 0)) / (if acquired % 65536 == 0 then 2 else 1)
    {
      hide SpoiltBy;
      hide Inverse;
      hide Tallied;
      hide EachReadOnce;
      hide Faithful;
      NextCount(acquired);
      acquired := acquired + 1;
      uses := uses[p := uses[p] + 1];
      if acquired % 65536 == 0 { Halve(); }
    }

    lemma NextCount(n: nat)
      ensures (n + 1) % 65536 == if n % 65536 == 65535 then 0 else n % 65536 + 1
    {
    }

    /** One more hold on a place that has a slot. */
    method Grip(p: nat)
      requires Valid() && p < |places| && location[p] >= 0
      modifies `slots, `held
      ensures Valid() && held == old(held) + multiset{p} &&
          Steady(old(slots), location, old(held), slots, location, held)
      ensures location[p] < |slots| == |old(slots)| &&
          slots[location[p]] == old(slots)[location[p]].(users := slots[location[p]].users)
    {
      hide SpoiltBy;
      hide EachReadOnce;
      hide Faithful;
      hide Inverse;
      hide Tallied;
      hide Steady;
      hide PlansFit;
      hide Queued;
      hide Wakeful;
      PlaceHasState(p);
      var x := location[p];
      BytesStay(files, plans, slots, Waiting(), workers, x, slots[x].(users := slots[x].users + 1), Spoilt());
      Gripped(slots, location, held, slotBytes, p);
      slots := slots[x := slots[x].(users := slots[x].users + 1)];
      held := held + multiset{p};
    }

    /** A slot for a place that has none: the best of the free ones, once there is one. */
    method Obtain(p: nat) returns (x: nat)
      requires Valid() && p < |places| && location[p] == -1 && |held| < |slots|
      modifies `slots, `workers, `asleep, `head, `len, `readsDone, `calls
      ensures Valid() && x < |slots| && Free(slots[x]) && WorkersOnly(old(slots), slots) && old(calls) <= calls
      ensures forall i :: 0 <= i < |slots| && Free(slots[i]) ==> !GoesBefore(slots[i], slots[x], uses)
    {
      hide SpoiltBy;
      hide Valid;
      hide RunsLeft;
      hide ReadingSet;
      hide GoesBefore;
      hide Free;
      var best := FreeSlot();
      SameIsWorkersOnly(slots);
      hide WorkersOnly;
      while best < 0
        invariant Valid() && WorkersOnly(old(slots), slots) && old(calls) <= calls
        invariant best == -1 <==> forall i :: 0 <= i < |slots| ==> !Free(slots[i])
        invariant best != -1 ==> 0 <= best < |slots| && Free(slots[best])
        invariant best != -1 ==> forall i :: 0 <= i < |slots| && Free(slots[i]) ==>
            !GoesBefore(slots[i], slots[best], uses)
        decreases LeftNow().reading, LeftNow().len, LeftNow().runs, LeftNow().awake
      {
        ghost var i := UnheldIsRead();
        ghost var was := slots;
        WaitDone();
        WorkersOnlyTwice(old(slots), was, slots);
        best := FreeSlot();
      }
      x := best;
    }

    /** A place whose read failed is read again. */
    method ReadAgain(x: nat)
      requires Valid() && x < |slots| && slots[x].state == Failed && slots[x].users == 0
      modifies `slots, `asleep, `location, `ring, `len
      ensures Valid() && location == old(location) && |slots| == |old(slots)|
      ensures Steady(old(slots), location, held, slots, location, held)
    {
      hide *;
      MayReadAgain(x);
      Queue(x, slots[x].(state := Reading), location);
    }

    lemma MayReadAgain(x: nat)
      requires Valid() && x < |slots| && slots[x].state == Failed
      ensures var b := slots[x := slots[x].(state := Reading)];
              && Inverse(b, location) && Tallied(b, location, held, slotBytes)
              && Steady(slots, location, held, b, location, held)
    {
      ReadingKeeps(slots, location, held, slotBytes, x);
    }

    /** A place the cache lacks gets a slot, and its read is queued. */
    method Miss(p: nat)
      requires Valid() && p < |places| && location[p] == -1 && |held| < |slots|
      modifies `slots, `workers, `asleep, `head, `len, `readsDone, `calls, `location, `ring, `clock, `misses
      ensures old(calls) <= calls
      ensures Valid() && location[p] >= 0 && misses == old(misses) + 1 && |slots| == |old(slots)|
      ensures Steady(old(slots), old(location), held, slots, location, held)
    {
      hide *;
      PlaceHasState(p);
      var x := Obtain(p);
      StillSteady(old(slots));
      ghost var was := slots;
      StartRead(x, p, false);
      SteadyTwice(old(slots), old(location), held, was, old(location), held, slots, location, held);
      misses := misses + 1;
    }

    /** A slot was used: when, and no longer for a prefetch alone. */
    method Touch(x: nat)
      requires Valid() && x < |slots|
      modifies `slots, `clock, `prefetchUsed
      ensures Valid() && |slots| == |old(slots)| && Steady(old(slots), location, held, slots, location, held)
      ensures slots[x].state == old(slots[x].state) && slots[x].users == old(slots[x].users)
    {
      hide SpoiltBy;
      hide EachReadOnce;
      hide Faithful;
      hide PlansFit;
      hide Queued;
      hide Inverse;
      hide Tallied;
      hide Steady;
      hide Wakeful;
      if slots[x].prefetched { prefetchUsed := prefetchUsed + 1; }
      clock := clock + 1;
      var now := slots[x].(prefetched := false, lastUse := clock);
      BytesStay(files, plans, slots, Waiting(), workers, x, now, Spoilt());
      Touched(slots, location, held, slotBytes, x, now);
      slots := slots[x := now];
    }

    /** A place that has a slot: read, being read, or failed with nobody waiting for it and so read again. */
    method Hit(p: nat)
      requires Valid() && p < |places| && location[p] >= 0
      modifies `slots, `asleep, `location, `ring, `len, `clock, `hits, `inFlight, `misses, `prefetchUsed
      ensures Valid() && location == old(location) && |slots| == |old(slots)|
      ensures hits + inFlight + misses == old(hits + inFlight + misses) + 1
      ensures Steady(old(slots), location, held, slots, location, held)
      ensures var e := old(slots[location[p]]);
              && hits == old(hits) + (if e.state == Ready || (e.state == Failed && e.users > 0) then 1 else 0)
              && inFlight == old(inFlight) + (if e.state == Reading then 1 else 0)
    {
      hide Valid;
      PlaceHasState(p);
      var x := location[p];
      if slots[x].state == Failed && slots[x].users == 0 {
        Again(x);
      } else if slots[x].state == Reading {
        inFlight := inFlight + 1;
        Touch(x);
      } else {
        hits := hits + 1;
        Touch(x);
      }
    }

    lemma PlaceHasState(p: nat)
      requires Valid() && p < |places|
      ensures |location| == |places| && -1 <= location[p] && location[p] < |slots|
      ensures location[p] >= 0 ==> slots[location[p]].place == p && slots[location[p]].state != Empty
    {
      hide SpoiltBy;
    }

    method Again(x: nat)
      requires Valid() && x < |slots| && slots[x].state == Failed && slots[x].users == 0
      modifies `slots, `asleep, `location, `ring, `len, `clock, `misses, `prefetchUsed
      ensures Valid() && location == old(location) && |slots| == |old(slots)| && misses == old(misses) + 1
      ensures Steady(old(slots), location, held, slots, location, held)
    {
      hide Valid;
      hide Steady;
      ReadAgain(x);
      misses := misses + 1;
      ghost var was := slots;
      Touch(x);
      SteadyTwice(old(slots), location, held, was, location, held, slots, location, held);
    }

    lemma CountSplits()
      requires Counted()
      ensures acquired == hits + inFlight + misses
    {
    }

    lemma AllCounted()
      requires acquired == hits + inFlight + misses
      requires forall p :: 0 <= p < |uses| ==> uses[p] <= 65536 + acquired % 65536
      ensures Counted()
    {
    }

    /** One place held: counted, and given a slot and a read if it has none. */
    method HoldOne(p: nat)
      requires Valid() && Counted() && p < |places| && |held| < |slots|
      modifies this
      ensures Valid() && Counted() && held == old(held) + multiset{p} && acquired == old(acquired) + 1
      ensures old(calls) <= calls
      ensures Steady(old(slots), old(location), old(held), slots, location, held) && |slots| == |old(slots)|
      ensures misses > old(misses) <==>
                old(location[p]) < 0 || (old(slots[location[p]].state) == Failed && old(slots[location[p]].users) == 0)
    {
      hide *;
      PlaceHasState(p);
      CountSplits();
      CountUse(p);
      PlaceHasState(p);
      if location[p] < 0 {
        Miss(p);
      } else {
        Hit(p);
      }
      AllCounted();
      ghost var was, l := slots, location;
      Grip(p);
      SteadyTwice(old(slots), old(location), old(held), was, l, old(held), slots, location, held);
    }

    /**
     * Hold the places, queueing reads for those the cache lacks. It waits
     * only while no slot is free, and one always comes free, as long as
     * there are slots for every hold.
     */
    method Hold(ids: seq<nat>)
      requires Valid() && Counted() && (forall p <- ids :: p < |places|) && |held| + |ids| <= |slots|
      modifies this
      ensures Valid() && Counted() && held == old(held) + multiset(ids) && |slots| == |old(slots)|
      ensures acquired == old(acquired) + |ids| && old(calls) <= calls
      ensures Steady(old(slots), old(location), old(held), slots, location, held)
    {
      hide Valid;
      hide Counted;
      SteadyNow();
      hide Steady;
      var i := 0;
      while i < |ids|
        invariant i <= |ids| && Valid() && Counted() && |slots| == |old(slots)| && acquired == old(acquired) + i
        invariant old(calls) <= calls
        invariant held == old(held) + multiset(ids[..i]) && |held| == |old(held)| + i
        invariant Steady(old(slots), old(location), old(held), slots, location, held)
      {
        ghost var s, l, h := slots, location, held;
        assert ids[i] in ids;
        HoldOne(ids[i]);
        SplitIds(ids, i);
        SteadyTwice(old(slots), old(location), old(held), s, l, h, slots, location, held);
        i := i + 1;
      }
      assert ids[..i] == ids;
    }

    /** One held place let go of: after a failed wait a slot whose read failed is emptied. */
    method LetGo(p: nat, empties: bool)
      requires Valid() && p in held
      modifies `slots, `location, `held
      ensures Valid() && held == old(held) - multiset{p} && |slots| == |old(slots)|
      ensures Steady(old(slots), old(location), old(held), slots, location, held)
    {
      hide SpoiltBy;
      hide EachReadOnce;
      hide Faithful;
      hide Inverse;
      hide Tallied;
      hide Queued;
      hide PlansFit;
      hide Steady;
      LettingGo(slots, location, held, slotBytes, p, empties);
      var x := location[p];
      var now := if empties then LetGoOf(slots[x]) else Released(slots[x]);
      NotReadStays(files, plans, slots, Waiting(), workers, x, now, Spoilt());
      if now.place == -1 { location := location[p := -1]; }
      slots := slots[x := now];
      held := held - multiset{p};
    }

    lemma SteadyNow()
      requires Valid()
      ensures Steady(slots, location, held, slots, location, held)
    {
      hide SpoiltBy;
    }

    /** Every place of a call let go of. */
    method LetGoAll(ids: seq<nat>, empties: bool)
      requires Valid() && multiset(ids) <= held
      modifies `slots, `location, `held
      ensures Valid() && held == old(held) - multiset(ids) && |slots| == |old(slots)|
      ensures Steady(old(slots), old(location), old(held), slots, location, held)
    {
      hide *;
      SteadyNow();
      var i := 0;
      assert ids[i..] == ids;
      while i < |ids|
        invariant i <= |ids| && Valid() && |slots| == |old(slots)|
        invariant held + multiset(ids[..i]) == old(held) && multiset(ids[i..]) <= held
        invariant Steady(old(slots), old(location), old(held), slots, location, held)
      {
        ghost var s, l, h := slots, location, held;
        OneLess(old(held), held, ids, i);
        LetGo(ids[i], empties);
        SteadyTwice(old(slots), old(location), old(held), s, l, h, slots, location, held);
        i := i + 1;
      }
      assert ids[..i] == ids;
      AllLess(held, old(held), ids);
    }

    method Release(ids: seq<nat>)
      requires Valid() && multiset(ids) <= held
      modifies `slots, `location, `held
      ensures Valid() && held == old(held) - multiset(ids) && |slots| == |old(slots)|
      ensures Steady(old(slots), old(location), old(held), slots, location, held)
    {
      LetGoAll(ids, false);
    }

    /** Where a place's parts are: in its slot, at the plan's offsets. */
    function PartsOf(p: nat): seq<Pointer>
      requires p < |plans| && p < |location| && location[p] >= 0
      reads `location
    {
      var x := location[p];
      seq(|plans[p].partAt|, j requires 0 <= j < |plans[p].partAt| => Pointer(x, plans[p].partAt[j]))
    }

    ghost predicate Sees(p: nat, out: seq<Pointer>)
      reads `slots, `location
    {
      Shown(files, places, slots, location, p, out)
    }

    lemma ReadySees(p: nat)
      requires Valid() && p < |places| && 0 <= location[p] < |slots| && slots[location[p]].state == Ready &&
          slots[location[p]].place == p
      ensures |plans| == |places| && Sees(p, PartsOf(p))
    {
      hide SpoiltBy;
      hide Inverse;
      hide Tallied;
      hide EachReadOnce;
      hide ReadTo;
      hide ShowsPart;
      hide Laid;
      hide Placed;
      hide Tight;
      ReadShows(files, places[p], plans[p], slots[location[p]].buf);
    }

    /** Wait until a held place is not being read. */
    method Settle(p: nat)
      requires Valid() && p in held
      modifies `slots, `workers, `asleep, `head, `len, `readsDone, `calls
      ensures Valid() && WorkersOnly(old(slots), slots) && old(calls) <= calls
      ensures p < |places| == |location| && 0 <= location[p] < |slots| && slots[location[p]].place == p
      ensures slots[location[p]].state in {Ready, Failed}
    {
      hide SpoiltBy;
      hide Valid;
      hide RunsLeft;
      HeldHasSlot(p);
      var x := location[p];
      SameIsWorkersOnly(slots);
      while slots[x].state == Reading
        invariant Valid() && WorkersOnly(old(slots), slots) && old(calls) <= calls
        decreases LeftNow().reading, LeftNow().len, LeftNow().runs, LeftNow().awake
      {
        assert x in ReadingSet(slots);
        ghost var was := slots;
        WaitDone();
        WorkersOnlyTwice(old(slots), was, slots);
      }
      HeldHasSlot(p);
    }

    lemma HeldHasSlot(p: nat)
      requires Valid() && p in held
      ensures p < |places| == |location| && 0 <= location[p] < |slots| && slots[location[p]].place == p &&
          slots[location[p]].state != Empty
    {
      hide SpoiltBy;
    }

    /** A place that has been read, and is still in its slot. */
    ghost predicate IsReady(p: nat) reads `slots, `location {
      p < |location| && 0 <= location[p] < |slots| && slots[location[p]].state == Ready
    }

    /** Every held place of a call has been read, or its read has failed. */
    method SettleAll(ids: seq<nat>) returns (ok: bool)
      requires Valid() && multiset(ids) <= held
      modifies `slots, `workers, `asleep, `head, `len, `readsDone, `calls
      ensures Valid() && WorkersOnly(old(slots), slots) && old(calls) <= calls
      ensures forall p <- ids ::
            p < |places| == |location| && 0 <= location[p] < |slots| &&
            slots[location[p]].place == p
      ensures ok ==> forall p <- ids :: IsReady(p)
      ensures !ok ==> exists p <- ids :: p in Spoilt() && !old(IsReady(p))
    {
      hide Valid;
      hide SpoiltBy;
      ok := true;
      SameIsWorkersOnly(slots);
      var i := 0;
      ghost var bad := 0;
      while i < |ids|
        invariant i <= |ids| && Valid() && WorkersOnly(old(slots), slots) && old(calls) <= calls
        invariant forall k :: 0 <= k < i ==>
                    && ids[k] < |places| == |location| && 0 <= location[ids[k]] < |slots|
                    && slots[location[ids[k]]].place == ids[k] && (ok ==> slots[location[ids[k]]].state == Ready)
        invariant ok ||
            (0 <= bad < i && ids[bad] < |location| && 0 <= location[ids[bad]] < |slots|
                && slots[location[ids[bad]]].state == Failed)
      {
        assert ids[i] in multiset(ids);
        ghost var was := slots;
        Settle(ids[i]);
        WorkersOnlyTwice(old(slots), was, slots);
        if slots[location[ids[i]]].state != Ready {
          ok, bad := false, i;
        }
        i := i + 1;
      }
      if !ok {
        assert ids[bad] in ids;
        FailedIsSpoilt(location[ids[bad]]);
      }
    }

    /** A slot fails only when the drive fell short, or a file ends too soon. */
    lemma FailedIsSpoilt(x: nat)
      requires Valid() && x < |slots| && slots[x].state == Failed
      ensures slots[x].place in Spoilt()
    {
      hide SpoiltBy;
    }

    /**
     * Wait for held places to be read. Either every one was, and out says
     * where its parts are, which show exactly the drive's bytes; or the read
     * of one of them failed, which was not read before, and none of them is
     * held any more.
     */
    method Wait(ids: seq<nat>) returns (ok: bool, out: seq<seq<Pointer>>)
      requires Valid() && multiset(ids) <= held
      modifies `slots, `workers, `asleep, `head, `len, `readsDone, `location, `held, `calls
      ensures Valid() && |slots| == |old(slots)| && Steady(old(slots), old(location), old(held), slots, location, held)
      ensures ok ==> held == old(held) && |out| == |ids| && forall i :: 0 <= i < |ids| ==> Sees(ids[i], out[i])
      ensures !ok ==> held == old(held) - multiset(ids) && out == []
      ensures !ok ==> exists p <- ids :: p in Spoilt() && !old(IsReady(p))
      ensures old(calls) <= calls
    {
      hide Valid;
      hide Sees;
      hide Steady;
      hide SpoiltBy;
      ok := SettleAll(ids);
      StillSteady(old(slots));
      out := [];
      if !ok {
        ghost var s, l, h := slots, location, held;
        LetGoAll(ids, true);
        SteadyTwice(old(slots), old(location), old(held), s, l, h, slots, location, held);
        return;
      }
      var i := 0;
      while i < |ids|
        modifies {}
        invariant i <= |ids| && |out| == i && forall k :: 0 <= k < i ==> Sees(ids[k], out[k])
      {
        assert ids[i] in ids;
        ReadySees(ids[i]);
        out := out + [PartsOf(ids[i])];
        i := i + 1;
      }
    }

    /** Workers alone move nothing a client holds. */
    lemma StillSteady(was: seq<Entry>)
      requires Valid() && WorkersOnly(was, slots)
      ensures Steady(was, location, held, slots, location, held)
    {
      hide SpoiltBy;
    }

    /** Hold, then wait. */
    method Acquire(ids: seq<nat>) returns (ok: bool, out: seq<seq<Pointer>>)
      requires Valid() && Counted() && (forall p <- ids :: p < |places|) && |held| + |ids| <= |slots|
      modifies this
      ensures Valid() && Counted() && |slots| == |old(slots)| &&
          Steady(old(slots), old(location), old(held), slots, location, held)
      ensures ok ==> held == old(held) + multiset(ids) && |out| == |ids| && forall i :: 0 <= i < |ids| ==>
          Sees(ids[i], out[i])
      ensures !ok ==> held == old(held) && out == []
      ensures old(calls) <= calls && (!ok ==> exists p <- ids :: p in Spoilt())
    {
      hide Valid;
      hide Counted;
      hide Sees;
      hide Steady;
      hide SpoiltBy;
      Hold(ids);
      ghost var s, l, h := slots, location, held;
      ok, out := Wait(ids);
      assert !ok ==> held == old(held);
      SteadyTwice(old(slots), old(location), old(held), s, l, h, slots, location, held);
    }

    /** Hold a place only if it has been read already. */
    method HoldReady(p: nat) returns (ready: bool, out: seq<Pointer>)
      requires Valid() && p < |places|
      modifies `slots, `held
      ensures Valid() && |slots| == |old(slots)| && Steady(old(slots), location, old(held), slots, location, held)
      ensures ready <==> old(IsReady(p))
      ensures if ready then held == old(held) + multiset{p} && Sees(p, out) else held == old(held) && out == []
    {
      hide Valid;
      hide Sees;
      PlaceHasState(p);
      SteadyNow();
      hide Steady;
      ready := location[p] >= 0 && slots[location[p]].state == Ready;
      out := [];
      if ready {
        Grip(p);
        PlaceHasState(p);
        ReadySees(p);
        out := PartsOf(p);
      }
    }

    /**
     * Start reading what the cache lacks, into free slots, as long as there are any; nothing held is
     * touched. Each place asked for up to where it stops is then being read, unless the cache had it,
     * and it stops early only with no slot free.
     */
    method Prefetch(ids: seq<nat>) returns (ghost seen: nat)
      requires Valid() && Counted() && forall p <- ids :: p < |places|
      modifies `slots, `asleep, `location, `ring, `len, `clock, `prefetched
      ensures Valid() && Counted() && |slots| == |old(slots)| && old(prefetched) <= prefetched
      ensures Steady(old(slots), old(location), held, slots, location, held)
      ensures seen <= |ids| && forall n :: 0 <= n < seen ==> BeingRead(slots, ids[n]) || InCache(old(slots), ids[n])
      ensures seen < |ids| ==> forall i :: 0 <= i < |slots| ==> !Free(slots[i])
      ensures OnlyBegun(ids, old(slots), slots, uses, prefetched - old(prefetched))
    {
      hide *;
      SteadyNow();
      NoneBegun(ids, slots, uses);
      seen := 0;
      var i := 0;
      while i < |ids|
        invariant seen == i <= |ids| && Valid() && Counted() && |slots| == |old(slots)| && old(prefetched) <= prefetched
        invariant Steady(old(slots), old(location), held, slots, location, held)
        invariant forall n :: 0 <= n < i ==> BeingRead(slots, ids[n]) || InCache(old(slots), ids[n])
        invariant OnlyBegun(ids, old(slots), slots, uses, prefetched - old(prefetched))
      {
        assert ids[i] in ids;
        PlaceHasState(ids[i]);
        if location[ids[i]] < 0 {
          var x := FreeSlot();
          if x < 0 { break; }
          ghost var s, l := slots, location;
          StartRead(x, ids[i], true);
          SteadyTwice(old(slots), old(location), held, s, l, held, slots, location, held);
          OneBegun(ids, old(slots), s, slots, uses, prefetched - old(prefetched), x);
          StillBeingRead(ids[..i], old(slots), s, slots, x);
          prefetched := prefetched + 1;
        } else {
          Found(ids, old(slots), slots, uses, prefetched - old(prefetched), ids[i], location[ids[i]]);
        }
        i := i + 1;
        seen := i;
      }
    }

    constructor (files: seq<Bytes>, places: seq<seq<Extent>>, plans: seq<Plan>, slotBytes: nat, nSlots: nat,
        threads: nat, drive: nat -> int)
      requires |plans| == |places| && nSlots >= 2 && threads >= 1
      requires forall p :: 0 <= p < |plans| ==>
            Readable(places[p], |files|) && Plans(places[p], plans[p]) &&
            plans[p].bytes <= slotBytes
      ensures Valid() && Counted() && held == multiset{} && |slots| == nSlots && |workers| == threads && calls == []
      ensures this.files == files && this.places == places && this.slotBytes == slotBytes && this.drive == drive
    {
      this.files, this.places, this.plans, this.slotBytes := files, places, plans, slotBytes;
      this.drive, calls := drive, [];
      slots := seq(nSlots, _ => Entry(-1, Empty, 0, 0, false, seq(slotBytes, _ => 0)));
      location, uses, ring := seq(|places|, _ => -1), seq(|places|, _ => 0), seq(nSlots, _ => 0);
      head, len, clock, held := 0, 0, 0, multiset{};
      workers, asleep := seq(threads, _ => Resting), seq(threads, _ => false);
      acquired, hits, inFlight, misses, prefetched, prefetchUsed, readsDone := 0, 0, 0, 0, 0, 0, 0;
      new;
      hide SpoiltBy;
      hide Plans;
      hide ReadTo;
      AllRest(workers);
      hide BusySlots;
      assert ReadingSet(slots) == {};
      assert multiset(Waiting()) == multiset{};
    }

    /**
     * Any run: the client's calls and the workers' steps in any order, the
     * client asking for no more than there are slots and letting go only of
     * what it holds. What is held is what the calls leave, and what is shown
     * is exactly what was waited for well, or found ready, and held ever
     * since: each place of it shows exactly the drive's bytes. A wait fails
     * only when a read of a place not shown before did.
     */
    method Run(steps: seq<Step>) returns (log: seq<Event>, views: Views)
      requires Valid() && Counted() && held == multiset{}
      modifies this
      ensures Valid() && Counted() && |slots| == |old(slots)| && old(calls) <= calls
      ensures |log| == |steps| && forall i :: 0 <= i < |log| ==>
            && log[i].step == steps[i]
            && Answered(log[i], HeldBy(log[..i]), ShownBy(log[..i]), Spoilt(), |places|, |slots|)
      ensures held == HeldBy(log) && views.Keys == ShownBy(log)
      ensures AllShown(files, places, slots, location, held, views)
    {
      hide *;
      log, views := [], map[];
      NothingShown();
      NothingYet(Spoilt(), |places|, |slots|);
      var i := 0;
      while i < |steps|
        invariant i == |log| <= |steps| && Valid() && Counted() && |slots| == |old(slots)| && old(calls) <= calls
        invariant forall k :: 0 <= k < i ==> log[k].step == steps[k]
        invariant AllAnswered(log, Spoilt(), |places|, |slots|)
        invariant held == HeldBy(log) && views.Keys == ShownBy(log)
        invariant AllShown(files, places, slots, location, held, views)
      {
        ghost var was, spoilt := calls, Spoilt();
        SpoiltNow();
        var e, now := Take(steps[i], views);
        SpoiltNow();
        SpoiltMore(files, places, drive, was, calls);
        AnsweredToo(log, e, spoilt, Spoilt(), |places|, |slots|);
        OneMore(log, e);
        log, views := log + [e], now;
        i := i + 1;
      }
      EachAnswered(log, Spoilt(), |places|, |slots|);
    }

    lemma SpoiltNow()
      ensures Spoilt() == SpoiltBy(files, places, drive, calls)
    {
    }

    lemma AlsoShown(views: Views, more: Views)
      requires AllShown(files, places, slots, location, held, views) &&
          AllShown(files, places, slots, location, held, more)
      ensures AllShown(files, places, slots, location, held, views + more)
    {
    }

    lemma OneShown(p: nat, out: seq<Pointer>)
      requires Sees(p, out) && p in held
      ensures AllShown(files, places, slots, location, held, map[p := out])
    {
    }

    /** A wait whose places are shown when it ends well. */
    method WaitFor(ids: seq<nat>) returns (answer: Answer, views: Views)
      requires Valid() && multiset(ids) <= held
      modifies `slots, `workers, `asleep, `head, `len, `readsDone, `location, `held, `calls
      ensures Valid() && |slots| == |old(slots)| && Steady(old(slots), old(location), old(held), slots, location, held)
      ensures AllShown(files, places, slots, location, held, views) && old(calls) <= calls
      ensures if answer == Yes then held == old(held) && views.Keys == All(ids)
              else held == old(held) - multiset(ids) && views == map[]
      ensures answer == Yes || (answer == No && exists p <- ids :: p in Spoilt() && !old(IsReady(p)))
    {
      hide Valid;
      hide Steady;
      hide Sees;
      hide SpoiltBy;
      hide IsReady;
      answer, views := No, map[];
      var ok, out := Wait(ids);
      NothingShown();
      hide AllShown;
      if ok {
        answer := Yes;
        var i := 0;
        while i < |ids|
          modifies {}
          invariant i <= |ids| && AllShown(files, places, slots, location, held, views) && views.Keys == All(ids[..i])
        {
          assert ids[i] in multiset(ids);
          OneShown(ids[i], out[i]);
          AlsoShown(views, map[ids[i] := out[i]]);
          AllMore(ids, i);
          views := views + map[ids[i] := out[i]];
          i := i + 1;
        }
        assert ids[..i] == ids;
      }
    }

    lemma NothingShown()
      ensures AllShown(files, places, slots, location, held, map[])
    {
    }

    /** What was shown is ready. */
    lemma ShownIsReady(views: Views)
      requires AllShown(files, places, slots, location, held, views)
      ensures forall p <- views.Keys :: IsReady(p)
    {
    }

    /** A step and what the client is shown after it. */
    method Take(step: Step, views: Views) returns (e: Event, now: Views)
      requires Valid() && Counted() && AllShown(files, places, slots, location, held, views)
      modifies this
      ensures Valid() && Counted() && |slots| == |old(slots)| && old(calls) <= calls
      ensures e.step == step && held == HeldAfter(old(held), e) 
      ensures Answered(e, old(held), views.Keys, Spoilt(), |places|, |slots|)
      ensures step.Works? && old(CanStep(step.w)) ==> e.answer == Yes && Closer(old(LeftNow()), LeftNow())
      ensures now.Keys == StillHeld(views.Keys + ShownAt(e), held)
      ensures AllShown(files, places, slots, location, held, now)
    {
      hide *;
      ghost var s, l, h := slots, location, held;
      ShownIsReady(views);
      var answer, shown := Do(step, views.Keys);
      StaysShown(files, places, s, l, h, slots, location, held, views);
      now := map p | p in views && p in held :: views[p];
      AlsoShown(now, shown);
      e := Event(step, answer);
      KeysStillHeld(views, now, shown, e);
      now := now + shown;
    }

    lemma KeysStillHeld(views: Views, kept: Views, shown: Views, e: Event)
      requires kept == (map p | p in views && p in held :: views[p]) && shown.Keys == ShownAt(e)
      requires AllShown(files, places, slots, location, held, shown)
      ensures (kept + shown).Keys == StillHeld(views.Keys + ShownAt(e), held)
    {
      hide ShownAt;
      hide Shown;
    }

    /** One step, when it can be taken and the client keeps its promises; what it shows, if anything. */
    method Do(step: Step, ghost ready: set<nat>) returns (answer: Answer, shown: Views)
      requires Valid() && Counted() && forall p <- ready :: IsReady(p)
      modifies this
      ensures Valid() && Counted() && Steady(old(slots), old(location), old(held), slots, location, held)
      ensures |slots| == |old(slots)| && old(calls) <= calls
      ensures held == HeldAfter(old(held), Event(step, answer))
      ensures Answered(Event(step, answer), old(held), ready, Spoilt(), |places|, |slots|)
      ensures step.Works? && old(CanStep(step.w)) ==> answer == Yes && Closer(old(LeftNow()), LeftNow())
      ensures shown.Keys == ShownAt(Event(step, answer)) && AllShown(files, places, slots, location, held, shown)
    {
      hide *;
      SteadyNow();
      NothingShown();
      shown := map[];
      IfAllowed(step, held, ready, Spoilt(), |places|, |slots|);
      if !Allowed(step, held, |places|, |slots|) { return Refused, shown; }
      match step {
        case Works(w) =>
          answer := Work(w);
          WorkAnswered(w, answer, held, ready, Spoilt(), |places|, |slots|);
          NothingShown();
        case Waits(ids) =>
          WhatIsAllowed(step, held, |places|, |slots|);
          answer, shown := WaitFor(ids);
          WaitAnswered(ids, answer, old(held), ready, Spoilt(), |places|, |slots|);
        case Readies(p) =>
          WhatIsAllowed(step, held, |places|, |slots|);
          answer, shown := ShowReady(p);
          ReadyAnswered(p, answer, old(held), ready, Spoilt(), |places|, |slots|);
        case _ =>
          answer := Yes;
          Ask(step);
          IfAllowed(step, old(held), ready, Spoilt(), |places|, |slots|);
          NothingShown();
      }
    }

    /** A call that shows nothing. */
    method Ask(step: Step)
      requires Valid() && Counted() && Allowed(step, held, |places|, |slots|)
      requires step.Holds? || step.Releases? || step.Prefetches?
      modifies this
      ensures Valid() && Counted() && Steady(old(slots), old(location), old(held), slots, location, held)
      ensures |slots| == |old(slots)| && old(calls) <= calls && held == HeldAfter(old(held), Event(step, Yes))
    {
      hide Valid;
      hide Counted;
      hide Steady;
      hide Spoilt;
      match step {
        case Holds(ids) => Hold(ids);
        case Prefetches(ids) => var _ := Prefetch(ids);
        case Releases(ids) => Release(ids);
      }
    }

    method Work(w: nat) returns (answer: Answer)
      requires Valid()
      modifies `slots, `workers, `asleep, `head, `len, `readsDone, `calls
      ensures Valid() && |slots| == |old(slots)| && Steady(old(slots), location, held, slots, location, held)
      ensures old(calls) <= calls && answer == if old(CanStep(w)) then Yes else No
      ensures answer == Yes ==> Closer(old(LeftNow()), LeftNow())
    {
      hide Valid;
      hide Closer;
      SteadyNow();
      hide Steady;
      answer := No;
      if CanStep(w) {
        var finished := WorkerStep(w);
        StillSteady(old(slots));
        answer := Yes;
      }
    }

    method ShowReady(p: nat) returns (answer: Answer, views: Views)
      requires Valid() && p < |places|
      modifies `slots, `held
      ensures Valid() && |slots| == |old(slots)| && Steady(old(slots), location, old(held), slots, location, held)
      ensures AllShown(files, places, slots, location, held, views)
      ensures answer == if old(IsReady(p)) then Yes else No
      ensures if answer == Yes then held == old(held) + multiset{p} && views.Keys == {p}
              else held == old(held) && views == map[]
    {
      hide Valid;
      hide Steady;
      hide Sees;
      hide AllShown;
      hide IsReady;
      NothingShown();
      answer, views := No, map[];
      var ready, out := HoldReady(p);
      if ready {
        OneShown(p, out);
        answer, views := Yes, map[p := out];
      } else {
        NothingShown();
      }
    }
  }

  /** What can happen next: a worker's step, or a client's call. */
  datatype Step =
    | Works(w: nat)
    | Holds(ids: seq<nat>)
    | Waits(ids: seq<nat>)
    | Releases(ids: seq<nat>)
    | Readies(p: nat)
    | Prefetches(ids: seq<nat>)

  /** A step refused, done, or done in vain: a wait that failed, a place not ready, a worker asleep. */
  datatype Answer = Refused | Yes | No

  datatype Event = Event(step: Step, answer: Answer)

  /** What the client may ask: places there are, as many holds as slots, and to let go of what it holds. */
  predicate Allowed(step: Step, h: multiset<nat>, places: nat, slots: nat) {
    match step
    case Works(_) => true
    case Holds(ids) => (forall p <- ids :: p < places) && |h| + |ids| <= slots
    case Prefetches(ids) => forall p <- ids :: p < places
    case Releases(ids) => multiset(ids) <= h
    case Waits(ids) => multiset(ids) <= h
    case Readies(p) => p < places
  }

  /** A call answered by the rules, these places having been shown and still held. */
  ghost predicate Answered(e: Event, h: multiset<nat>, ready: set<nat>, spoilt: set<int>, places: nat, slots: nat) {
    && (e.answer == Refused <==> !Allowed(e.step, h, places, slots))
    && (e.answer == No ==>
          match e.step
          case Works(_) => true
          case Waits(ids) => exists p <- ids :: p in spoilt && p !in ready
          case Readies(p) => p !in ready
          case _ => false)
  }

  /** A step that may be taken is answered so, and one that may not refused. */
  lemma IfAllowed(step: Step, h: multiset<nat>, ready: set<nat>, spoilt: set<int>, places: nat, slots: nat)
    ensures var e := Event(step, if Allowed(step, h, places, slots) then Yes else Refused);
            && Answered(e, h, ready, spoilt, places, slots)
            && (e.answer == Refused ==> HeldAfter(h, e) == h && ShownAt(e) == {})
            && (step.Holds? || step.Releases? || step.Prefetches? ==> ShownAt(e) == {})
            && (step.Works? ==> e.answer == Yes)
  {
  }

  lemma WorkAnswered(w: nat, answer: Answer, h: multiset<nat>, ready: set<nat>, spoilt: set<int>, places: nat,
      slots: nat)
    requires answer != Refused
    ensures Answered(Event(Works(w), answer), h, ready, spoilt, places, slots)
    ensures HeldAfter(h, Event(Works(w), answer)) == h && ShownAt(Event(Works(w), answer)) == {}
  {
  }

  lemma WaitAnswered(ids: seq<nat>, answer: Answer, h: multiset<nat>, ready: set<nat>, spoilt: set<int>, places: nat,
      slots: nat)
    requires multiset(ids) <= h
    requires answer == Yes || (answer == No && exists p <- ids :: p in spoilt && p !in ready)
    ensures Answered(Event(Waits(ids), answer), h, ready, spoilt, places, slots)
    ensures HeldAfter(h, Event(Waits(ids), answer)) == if answer == Yes then h else h - multiset(ids)
    ensures ShownAt(Event(Waits(ids), answer)) == if answer == Yes then All(ids) else {}
  {
  }

  lemma ReadyAnswered(p: nat, answer: Answer, h: multiset<nat>, ready: set<nat>, spoilt: set<int>, places: nat,
      slots: nat)
    requires p < places && (answer == Yes || (answer == No && p !in ready))
    ensures Answered(Event(Readies(p), answer), h, ready, spoilt, places, slots)
    ensures HeldAfter(h, Event(Readies(p), answer)) == if answer == Yes then h + multiset{p} else h
    ensures ShownAt(Event(Readies(p), answer)) == if answer == Yes then {p} else {}
  {
  }

  lemma WhatIsAllowed(step: Step, h: multiset<nat>, places: nat, slots: nat)
    requires Allowed(step, h, places, slots)
    ensures step.Waits? ==> multiset(step.ids) <= h
    ensures step.Readies? ==> step.p < places
  {
  }

  ghost predicate AllAnswered(log: seq<Event>, spoilt: set<int>, places: nat, slots: nat) {
    forall i :: 0 <= i < |log| ==> Answered(log[i], HeldBy(log[..i]), ShownBy(log[..i]), spoilt, places, slots)
  }

  lemma EachAnswered(log: seq<Event>, spoilt: set<int>, places: nat, slots: nat)
    requires AllAnswered(log, spoilt, places, slots)
    ensures forall i :: 0 <= i < |log| ==>
              Answered(log[i], HeldBy(log[..i]), ShownBy(log[..i]), spoilt, places, slots)
  {
  }

  lemma AnsweredToo(log: seq<Event>, e: Event, spoilt: set<int>, more: set<int>, places: nat, slots: nat)
    requires AllAnswered(log, spoilt, places, slots) && spoilt <= more
    requires Answered(e, HeldBy(log), ShownBy(log), more, places, slots)
    ensures AllAnswered(log + [e], more, places, slots)
  {
    var all := log + [e];
    forall i | 0 <= i < |all|
      ensures Answered(all[i], HeldBy(all[..i]), ShownBy(all[..i]), more, places, slots)
    {
      assert all[..i] == log[..i];
      if i == |log| { assert log[..i] == log; }
    }
  }

  ghost function HeldAfter(h: multiset<nat>, e: Event): multiset<nat> {
    match e.step
    case Holds(ids) => if e.answer == Yes then h + multiset(ids) else h
    case Releases(ids) => if e.answer == Yes then h - multiset(ids) else h
    case Waits(ids) => if e.answer == No then h - multiset(ids) else h
    case Readies(p) => if e.answer == Yes then h + multiset{p} else h
    case _ => h
  }

  ghost function All(ids: seq<nat>): set<nat> { set p | p in ids }

  ghost function ShownAt(e: Event): set<nat> {
    match e.step
    case Waits(ids) => if e.answer == Yes then All(ids) else {}
    case Readies(p) => if e.answer == Yes then {p} else {}
    case _ => {}
  }

  ghost function StillHeld(s: set<nat>, h: multiset<nat>): set<nat> { set p | p in s && p in h }

  /** What the calls of a log leave held. */
  ghost function HeldBy(log: seq<Event>): multiset<nat> {
    if log == [] then multiset{} else HeldAfter(HeldBy(log[..|log| - 1]), log[|log| - 1])
  }

  /** What the calls of a log have shown and left held. */
  ghost function ShownBy(log: seq<Event>): set<nat> {
    if log == [] then {} else StillHeld(ShownBy(log[..|log| - 1]) + ShownAt(log[|log| - 1]), HeldBy(log))
  }

  /** A call showed a place, and it was held after that call and every one since. */
  ghost predicate Since(log: seq<Event>, p: nat, i: nat) {
    i < |log| && p in ShownAt(log[i]) && forall j :: i < j <= |log| ==> p in HeldBy(log[..j])
  }

  lemma {:induction false} ShownSince(log: seq<Event>, p: nat)
    ensures p in ShownBy(log) <==> exists i :: Since(log, p, i)
  {
    hide ShownAt;
    hide HeldAfter;
    hide Since;
    if log == [] {
      NeverSince(p);
    } else {
      var n := |log| - 1;
      ShownSince(log[..n], p);
      SinceNow(log, p);
      if i: nat :| Since(log, p, i) && i != n { SinceBack(log, p, i); }
      if i: nat :| Since(log[..n], p, i) && p in HeldBy(log) { SinceOn(log, p, i); }
    }
  }

  lemma NeverSince(p: nat)
    ensures forall i :: !Since([], p, i)
  {
  }

  lemma SinceNow(log: seq<Event>, p: nat)
    requires log != []
    ensures Since(log, p, |log| - 1) <==> p in ShownAt(log[|log| - 1]) && p in HeldBy(log)
  {
    hide ShownAt;
    hide HeldBy;
    assert log[..|log|] == log;
  }

  lemma SinceBack(log: seq<Event>, p: nat, i: nat)
    requires Since(log, p, i) && i != |log| - 1
    ensures p in HeldBy(log) && Since(log[..|log| - 1], p, i)
  {
    hide ShownAt;
    hide HeldBy;
    var front := log[..|log| - 1];
    assert log[..|log|] == log;
    forall j | i < j <= |front|
      ensures p in HeldBy(front[..j])
    {
      assert front[..j] == log[..j];
    }
  }

  lemma SinceOn(log: seq<Event>, p: nat, i: nat)
    requires log != [] && p in HeldBy(log) && Since(log[..|log| - 1], p, i)
    ensures Since(log, p, i)
  {
    hide ShownAt;
    hide HeldBy;
    var front := log[..|log| - 1];
    forall j | i < j <= |log|
      ensures p in HeldBy(log[..j])
    {
      if j == |log| {
        assert log[..j] == log;
      } else {
        assert front[..j] == log[..j];
      }
    }
  }

  lemma NothingYet(spoilt: set<int>, places: nat, slots: nat)
    ensures HeldBy([]) == multiset{} && ShownBy([]) == {} && AllAnswered([], spoilt, places, slots)
  {
  }

  lemma OneMore(log: seq<Event>, e: Event)
    ensures HeldBy(log + [e]) == HeldAfter(HeldBy(log), e)
    ensures ShownBy(log + [e]) == StillHeld(ShownBy(log) + ShownAt(e), HeldAfter(HeldBy(log), e))
  {
    assert (log + [e])[..|log|] == log;
  }

  lemma AllMore(ids: seq<nat>, i: nat)
    requires i < |ids|
    ensures All(ids[..i + 1]) == All(ids[..i]) + {ids[i]}
  {
    assert ids[..i + 1] == ids[..i] + [ids[i]];
  }

  /** Every place's plan, and the bytes of a slot that any of them fits. */
  method MakePlans(places: seq<seq<Extent>>, files: nat) returns (plans: Option<seq<Plan>>, slotBytes: nat)
    ensures plans.Some? <==> forall p :: 0 <= p < |places| ==> Readable(places[p], files)
    ensures plans.Some? ==>
              && |plans.value| == |places|
              && forall p :: 0 <= p < |places| ==> Plans(places[p], plans.value[p]) && plans.value[p].bytes <= slotBytes
    ensures plans.Some? && slotBytes > 0 ==> exists p :: 0 <= p < |places| && plans.value[p].bytes == slotBytes
  {
    hide Plans;
    var made: seq<Plan> := [];
    slotBytes := 0;
    var p := 0;
    while p < |places|
      invariant p <= |places| && |made| == p
      invariant forall q :: 0 <= q < p ==>
            Readable(places[q], files) && Plans(places[q], made[q]) &&
            made[q].bytes <= slotBytes
      invariant slotBytes > 0 ==> exists q :: 0 <= q < p && made[q].bytes == slotBytes
    {
      var plan := MakePlan(places[p], files);
      if plan.None? { return None, slotBytes; }
      made := made + [plan.value];
      if plan.value.bytes > slotBytes {
        slotBytes := plan.value.bytes;
        assert made[p].bytes == slotBytes;
      }
      p := p + 1;
    }
    plans := Some(made);
  }

  method Open(files: seq<Bytes>, places: seq<seq<Extent>>, nSlots: nat, threads: nat, drive: nat -> int)
    returns (s: Option<Stream>)
    ensures s.Some? <==>
              files != [] && places != [] && threads > 0 && nSlots >= 2 && forall p :: 0 <= p < |places| ==>
                  Readable(places[p], |files|)
    ensures s.Some? ==>
              && fresh(s.value) && s.value.Valid() && s.value.Counted() && s.value.held == multiset{}
              && |s.value.slots| == nSlots && s.value.files == files && s.value.places == places
              && s.value.drive == drive && s.value.calls == []
  {
    hide Plans;
    if files == [] || places == [] || threads == 0 || nSlots < 2 { return None; }
    var plans, slotBytes := MakePlans(places, |files|);
    if plans.None? { return None; }
    var stream := new Stream(files, places, plans.value, slotBytes, nSlots, threads, drive);
    s := Some(stream);
  }
}
