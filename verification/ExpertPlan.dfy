/**
 * How an expert is read: its parts sorted by where they are, those that
 * follow one another merged, each run widened to whole sectors, and where in
 * a slot each part lands.
 */
module ExpertPlan {
  import opened Basics

  const SECTOR: nat := 4096
  const PARTS_MAX: nat := 3

  /** A run of bytes in one of the files. */
  datatype Extent = Extent(file: nat, offset: nat, length: nat) {
    function End(): nat { offset + length }
  }

  /** Whole sectors read from a file into a slot at dst; needed says how far the parts reach. */
  datatype Run = Run(file: nat, start: nat, length: nat, needed: nat, dst: nat)

  datatype Plan = Plan(runs: seq<Run>, partAt: seq<nat>, bytes: nat)

  /** The parts are in order of file and offset. */
  predicate NotAfter(a: Extent, b: Extent) { a.file < b.file || (a.file == b.file && a.offset <= b.offset) }

  /** A part that lies in a run, at the place in the slot where the run's bytes put it. */
  predicate In(part: Extent, run: Run, at: nat) {
    && part.file == run.file && run.start <= part.offset && part.End() <= run.start + run.needed
    && at == run.dst + (part.offset - run.start)
  }

  predicate WellFormed(run: Run) {
    && run.start % SECTOR == 0 && run.length % SECTOR == 0 && run.dst % SECTOR == 0
    && 0 < run.needed <= run.length < run.needed + SECTOR
  }

  /** One run after another in the slot, none over another. */
  predicate Laid(runs: seq<Run>, bytes: nat) {
    && (forall r :: 0 <= r < |runs| ==> WellFormed(runs[r]) && runs[r].dst + runs[r].length <= bytes)
    && (forall r, s :: 0 <= r < s < |runs| ==> runs[r].dst + runs[r].length <= runs[s].dst)
  }

  predicate Placed(part: Extent, runs: seq<Run>, at: nat) { exists r :: 0 <= r < |runs| && In(part, runs[r], at) }

  /** A run begins in its first part's sector and ends in its last part's. */
  ghost predicate Tight(parts: seq<Extent>, run: Run) {
    && (exists j :: 0 <= j < |parts| && parts[j].file == run.file && run.start <= parts[j].offset < run.start + SECTOR)
    && (exists j :: 0 <= j < |parts| && parts[j].file == run.file && parts[j].End() == run.start + run.needed)
  }

  /** A plan for some parts: every part is in a run, and every run is laid out. */
  ghost predicate Plans(parts: seq<Extent>, plan: Plan) {
    && Laid(plan.runs, plan.bytes) && |plan.partAt| == |parts| && 0 < |plan.runs| <= |parts|
    && (forall j :: 0 <= j < |parts| ==> Placed(parts[j], plan.runs, plan.partAt[j]))
    && (forall r :: 0 <= r < |plan.runs| ==> Tight(parts, plan.runs[r]))
  }

  predicate Readable(parts: seq<Extent>, files: nat) {
    0 < |parts| <= PARTS_MAX && forall j :: 0 <= j < |parts| ==> parts[j].file < files && parts[j].length > 0
  }

  lemma Down(x: nat)
    ensures x / SECTOR * SECTOR <= x < x / SECTOR * SECTOR + SECTOR && (x / SECTOR * SECTOR) % SECTOR == 0
  {
  }

  lemma Up(x: nat)
    ensures x <= (x + SECTOR - 1) / SECTOR * SECTOR < x + SECTOR && ((x + SECTOR - 1) / SECTOR * SECTOR) % SECTOR == 0
  {
  }

  /** Some parts, in order: each number once. */
  predicate Order(parts: seq<Extent>, order: seq<nat>) {
    && (forall a :: 0 <= a < |order| ==> order[a] < |order|) && |order| <= |parts|
    && (forall a, b :: 0 <= a < b < |order| ==> order[a] != order[b] && NotAfter(parts[order[a]], parts[order[b]]))
    && (forall x :: 0 <= x < |order| ==> x in order)
  }

  /** Insertion: the next part goes after every part not after it. */
  method Insert(parts: seq<Extent>, sorted: seq<nat>) returns (order: seq<nat>)
    requires Order(parts, sorted) && |sorted| < |parts|
    ensures Order(parts, order) && |order| == |sorted| + 1
  {
    var i: nat := |sorted|;
    order := sorted + [i];
    var j: nat := i;
    while j > 0
      invariant j <= i && |order| == i + 1 && order[..j] == sorted[..j] && order[j + 1..] == sorted[j..]
      invariant forall b :: j <= b < i ==> !NotAfter(parts[sorted[b]], parts[i])
    {
      if NotAfter(parts[order[j - 1]], parts[i]) { break; }
      order := order[j := order[j - 1]];
      j := j - 1;
    }
    order := order[j := i];
    Inserted(parts, sorted, j, order);
  }

  lemma Inserted(parts: seq<Extent>, sorted: seq<nat>, j: nat, order: seq<nat>)
    requires Order(parts, sorted) && j <= |sorted| < |parts|
    requires |order| == |sorted| + 1 && order[..j] == sorted[..j] && order[j] == |sorted| &&
        order[j + 1..] == sorted[j..]
    requires forall b :: j <= b < |sorted| ==> !NotAfter(parts[sorted[b]], parts[|sorted|])
    requires j > 0 ==> NotAfter(parts[sorted[j - 1]], parts[|sorted|])
    ensures Order(parts, order)
  {
    assert forall a :: 0 <= a < j ==> order[a] == order[..j][a] == sorted[a];
    assert forall a :: j < a < |order| ==> order[a] == order[j + 1..][a - j - 1] == sorted[a - 1];
    forall a | 0 <= a < j
      ensures NotAfter(parts[sorted[a]], parts[|sorted|])
    {
      if a < j - 1 { assert NotAfter(parts[sorted[a]], parts[sorted[j - 1]]); }
    }
    InsertedAt(parts, sorted, j, order);
  }

  /** The same, number by number. */
  lemma InsertedAt(parts: seq<Extent>, sorted: seq<nat>, j: nat, order: seq<nat>)
    requires Order(parts, sorted) && j <= |sorted| < |parts| && |order| == |sorted| + 1 && order[j] == |sorted|
    requires forall a :: 0 <= a < |order| && a != j ==> order[a] == sorted[if a < j then a else a - 1]
    requires forall a :: 0 <= a < j ==> NotAfter(parts[sorted[a]], parts[|sorted|])
    requires forall b :: j <= b < |sorted| ==> !NotAfter(parts[sorted[b]], parts[|sorted|])
    ensures Order(parts, order)
  {
    forall a, b | 0 <= a < b < |order|
      ensures order[a] != order[b] && NotAfter(parts[order[a]], parts[order[b]])
    {
      var x, y := if a < j then a else a - 1, if b < j then b else b - 1;
      if a != j && b != j { assert sorted[x] != sorted[y] && NotAfter(parts[sorted[x]], parts[sorted[y]]); }
    }
    forall x | 0 <= x < |order|
      ensures x in order
    {
      if x < |sorted| {
        assert x in sorted;
        var a :| 0 <= a < |sorted| && sorted[a] == x;
        assert order[if a < j then a else a + 1] == x;
      }
    }
  }

  /** The parts from the k-th in order that follow one another in a file. */
  method Follow(parts: seq<Extent>, order: seq<nat>, k: nat) returns (m: nat, end: nat)
    requires Order(parts, order) && |order| == |parts| && k < |order|
    ensures k < m <= |order| && end == parts[order[m - 1]].End()
    ensures forall q :: k <= q < m ==>
              && parts[order[q]].file == parts[order[k]].file
              && parts[order[k]].offset <= parts[order[q]].offset && parts[order[q]].End() <= end
    ensures m < |order| ==> parts[order[m]].file != parts[order[k]].file || parts[order[m]].offset != end
  {
    var first := parts[order[k]];
    end := first.End();
    m := k + 1;
    while m < |order| && parts[order[m]].file == first.file && parts[order[m]].offset == end
      invariant k < m <= |order| && end == parts[order[m - 1]].End()
      invariant forall q :: k <= q < m ==>
                  parts[order[q]].file == first.file && first.offset <= parts[order[q]].offset &&
                      parts[order[q]].End() <= end
    {
      end := end + parts[order[m]].length;
      m := m + 1;
    }
  }

  /** A run from part first to end, widened to whole sectors, at dst in the slot. */
  function Widen(first: Extent, end: nat, dst: nat): (run: Run)
    requires first.offset < end && dst % SECTOR == 0
    ensures WellFormed(run) && run.file == first.file && run.start <= first.offset < run.start + SECTOR
    ensures run.start + run.needed == end && run.dst == dst
  {
    Down(first.offset);
    Up(end);
    var start := first.offset / SECTOR * SECTOR;
    Run(first.file, start, (end + SECTOR - 1) / SECTOR * SECTOR - start, end - start, dst)
  }

  /** Where the parts of a run land. */
  method Land(parts: seq<Extent>, order: seq<nat>, k: nat, m: nat, run: Run, partAt: seq<nat>) returns (at: seq<nat>)
    requires Order(parts, order) && k <= m <= |order| == |parts| == |partAt|
    requires forall q :: k <= q < m ==> run.start <= parts[order[q]].offset
    ensures |at| == |partAt|
    ensures forall q :: k <= q < m ==> at[order[q]] == run.dst + (parts[order[q]].offset - run.start)
    ensures forall q :: 0 <= q < k ==> at[order[q]] == partAt[order[q]]
  {
    at := partAt;
    var q := k;
    while q < m
      invariant k <= q <= m && |at| == |partAt|
      invariant forall p :: k <= p < q ==> at[order[p]] == run.dst + (parts[order[p]].offset - run.start)
      invariant forall p :: 0 <= p < k ==> at[order[p]] == partAt[order[p]]
    {
      at := at[order[q] := run.dst + (parts[order[q]].offset - run.start)];
      q := q + 1;
    }
  }

  /** The first k parts in order have their runs. */
  ghost predicate PlannedTo(parts: seq<Extent>, order: seq<nat>, k: nat, runs: seq<Run>, partAt: seq<nat>, dst: nat) {
    && k <= |order| == |parts| == |partAt| && Laid(runs, dst) && dst % SECTOR == 0 && |runs| <= k &&
        (k > 0 ==> runs != [])
    && (forall a :: 0 <= a < |order| ==> order[a] < |parts|)
    && (forall q :: 0 <= q < k ==> Placed(parts[order[q]], runs, partAt[order[q]]))
    && (forall r :: 0 <= r < |runs| ==> Tight(parts, runs[r]))
  }

  lemma OneMoreRun(parts: seq<Extent>, order: seq<nat>, k: nat, m: nat, runs: seq<Run>, partAt: seq<nat>, dst: nat,
      run: Run, at: seq<nat>)
    requires PlannedTo(parts, order, k, runs, partAt, dst) && k < m <= |order| && |at| == |partAt|
    requires WellFormed(run) && run.dst == dst && Tight(parts, run)
    requires forall q :: 0 <= q < k ==> at[order[q]] == partAt[order[q]]
    requires forall q :: k <= q < m ==> In(parts[order[q]], run, at[order[q]])
    ensures PlannedTo(parts, order, m, runs + [run], at, dst + run.length)
  {
    forall q | 0 <= q < m
      ensures Placed(parts[order[q]], runs + [run], at[order[q]])
    {
      if q < k {
        assert Placed(parts[order[q]], runs, partAt[order[q]]);
        var r :| 0 <= r < |runs| && In(parts[order[q]], runs[r], partAt[order[q]]);
        assert (runs + [run])[r] == runs[r];
      } else {
        assert (runs + [run])[|runs|] == run;
      }
    }
    assert (dst + run.length) % SECTOR == 0;
  }

  /** The plan of a place, or nothing when it has no parts, too many, or one that is empty or in no file there is. */
  method MakePlan(parts: seq<Extent>, files: nat) returns (plan: Option<Plan>)
    ensures plan.Some? <==> Readable(parts, files)
    ensures plan.Some? ==> Plans(parts, plan.value)
  {
    if |parts| == 0 || |parts| > PARTS_MAX { return None; }
    var order: seq<nat> := [];
    var i := 0;
    while i < |parts|
      invariant i <= |parts| && Order(parts, order) && |order| == i
      invariant forall j :: 0 <= j < i ==> parts[j].file < files && parts[j].length > 0
    {
      if parts[i].file >= files || parts[i].length == 0 { return None; }
      order := Insert(parts, order);
      i := i + 1;
    }
    var runs: seq<Run>, partAt: seq<nat> := [], seq(|parts|, _ => 0);
    var dst: nat, k: nat := 0, 0;
    while k < |parts|
      invariant PlannedTo(parts, order, k, runs, partAt, dst)
      decreases |parts| - k
    {
      var m, end := Follow(parts, order, k);
      var run := Widen(parts[order[k]], end, dst);
      assert Tight(parts, run) by {
        assert parts[order[k]].file == run.file && parts[order[m - 1]].file == run.file;
      }
      var at := Land(parts, order, k, m, run, partAt);
      OneMoreRun(parts, order, k, m, runs, partAt, dst, run, at);
      runs, partAt, dst, k := runs + [run], at, dst + run.length, m;
    }
    plan := Some(Plan(runs, partAt, dst));
    forall j | 0 <= j < |parts|
      ensures Placed(parts[j], runs, partAt[j])
    {
      assert j in order;
      var q :| 0 <= q < |order| && order[q] == j;
    }
  }
}
