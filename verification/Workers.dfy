/** Workers, eligibility and the resource ledger: worker.cpp, worker_eligibility.cpp, worker_record.cpp. */
module Workers {
  import opened Errors
  import opened Jobs
  import opened Ordering

  datatype WorkerState = Online | Draining | Offline | Disabled

  datatype WorkerFields = WorkerFields(
    id: Id,
    state: WorkerState,
    totalCpu: real,
    availableCpu: real,
    totalMemory: u64,
    availableMemory: u64,
    totalDisk: u64,
    availableDisk: u64,
    gpu: bool,
    running: u64,
    slots: u64,
    tags: seq<Tag>)

  /** What the snapshot and resource constructors accept. */
  predicate ValidWorker(w: WorkerFields)
  {
    && w.totalCpu > 0.0
    && 0.0 <= w.availableCpu <= w.totalCpu
    && w.availableMemory <= w.totalMemory
    && w.availableDisk <= w.totalDisk
    && w.slots > 0
    && w.running <= w.slots
  }

  /** A snapshot; a stored worker record holds the same values. */
  type Worker = w: WorkerFields | ValidWorker(w)
    witness WorkerFields("-", Online, 1.0, 1.0, 0, 0, 0, 0, false, 0, 1, [])

  // ---------- eligibility ----------

  datatype EligibilityFailure =
    | WorkerNotOnline
    | WorkerDraining
    | NoExecutionSlot
    | InsufficientCpu
    | InsufficientMemory
    | InsufficientDisk
    | GpuUnavailable
    | MissingRequiredTag

  /** May a job with these needs run on this worker now? */
  predicate Eligible(needs: Requirements, w: Worker)
  {
    && w.state.Online?
    && w.running < w.slots
    && needs.cpu <= w.availableCpu
    && needs.memory <= w.availableMemory
    && needs.disk <= w.availableDisk
    && (needs.gpu ==> w.gpu)
    && (forall tag | tag in needs.tags :: tag in w.tags)
  }

  /** When each reason applies. */
  predicate Applies(f: EligibilityFailure, needs: Requirements, w: Worker)
  {
    match f
    case WorkerNotOnline => w.state.Offline? || w.state.Disabled?
    case WorkerDraining => w.state.Draining?
    case NoExecutionSlot => w.running >= w.slots
    case InsufficientCpu => w.availableCpu < needs.cpu
    case InsufficientMemory => w.availableMemory < needs.memory
    case InsufficientDisk => w.availableDisk < needs.disk
    case GpuUnavailable => needs.gpu && !w.gpu
    case MissingRequiredTag => MissesTag(needs.tags, w)
  }

  class EligibilityResult {
    var failures: seq<EligibilityFailure>
    var missingTags: seq<Tag>

    constructor ()
      ensures failures == [] && missingTags == []
    {
      failures, missingTags := [], [];
    }

    method AddFailure(f: EligibilityFailure)
      modifies this
      ensures failures == old(failures) + [f] && missingTags == old(missingTags)
    {
      failures := failures + [f];
    }

    method AddMissingTag(tag: Tag)
      modifies this
      ensures missingTags == old(missingTags) + [tag] && failures == old(failures)
    {
      missingTags := missingTags + [tag];
    }

    predicate IsEligible()
      reads this
    {
      failures == []
    }
  }

  function MissingTags(needs: seq<Tag>, w: Worker): seq<Tag>
  {
    if needs == [] then []
    else
      var last := needs[|needs| - 1];
      MissingTags(needs[..|needs| - 1], w) + (if last in w.tags then [] else [last])
  }

  function Push(reasons: seq<EligibilityFailure>, applies: bool, f: EligibilityFailure): (r: seq<EligibilityFailure>)
    ensures forall g :: g in r <==> g in reasons || (applies && g == f)
    ensures r == [] <==> reasons == [] && !applies
  {
    if applies then reasons + [f] else reasons
  }

  /** The reasons in the order they are checked. */
  function Reasons(needs: Requirements, w: Worker): seq<EligibilityFailure>
  {
    var a := Push([], w.state.Draining?, WorkerDraining);
    var b := Push(a, w.state.Offline? || w.state.Disabled?, WorkerNotOnline);
    Push(ResourceReasons(b, needs, w), MissesTag(needs.tags, w), MissingRequiredTag)
  }

  function ResourceReasons(before: seq<EligibilityFailure>, needs: Requirements, w: Worker): seq<EligibilityFailure>
  {
    var c := Push(before, w.running >= w.slots, NoExecutionSlot);
    var d := Push(c, w.availableCpu < needs.cpu, InsufficientCpu);
    var e := Push(d, w.availableMemory < needs.memory, InsufficientMemory);
    var f := Push(e, w.availableDisk < needs.disk, InsufficientDisk);
    Push(f, needs.gpu && !w.gpu, GpuUnavailable)
  }

  predicate MissesTag(tags: seq<Tag>, w: Worker)
  {
    exists tag | tag in tags :: tag !in w.tags
  }

  /** Every reason that applies is reported and no other; a worker without one is eligible. */
  lemma ReasonsAreExact(needs: Requirements, w: Worker)
    ensures forall f :: f in Reasons(needs, w) <==> Applies(f, needs, w)
    ensures Reasons(needs, w) == [] <==> Eligible(needs, w)
  {
    hide Push;
  }

  /** The position of a reason in the order of the checks. */
  function CheckedAt(f: EligibilityFailure): nat
  {
    match f
    case WorkerDraining => 0
    case WorkerNotOnline => 1
    case NoExecutionSlot => 2
    case InsufficientCpu => 3
    case InsufficientMemory => 4
    case InsufficientDisk => 5
    case GpuUnavailable => 6
    case MissingRequiredTag => 7
  }

  /** Reasons from the first `n` checks, in their order, each of them once. */
  predicate InOrder(reasons: seq<EligibilityFailure>, n: nat)
  {
    && (forall i :: 0 <= i < |reasons| ==> CheckedAt(reasons[i]) < n)
    && (forall i, j :: 0 <= i < j < |reasons| ==> CheckedAt(reasons[i]) < CheckedAt(reasons[j]))
  }

  lemma PushKeepsOrder(reasons: seq<EligibilityFailure>, applies: bool, f: EligibilityFailure)
    requires InOrder(reasons, CheckedAt(f))
    ensures InOrder(Push(reasons, applies, f), CheckedAt(f) + 1)
  {
  }

  lemma NoReasonIsInOrder()
    ensures InOrder([], 0)
  {
  }

  lemma ReasonsComeInOrder(needs: Requirements, w: Worker)
    ensures InOrder(Reasons(needs, w), 8)
  {
    hide Push, InOrder, MissesTag, ResourceReasons;
    NoReasonIsInOrder();
    var a := Push([], w.state.Draining?, WorkerDraining);
    PushKeepsOrder([], w.state.Draining?, WorkerDraining);
    var b := Push(a, w.state.Offline? || w.state.Disabled?, WorkerNotOnline);
    PushKeepsOrder(a, w.state.Offline? || w.state.Disabled?, WorkerNotOnline);
    ResourceReasonsComeInOrder(b, needs, w);
    PushKeepsOrder(ResourceReasons(b, needs, w), MissesTag(needs.tags, w), MissingRequiredTag);
  }

  lemma ResourceReasonsComeInOrder(before: seq<EligibilityFailure>, needs: Requirements, w: Worker)
    requires InOrder(before, 2)
    ensures InOrder(ResourceReasons(before, needs, w), 7)
  {
    hide Push, InOrder;
    var c := Push(before, w.running >= w.slots, NoExecutionSlot);
    PushKeepsOrder(before, w.running >= w.slots, NoExecutionSlot);
    var d := Push(c, w.availableCpu < needs.cpu, InsufficientCpu);
    PushKeepsOrder(c, w.availableCpu < needs.cpu, InsufficientCpu);
    var e := Push(d, w.availableMemory < needs.memory, InsufficientMemory);
    PushKeepsOrder(d, w.availableMemory < needs.memory, InsufficientMemory);
    var f := Push(e, w.availableDisk < needs.disk, InsufficientDisk);
    PushKeepsOrder(e, w.availableDisk < needs.disk, InsufficientDisk);
    PushKeepsOrder(f, needs.gpu && !w.gpu, GpuUnavailable);
  }

  /** The missing tags are those of the required ones that the worker has not, as often and in the order required. */
  lemma {:induction false} MissingTagsAreExact(needs: seq<Tag>, w: Worker, tag: Tag)
    ensures multiset(MissingTags(needs, w))[tag] == if tag in w.tags then 0 else multiset(needs)[tag]
  {
    if needs != [] {
      var before, last := needs[..|needs| - 1], needs[|needs| - 1];
      OneMoreTag(needs, w);
      hide MissingTags;
      MissingTagsAreExact(before, w, tag);
      CountsWithLast(before, last, tag);
      CountsWithLast(MissingTags(before, w), last, tag);
      assert needs == before + [last];
    }
  }

  lemma OneMoreTag(needs: seq<Tag>, w: Worker)
    requires needs != []
    ensures var before, last := needs[..|needs| - 1], needs[|needs| - 1];
            MissingTags(needs, w) == if last in w.tags then MissingTags(before, w) else MissingTags(before, w) + [last]
  {
  }

  lemma {:induction false} MissingTagsCompose(a: seq<Tag>, b: seq<Tag>, w: Worker)
    ensures MissingTags(a + b, w) == MissingTags(a, w) + MissingTags(b, w)
    decreases b
  {
    if b == [] {
      assert a + b == a;
    } else {
      var last := |b| - 1;
      MissingTagsCompose(a, b[..last], w);
      assert (a + b)[..|a + b| - 1] == a + b[..last];
    }
  }

  method EvaluateWorker(needs: Requirements, w: Worker) returns (r: EligibilityResult)
    ensures fresh(r)
    ensures r.failures == Reasons(needs, w)
    ensures r.IsEligible() <==> Eligible(needs, w)
    ensures r.missingTags == MissingTags(needs.tags, w)
    ensures forall tag :: tag in r.missingTags <==> tag in needs.tags && tag !in w.tags
  {
    forall tag
      ensures tag in MissingTags(needs.tags, w) <==> tag in needs.tags && tag !in w.tags
    {
      MissingTagsAreExact(needs.tags, w, tag);
      assert tag in MissingTags(needs.tags, w) <==> multiset(MissingTags(needs.tags, w))[tag] > 0;
      assert tag in needs.tags <==> multiset(needs.tags)[tag] > 0;
    }
    r := new EligibilityResult();
    match w.state {
      case Online =>
      case Draining => r.AddFailure(WorkerDraining);
      case Offline => r.AddFailure(WorkerNotOnline);
      case Disabled => r.AddFailure(WorkerNotOnline);
    }
    AddResourceFailures(r, needs, w);
    var missingAny := AddMissingTags(r, needs.tags, w);
    if missingAny {
      r.AddFailure(MissingRequiredTag);
    }
    ReasonsAreExact(needs, w);
  }

  method AddResourceFailures(r: EligibilityResult, needs: Requirements, w: Worker)
    modifies r
    ensures r.failures == ResourceReasons(old(r.failures), needs, w)
    ensures r.missingTags == old(r.missingTags)
  {
    if w.running >= w.slots {
      r.AddFailure(NoExecutionSlot);
    }
    if w.availableCpu < needs.cpu {
      r.AddFailure(InsufficientCpu);
    }
    if w.availableMemory < needs.memory {
      r.AddFailure(InsufficientMemory);
    }
    if w.availableDisk < needs.disk {
      r.AddFailure(InsufficientDisk);
    }
    if needs.gpu && !w.gpu {
      r.AddFailure(GpuUnavailable);
    }
  }

  method AddMissingTags(r: EligibilityResult, tags: seq<Tag>, w: Worker) returns (missingAny: bool)
    modifies r
    ensures r.failures == old(r.failures)
    ensures r.missingTags == old(r.missingTags) + MissingTags(tags, w)
    ensures missingAny <==> MissesTag(tags, w)
  {
    missingAny := false;
    for i := 0 to |tags|
      invariant r.failures == old(r.failures)
      invariant r.missingTags == old(r.missingTags) + MissingTags(tags[..i], w)
      invariant missingAny <==> MissesTag(tags[..i], w)
    {
      assert tags[..i + 1] == tags[..i] + [tags[i]];
      if tags[i] !in w.tags {
        r.AddMissingTag(tags[i]);
        missingAny := true;
      }
    }
    assert tags[..|tags|] == tags;
  }

  // ---------- the resource ledger, in exact arithmetic ----------

  const CPU_TOLERANCE: real := 0.000001

  function AfterReserve(w: Worker, needs: Requirements): Result<Worker>
  {
    if !Eligible(needs, w) then Err(CannotReserve)
    else Ok(w.(availableCpu := w.availableCpu - needs.cpu,
               availableMemory := w.availableMemory - needs.memory,
               availableDisk := w.availableDisk - needs.disk,
               running := w.running + 1))
  }

  function AfterRelease(w: Worker, needs: Requirements): Result<Worker>
  {
    if w.running == 0 then Err(NothingToRelease)
    else if || needs.cpu > w.totalCpu - w.availableCpu + CPU_TOLERANCE
            || needs.memory > w.totalMemory - w.availableMemory
            || needs.disk > w.totalDisk - w.availableDisk then Err(OverRelease)
    else Ok(w.(availableCpu := if w.availableCpu + needs.cpu < w.totalCpu then w.availableCpu + needs.cpu else w.totalCpu,
               availableMemory := w.availableMemory + needs.memory,
               availableDisk := w.availableDisk + needs.disk,
               running := w.running - 1))
  }

  // ---------- the mutable record, in 64-bit arithmetic ----------

  function WrapAdd(a: u64, b: u64): u64
  {
    (a + b) % TWO_TO_64
  }

  function WrapSub(a: u64, b: u64): u64
  {
    (a - b) % TWO_TO_64
  }

  /** The ledger object. Its arithmetic wraps as the machine's does; the contracts show that it never has to. */
  class WorkerRecord {
    const fields: Worker
    var availableCpu: real
    var availableMemory: u64
    var availableDisk: u64
    var running: u64

    ghost predicate Valid()
      reads this
    {
      ValidWorker(fields.(availableCpu := availableCpu, availableMemory := availableMemory,
                          availableDisk := availableDisk, running := running))
    }

    function Snapshot(): Worker
      requires Valid()
      reads this
    {
      fields.(availableCpu := availableCpu, availableMemory := availableMemory,
              availableDisk := availableDisk, running := running)
    }

    constructor (w: Worker)
      ensures Valid() && Snapshot() == w
    {
      fields := w;
      availableCpu := w.availableCpu;
      availableMemory := w.availableMemory;
      availableDisk := w.availableDisk;
      running := w.running;
    }

    method CanReserve(needs: Requirements) returns (ok: bool)
      requires Valid()
      ensures ok <==> Eligible(needs, Snapshot())
    {
      var r := EvaluateWorker(needs, Snapshot());
      ok := r.IsEligible();
    }

    method Reserve(needs: Requirements) returns (o: Outcome)
      requires Valid()
      modifies this
      ensures Valid()
      ensures match AfterReserve(old(Snapshot()), needs)
              case Ok(w) => o == Done && Snapshot() == w
              case Err(e) => o == Thrown(e) && Snapshot() == old(Snapshot())
    {
      var ok := CanReserve(needs);
      if !ok {
        return Thrown(CannotReserve);
      }
      availableCpu := availableCpu - needs.cpu;
      availableMemory := WrapSub(availableMemory, needs.memory);
      availableDisk := WrapSub(availableDisk, needs.disk);
      running := WrapAdd(running, 1);
      return Done;
    }

    method Release(needs: Requirements) returns (o: Outcome)
      requires Valid()
      modifies this
      ensures Valid()
      ensures match AfterRelease(old(Snapshot()), needs)
              case Ok(w) => o == Done && Snapshot() == w
              case Err(e) => o == Thrown(e) && Snapshot() == old(Snapshot())
    {
      if running == 0 {
        return Thrown(NothingToRelease);
      }
      var reservedCpu := fields.totalCpu - availableCpu;
      var reservedMemory := WrapSub(fields.totalMemory, availableMemory);
      var reservedDisk := WrapSub(fields.totalDisk, availableDisk);
      if needs.cpu > reservedCpu + CPU_TOLERANCE {
        return Thrown(OverRelease);
      }
      if needs.memory > reservedMemory {
        return Thrown(OverRelease);
      }
      if needs.disk > reservedDisk {
        return Thrown(OverRelease);
      }
      availableCpu := if availableCpu + needs.cpu < fields.totalCpu then availableCpu + needs.cpu else fields.totalCpu;
      availableMemory := WrapAdd(availableMemory, needs.memory);
      availableDisk := WrapAdd(availableDisk, needs.disk);
      running := WrapSub(running, 1);
      return Done;
    }
  }
}
