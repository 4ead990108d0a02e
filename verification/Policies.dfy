/** The scheduling policies: worker_filter.cpp, least_loaded_policy.cpp, round_robin_policy.cpp. */
module Policies {
  import opened Errors
  import opened Jobs
  import opened Workers
  import opened Ordering

  // ---------- the eligible workers, by id ----------

  predicate IdBefore(v: Worker, w: Worker)
  {
    LexLess(v.id, w.id)
  }

  ghost predicate DistinctWorkers(ws: seq<Worker>)
  {
    forall i, j :: 0 <= i < j < |ws| ==> ws[i].id != ws[j].id
  }

  function EligibleOnly(needs: Requirements, ws: seq<Worker>): (r: seq<Worker>)
    ensures forall w :: w in r <==> w in ws && Eligible(needs, w)
  {
    if ws == [] then []
    else
      var last := ws[|ws| - 1];
      EligibleOnly(needs, ws[..|ws| - 1]) + (if Eligible(needs, last) then [last] else [])
  }

  function Candidates(needs: Requirements, ws: seq<Worker>): (r: seq<Worker>)
    ensures forall w :: w in r <==> w in ws && Eligible(needs, w)
  {
    var eligible := EligibleOnly(needs, ws);
    SameElements(Sort(IdBefore, eligible), eligible);
    Sort(IdBefore, eligible)
  }

  method FindEligibleWorkers(needs: Requirements, ws: seq<Worker>) returns (r: seq<Worker>)
    ensures r == Candidates(needs, ws)
  {
    r := [];
    for i := 0 to |ws|
      invariant r == EligibleOnly(needs, ws[..i])
    {
      assert ws[..i + 1][..i] == ws[..i];
      var result := EvaluateWorker(needs, ws[i]);
      if result.IsEligible() {
        r := r + [ws[i]];
      }
    }
    assert ws[..|ws|] == ws;
    r := Sort(IdBefore, r);
  }

  lemma {:induction false} EligibleOnlyCounts(needs: Requirements, ws: seq<Worker>, w: Worker)
    ensures multiset(EligibleOnly(needs, ws))[w] == if Eligible(needs, w) then multiset(ws)[w] else 0
  {
    if ws != [] {
      var last := |ws| - 1;
      EligibleOnlyCounts(needs, ws[..last], w);
      CountsWithLast(ws[..last], ws[last], w);
      CountsWithLast(EligibleOnly(needs, ws[..last]), ws[last], w);
      assert ws == ws[..last] + [ws[last]];
      assert EligibleOnly(needs, ws[..last]) + [] == EligibleOnly(needs, ws[..last]);
      hide Eligible;
    }
  }

  lemma {:induction false} EligibleOnlyDistinct(needs: Requirements, ws: seq<Worker>)
    requires DistinctWorkers(ws)
    ensures DistinctWorkers(EligibleOnly(needs, ws))
  {
    if ws != [] {
      var before := EligibleOnly(needs, ws[..|ws| - 1]);
      EligibleOnlyDistinct(needs, ws[..|ws| - 1]);
      assert forall i :: 0 <= i < |before| ==> before[i] in before;
    }
  }

  lemma IdBeforeOrders(ws: seq<Worker>)
    requires DistinctWorkers(ws)
    ensures Orders(IdBefore, ws) && Distinct(ws)
  {
    forall v, w | v in ws && w in ws && v != w
      ensures IdBefore(v, w) || IdBefore(w, v)
    {
      LexTotal(v.id, w.id);
    }
    forall w | w in ws
      ensures !IdBefore(w, w)
    {
      LexIrreflexive(w.id);
    }
    forall u, v, w | u in ws && v in ws && w in ws && IdBefore(u, v) && IdBefore(v, w)
      ensures IdBefore(u, w)
    {
      LexTransitive(u.id, v.id, w.id);
    }
  }

  /** The candidates, in id order, do not depend on the order in which the workers were listed. */
  lemma CandidatesForgetOrder(needs: Requirements, ws: seq<Worker>, vs: seq<Worker>)
    requires DistinctWorkers(ws) && DistinctWorkers(vs) && multiset(ws) == multiset(vs)
    ensures Candidates(needs, ws) == Candidates(needs, vs)
    ensures SortedBy(IdBefore, Candidates(needs, ws))
  {
    var a, b := EligibleOnly(needs, ws), EligibleOnly(needs, vs);
    EligibleOnlyDistinct(needs, ws);
    EligibleOnlyDistinct(needs, vs);
    IdBeforeOrders(a);
    IdBeforeOrders(b);
    forall w
      ensures multiset(a)[w] == multiset(b)[w]
    {
      EligibleOnlyCounts(needs, ws, w);
      EligibleOnlyCounts(needs, vs, w);
    }
    assert multiset(a) == multiset(b);
    SortIsCanonical(IdBefore, a, b);
    SortSorts(IdBefore, a);
  }

  // ---------- least loaded ----------

  function NormalizedLoad(w: Worker): real
  {
    w.running as real / w.slots as real
  }

  /** Lighter load, then more free CPU, then more free memory, then the smaller id. */
  predicate BetterCandidate(v: Worker, w: Worker)
  {
    if NormalizedLoad(v) != NormalizedLoad(w) then NormalizedLoad(v) < NormalizedLoad(w)
    else if v.availableCpu != w.availableCpu then v.availableCpu > w.availableCpu
    else if v.availableMemory != w.availableMemory then v.availableMemory > w.availableMemory
    else LexLess(v.id, w.id)
  }

  lemma LoadsCompare(v: Worker, w: Worker)
    ensures NormalizedLoad(v) <= NormalizedLoad(w) <==> v.running * w.slots <= w.running * v.slots
  {
    var a, b, c, d := v.running as real, v.slots as real, w.running as real, w.slots as real;
    FractionsCompare(a, b, c, d);
    assert a * d == (v.running * w.slots) as real && c * b == (w.running * v.slots) as real;
  }

  lemma FractionsCompare(a: real, b: real, c: real, d: real)
    requires b > 0.0 && d > 0.0
    ensures a / b <= c / d <==> a * d <= c * b
  {
    var x, y := a / b, c / d;
    assert a == x * b && c == y * d;
    assert a * d == x * (b * d) && c * b == y * (b * d);
    if x <= y {
      assert x * (b * d) <= y * (b * d);
    } else {
      assert x * (b * d) > y * (b * d);
    }
  }

  /**
   * The preference in whole numbers: fewer busy slots in proportion, then more free CPU, then more free memory, then
   * the smaller byte at the first difference of the ids.
   */
  ghost predicate Outranks(v: Worker, w: Worker)
  {
    var a, b := v.running * w.slots, w.running * v.slots;
    || a < b
    || (a == b && v.availableCpu > w.availableCpu)
    || (a == b && v.availableCpu == w.availableCpu && v.availableMemory > w.availableMemory)
    || (a == b && v.availableCpu == w.availableCpu && v.availableMemory == w.availableMemory
        && exists n: nat :: DifferAt(v.id, w.id, n))
  }

  lemma BetterIffOutranks(v: Worker, w: Worker)
    ensures BetterCandidate(v, w) <==> Outranks(v, w)
  {
    LoadsCompare(v, w);
    LoadsCompare(w, v);
    LexLessIsFirstDifference(v.id, w.id);
  }

  lemma BetterIsTransitive(u: Worker, v: Worker, w: Worker)
    requires BetterCandidate(u, v) && BetterCandidate(v, w)
    ensures BetterCandidate(u, w)
  {
    if LexLess(u.id, v.id) && LexLess(v.id, w.id) {
      LexTransitive(u.id, v.id, w.id);
    }
  }

  /** On workers with distinct ids the preference is a strict total order. */
  lemma BetterOrders(ws: seq<Worker>)
    requires DistinctWorkers(ws)
    ensures Orders(BetterCandidate, ws)
  {
    forall w | w in ws
      ensures !BetterCandidate(w, w)
    {
      LexIrreflexive(w.id);
    }
    forall v, w | v in ws && w in ws && v != w
      ensures BetterCandidate(v, w) || BetterCandidate(w, v)
    {
      LexTotal(v.id, w.id);
    }
    forall u, v, w | u in ws && v in ws && w in ws && BetterCandidate(u, v) && BetterCandidate(v, w)
      ensures BetterCandidate(u, w)
    {
      BetterIsTransitive(u, v, w);
    }
  }

  // ---------- the policy interface ----------

  datatype PolicyKind = LeastLoaded | RoundRobin

  /** Which policy is installed and, for round-robin, the stored index. */
  datatype PolicyState = PolicyState(kind: PolicyKind, nextIndex: nat)

  datatype SchedulingDecision = SchedulingDecision(
    workerId: Id,
    policyName: string,
    eligibleCount: nat,
    score: Option<real>)

  function Chosen(p: PolicyState, candidates: seq<Worker>): (w: Worker)
    requires candidates != []
    ensures w in candidates
  {
    match p.kind
    case LeastLoaded => Least(BetterCandidate, candidates)
    case RoundRobin => candidates[p.nextIndex % |candidates|]
  }

  function Decide(p: PolicyState, needs: Requirements, ws: seq<Worker>): Option<SchedulingDecision>
  {
    DecideAmong(p, Candidates(needs, ws))
  }

  function DecideAmong(p: PolicyState, candidates: seq<Worker>): Option<SchedulingDecision>
  {
    if candidates == [] then None
    else
      var w := Chosen(p, candidates);
      match p.kind
      case LeastLoaded => Some(SchedulingDecision(w.id, "least-loaded", |candidates|, Some(NormalizedLoad(w))))
      case RoundRobin => Some(SchedulingDecision(w.id, "round-robin", |candidates|, None))
  }

  function Advanced(p: PolicyState, needs: Requirements, ws: seq<Worker>): PolicyState
  {
    var n := |Candidates(needs, ws)|;
    if p.kind.LeastLoaded? || n == 0 then p else p.(nextIndex := (p.nextIndex % n + 1) % n)
  }

  /** Either policy decides exactly when some worker is eligible, and picks an eligible one. */
  lemma DecidesIffEligible(p: PolicyState, needs: Requirements, ws: seq<Worker>)
    ensures Decide(p, needs, ws).None? <==> forall w :: w in ws ==> !Eligible(needs, w)
    ensures Decide(p, needs, ws).Some? ==>
              exists w :: w in ws && Eligible(needs, w) && w.id == Decide(p, needs, ws).value.workerId
  {
    var candidates := Candidates(needs, ws);
    if candidates != [] {
      assert candidates[0] in candidates;
      var w := Chosen(p, candidates);
      assert w in ws && Eligible(needs, w);
    }
  }

  /** Least-loaded picks the one worker that beats every other eligible worker. */
  lemma LeastLoadedIsBest(p: PolicyState, needs: Requirements, ws: seq<Worker>, w: Worker)
    requires p.kind.LeastLoaded? && DistinctWorkers(ws)
    requires w in ws && Eligible(needs, w)
    ensures Decide(p, needs, ws).Some?
    ensures w.id == Decide(p, needs, ws).value.workerId <==>
            forall v :: v in ws && Eligible(needs, v) && v != w ==> Outranks(w, v)
  {
    forall v
      ensures BetterCandidate(w, v) <==> Outranks(w, v)
    {
      BetterIffOutranks(w, v);
    }
    hide Outranks;
    var candidates := Candidates(needs, ws);
    assert w in candidates;
    BetterOrders(ws);
    OrdersOnFewer(BetterCandidate, ws, candidates);
    var b := Least(BetterCandidate, candidates);
    forall v | v in candidates
      ensures v == b || BetterCandidate(b, v)
    {
      LeastPrecedesTheRest(BetterCandidate, candidates, v);
    }
    if w != b {
      NeverBothWays(BetterCandidate, ws, b, w);
    }
  }

  /**
   * The least-loaded decision carries the load it selected, which no eligible worker undercuts, and the number of
   * eligible workers. Loads compare as the exact fractions of busy slots.
   */
  lemma DecisionScoresTheLowestLoad(p: PolicyState, needs: Requirements, ws: seq<Worker>)
    requires p.kind.LeastLoaded? && DistinctWorkers(ws) && Decide(p, needs, ws).Some?
    ensures var d := Decide(p, needs, ws).value;
            && d.eligibleCount == |set w | w in ws && Eligible(needs, w)|
            && exists w :: w in ws && Eligible(needs, w) && w.id == d.workerId && d.score == Some(NormalizedLoad(w))
                           && forall v :: v in ws && Eligible(needs, v) ==> v.running * w.slots >= w.running * v.slots
  {
    var candidates := Candidates(needs, ws);
    var w := Chosen(p, candidates);
    CandidatesForgetOrder(needs, ws, ws);
    SortedIsDistinct(candidates);
    DistinctCounts(candidates);
    assert (set v | v in ws && Eligible(needs, v)) == set v | v in candidates;
    forall v | v in ws && Eligible(needs, v)
      ensures v.running * w.slots >= w.running * v.slots
    {
      BetterOrders(ws);
      OrdersOnFewer(BetterCandidate, ws, candidates);
      LeastPrecedesTheRest(BetterCandidate, candidates, v);
      LoadsCompare(w, v);
    }
  }

  lemma SortedIsDistinct(ws: seq<Worker>)
    requires SortedBy(IdBefore, ws)
    ensures Distinct(ws)
  {
    forall i, j | 0 <= i < j < |ws|
      ensures ws[i] != ws[j]
    {
      LexIrreflexive(ws[i].id);
    }
  }

  /** The decision names that eligible worker which outranks all others. */
  ghost predicate IsBest(d: Option<SchedulingDecision>, needs: Requirements, ws: seq<Worker>)
  {
    forall w :: w in ws && Eligible(needs, w) ==>
      && d.Some?
      && (w.id == d.value.workerId <==> forall v :: v in ws && Eligible(needs, v) && v != w ==> Outranks(w, v))
  }

  lemma LeastLoadedIsBestOfAll(p: PolicyState, needs: Requirements, ws: seq<Worker>)
    requires p.kind.LeastLoaded? && DistinctWorkers(ws)
    ensures IsBest(Decide(p, needs, ws), needs, ws)
  {
    hide Decide, Outranks, Eligible;
    forall w | w in ws && Eligible(needs, w)
      ensures Decide(p, needs, ws).Some?
      ensures w.id == Decide(p, needs, ws).value.workerId <==>
                forall v :: v in ws && Eligible(needs, v) && v != w ==> Outranks(w, v)
    {
      LeastLoadedIsBest(p, needs, ws, w);
    }
  }

  lemma {:induction false} DistinctCounts<T>(s: seq<T>)
    requires Distinct(s)
    ensures |set x | x in s| == |s|
  {
    if s != [] {
      var last := |s| - 1;
      DistinctCounts(s[..last]);
      assert (set x | x in s) == (set x | x in s[..last]) + {s[last]};
    }
  }

  /** Either decision names its policy and counts the eligible workers; only least-loaded carries a score. */
  lemma DecisionCountsTheEligible(p: PolicyState, needs: Requirements, ws: seq<Worker>)
    requires DistinctWorkers(ws) && Decide(p, needs, ws).Some?
    ensures var d := Decide(p, needs, ws).value;
            && d.eligibleCount == |set w | w in ws && Eligible(needs, w)|
            && d.policyName == (if p.kind.RoundRobin? then "round-robin" else "least-loaded")
            && (d.score.Some? <==> p.kind.LeastLoaded?)
  {
    var candidates := Candidates(needs, ws);
    CandidatesForgetOrder(needs, ws, ws);
    SortedIsDistinct(candidates);
    DistinctCounts(candidates);
    assert (set v | v in ws && Eligible(needs, v)) == set v | v in candidates;
  }

  /** A decision does not depend on the order in which the workers were listed. */
  lemma DecisionForgetsOrder(p: PolicyState, needs: Requirements, ws: seq<Worker>, vs: seq<Worker>)
    requires DistinctWorkers(ws) && DistinctWorkers(vs) && multiset(ws) == multiset(vs)
    ensures Decide(p, needs, ws) == Decide(p, needs, vs)
    ensures Advanced(p, needs, ws) == Advanced(p, needs, vs)
  {
    hide DecideAmong, Candidates;
    CandidatesForgetOrder(needs, ws, vs);
  }

  /** The installed policy object. */
  class Policy {
    const kind: PolicyKind
    var nextIndex: nat

    function State(): PolicyState
      reads this
    {
      PolicyState(kind, nextIndex)
    }

    constructor (kind: PolicyKind)
      ensures State() == PolicyState(kind, 0)
    {
      this.kind := kind;
      nextIndex := 0;
    }

    method SelectWorker(needs: Requirements, ws: seq<Worker>) returns (d: Option<SchedulingDecision>)
      modifies this
      ensures d == Decide(old(State()), needs, ws)
      ensures State() == Advanced(old(State()), needs, ws)
      ensures kind.LeastLoaded? && DistinctWorkers(ws) ==> IsBest(d, needs, ws)
    {
      hide IsBest, DistinctWorkers;
      if kind.LeastLoaded? && DistinctWorkers(ws) {
        LeastLoadedIsBestOfAll(State(), needs, ws);
      }
      var candidates := FindEligibleWorkers(needs, ws);
      if candidates == [] {
        return None;
      }
      match kind {
        case LeastLoaded =>
          var selected := MinElement(candidates);
          return Some(SchedulingDecision(selected.id, "least-loaded", |candidates|, Some(NormalizedLoad(selected))));
        case RoundRobin =>
          var selectedIndex := nextIndex % |candidates|;
          nextIndex := (selectedIndex + 1) % |candidates|;
          return Some(SchedulingDecision(candidates[selectedIndex].id, "round-robin", |candidates|, None));
      }
    }
  }

  method MinElement(ws: seq<Worker>) returns (b: Worker)
    requires ws != []
    ensures b == Least(BetterCandidate, ws)
    ensures DistinctWorkers(ws) ==> forall v :: v in ws && v != b ==> Outranks(b, v)
  {
    b := ws[0];
    for i := 1 to |ws|
      invariant b == Least(BetterCandidate, ws[..i])
    {
      assert ws[..i + 1][..i] == ws[..i];
      if BetterCandidate(ws[i], b) {
        b := ws[i];
      }
    }
    assert ws[..|ws|] == ws;
    if DistinctWorkers(ws) {
      LeastOutranks(ws);
    }
  }

  lemma LeastOutranks(ws: seq<Worker>)
    requires ws != [] && DistinctWorkers(ws)
    ensures forall v :: v in ws && v != Least(BetterCandidate, ws) ==> Outranks(Least(BetterCandidate, ws), v)
  {
    BetterOrders(ws);
    forall v | v in ws && v != Least(BetterCandidate, ws)
      ensures Outranks(Least(BetterCandidate, ws), v)
    {
      LeastPrecedesTheRest(BetterCandidate, ws, v);
      BetterIffOutranks(Least(BetterCandidate, ws), v);
    }
  }

  // ---------- round-robin fairness ----------

  lemma ModUnique(m: int, n: int, q: int, r: int)
    requires n > 0 && 0 <= r < n && m == q * n + r
    ensures m / n == q && m % n == r
  {
    var d := m / n - q;
    assert m == n * (m / n) + m % n;
    assert n * d == r - m % n by {
      assert n * d == n * (m / n) - n * q;
    }
    assert d >= 1 ==> n * d >= n;
    assert d <= -1 ==> n * d <= -n;
  }

  lemma ModSuccessor(m: nat, n: nat)
    requires n > 0
    ensures (m + 1) / n == if m % n == n - 1 then m / n + 1 else m / n
    ensures (m + 1) % n == if m % n == n - 1 then 0 else m % n + 1
  {
    var q, r := m / n, m % n;
    if r == n - 1 {
      assert (q + 1) * n == q * n + n;
      ModUnique(m + 1, n, q + 1, 0);
    } else {
      ModUnique(m + 1, n, q, r + 1);
    }
  }

  /** The position `k` steps after `i` on a ring of `n`. */
  function Ring(i: nat, n: nat, k: nat): (r: nat)
    requires i < n
    ensures r < n
    decreases k
  {
    if k == 0 then i else Ring(if i + 1 == n then 0 else i + 1, n, k - 1)
  }

  lemma {:induction false} RingIsMod(m: nat, n: nat, k: nat)
    requires n > 0
    ensures Ring(m % n, n, k) == (m + k) % n
    decreases k
  {
    if k > 0 {
      ModSuccessor(m, n);
      RingIsMod(m + 1, n, k - 1);
    }
  }

  /** The candidates' ids, in order. */
  function CandidateIds(needs: Requirements, ws: seq<Worker>): (ids: seq<Id>)
    ensures |ids| == |Candidates(needs, ws)|
    ensures forall i :: 0 <= i < |ids| ==> ids[i] == Candidates(needs, ws)[i].id
  {
    var c := Candidates(needs, ws);
    seq(|c|, i requires 0 <= i < |c| => c[i].id)
  }

  lemma CandidateIdsAreDistinct(needs: Requirements, ws: seq<Worker>)
    requires DistinctWorkers(ws)
    ensures Distinct(CandidateIds(needs, ws))
  {
    CandidatesForgetOrder(needs, ws, ws);
    var ids := CandidateIds(needs, ws);
    forall i, j | 0 <= i < j < |ids|
      ensures ids[i] != ids[j]
    {
      LexIrreflexive(ids[i]);
    }
  }

  /** The workers that `calls` successive decisions select while the same workers stay eligible. */
  function RoundRobinRun(p: PolicyState, needs: Requirements, ws: seq<Worker>, calls: nat): (ids: seq<Id>)
    requires Candidates(needs, ws) != []
    ensures |ids| == calls
    decreases calls
  {
    if calls == 0 then []
    else [Decide(p, needs, ws).value.workerId] + RoundRobinRun(Advanced(p, needs, ws), needs, ws, calls - 1)
  }

  /** `run` goes round `ids` from position `i` on. */
  ghost predicate Cycles(run: seq<Id>, ids: seq<Id>, i: nat)
  {
    i < |ids| && forall k :: 0 <= k < |run| ==> run[k] == ids[Ring(i, |ids|, k)]
  }

  lemma {:induction false} RunCycles(p: PolicyState, needs: Requirements, ws: seq<Worker>, calls: nat)
    requires p.kind.RoundRobin? && Candidates(needs, ws) != []
    ensures Cycles(RoundRobinRun(p, needs, ws, calls), CandidateIds(needs, ws), p.nextIndex % |Candidates(needs, ws)|)
    decreases calls
  {
    if calls > 0 {
      FirstSelection(p, needs, ws);
      hide Candidates, Decide, Advanced;
      RunCycles(Advanced(p, needs, ws), needs, ws, calls - 1);
    }
  }

  /** One call selects the candidate at the stored index and stores the next one on the ring. */
  lemma FirstSelection(p: PolicyState, needs: Requirements, ws: seq<Worker>)
    requires p.kind.RoundRobin? && Candidates(needs, ws) != []
    ensures var n, p' := |Candidates(needs, ws)|, Advanced(p, needs, ws);
            var i := p.nextIndex % n;
            && Decide(p, needs, ws).Some? && Decide(p, needs, ws).value.workerId == CandidateIds(needs, ws)[i]
            && p' == p.(nextIndex := if i + 1 == n then 0 else i + 1) && p'.nextIndex % n == p'.nextIndex
  {
    var n := |Candidates(needs, ws)|;
    var i := p.nextIndex % n;
    ModUnique(i, n, 0, i);
    ModSuccessor(i, n);
    var next := (i + 1) % n;
    ModUnique(next, n, 0, next);
    hide Candidates;
  }

  /** Call k selects, in id order, position (start + k) mod n among the n candidates. */
  lemma RoundRobinCycles(p: PolicyState, needs: Requirements, ws: seq<Worker>, calls: nat, k: nat)
    requires p.kind.RoundRobin? && Candidates(needs, ws) != [] && k < calls
    ensures var n := |CandidateIds(needs, ws)|;
            RoundRobinRun(p, needs, ws, calls)[k] == CandidateIds(needs, ws)[(p.nextIndex + k) % n]
  {
    RunCycles(p, needs, ws, calls);
    CycleAt(RoundRobinRun(p, needs, ws, calls), CandidateIds(needs, ws), p.nextIndex, k);
  }

  lemma CycleAt(run: seq<Id>, ids: seq<Id>, start: nat, k: nat)
    requires ids != [] && Cycles(run, ids, start % |ids|) && k < |run|
    ensures run[k] == ids[(start + k) % |ids|]
  {
    RingIsMod(start, |ids|, k);
  }

  /** How many of the numbers below `m` leave remainder `a`. */
  function Hits(m: nat, n: nat, a: nat): nat
    requires n > 0
  {
    if m == 0 then 0 else Hits(m - 1, n, a) + (if (m - 1) % n == a then 1 else 0)
  }

  lemma {:induction false} HitsInClosedForm(m: nat, n: nat, a: nat)
    requires n > 0 && a < n
    ensures Hits(m, n, a) == m / n + (if m % n > a then 1 else 0)
  {
    if m == 0 {
      ModUnique(0, n, 0, 0);
    } else {
      HitsInClosedForm(m - 1, n, a);
      ModSuccessor(m - 1, n);
    }
  }

  lemma {:induction false} CycleCount(run: seq<Id>, ids: seq<Id>, start: nat, lo: nat, hi: nat, a: nat)
    requires ids != [] && Cycles(run, ids, start % |ids|) && Distinct(ids) && lo <= hi <= |run| && a < |ids|
    ensures multiset(run[lo..hi])[ids[a]] == Hits(start + hi, |ids|, a) - Hits(start + lo, |ids|, a)
    decreases hi - lo
  {
    if lo < hi {
      CycleCount(run, ids, start, lo + 1, hi, a);
      CycleAt(run, ids, start, lo);
      WindowWithFirst(run, lo, hi, ids[a]);
      OneMoreHit(start + lo, |ids|, a);
      var r := (start + lo) % |ids|;
      assert r != a ==> ids[r] != ids[a];
      hide Hits, Cycles;
    }
  }

  lemma WindowWithFirst<T>(s: seq<T>, lo: nat, hi: nat, x: T)
    requires lo < hi <= |s|
    ensures multiset(s[lo..hi])[x] == multiset(s[lo + 1..hi])[x] + (if s[lo] == x then 1 else 0)
  {
    assert s[lo..hi] == [s[lo]] + s[lo + 1..hi];
  }

  lemma OneMoreHit(m: nat, n: nat, a: nat)
    requires n > 0
    ensures Hits(m + 1, n, a) == Hits(m, n, a) + (if m % n == a then 1 else 0)
  {
  }

  lemma HitsPerRound(m: nat, n: nat, a: nat)
    requires n > 0 && a < n
    ensures Hits(m + n, n, a) == Hits(m, n, a) + 1
  {
    assert (m / n + 1) * n == (m / n) * n + n;
    ModUnique(m + n, n, m / n + 1, m % n);
    HitsInClosedForm(m, n, a);
    HitsInClosedForm(m + n, n, a);
  }

  lemma OneRoundHitsEachOnce(run: seq<Id>, ids: seq<Id>, start: nat, lo: nat, id: Id)
    requires ids != [] && Cycles(run, ids, start % |ids|) && Distinct(ids) && id in ids && lo + |ids| <= |run|
    ensures multiset(run[lo..lo + |ids|])[id] == 1
  {
    var a :| 0 <= a < |ids| && ids[a] == id;
    CycleCount(run, ids, start, lo, lo + |ids|, a);
    HitsPerRound(start + lo, |ids|, a);
  }

  lemma HitsDifferByOne(m: nat, k: nat, n: nat, a: nat, b: nat)
    requires a < n && b < n
    ensures Hits(k, n, a) + Hits(m, n, b) <= Hits(k, n, b) + Hits(m, n, a) + 1
  {
    HitsInClosedForm(m, n, a);
    HitsInClosedForm(k, n, a);
    HitsInClosedForm(m, n, b);
    HitsInClosedForm(k, n, b);
  }

  lemma WindowsAreBalanced(run: seq<Id>, ids: seq<Id>, start: nat, lo: nat, hi: nat, v: Id, w: Id)
    requires ids != [] && Cycles(run, ids, start % |ids|) && Distinct(ids) && v in ids && w in ids && lo <= hi <= |run|
    ensures multiset(run[lo..hi])[v] <= multiset(run[lo..hi])[w] + 1
  {
    var a :| 0 <= a < |ids| && ids[a] == v;
    var b :| 0 <= b < |ids| && ids[b] == w;
    CountsDifferByOne(run, ids, start, lo, hi, a, b);
  }

  lemma CountsDifferByOne(run: seq<Id>, ids: seq<Id>, start: nat, lo: nat, hi: nat, a: nat, b: nat)
    requires ids != [] && Cycles(run, ids, start % |ids|) && Distinct(ids) && a < |ids| && b < |ids| && lo <= hi <= |run|
    ensures multiset(run[lo..hi])[ids[a]] <= multiset(run[lo..hi])[ids[b]] + 1
  {
    CycleCount(run, ids, start, lo, hi, a);
    CycleCount(run, ids, start, lo, hi, b);
    HitsDifferByOne(start + lo, start + hi, |ids|, a, b);
  }

  /** Any n consecutive calls select each of the n eligible workers exactly once. */
  lemma RoundRobinIsFair(p: PolicyState, needs: Requirements, ws: seq<Worker>, lo: nat, id: Id)
    requires p.kind.RoundRobin? && DistinctWorkers(ws) && id in CandidateIds(needs, ws)
    ensures var n := |CandidateIds(needs, ws)|;
            multiset(RoundRobinRun(p, needs, ws, lo + n)[lo..lo + n])[id] == 1
  {
    hide RoundRobinRun, Candidates, CandidateIds, Cycles, Distinct, DistinctWorkers, Eligible, Decide, Advanced;
    var ids := CandidateIds(needs, ws);
    RunCycles(p, needs, ws, lo + |ids|);
    CandidateIdsAreDistinct(needs, ws);
    OneRoundHitsEachOnce(RoundRobinRun(p, needs, ws, lo + |ids|), ids, p.nextIndex, lo, id);
  }

  /** In any window of calls, two eligible workers are selected equally often, give or take one. */
  lemma RoundRobinIsBalanced(p: PolicyState, needs: Requirements, ws: seq<Worker>, lo: nat, hi: nat, v: Id, w: Id)
    requires p.kind.RoundRobin? && DistinctWorkers(ws) && lo <= hi
    requires v in CandidateIds(needs, ws) && w in CandidateIds(needs, ws)
    ensures var window := multiset(RoundRobinRun(p, needs, ws, hi)[lo..hi]);
            window[v] <= window[w] + 1 && window[w] <= window[v] + 1
  {
    hide RoundRobinRun, Candidates, CandidateIds, Cycles, Distinct, DistinctWorkers, Eligible, Decide, Advanced;
    var ids := CandidateIds(needs, ws);
    RunCycles(p, needs, ws, hi);
    CandidateIdsAreDistinct(needs, ws);
    WindowsAreBalanced(RoundRobinRun(p, needs, ws, hi), ids, p.nextIndex, lo, hi, v, w);
    WindowsAreBalanced(RoundRobinRun(p, needs, ws, hi), ids, p.nextIndex, lo, hi, w, v);
  }
}
