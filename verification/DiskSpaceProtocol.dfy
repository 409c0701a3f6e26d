/**
 Reservations, writers and capacity probes running concurrently.

 A reserving request reads the device revision under the mutex, probes the
 free space without it, and commits under the mutex only if the revision is
 unchanged. Writers shrink the free space by at most what they reserved and
 account for written bytes later, in batches.
 */
module DiskSpaceProtocol {
  import opened Basics
  import opened DiskSpace

  /** A live reservation and the bytes its owner has written but not yet consumed. */
  datatype Live = Live(value: Reservation, ahead: nat)

  datatype ProbePhase =
    | Start
    | Observed(revision: nat)
    | Probed(revision: nat, available: nat)
    | Granted
    | Refused
    | Confirmed
    | Busy                               // too many concurrent changes

  datatype Prober = Prober(device: nat, requested: nat, minimumFree: nat, check: bool, attempts: nat, phase: ProbePhase)

  datatype State = State(
    minimum: nat,                        // every request protects at least this much
    accounting: Accounting,
    live: map<nat, Live>,
    probers: map<nat, Prober>,
    free: map<nat, nat>,
    guarded: set<nat>)                   // devices with a successful grant so far

  datatype Action =
    | Begin(p: nat, prober: Prober)
    | ReadRevision(p: nat)
    | Probe(p: nat)
    | Commit(p: nat)
    | Write(r: nat, bytes: nat)
    | ConsumeBytes(r: nat, bytes: nat)
    | FlushBytes(r: nat)
    | DropReservation(r: nat)
    | GrowFree(device: nat, bytes: nat)

  function Free(s: State, device: nat): nat {
    if device in s.free then s.free[device] else 0
  }

  ghost predicate Initial(s: State) {
    s.accounting == Accounting(map[], map[]) && s.live == map[] && s.probers == map[] && s.guarded == {}
    && forall d :: d in s.free ==> s.free[d] <= U64_MAX
  }

  ghost predicate Enabled(s: State, a: Action) {
    match a
    case Begin(p, prober) =>
      && p !in s.probers && p !in s.live
      && prober.phase == Start && prober.attempts == 0
      && s.minimum <= prober.minimumFree <= U64_MAX && prober.requested <= U64_MAX
    case ReadRevision(p) => p in s.probers && s.probers[p].phase.Start?
    case Probe(p) => p in s.probers && s.probers[p].phase.Observed?
    case Commit(p) => p in s.probers && s.probers[p].phase.Probed? && p !in s.live
    case Write(r, bytes) =>
      && r in s.live
      && s.live[r].ahead + bytes <= s.live[r].value.remaining
      && bytes <= Free(s, s.live[r].value.device)
    case ConsumeBytes(r, bytes) => r in s.live && bytes <= s.live[r].ahead
    case FlushBytes(r) => r in s.live
    case DropReservation(r) => r in s.live
    case GrowFree(device, bytes) => Free(s, device) + bytes <= U64_MAX
  }

  function AfterCommit(s: State, p: nat): State
    requires p in s.probers && s.probers[p].phase.Probed?
  {
    var q := s.probers[p];
    if Revision(s.accounting, q.device) != q.phase.revision then
      var next := if q.attempts + 1 < MAX_CAPACITY_SNAPSHOT_RETRIES then Start else Busy;
      s.(probers := s.probers[p := q.(attempts := q.attempts + 1, phase := next)])
    else if q.check then
      var fits := q.minimumFree + Reserved(s.accounting, q.device) <= q.phase.available;
      s.(probers := s.probers[p := q.(phase := if fits then Confirmed else Refused)])
    else if q.minimumFree + Reserved(s.accounting, q.device) + q.requested <= q.phase.available then
      s.(probers := s.probers[p := q.(phase := Granted)],
         accounting := Reserve(s.accounting, q.device, q.requested),
         live := s.live[p := Live(Reservation(q.device, q.requested, 0), 0)],
         guarded := s.guarded + {q.device})
    else
      s.(probers := s.probers[p := q.(phase := Refused)])
  }

  ghost function Apply(s: State, a: Action): State
    requires Enabled(s, a)
  {
    match a
    case Begin(p, prober) => s.(probers := s.probers[p := prober])
    case ReadRevision(p) =>
      s.(probers := s.probers[p := s.probers[p].(phase := Observed(Revision(s.accounting, s.probers[p].device)))])
    case Probe(p) =>
      var q := s.probers[p];
      s.(probers := s.probers[p := q.(phase := Probed(q.phase.revision, Free(s, q.device)))])
    case Commit(p) => AfterCommit(s, p)
    case Write(r, bytes) =>
      var l := s.live[r];
      s.(live := s.live[r := l.(ahead := l.ahead + bytes)],
         free := s.free[l.value.device := Free(s, l.value.device) - bytes])
    case ConsumeBytes(r, bytes) =>
      var l := s.live[r];
      var (accounting, value) := Consume(s.accounting, l.value, bytes);
      s.(accounting := accounting, live := s.live[r := Live(value, l.ahead - bytes)])
    case FlushBytes(r) =>
      var l := s.live[r];
      var (accounting, value) := Flush(s.accounting, l.value);
      s.(accounting := accounting, live := s.live[r := l.(value := value)])
    case DropReservation(r) =>
      s.(accounting := Drop(s.accounting, s.live[r].value), live := s.live - {r})
    case GrowFree(device, bytes) => s.(free := s.free[device := Free(s, device) + bytes])
  }

  ghost predicate Next(s: State, a: Action, t: State) {
    Enabled(s, a) && t == Apply(s, a)
  }

  ghost predicate IsRun(states: seq<State>, actions: seq<Action>) {
    && |states| == |actions| + 1
    && Initial(states[0])
    && forall i :: 0 <= i < |actions| ==> Next(states[i], actions[i], states[i + 1])
  }

  // ----- sums over live reservations

  ghost function Sum(live: map<nat, Live>, weight: Live -> nat): nat
    decreases |live|
  {
    if live == map[] then 0
    else
      var r :| r in live;
      weight(live[r]) + Sum(live - {r}, weight)
  }

  /** The sum does not depend on the order in which reservations are picked. */
  lemma {:induction false} SumExtract(live: map<nat, Live>, weight: Live -> nat, r: nat)
    requires r in live
    ensures Sum(live, weight) == weight(live[r]) + Sum(live - {r}, weight)
    decreases |live|
  {
    var q :| q in live && Sum(live, weight) == weight(live[q]) + Sum(live - {q}, weight);
    if q != r {
      SumExtract(live - {q}, weight, r);
      SumExtract(live - {r}, weight, q);
      assert live - {q} - {r} == live - {r} - {q};
    }
  }

  lemma SumUpdate(live: map<nat, Live>, weight: Live -> nat, r: nat, l: Live)
    ensures Sum(live[r := l], weight) == Sum(live - {r}, weight) + weight(l)
    ensures r in live ==> Sum(live, weight) == Sum(live - {r}, weight) + weight(live[r])
    ensures r !in live ==> Sum(live, weight) == Sum(live - {r}, weight)
  {
    SumExtract(live[r := l], weight, r);
    assert live[r := l] - {r} == live - {r};
    if r in live {
      SumExtract(live, weight, r);
    } else {
      assert live - {r} == live;
    }
  }

  lemma {:induction false} SumMonotone(live: map<nat, Live>, low: Live -> nat, high: Live -> nat)
    requires forall r :: r in live ==> low(live[r]) <= high(live[r])
    ensures Sum(live, low) <= Sum(live, high)
    decreases |live|
  {
    if live != map[] {
      var r :| r in live;
      SumExtract(live, low, r);
      SumExtract(live, high, r);
      SumMonotone(live - {r}, low, high);
    }
  }

  function Tracked(device: nat): Live -> nat {
    (l: Live) => if l.value.device == device then l.value.remaining + l.value.pendingRelease else 0
  }

  function Unwritten(device: nat): Live -> nat {
    (l: Live) =>
      if l.value.device == device && l.ahead <= l.value.remaining then l.value.remaining - l.ahead else 0
  }

  /** Reserved bytes on a device that nobody has written yet. */
  ghost function UnwrittenBytes(s: State, device: nat): nat {
    Sum(s.live, Unwritten(device))
  }

  ghost function TrackedBytes(s: State, device: nat): nat {
    Sum(s.live, Tracked(device))
  }

  // ----- invariants

  ghost predicate BucketsExact(s: State) {
    && (forall d :: Reserved(s.accounting, d) == TrackedBytes(s, d))
    && (forall d :: d in s.accounting.reserved ==> s.accounting.reserved[d] > 0)
  }

  ghost predicate ProberInRange(s: State, q: Prober) {
    && s.minimum <= q.minimumFree
    && (q.phase.Probed? ==> q.phase.available <= U64_MAX)
    && (q.phase.Observed? || q.phase.Probed? ==> q.phase.revision <= Revision(s.accounting, q.device))
  }

  ghost predicate InRange(s: State) {
    && (forall d :: Reserved(s.accounting, d) <= U64_MAX)
    && (forall d :: d in s.free ==> s.free[d] <= U64_MAX)
    && (forall r :: r in s.live ==> s.live[r].ahead <= s.live[r].value.remaining)
    && (forall p :: p in s.probers ==> ProberInRange(s, s.probers[p]))
  }

  /** A probe whose revision is still current overstates the room that is left
      by no more than the bucket overstates the unwritten reservations. */
  ghost predicate ProbeIsSafe(s: State, q: Prober) {
    q.phase.Probed? && q.phase.revision == Revision(s.accounting, q.device) ==>
      q.phase.available + UnwrittenBytes(s, q.device) <= Free(s, q.device) + Reserved(s.accounting, q.device)
  }

  ghost predicate ProbesSafe(s: State) {
    forall p :: p in s.probers ==> ProbeIsSafe(s, s.probers[p])
  }

  ghost predicate SpaceProtected(s: State) {
    forall d :: d in s.guarded ==> Free(s, d) >= s.minimum + UnwrittenBytes(s, d)
  }

  ghost predicate Inv(s: State) {
    InRange(s) && BucketsExact(s) && ProbesSafe(s) && SpaceProtected(s)
  }

  lemma UnwrittenIsTracked(s: State, device: nat)
    requires BucketsExact(s)
    ensures UnwrittenBytes(s, device) <= Reserved(s.accounting, device)
  {
    SumMonotone(s.live, Unwritten(device), Tracked(device));
  }

  // ----- what one step does to one device

  lemma UpdateSums(live: map<nat, Live>, r: nat, l: Live, d: nat)
    ensures Sum(live[r := l], Tracked(d)) == Sum(live - {r}, Tracked(d)) + Tracked(d)(l)
    ensures Sum(live[r := l], Unwritten(d)) == Sum(live - {r}, Unwritten(d)) + Unwritten(d)(l)
    ensures Sum(live, Tracked(d)) == Sum(live - {r}, Tracked(d)) + if r in live then Tracked(d)(live[r]) else 0
    ensures Sum(live, Unwritten(d)) == Sum(live - {r}, Unwritten(d)) + if r in live then Unwritten(d)(live[r]) else 0
  {
    SumUpdate(live, Tracked(d), r, l);
    SumUpdate(live, Unwritten(d), r, l);
  }

  ghost predicate IsGrant(s: State, a: Action) {
    Enabled(s, a) && a.Commit? && AfterCommit(s, a.p).probers[a.p].phase.Granted?
  }

  /** Releasing what one reservation tracks keeps every bucket exact. */
  lemma ReleaseIsExact(a: Accounting, device: nat, bytes: nat, d: nat)
    requires bytes <= Reserved(a, device)
    ensures Reserved(Release(a, device, bytes), d) == Reserved(a, d) - if d == device then bytes else 0
    ensures Revision(a, d) <= Revision(Release(a, device, bytes), d)
    ensures Revision(Release(a, device, bytes), d) == Revision(a, d) ==>
      Reserved(Release(a, device, bytes), d) == Reserved(a, d)
    ensures (forall e :: e in a.reserved ==> a.reserved[e] > 0) ==>
      forall e :: e in Release(a, device, bytes).reserved ==> Release(a, device, bytes).reserved[e] > 0
  {
  }

  /** A release never asks for more than the bucket holds. */
  lemma BucketCoversReservation(s: State, r: nat)
    requires BucketsExact(s) && r in s.live
    ensures s.live[r].value.remaining + s.live[r].value.pendingRelease <= Reserved(s.accounting, s.live[r].value.device)
  {
    SumExtract(s.live, Tracked(s.live[r].value.device), r);
  }

  /** How a step other than a grant may change one device: buckets stay exact,
      the unwritten bytes shrink at least as fast as the free space, and a
      bucket changes only together with the revision. */
  ghost predicate Benign(s: State, t: State, d: nat) {
    && Reserved(t.accounting, d) == TrackedBytes(t, d)
    && Reserved(t.accounting, d) <= Reserved(s.accounting, d)
    && Free(t, d) + UnwrittenBytes(s, d) >= Free(s, d) + UnwrittenBytes(t, d)
    && Revision(s.accounting, d) <= Revision(t.accounting, d)
    && (Revision(t.accounting, d) == Revision(s.accounting, d) ==>
          Reserved(t.accounting, d) == Reserved(s.accounting, d))
    && (d in t.accounting.reserved ==> t.accounting.reserved[d] > 0)
  }

  lemma WriteIsBenign(s: State, a: Action, d: nat)
    requires InRange(s) && BucketsExact(s) && Enabled(s, a) && a.Write?
    ensures Benign(s, Apply(s, a), d)
  {
    var l, t := s.live[a.r], Apply(s, a);
    var after := l.(ahead := l.ahead + a.bytes);
    assert t.live == s.live[a.r := after] && t.accounting == s.accounting;
    UpdateSums(s.live, a.r, after, d);
    assert Free(t, d) == Free(s, d) - if d == l.value.device then a.bytes else 0;
  }

  function Consumed(v: Reservation, bytes: nat): Reservation
    requires bytes <= v.remaining
  {
    Reservation(v.device, v.remaining - bytes, v.pendingRelease + bytes)
  }

  lemma SmallConsumeIsBenign(s: State, a: Action, d: nat)
    requires InRange(s) && BucketsExact(s) && Enabled(s, a) && a.ConsumeBytes?
    requires Consumed(s.live[a.r].value, a.bytes).pendingRelease < RESERVATION_RELEASE_BATCH_BYTES
    ensures Benign(s, Apply(s, a), d)
  {
    var l, t := s.live[a.r], Apply(s, a);
    var after := Live(Consumed(l.value, a.bytes), l.ahead - a.bytes);
    assert t.live == s.live[a.r := after] && t.accounting == s.accounting;
    UpdateSums(s.live, a.r, after, d);
  }

  lemma FlushingConsumeIsBenign(s: State, a: Action, d: nat)
    requires InRange(s) && BucketsExact(s) && Enabled(s, a) && a.ConsumeBytes?
    requires Consumed(s.live[a.r].value, a.bytes).pendingRelease >= RESERVATION_RELEASE_BATCH_BYTES
    ensures Benign(s, Apply(s, a), d)
  {
    var l, t := s.live[a.r], Apply(s, a);
    var v := Consumed(l.value, a.bytes);
    var after := Live(v.(pendingRelease := 0), l.ahead - a.bytes);
    BucketCoversReservation(s, a.r);
    assert t.live == s.live[a.r := after] && t.accounting == Release(s.accounting, v.device, v.pendingRelease);
    UpdateSums(s.live, a.r, after, d);
    ReleaseIsExact(s.accounting, v.device, v.pendingRelease, d);
  }

  lemma ConsumeIsBenign(s: State, a: Action, d: nat)
    requires InRange(s) && BucketsExact(s) && Enabled(s, a) && a.ConsumeBytes?
    ensures Benign(s, Apply(s, a), d)
  {
    if Consumed(s.live[a.r].value, a.bytes).pendingRelease < RESERVATION_RELEASE_BATCH_BYTES {
      SmallConsumeIsBenign(s, a, d);
    } else {
      FlushingConsumeIsBenign(s, a, d);
    }
  }

  lemma FlushIsBenign(s: State, a: Action, d: nat)
    requires InRange(s) && BucketsExact(s) && Enabled(s, a) && a.FlushBytes?
    ensures Benign(s, Apply(s, a), d)
  {
    var l := s.live[a.r];
    BucketCoversReservation(s, a.r);
    UpdateSums(s.live, a.r, l.(value := l.value.(pendingRelease := 0)), d);
    ReleaseIsExact(s.accounting, l.value.device, l.value.pendingRelease, d);
  }

  lemma DropIsBenign(s: State, a: Action, d: nat)
    requires InRange(s) && BucketsExact(s) && Enabled(s, a) && a.DropReservation?
    ensures Benign(s, Apply(s, a), d)
  {
    var l := s.live[a.r];
    BucketCoversReservation(s, a.r);
    UpdateSums(s.live, a.r, l, d);
    ReleaseIsExact(s.accounting, l.value.device, l.value.remaining + l.value.pendingRelease, d);
  }

  lemma NonGrantIsBenign(s: State, a: Action, d: nat)
    requires InRange(s) && BucketsExact(s) && Enabled(s, a) && !IsGrant(s, a)
    ensures Benign(s, Apply(s, a), d)
  {
    match a {
      case Write(_, _) => WriteIsBenign(s, a, d);
      case ConsumeBytes(_, _) => ConsumeIsBenign(s, a, d);
      case FlushBytes(_) => FlushIsBenign(s, a, d);
      case DropReservation(_) => DropIsBenign(s, a, d);
      case _ => assert Apply(s, a).live == s.live && Apply(s, a).accounting == s.accounting;
    }
  }

  /** The heart of the protocol: a grant against an unlocked, possibly outdated
      probe still leaves room for everything reserved and unwritten. */
  lemma GrantProtects(s: State, p: nat)
    requires Inv(s) && Enabled(s, Commit(p)) && IsGrant(s, Commit(p))
    ensures var t, d := AfterCommit(s, p), s.probers[p].device;
      && Free(t, d) >= s.probers[p].minimumFree + UnwrittenBytes(t, d)
      && UnwrittenBytes(t, d) == UnwrittenBytes(s, d) + s.probers[p].requested
  {
    var q := s.probers[p];
    assert ProbeIsSafe(s, q);
    UpdateSums(s.live, p, Live(Reservation(q.device, q.requested, 0), 0), q.device);
  }

  lemma ReserveIsExact(a: Accounting, device: nat, requested: nat, d: nat)
    ensures Reserved(Reserve(a, device, requested), d) == Reserved(a, d) + if d == device then requested else 0
    ensures Revision(Reserve(a, device, requested), d) ==
      Revision(a, d) + if d == device && requested > 0 then 1 else 0
  {
  }

  lemma GrantStep(s: State, p: nat, d: nat)
    requires InRange(s) && BucketsExact(s) && Enabled(s, Commit(p)) && IsGrant(s, Commit(p))
    ensures var t := AfterCommit(s, p);
      && Reserved(t.accounting, d) == TrackedBytes(t, d)
      && Revision(s.accounting, d) <= Revision(t.accounting, d)
      && (d != s.probers[p].device || s.probers[p].requested == 0 ==>
            Reserved(t.accounting, d) == Reserved(s.accounting, d) && UnwrittenBytes(t, d) == UnwrittenBytes(s, d))
      && (d == s.probers[p].device && s.probers[p].requested > 0 ==>
            Revision(t.accounting, d) == Revision(s.accounting, d) + 1)
  {
    var q := s.probers[p];
    UpdateSums(s.live, p, Live(Reservation(q.device, q.requested, 0), 0), d);
    ReserveIsExact(s.accounting, q.device, q.requested, d);
  }

  lemma StepKeepsBuckets(s: State, a: Action)
    requires InRange(s) && BucketsExact(s) && Enabled(s, a)
    ensures BucketsExact(Apply(s, a))
  {
    var t := Apply(s, a);
    forall d
      ensures Reserved(t.accounting, d) == TrackedBytes(t, d)
      ensures d in t.accounting.reserved ==> t.accounting.reserved[d] > 0
    {
      if IsGrant(s, a) {
        GrantStep(s, a.p, d);
      } else {
        NonGrantIsBenign(s, a, d);
      }
    }
  }

  lemma StepKeepsDeviceRange(s: State, a: Action, d: nat)
    requires InRange(s) && BucketsExact(s) && Enabled(s, a)
    ensures Reserved(Apply(s, a).accounting, d) <= U64_MAX
    ensures Revision(s.accounting, d) <= Revision(Apply(s, a).accounting, d)
  {
    if IsGrant(s, a) {
      ReserveIsExact(s.accounting, s.probers[a.p].device, s.probers[a.p].requested, d);
    } else {
      NonGrantIsBenign(s, a, d);
    }
  }

  lemma StepKeepsProberRange(s: State, a: Action, p: nat)
    requires InRange(s) && BucketsExact(s) && Enabled(s, a) && p in Apply(s, a).probers
    ensures ProberInRange(Apply(s, a), Apply(s, a).probers[p])
  {
    var q := Apply(s, a).probers[p];
    StepKeepsDeviceRange(s, a, q.device);
    if p in s.probers {
      assert ProberInRange(s, s.probers[p]);
    }
  }

  lemma StepKeepsRange(s: State, a: Action)
    requires InRange(s) && BucketsExact(s) && Enabled(s, a)
    ensures InRange(Apply(s, a))
  {
    var t := Apply(s, a);
    forall d ensures Reserved(t.accounting, d) <= U64_MAX {
      StepKeepsDeviceRange(s, a, d);
    }
    forall p | p in t.probers ensures ProberInRange(t, t.probers[p]) {
      StepKeepsProberRange(s, a, p);
    }
    assert forall r :: r in t.live ==> t.live[r].ahead <= t.live[r].value.remaining;
  }

  lemma StepKeepsProbe(s: State, a: Action, p: nat)
    requires Inv(s) && Enabled(s, a) && p in Apply(s, a).probers
    ensures ProbeIsSafe(Apply(s, a), Apply(s, a).probers[p])
  {
    var q := Apply(s, a).probers[p];
    if a == Probe(p) {
      UnwrittenIsTracked(s, q.device);
    } else if q.phase.Probed? {
      ProbeIsOld(s, a, p);
      assert ProbeIsSafe(s, q) && ProberInRange(s, q);
      StepKeepsOldProbe(s, a, q);
    }
  }

  lemma ProbeIsOld(s: State, a: Action, p: nat)
    requires Enabled(s, a) && a != Probe(p) && p in Apply(s, a).probers && Apply(s, a).probers[p].phase.Probed?
    ensures p in s.probers && s.probers[p] == Apply(s, a).probers[p]
  {
  }

  lemma StepKeepsOldProbe(s: State, a: Action, q: Prober)
    requires Inv(s) && Enabled(s, a) && ProbeIsSafe(s, q) && ProberInRange(s, q)
    ensures ProbeIsSafe(Apply(s, a), q)
  {
    if IsGrant(s, a) {
      GrantKeepsProbe(s, a.p, q);
    } else {
      NonGrantIsBenign(s, a, q.device);
      BenignStepKeepsProbe(s, Apply(s, a), q);
    }
  }

  /** A grant of at least one byte outdates every probe of its device. */
  lemma GrantKeepsProbe(s: State, p: nat, q: Prober)
    requires Inv(s) && Enabled(s, Commit(p)) && IsGrant(s, Commit(p)) && ProbeIsSafe(s, q)
    requires q.phase.Probed? ==> q.phase.revision <= Revision(s.accounting, q.device)
    ensures ProbeIsSafe(AfterCommit(s, p), q)
  {
    GrantStep(s, p, q.device);
  }

  lemma BenignStepKeepsProbe(s: State, t: State, q: Prober)
    requires ProbeIsSafe(s, q) && Benign(s, t, q.device)
    requires q.phase.Probed? ==> q.phase.revision <= Revision(s.accounting, q.device)
    ensures ProbeIsSafe(t, q)
  {
  }

  lemma StepKeepsProtection(s: State, a: Action, d: nat)
    requires Inv(s) && Enabled(s, a) && d in Apply(s, a).guarded
    ensures Free(Apply(s, a), d) >= s.minimum + UnwrittenBytes(Apply(s, a), d)
  {
    if IsGrant(s, a) {
      GrantProtects(s, a.p);
      GrantStep(s, a.p, d);
    } else {
      NonGrantIsBenign(s, a, d);
    }
  }

  lemma StepKeepsInv(s: State, a: Action)
    requires Inv(s) && Enabled(s, a)
    ensures Inv(Apply(s, a))
  {
    StepKeepsRange(s, a);
    StepKeepsBuckets(s, a);
    var t := Apply(s, a);
    forall p | p in t.probers ensures ProbeIsSafe(t, t.probers[p]) {
      StepKeepsProbe(s, a, p);
    }
    forall d | d in t.guarded ensures Free(t, d) >= t.minimum + UnwrittenBytes(t, d) {
      StepKeepsProtection(s, a, d);
    }
  }

  lemma {:induction false} RunKeepsInv(states: seq<State>, actions: seq<Action>, n: nat)
    requires IsRun(states, actions) && n < |states|
    ensures Inv(states[n])
  {
    if n > 0 {
      RunKeepsInv(states, actions, n - 1);
      StepKeepsInv(states[n - 1], actions[n - 1]);
    }
  }

  // ----- what every run guarantees

  /** Conservation: each bucket is exactly what the live reservations still
      track, no empty bucket is kept, and no bucket exceeds 64 bits. */
  lemma AccountingIsConserved(states: seq<State>, actions: seq<Action>, n: nat, device: nat)
    requires IsRun(states, actions) && n < |states|
    ensures Reserved(states[n].accounting, device) == TrackedBytes(states[n], device) <= U64_MAX
    ensures device in states[n].accounting.reserved <==> TrackedBytes(states[n], device) > 0
  {
    RunKeepsInv(states, actions, n);
  }

  /** From the first grant on, the free space of a device covers the protected
      minimum and every reserved byte that has not been written. */
  lemma FreeSpaceStaysProtected(states: seq<State>, actions: seq<Action>, n: nat, device: nat)
    requires IsRun(states, actions) && n < |states| && device in states[n].guarded
    ensures Free(states[n], device) >= states[n].minimum + UnwrittenBytes(states[n], device)
  {
    RunKeepsInv(states, actions, n);
  }

  /** A positive availability check is true of the file system at its commit,
      although its probe ran earlier and without the mutex. */
  lemma ConfirmedCheckIsTrue(states: seq<State>, actions: seq<Action>, n: nat)
    requires IsRun(states, actions) && n < |actions| && actions[n].Commit?
    requires states[n + 1].probers[actions[n].p].phase.Confirmed?
    ensures var q := states[n].probers[actions[n].p];
      Free(states[n], q.device) >= q.minimumFree + UnwrittenBytes(states[n], q.device)
  {
    RunKeepsInv(states, actions, n);
    assert ProbeIsSafe(states[n], states[n].probers[actions[n].p]);
  }

  /** No release underflows its bucket and no tracked amount exceeds 64 bits. */
  lemma ReleaseNeverUnderflows(states: seq<State>, actions: seq<Action>, n: nat, r: nat)
    requires IsRun(states, actions) && n < |states| && r in states[n].live
    ensures var l := states[n].live[r].value;
      l.remaining + l.pendingRelease <= Reserved(states[n].accounting, l.device) <= U64_MAX
  {
    RunKeepsInv(states, actions, n);
    BucketCoversReservation(states[n], r);
  }

  /** A live reservation withholds less than one mebibyte of what was written. */
  lemma {:induction false} WithheldBytesAreBounded(states: seq<State>, actions: seq<Action>, n: nat, r: nat)
    requires IsRun(states, actions) && n < |states| && r in states[n].live
    ensures states[n].live[r].value.pendingRelease < 1024 * 1024
  {
    if n > 0 {
      assert Next(states[n - 1], actions[n - 1], states[n - 1 + 1]);
      if r in states[n - 1].live {
        WithheldBytesAreBounded(states, actions, n - 1, r);
      }
      StepBoundsWithheld(states[n - 1], actions[n - 1], r);
    }
  }

  lemma StepBoundsWithheld(s: State, a: Action, r: nat)
    requires Enabled(s, a) && r in Apply(s, a).live
    requires r in s.live ==> s.live[r].value.pendingRelease < 1024 * 1024
    ensures Apply(s, a).live[r].value.pendingRelease < 1024 * 1024
  {
  }

  // ----- what a commit decides

  ghost predicate IsOutdated(s: State, p: nat)
    requires p in s.probers && s.probers[p].phase.Probed?
  {
    s.probers[p].phase.revision != Revision(s.accounting, s.probers[p].device)
  }

  /** On a probe that is not outdated a request is granted if and only if the probed
      space covers the protected minimum, all that live reservations still track on
      the device, and the request; a check is confirmed if and only if it covers the
      first two. */
  lemma CommitDecides(states: seq<State>, actions: seq<Action>, n: nat)
    requires IsRun(states, actions) && n < |actions| && actions[n].Commit?
    ensures actions[n].p in states[n].probers && states[n].probers[actions[n].p].phase.Probed?
    ensures
      var s, t, p := states[n], states[n + 1], actions[n].p;
      var q := s.probers[p];
      !IsOutdated(s, p) ==>
        var room := q.minimumFree + TrackedBytes(s, q.device) + if q.check then 0 else q.requested;
        var outcome := if room > q.phase.available then Refused else if q.check then Confirmed else Granted;
        && t.probers == s.probers[p := q.(phase := outcome)]
        && (outcome.Granted? ==> t.live == s.live[p := Live(Reservation(q.device, q.requested, 0), 0)])
        && (!outcome.Granted? ==> t == s.(probers := t.probers))
  {
    RunKeepsInv(states, actions, n);
    var s, p := states[n], actions[n].p;
    assert Next(s, actions[n], states[n + 1]);
    assert Reserved(s.accounting, s.probers[p].device) == TrackedBytes(s, s.probers[p].device);
  }

  /** How many commits of this request found their probe outdated. */
  ghost function OutdatedProbes(states: seq<State>, actions: seq<Action>, n: nat, p: nat): nat
    requires IsRun(states, actions) && n < |states|
  {
    if n == 0 then 0
    else
      assert Next(states[n - 1], actions[n - 1], states[n - 1 + 1]);
      OutdatedProbes(states, actions, n - 1, p)
      + if actions[n - 1] == Commit(p) && IsOutdated(states[n - 1], p) then 1 else 0
  }

  /** A request starts over after each outdated probe, and gives up exactly at the eighth. */
  lemma {:induction false} RequestGivesUpAtTheEighth(states: seq<State>, actions: seq<Action>, n: nat, p: nat)
    requires IsRun(states, actions) && n < |states|
    ensures OutdatedProbes(states, actions, n, p) <= 8
    ensures p !in states[n].probers ==> OutdatedProbes(states, actions, n, p) == 0
    ensures p in states[n].probers ==>
      && states[n].probers[p].attempts == OutdatedProbes(states, actions, n, p)
      && (states[n].probers[p].phase.Busy? <==> OutdatedProbes(states, actions, n, p) == 8)
    ensures n > 0 && actions[n - 1] == Commit(p) && IsOutdated(states[n - 1], p) ==>
      && p in states[n].probers && (states[n].probers[p].phase.Start? || states[n].probers[p].phase.Busy?)
      && states[n] == states[n - 1].(probers := states[n].probers)
  {
    if n > 0 {
      RequestGivesUpAtTheEighth(states, actions, n - 1, p);
      OneAttempt(states[n - 1], actions[n - 1], states[n], p);
    }
  }

  lemma OneAttempt(s: State, a: Action, t: State, p: nat)
    requires Next(s, a, t)
    ensures p in s.probers ==> p in t.probers
    ensures p !in s.probers && p in t.probers ==> t.probers[p].attempts == 0 && t.probers[p].phase.Start?
    ensures p in s.probers && !(a == Commit(p) && IsOutdated(s, p)) ==>
      t.probers[p].attempts == s.probers[p].attempts && (t.probers[p].phase.Busy? <==> s.probers[p].phase.Busy?)
    ensures a == Commit(p) && IsOutdated(s, p) ==>
      && t.probers[p].attempts == s.probers[p].attempts + 1 && t == s.(probers := t.probers)
      && t.probers[p].phase == if s.probers[p].attempts < 7 then Start else Busy
  {
  }
}
