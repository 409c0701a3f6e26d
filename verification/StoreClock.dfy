/**
 The clock of the state store: one wall-clock anchor carried forward by the
 monotonic clock. Instants are nanoseconds, readings milliseconds.
 */
module StoreClock {
  import opened Basics

  const NANOS_PER_MILLI: nat := 1_000_000

  datatype Reading = Reading(wall: int, at: nat)

  datatype Result = Ok(ms: int) | Backwards | Unrepresentable | Overflow

  function ElapsedMs(from: nat, to: nat): nat
    requires from <= to
  {
    (to - from) / NANOS_PER_MILLI
  }

  /** What a reading says the time is at a later instant. */
  function Projected(r: Reading, at: nat): int
    requires r.at <= at
  {
    r.wall + ElapsedMs(r.at, at)
  }

  /** A reading goes forward by the whole milliseconds that have passed since. */
  lemma ProjectionCountsMillis(r: Reading, at: nat)
    requires r.at <= at
    ensures (Projected(r, at) - r.wall) * 1_000_000 <= at - r.at < (Projected(r, at) - r.wall + 1) * 1_000_000
  {
  }

  ghost predicate TakenBy(history: seq<Reading>, at: nat) {
    forall i :: 0 <= i < |history| ==> history[i].at <= at
  }

  /** The largest time any past reading implies now. */
  ghost predicate IsLatestImplied(history: seq<Reading>, at: nat, ms: int)
    requires TakenBy(history, at)
  {
    && (forall i :: 0 <= i < |history| ==> Projected(history[i], at) <= ms)
    && (exists i :: 0 <= i < |history| && Projected(history[i], at) == ms)
  }

  /** From `since` on, the anchor is never behind the other reading. */
  ghost predicate Leads(anchor: Reading, other: Reading, since: nat) {
    && anchor.at <= since && other.at <= since
    && forall t: nat {:trigger Projected(anchor, t)} :: since <= t ==> Projected(other, t) <= Projected(anchor, t)
  }

  /** A reading no later than the anchor's projection never overtakes it. */
  lemma AnchorKeepsLead(anchor: Reading, other: Reading, since: nat)
    requires anchor.at <= other.at <= since && other.wall <= Projected(anchor, other.at)
    ensures Leads(anchor, other, since)
  {
  }

  /** A reading ahead of the anchor's projection is never overtaken by it, although
      the two round their elapsed times separately. */
  lemma NewAnchorTakesLead(previous: Reading, next: Reading, since: nat)
    requires previous.at <= next.at <= since && next.wall > Projected(previous, next.at)
    ensures Leads(next, previous, since)
  {
  }

  lemma LeadIsTransitive(a: Reading, b: Reading, c: Reading, since: nat)
    requires Leads(a, b, since) && Leads(b, c, since)
    ensures Leads(a, c, since)
  {
    forall t: nat | since <= t ensures Projected(c, t) <= Projected(a, t) {
      assert Projected(c, t) <= Projected(b, t) <= Projected(a, t);
    }
  }

  // ----- one anchor stands for all readings

  ghost predicate AnchorLeads(anchor: Reading, history: seq<Reading>, since: nat) {
    anchor in history && anchor.at <= since && forall i :: 0 <= i < |history| ==> Leads(anchor, history[i], since)
  }

  /** The anchor after an observation: a reading replaces it only when ahead of it. */
  function NextAnchor(anchor: Reading, wall: Option<int>, now: nat): Reading
    requires anchor.at <= now
  {
    if wall.Some? && wall.value > Projected(anchor, now) then Reading(wall.value, now) else anchor
  }

  function Extended(history: seq<Reading>, wall: Option<int>, now: nat): seq<Reading> {
    history + if wall.Some? then [Reading(wall.value, now)] else []
  }

  lemma ObservationKeepsLead(
      anchor: Reading, history: seq<Reading>, latest: nat, wall: Option<int>, now: nat, since: nat)
    requires AnchorLeads(anchor, history, latest) && anchor.at <= now && latest <= since && now <= since
    ensures AnchorLeads(NextAnchor(anchor, wall, now), Extended(history, wall, now), since)
    ensures Leads(NextAnchor(anchor, wall, now), anchor, since)
  {
    var next, all := NextAnchor(anchor, wall, now), Extended(history, wall, now);
    var k :| 0 <= k < |history| && history[k] == anchor;
    assert all[k] == anchor;
    if next != anchor {
      NewAnchorTakesLead(anchor, next, since);
      assert all[|history|] == next;
    } else if wall.Some? {
      AnchorKeepsLead(anchor, Reading(wall.value, now), since);
    }
    forall i | 0 <= i < |all| ensures Leads(next, all[i], since) {
      if i < |history| {
        assert Leads(anchor, history[i], latest);
        assert Leads(anchor, history[i], since);
        LeadIsTransitive(next, anchor, all[i], since);
      }
    }
  }

  /** So the anchor's projection is the largest of all. */
  lemma AnchorIsMaximum(anchor: Reading, history: seq<Reading>, at: nat)
    requires AnchorLeads(anchor, history, at)
    ensures TakenBy(history, at) && IsLatestImplied(history, at, Projected(anchor, at))
  {
    var k :| 0 <= k < |history| && history[k] == anchor;
    forall i | 0 <= i < |history| ensures Projected(history[i], at) <= Projected(anchor, at) {
      assert Leads(anchor, history[i], at);
    }
  }

  class Clock {
    var anchor: Reading
    var lastMs: int
    ghost var history: seq<Reading>
    ghost var latest: nat                // the latest instant observed

    ghost predicate Valid()
      reads this
    {
      AnchorLeads(anchor, history, latest) && lastMs <= Projected(anchor, latest)
    }

    constructor (wall: int, at: nat)
      ensures Valid() && history == [Reading(wall, at)] && latest == at && lastMs == wall
    {
      anchor, lastMs, history, latest := Reading(wall, at), wall, [Reading(wall, at)], at;
    }

    /** `observe`: a failed observation changes nothing; otherwise the answer is the
        latest time that any reading so far implies. */
    method Observe(wall: Option<int>, now: nat) returns (r: Result)
      requires Valid()
      modifies this
      ensures Valid()
      ensures r.Ok? <==>
        old(anchor).at <= now && ElapsedMs(old(anchor).at, now) <= I64_MAX && Projected(old(anchor), now) <= I64_MAX
      ensures !r.Ok? ==>
        history == old(history) && anchor == old(anchor) && lastMs == old(lastMs) && latest == old(latest)
      ensures r.Ok? ==> history == Extended(old(history), wall, now) && latest == Max(old(latest), now)
      ensures r.Ok? ==> lastMs == r.ms >= old(lastMs) && (wall.Some? ==> r.ms >= wall.value)
      ensures r.Ok? && now >= old(latest) ==> TakenBy(history, now) && IsLatestImplied(history, now, r.ms)
    {
      if now < anchor.at {
        return Backwards;
      }
      var elapsed := (now - anchor.at) / NANOS_PER_MILLI;
      if elapsed > I64_MAX {
        return Unrepresentable;
      }
      if anchor.wall + elapsed > I64_MAX {
        return Overflow;
      }
      var candidate := anchor.wall + elapsed;
      ghost var since := Max(latest, now);
      ObservationKeepsLead(anchor, history, latest, wall, now, since);
      if wall.Some? && wall.value > candidate {
        anchor := Reading(wall.value, now);
        candidate := wall.value;
      }
      assert candidate == Projected(anchor, now) <= Projected(anchor, since);
      assert lastMs <= Projected(old(anchor), since) <= Projected(anchor, since);
      history, latest := Extended(history, wall, now), since;
      candidate := Max(candidate, lastMs);
      lastMs := candidate;
      if since == now {
        AnchorIsMaximum(anchor, history, now);
      }
      r := Ok(candidate);
    }
  }
}
