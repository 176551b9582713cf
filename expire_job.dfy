/**
 * The expiry job of backend/jobs/expireAppointments.js: every scheduled
 * appointment whose instant is not after `now` becomes expired, in one bulk
 * update whose modified count the job reports. The clock reading is a
 * parameter; the job runs every minute and catches every store error.
 */
module ExpireJob {
  import opened Wrappers
  import opened AppointmentModel

  /** What the bulk update's filter selects. */
  predicate Overdue(a: Appointment, now: Instant) {
    a.status == Scheduled && a.scheduledAt.Some? && a.scheduledAt.value <= now
  }

  /** The update applied to one record. */
  function Expire(a: Appointment, now: Instant): (r: Appointment)
    ensures r.status == Expired <==> Overdue(a, now) || a.status == Expired
    ensures !Overdue(a, now) ==> r == a
    ensures r.(status := a.status) == a
    ensures !Overdue(r, now)
  {
    if Overdue(a, now) then a.(status := Expired) else a
  }

  /** The collection after the bulk update. */
  function Swept(records: seq<Appointment>, now: Instant): (r: seq<Appointment>)
    ensures |r| == |records|
    ensures forall k :: 0 <= k < |r| ==> r[k] == Expire(records[k], now)
  {
    seq(|records|, k requires 0 <= k < |records| => Expire(records[k], now))
  }

  /** How many records the filter selects. */
  function CountOverdue(records: seq<Appointment>, now: Instant): nat {
    if records == [] then 0
    else CountOverdue(records[..|records| - 1], now) + (if Overdue(records[|records| - 1], now) then 1 else 0)
  }

  /** How many positions differ between two collections of the same size. */
  function CountChanged(before: seq<Appointment>, after: seq<Appointment>): nat
    requires |before| == |after|
  {
    if before == [] then 0
    else CountChanged(before[..|before| - 1], after[..|after| - 1])
         + (if before[|before| - 1] != after[|after| - 1] then 1 else 0)
  }

  /** The count the job reports is the number of records the update changed. */
  lemma {:induction false} ModifiedCountIsChanged(records: seq<Appointment>, now: Instant)
    ensures CountOverdue(records, now) == CountChanged(records, Swept(records, now))
  {
    if records != [] {
      var init := records[..|records| - 1];
      ModifiedCountIsChanged(init, now);
      assert Swept(records, now)[..|records| - 1] == Swept(init, now);
    }
  }

  /** A run right after a run at the same instant changes nothing. */
  lemma {:induction false} SecondSweepModifiesNothing(records: seq<Appointment>, now: Instant)
    ensures CountOverdue(Swept(records, now), now) == 0
  {
    if records != [] {
      var init := records[..|records| - 1];
      SecondSweepModifiesNothing(init, now);
      assert Swept(records, now)[..|records| - 1] == Swept(init, now);
    }
  }

  /** A later run subsumes an earlier one, so missed runs are caught up. */
  lemma LaterSweepSubsumes(records: seq<Appointment>, earlier: Instant, later: Instant)
    requires earlier <= later
    ensures Swept(Swept(records, earlier), later) == Swept(records, later)
  {
  }

  /** One run of the job: the bulk update and its modified count. */
  method ExpireAppointments(store: AppointmentStore, now: Instant) returns (modified: nat)
    requires store.Valid()
    modifies store
    ensures store.Valid()
    ensures store.records == Swept(old(store.records), now)
    ensures modified == CountChanged(old(store.records), store.records)
    ensures forall k :: 0 <= k < |store.records| ==> !Overdue(store.records[k], now)
  {
    ghost var start := store.records;
    modified := UpdateOverdue(store, now);
    SweepFacts(start, now);
  }

  /** `updateMany` with the overdue filter and `$set: { status: 'expired' }`,
      record by record; the result is the number of records it matched. */
  method UpdateOverdue(store: AppointmentStore, now: Instant) returns (matched: nat)
    modifies store
    ensures store.records == Swept(old(store.records), now)
    ensures matched == CountOverdue(old(store.records), now)
  {
    ghost var start := store.records;
    matched := 0;
    var i := 0;
    while i < |store.records|
      invariant 0 <= i <= |store.records| == |start|
      invariant forall k :: 0 <= k < i ==> store.records[k] == Expire(start[k], now)
      invariant forall k :: i <= k < |start| ==> store.records[k] == start[k]
      invariant matched == CountOverdue(start[..i], now)
    {
      var a := store.records[i];
      if Overdue(a, now) {
        store.records := store.records[i := Expire(a, now)];
        matched := matched + 1;
      }
      assert start[..i + 1][..i] == start[..i];
      i := i + 1;
    }
    assert start[..i] == start;
  }

  /** What one sweep achieves: every record stays stored under its own id,
      the count of overdue records is the count of records changed, and no
      record is left overdue. */
  lemma SweepFacts(records: seq<Appointment>, now: Instant)
    requires StoredInOrder(records)
    ensures StoredInOrder(Swept(records, now))
    ensures CountOverdue(records, now) == CountChanged(records, Swept(records, now))
    ensures forall k :: 0 <= k < |records| ==> !Overdue(Swept(records, now)[k], now)
  {
    var r := Swept(records, now);
    forall i | 0 <= i < |r|
      ensures r[i].id == i && Stored(r[i])
    {
      assert r[i].(status := records[i].status) == records[i];
    }
    ModifiedCountIsChanged(records, now);
  }
}
