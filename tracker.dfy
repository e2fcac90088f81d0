/**
 * The polling loop of `main`: the tracked list of slots, and one turn of
 * its `while True` loop, which fetches, announces and appends the new
 * slots, announces and removes the vanished ones, and waits; or, when the
 * fetch raised a `SlotException`, prints it and waits before trying again.
 */
module Loop {
  import opened Calendar
  import opened Slots
  import opened Fetch
  import opened Reconcile

  /** `SLEEP_TIME`: the seconds waited after every turn, successful or not. */
  const SleepTime := 10

  /**
   * What the last turn came to: a successful poll (the loop waits, then polls
   * again), a caught fetch failure (the loop waits, then retries the same
   * turn against the same tracked list), or an uncaught exception that ended
   * the program.
   */
  datatype Phase = Polling | RetryWaiting | Stopped

  /**
   * What a turn makes visible, in order: a new slot (the console line and the
   * desktop notification, whose body is `Display` of the slot), a removed
   * slot, a printed fetch failure, a wait.
   */
  datatype Event = NewSlot(slot: Slot) | SlotRemoved(slot: Slot) | FetchFailed(message: string) | Wait(seconds: int)

  /** The announcements of the first loop: event `i` announces the `i`-th appended slot. */
  function NewSlotEvents(s: seq<Slot>): (e: seq<Event>)
    ensures |e| == |s|
    ensures forall i :: 0 <= i < |s| ==> e[i] == NewSlot(s[i])
    decreases |s|
  {
    if s == [] then [] else NewSlotEvents(s[..|s| - 1]) + [NewSlot(s[|s| - 1])]
  }

  /** The announcements of the second loop: event `i` announces the removal of the `i`-th removed slot. */
  function RemovedEvents(s: seq<Slot>): (e: seq<Event>)
    ensures |e| == |s|
    ensures forall i :: 0 <= i < |s| ==> e[i] == SlotRemoved(s[i])
    decreases |s|
  {
    if s == [] then [] else RemovedEvents(s[..|s| - 1]) + [SlotRemoved(s[|s| - 1])]
  }

  lemma NewSlotEventsSnoc(s: seq<Slot>, x: Slot)
    ensures NewSlotEvents(s + [x]) == NewSlotEvents(s) + [NewSlot(x)]
  {
    assert (s + [x])[..|s|] == s;
  }

  /**
   * One iteration of the first loop keeps its invariant: when the list built
   * so far is the tracked list `t0` followed by the arrivals `a`, and the
   * polled slot `x` extends them to `a2`, appending `x` exactly when it is
   * missing leaves `t0` followed by `a2`, announced in order.
   */
  lemma AppendStep(t0: seq<Slot>, a: seq<Slot>, x: Slot, a2: seq<Slot>, slots: seq<Slot>, events: seq<Event>)
    requires slots == t0 + a && events == NewSlotEvents(a)
    requires a2 == a + (if Contains(t0 + a, x) then [] else [x])
    ensures if Contains(slots, x) then slots == t0 + a2 && events == NewSlotEvents(a2)
      else slots + [x] == t0 + a2 && events + [NewSlot(x)] == NewSlotEvents(a2)
  {
    if Contains(slots, x) {
      assert a + [] == a;
    } else {
      NewSlotEventsSnoc(a, x);
      assert t0 + (a + [x]) == slots + [x];
    }
  }

  lemma RemovedStep(c: seq<Slot>, k: nat, f: seq<Slot>)
    requires k < |c|
    ensures RemovedEvents(Departed(c[..k + 1], f)) ==
      RemovedEvents(Departed(c[..k], f)) + (if Contains(f, c[k]) then [] else [SlotRemoved(c[k])])
  {
    RetainedStep(c, k, f);
    var d := Departed(c[..k], f);
    if !Contains(f, c[k]) {
      assert (d + [c[k]])[..|d|] == d;
    } else {
      assert d + [] == d;
    }
  }

  /**
   * The events of a successful turn that appends the arrivals `a` and
   * removes the departed slots `d`: one announcement per arrival, in order,
   * then one per departed slot, in order, and last the wait.
   */
  function TurnEvents(a: seq<Slot>, d: seq<Slot>): (e: seq<Event>)
    ensures |e| == |a| + |d| + 1
    ensures forall i :: 0 <= i < |a| ==> e[i] == NewSlot(a[i])
    ensures forall j :: 0 <= j < |d| ==> e[|a| + j] == SlotRemoved(d[j])
    ensures e[|a| + |d|] == Wait(SleepTime)
  {
    var na, nd := NewSlotEvents(a), RemovedEvents(d);
    assert forall j :: 0 <= j < |d| ==> (na + nd + [Wait(SleepTime)])[|a| + j] == nd[j];
    na + nd + [Wait(SleepTime)]
  }

  /** Every announced arrival was polled and not tracked; every announced removal was tracked and is no longer polled. */
  predicate AnnouncesFaithfully(e: seq<Event>, t: seq<Slot>, f: seq<Slot>) {
    forall i :: 0 <= i < |e| ==>
      && (e[i].NewSlot? ==> e[i].slot in f && !Contains(t, e[i].slot))
      && (e[i].SlotRemoved? ==> e[i].slot in t && !Contains(f, e[i].slot))
  }

  lemma AnnouncedSlots(t: seq<Slot>, f: seq<Slot>)
    ensures AnnouncesFaithfully(TurnEvents(Arrivals(t, f), Departed(t, f)), t, f)
  {
    var a, d := Arrivals(t, f), Departed(t, f);
    var e := TurnEvents(a, d);
    ArrivalsAreFresh(t, f);
    DepartedAreStale(t, f);
    forall i | 0 <= i < |e|
      ensures e[i].NewSlot? ==> e[i].slot in f && !Contains(t, e[i].slot)
      ensures e[i].SlotRemoved? ==> e[i].slot in t && !Contains(f, e[i].slot)
    {
      if i < |a| {
        HasIdOf(a, a[i]);
        ArrivalIds(t, f, a[i].id);
      } else if i < |a| + |d| {
        assert e[i] == SlotRemoved(d[i - |a|]);
      }
    }
  }

  /**
   * The events of a successful turn that found the tracked list `t` and the
   * fresh list `f`: the announcements of the arrivals, then of the departed
   * slots, then the wait; each announced arrival was polled and not
   * tracked, each announced removal was tracked and is no longer polled.
   */
  function CycleEvents(t: seq<Slot>, f: seq<Slot>): (e: seq<Event>)
    ensures |e| > 0 && e[|e| - 1] == Wait(SleepTime)
    ensures AnnouncesFaithfully(e, t, f)
  {
    AnnouncedSlots(t, f);
    TurnEvents(Arrivals(t, f), Departed(t, f))
  }

  /**
   * A turn that polls the same slots again as the turn before announces
   * nothing, only waits, and leaves the tracked list as that turn left it.
   */
  lemma QuietRepeat(t: seq<Slot>, f: seq<Slot>)
    ensures CycleEvents(Retained(t, f) + Arrivals(t, f), f) == [Wait(SleepTime)]
    ensures var r := Retained(t, f) + Arrivals(t, f); Retained(r, f) + Arrivals(r, f) == r
  {
    var r := Retained(t, f) + Arrivals(t, f);
    ReconciledShape(t, f);
    ReconcileIdempotent(t, f);
    ReconciledShape(r, f);
    assert CycleEvents(r, f) == NewSlotEvents([]) + RemovedEvents([]) + [Wait(SleepTime)];
  }

  class Tracker {
    /** `slots`: the tracked list, in the order the slots were first seen. */
    var slots: seq<Slot>
    var phase: Phase

    /** The tracked list never holds two slots with the same identifier. */
    ghost predicate Valid()
      reads this
    {
      DistinctIds(slots)
    }

    /** `slots = []` before the loop starts. */
    constructor ()
      ensures Valid() && slots == [] && phase == Polling
    {
      slots := [];
      phase := Polling;
    }

    /**
     * One turn of the loop on the date `today`, with `server` standing for
     * the API. On success the tracked list becomes the slots that are still
     * fresh, in their old order and as they were first recorded, followed by
     * the fresh slots not tracked before, in fresh order; all additions are
     * announced before any removal. A caught failure leaves the tracked list
     * as it was; so does an uncaught exception, which ends the loop.
     */
    method Cycle(today: Date, nbDays: int, server: Window -> Response) returns (events: seq<Event>)
      requires Valid() && phase != Stopped && ValidDate(today)
      modifies this
      ensures Valid()
      ensures match GetSlots(today, nbDays, server)
        case Fetched(polled) =>
          && slots == Retained(old(slots), polled) + Arrivals(old(slots), polled)
          && events == CycleEvents(old(slots), polled)
          && phase == Polling
        case Failed(e) =>
          slots == old(slots) && events == [FetchFailed(Message(e)), Wait(SleepTime)] && phase == RetryWaiting
        case Aborted =>
          slots == old(slots) && events == [] && phase == Stopped
    {
      var outcome := GetSlots(today, nbDays, server);
      match outcome {
        case Aborted =>
          events := [];
          phase := Stopped;
        case Failed(e) =>
          events := [FetchFailed(Message(e)), Wait(SleepTime)];
          phase := RetryWaiting;
        case Fetched(polled) =>
          ghost var t0 := slots;
          var added := AppendArrivals(polled);
          var removed := DropDeparted(polled);
          AdditionsAppendArrivals(t0, polled);
          ReconciledShape(t0, polled);
          ReconciledDistinct(t0, polled);
          events := added + removed + [Wait(SleepTime)];
          phase := Polling;
      }
    }

    /**
     * The first `for` loop: every polled slot not yet tracked (by identifier,
     * so a slot repeated in the poll is taken once) is announced and appended.
     */
    method AppendArrivals(polled: seq<Slot>) returns (events: seq<Event>)
      modifies this
      ensures slots == old(slots) + Arrivals(old(slots), polled) && phase == old(phase)
      ensures events == NewSlotEvents(Arrivals(old(slots), polled))
    {
      ghost var t0 := slots;
      events := [];
      var i := 0;
      while i < |polled|
        invariant 0 <= i <= |polled| && phase == old(phase)
        invariant slots == t0 + Arrivals(t0, polled[..i])
        invariant events == NewSlotEvents(Arrivals(t0, polled[..i]))
      {
        var newSlot := polled[i];
        ArrivalsStep(t0, polled, i);
        AppendStep(t0, Arrivals(t0, polled[..i]), newSlot, Arrivals(t0, polled[..i + 1]), slots, events);
        if !Contains(slots, newSlot) {
          events := events + [NewSlot(newSlot)];
          slots := slots + [newSlot];
        }
        i := i + 1;
      }
      assert polled[..|polled|] == polled;
    }

    /**
     * The second `for` loop, over a copy of the tracked list: every tracked
     * slot the poll no longer has is announced and removed with `remove`.
     */
    method DropDeparted(polled: seq<Slot>) returns (events: seq<Event>)
      modifies this
      ensures slots == Retained(old(slots), polled) && phase == old(phase)
      ensures events == RemovedEvents(Departed(old(slots), polled))
    {
      var copy := slots;
      events := [];
      var k := 0;
      assert copy[..0] == [] && copy[0..] == copy;
      while k < |copy|
        invariant 0 <= k <= |copy|
        invariant slots == Retained(copy[..k], polled) + copy[k..] && phase == old(phase)
        invariant events == RemovedEvents(Departed(copy[..k], polled))
      {
        var oldSlot := copy[k];
        ghost var kept := Retained(copy[..k + 1], polled) + copy[k + 1..];
        RemovedStep(copy, k, polled);
        if !Contains(polled, oldSlot) {
          RemoveStep(copy, k, polled);
          events := events + [SlotRemoved(oldSlot)];
          slots := RemoveFirst(slots, oldSlot);
        } else {
          KeepStep(copy, k, polled);
        }
        assert slots == kept && events == RemovedEvents(Departed(copy[..k + 1], polled));
        k := k + 1;
      }
      assert copy[..|copy|] == copy;
    }
  }
}

/** Two worked runs of the polling loop. */
module Scenarios {
  import opened Calendar
  import opened Timestamp
  import opened Slots
  import opened Fetch
  import opened Reconcile
  import opened Loop

  /** The day the slots of these runs fall on. */
  const SlotDay := Date(2024, 1, 15)
  const Morning: Instant := DateTime(SlotDay, 10, 0, 0)
  const Noon: Instant := DateTime(SlotDay, 12, 0, 0)
  const Evening: Instant := DateTime(SlotDay, 18, 30, 0)

  const A := Slot("a", Morning, Noon)
  const B := Slot("b", Noon, Evening)
  /** The slot `b` again, with timestamps the API has since moved. */
  const MovedB := Slot("b", Morning, Evening)
  const C := Slot("c", Evening, Evening)

  /** A server that answers every request with 200 and the records of `slots`. */
  function Serving(slots: seq<Slot>): Window -> Response {
    (w: Window) => Response(200, Records(ToRecords(slots, "")))
  }

  /** A server that answers every request with a failure status. */
  function Failing(status: int): Window -> Response {
    (w: Window) => Response(status, Records([]))
  }

  /** On any day before the calendar's last year, a week-long window fits. */
  lemma WindowExists(today: Date)
    requires ValidDate(today) && today.year < MaxYear
    ensures 1 <= Ordinal(today) + 7 <= MaxOrdinal
  {
    OrdinalInYear(today);
    YearBounds(today.year);
    YearsMonotone(today.year, MaxYear);
  }

  lemma ServingFetches(today: Date, slots: seq<Slot>)
    requires ValidDate(today) && today.year < MaxYear
    ensures GetSlots(today, 7, Serving(slots)) == Fetched(slots)
  {
    WindowExists(today);
    var w := RequestWindow(today, 7).value;
    assert GetSlots(today, 7, Serving(slots)) == Classify(Response(200, Records(ToRecords(slots, ""))));
    ClassifyRoundTrip(slots, "");
  }

  lemma FailingFails(today: Date, status: int)
    requires ValidDate(today) && today.year < MaxYear && status != 200
    ensures GetSlots(today, 7, Failing(status)) ==
      Failed(if status == 404 then ProjectNotFound else if status == 401 then InvalidToken else UnknownError)
  {
    WindowExists(today);
    var w := RequestWindow(today, 7).value;
    assert GetSlots(today, 7, Failing(status)) == Classify(Response(status, Records([])));
  }

  /** The first poll {A, B} of an empty list adds both and removes nothing. */
  lemma FirstPollFacts()
    ensures Arrivals([], [A, B]) == [A, B] && Departed([], [A, B]) == [] && Retained([], [A, B]) == []
  {
    assert [A, B][..1] == [A] && [A][..0] == [];
    assert !Contains([A], B);
    assert Arrivals([], [A]) == [A];
  }

  /** The second poll {B (moved), C} of [A, B]: C arrives, B stays, A departs. */
  lemma SecondPollFacts()
    ensures Arrivals([A, B], [MovedB, C]) == [C]
    ensures Retained([A, B], [MovedB, C]) == [B]
    ensures Departed([A, B], [MovedB, C]) == [A]
  {
    assert [MovedB, C][..1] == [MovedB] && [MovedB][..0] == [];
    assert [A, B][..1] == [A] && [A][..0] == [];
    assert Contains([A, B], MovedB) by { assert [A, B][1].id == MovedB.id; }
    assert Arrivals([A, B], [MovedB]) == [];
    assert !Contains([A, B], C) && !Contains([MovedB], C);
    assert !Contains([MovedB, C], A);
    assert Contains([MovedB, C], B) by { assert [MovedB, C][0].id == B.id; }
    assert Retained([A, B], [MovedB, C]) == Retained([A], [MovedB, C]) + [B];
    assert Departed([A, B], [MovedB, C]) == Departed([A], [MovedB, C]);
  }

  lemma RetryFacts()
    ensures Arrivals([], [A]) == [A] && Departed([], [A]) == [] && Retained([], [A]) == []
  {
    assert [A][..0] == [];
  }

  /** The events of a turn whose arrivals and departures are known. */
  lemma CycleEventsOf(t: seq<Slot>, f: seq<Slot>, a: seq<Slot>, d: seq<Slot>)
    requires Arrivals(t, f) == a && Departed(t, f) == d
    ensures CycleEvents(t, f) == NewSlotEvents(a) + RemovedEvents(d) + [Wait(SleepTime)]
  {
  }

  lemma FirstPollEvents()
    ensures CycleEvents([], [A, B]) == [NewSlot(A), NewSlot(B), Wait(SleepTime)]
    ensures Retained([], [A, B]) + Arrivals([], [A, B]) == [A, B]
  {
    FirstPollFacts();
    CycleEventsOf([], [A, B], [A, B], []);
    assert NewSlotEvents([A, B]) == [NewSlot(A), NewSlot(B)];
    assert RemovedEvents([]) == [];
  }

  lemma SecondPollEvents()
    ensures CycleEvents([A, B], [MovedB, C]) == [NewSlot(C), SlotRemoved(A), Wait(SleepTime)]
    ensures Retained([A, B], [MovedB, C]) + Arrivals([A, B], [MovedB, C]) == [B, C]
  {
    SecondPollFacts();
    CycleEventsOf([A, B], [MovedB, C], [C], [A]);
    assert NewSlotEvents([C]) == [NewSlot(C)];
    assert RemovedEvents([A]) == [SlotRemoved(A)];
  }

  lemma RetryEvents()
    ensures CycleEvents([], [A]) == [NewSlot(A), Wait(SleepTime)]
    ensures Retained([], [A]) + Arrivals([], [A]) == [A]
  {
    RetryFacts();
    CycleEventsOf([], [A], [A], []);
    assert NewSlotEvents([A]) == [NewSlot(A)];
    assert RemovedEvents([]) == [];
  }

  /**
   * The tracked list {A, B} meets the poll {B (moved), C}: exactly C is
   * announced and then exactly A is removed, and the list becomes [B, C]
   * with B as first recorded.
   */
  method DiffScenario(today: Date) returns (first: seq<Event>, second: seq<Event>, tracked: seq<Slot>)
    requires ValidDate(today) && today.year < MaxYear
    ensures first == [NewSlot(A), NewSlot(B), Wait(SleepTime)]
    ensures second == [NewSlot(C), SlotRemoved(A), Wait(SleepTime)]
    ensures tracked == [B, C]
  {
    var tracker := new Tracker();
    ServingFetches(today, [A, B]);
    FirstPollEvents();
    first := tracker.Cycle(today, 7, Serving([A, B]));
    assert tracker.slots == [A, B];
    ServingFetches(today, [MovedB, C]);
    SecondPollEvents();
    second := tracker.Cycle(today, 7, Serving([MovedB, C]));
    tracked := tracker.slots;
  }

  /**
   * A failed poll answered with `status`, then the poll {A}: the failure is
   * printed and waited out with the tracked list untouched, the loop keeps
   * going, and the next turn announces exactly A.
   */
  method RetryScenario(today: Date, status: int) returns (events: seq<Event>, tracked: seq<Slot>)
    requires ValidDate(today) && today.year < MaxYear && status != 200
    ensures events == [FetchFailed(Message(
                          if status == 404 then ProjectNotFound
                          else if status == 401 then InvalidToken
                          else UnknownError)),
                       Wait(SleepTime), NewSlot(A), Wait(SleepTime)]
    ensures tracked == [A]
  {
    var tracker := new Tracker();
    FailingFails(today, status);
    var failed := tracker.Cycle(today, 7, Failing(status));
    assert tracker.slots == [] && tracker.phase == RetryWaiting;
    ServingFetches(today, [A]);
    RetryEvents();
    var polled := tracker.Cycle(today, 7, Serving([A]));
    events := failed + polled;
    tracked := tracker.slots;
  }
}
