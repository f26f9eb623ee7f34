/** The outbox as a map of events: what a key was first enqueued with, and that nothing but its
    first enqueueing changes it. */
module OutboxEvents {
  import opened Wrappers
  import Events
  import Outbox
  import OutboxRuns

  function SnapshotOf(e: Option<Events.Event>): Option<Events.Snapshot> {
    if e.None? then None else Some(e.value.snapshot)
  }

  function EventOf(o: Outbox.State, key: Events.EventKey): Option<Events.Event> {
    var i := Outbox.FindByKey(o.deliveries, key);
    if i.None? then None else Some(o.deliveries[i.value].event)
  }

  lemma EnqueueEvent(o: Outbox.State, e: Events.Event, now: Outbox.Instant, key: Events.EventKey)
    ensures EventOf(Outbox.Enqueue(o, e, now).0, key)
            == if key == e.key && EventOf(o, key).None? then Some(e) else EventOf(o, key)
  {
    var d := Outbox.NewDelivery(e, now);
    assert (o.deliveries + [d])[..|o.deliveries|] == o.deliveries;
  }

  lemma {:induction false} SameEventsSameKey(a: seq<Outbox.Delivery>, b: seq<Outbox.Delivery>, key: Events.EventKey)
    requires |a| == |b| && forall i | 0 <= i < |a| :: a[i].event == b[i].event
    ensures Outbox.FindByKey(a, key) == Outbox.FindByKey(b, key)
  {
    if a != [] { SameEventsSameKey(a[..|a| - 1], b[..|b| - 1], key); }
  }

  // Workers and manual retries never touch an event.
  lemma DeliveryKeepsEvents(o: Outbox.State, step: Outbox.Step, key: Events.EventKey)
    requires !step.EnqueueStep?
    ensures EventOf(Outbox.Do(o, step).0, key) == EventOf(o, key)
  {
    var ds' := Outbox.Do(o, step).0.deliveries;
    if o.deliveries != [] { OutboxRuns.RowChanges(o, step, 0); } else { assert ds' == []; }
    forall i | 0 <= i < |o.deliveries| ensures |ds'| == |o.deliveries| && ds'[i].event == o.deliveries[i].event {
      OutboxRuns.RowChanges(o, step, i);
    }
    SameEventsSameKey(o.deliveries, ds', key);
  }
}
