/** The delivery store object: records, armed timers and counters updated in place. */
module DeliveryService {
  import opened Wrappers
  import opened Delivery

  /** The waiting deliveries of the user that have been visited. */
  function Waiting(d: Deliveries, user: string, left: set<Key>): set<Key> {
    set k | k in d.records && k !in left && WaitingFor(d, user, k)
  }

  lemma WaitingStep(d: Deliveries, user: string, left: set<Key>, k: Key)
    requires k in left && k in d.records
    ensures k !in Waiting(d, user, left)
    ensures Waiting(d, user, left - {k})
            == if WaitingFor(d, user, k) then Waiting(d, user, left) + {k} else Waiting(d, user, left)
  {}

  function Cut(d: Deliveries, hit: set<Key>): Deliveries {
    d.(timers := d.timers - hit, failures := WithClosed(d, hit))
  }

  class DeliveryStore {
    var records: map<Key, Record>
    var sentTimeouts: set<Key>
    var deliveredTotal: nat
    var failures: map<Key, seq<Reason>>

    function Value(): Deliveries
      reads this
    {
      Deliveries(records, sentTimeouts, deliveredTotal, failures)
    }

    constructor ()
      ensures Value() == EMPTY
    {
      records, sentTimeouts, deliveredTotal, failures := map[], {}, 0, map[];
    }

    method CreateDelivery(k: Key, now: int)
      modifies this
      ensures Value() == Create(old(Value()), k, now)
    {
      if k.messageId == "" || k.recipientId == "" { return; }
      if k in records { return; }
      records := records[k := Record(PERSISTED, now, None, None, None)];
    }

    method TransitionState(k: Key, next: State, now: int) returns (o: Outcome)
      modifies this
      ensures (Value(), o) == Transition(old(Value()), k, next, now)
    {
      if k.messageId == "" || k.recipientId == "" { return InvalidPayload; }
      if k !in records { return NotFound; }
      var record := records[k];
      if next !in Allowed(record.state) { return Refused; }
      if record.state == SENT { sentTimeouts := sentTimeouts - {k}; }
      record := record.(state := next);
      if next == SENT {
        record := record.(sentAt := Some(now));
        sentTimeouts := sentTimeouts + {k};
      }
      if next == DELIVERED {
        record := record.(deliveredAt := Some(now));
        deliveredTotal := deliveredTotal + 1;
      }
      if next == READ { record := record.(readAt := Some(now)); }
      records := records[k := record];
      o := Done;
    }

    method RecordDeliveryFailure(k: Key, why: Reason)
      modifies this`failures
      ensures Value() == RecordFailure(old(Value()), k, why)
    {
      failures := failures[k := (if k in failures then failures[k] else []) + [why]];
    }

    /** The callback of the timer armed when the delivery became SENT. */
    method OnAckTimeout(k: Key)
      requires k in sentTimeouts
      modifies this
      ensures Value() == TimerFires(old(Value()), k)
    {
      sentTimeouts := sentTimeouts - {k};
      if k in records && records[k].state == SENT {
        RecordDeliveryFailure(k, ACK_TIMEOUT);
      }
    }

    /** One iteration: a delivery of the user that is waiting for its ACK is cut off. */
    method CutOff(k: Key, user: string, ghost d: Deliveries, ghost hit: set<Key>) returns (ghost more: set<Key>)
      requires k in records && k !in hit && Value() == Cut(d, hit) && records == d.records
      modifies this`sentTimeouts, this`failures
      ensures more == (if WaitingFor(d, user, k) then hit + {k} else hit) && Value() == Cut(d, more)
    {
      more := hit;
      if k.recipientId != user || records[k].state != SENT { return; }
      WithClosedStep(d, hit, k);
      more := hit + {k};
      sentTimeouts := sentTimeouts - {k};
      RecordDeliveryFailure(k, SOCKET_CLOSED);
    }

    method RecordFailuresForDisconnectedUser(user: string)
      modifies this
      ensures Value() == Disconnect(old(Value()), user)
    {
      if user == "" { return; }
      ghost var d, hit: set<Key> := Value(), {};
      assert Cut(d, {}) == d;
      var left := records.Keys;
      while left != {}
        invariant left <= records.Keys && records == d.records && Value() == Cut(d, hit)
        invariant hit == Waiting(d, user, left)
        decreases |left|
      {
        var k :| k in left;
        WaitingStep(d, user, left, k);
        hit := CutOff(k, user, d, hit);
        left := left - {k};
      }
      assert hit == set k | k in d.records && WaitingFor(d, user, k);
    }

    method ForceMarkAsRead(k: Key, now: int)
      modifies this
      ensures Value() == ForceRead(old(Value()), k, now)
    {
      if k.messageId == "" || k.recipientId == "" { return; }
      if k !in records { CreateDelivery(k, now); }
      var record := records[k];
      if record.state == SENT { sentTimeouts := sentTimeouts - {k}; }
      record := record.(state := READ, readAt := Some(now));
      if record.deliveredAt.None? { record := record.(deliveredAt := Some(now)); }
      records := records[k := record];
    }

    predicate IsPendingReplay(k: Key)
      reads this
    {
      Delivery.IsPendingReplay(Value(), k)
    }
  }
}
