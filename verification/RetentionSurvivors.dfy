/** Exactly which webhook rows outlive pruning, by induction along replay chains. */
module RetentionSurvivors {
  import opened Wrappers
  import opened Batch
  import opened Retention
  import opened RetentionRun
  import opened RetentionSafety
  import opened RetentionConvergence
  import opened RetentionLive

  /** leaf is d, or a replay of a replay ... of d. */
  predicate Descends(deliveries: map<Id, Delivery>, leaf: Id, d: Id)
    requires leaf in deliveries
    decreases deliveries[leaf].sequence
  {
    || leaf == d
    || (&& deliveries[leaf].replayOf.Some?
        && Replays(deliveries, deliveries[leaf], deliveries[leaf].replayOf.value)
        && Descends(deliveries, deliveries[leaf].replayOf.value, d))
  }

  predicate LeasedLeaf(deliveries: map<Id, Delivery>, leaf: Id, d: Id) {
    leaf in deliveries && deliveries[leaf].state.Leased? && Descends(deliveries, leaf, d)
  }

  lemma {:induction false} DescendsFurther(deliveries: map<Id, Delivery>, leaf: Id, r: Id, d: Id)
    requires leaf in deliveries && Descends(deliveries, leaf, r)
    requires r in deliveries && deliveries[r].replayOf == Some(d) && Replays(deliveries, deliveries[r], d)
    ensures Descends(deliveries, leaf, d)
    decreases deliveries[leaf].sequence
  {
    if leaf == r {
      assert Descends(deliveries, d, d);
    } else {
      DescendsFurther(deliveries, deliveries[leaf].replayOf.value, r, d);
    }
  }

  lemma {:induction false} DescendsSameEvent(deliveries: map<Id, Delivery>, leaf: Id, d: Id)
    requires leaf in deliveries && Descends(deliveries, leaf, d)
    ensures d in deliveries && deliveries[leaf].event == deliveries[d].event
    decreases deliveries[leaf].sequence
  {
    if leaf == d {
    } else {
      DescendsSameEvent(deliveries, deliveries[leaf].replayOf.value, d);
    }
  }

  lemma {:induction false} SequenceBound(deliveries: map<Id, Delivery>) returns (bound: nat)
    ensures forall d :: d in deliveries ==> deliveries[d].sequence <= bound
    decreases |deliveries|
  {
    if deliveries == map[] {
      bound := 0;
    } else {
      var d :| d in deliveries;
      var rest := deliveries - {d};
      assert rest.Keys == deliveries.Keys - {d};
      assert forall e :: e in deliveries ==> e == d || e in rest;
      var b := SequenceBound(rest);
      bound := if b < deliveries[d].sequence then deliveries[d].sequence else b;
    }
  }

  /** In settled tables every delivery of an expired event has a leased delivery below it. */
  lemma {:induction false} LeasedBelow(now: int, t: Tables, d: Id, bound: nat) returns (leaf: Id)
    requires Integrity(t) && Settled(now, t)
    requires d in t.deliveries && EventExpired(now, t.events, t.deliveries[d].event)
    requires forall i :: i in t.deliveries ==> t.deliveries[i].sequence <= bound
    ensures LeasedLeaf(t.deliveries, leaf, d)
    decreases bound - t.deliveries[d].sequence
  {
    if t.deliveries[d].state.Leased? {
      leaf := d;
    } else {
      var r := ReplayExists(now, t, d);
      leaf := LeasedBelow(now, t, r, bound);
      DescendsFurther(t.deliveries, leaf, r, d);
    }
  }

  lemma ReplayExists(now: int, t: Tables, d: Id) returns (r: Id)
    requires Integrity(t) && Settled(now, t)
    requires d in t.deliveries && EventExpired(now, t.events, t.deliveries[d].event) && !t.deliveries[d].state.Leased?
    ensures r in t.deliveries && t.deliveries[r].replayOf == Some(d)
    ensures Replays(t.deliveries, t.deliveries[r], d) && EventExpired(now, t.events, t.deliveries[r].event)
  {
    assert d !in Eligible(CancelDeliveries, now, t);
    assert Finished(t.deliveries[d].state);
    assert DeliveryExpired(now, t.deliveries, t.events, d);
    forall a | a in t.attempts ensures t.attempts[a].delivery != d {
      assert a !in Eligible(PruneAttempts, now, t);
    }
    assert d !in Eligible(PruneDeliveries, now, t);
    assert HasReplay(t.deliveries, d);
    r :| r in t.deliveries && t.deliveries[r].replayOf == Some(d);
  }

  // ----- what many runs leave alone -----

  lemma {:induction false} TimesThins(n: nat, now: int, limit: nat, t: Tables)
    ensures Thinned(now, t, Times(n, now, limit, t))
  {
    hide Thinned, Pruned;
    if n == 0 {
      ThinnedSame(now, t, t);
    } else {
      var u := Pruned(Unlocked(now), limit, t);
      RunKeepsLive(Unlocked(now), now, limit, t);
      TimesThins(n - 1, now, limit, u);
      ThinnedTwice(now, t, u, Times(n, now, limit, t));
    }
  }

  // ----- survivors -----

  lemma {:induction false} ChainSurvives(now: int, t: Tables, u: Tables, leaf: Id, d: Id)
    requires Integrity(u) && Thinned(now, t, u)
    requires leaf in t.deliveries && leaf in u.deliveries && Descends(t.deliveries, leaf, d)
    ensures d in u.deliveries
    decreases t.deliveries[leaf].sequence
  {
    if leaf == d {
    } else {
      ChainSurvives(now, t, u, t.deliveries[leaf].replayOf.value, d);
    }
  }

  lemma {:induction false} DescendedBefore(now: int, t: Tables, u: Tables, leaf: Id, d: Id)
    requires Thinned(now, t, u)
    requires leaf in u.deliveries && Descends(u.deliveries, leaf, d)
    ensures leaf in t.deliveries && Descends(t.deliveries, leaf, d)
    decreases u.deliveries[leaf].sequence
  {
    if leaf == d {
    } else {
      DescendedBefore(now, t, u, u.deliveries[leaf].replayOf.value, d);
    }
  }

  /**
   After enough runs a delivery is left exactly when its event is retained or a leased delivery
   descends from it.
   */
  lemma DeliverySurvives(n: nat, now: int, limit: nat, t: Tables, d: Id)
    requires Integrity(t) && limit >= 1 && n >= Size(t) && d in t.deliveries
    ensures d in Times(n, now, limit, t).deliveries <==>
            !EventExpired(now, t.events, t.deliveries[d].event) || exists leaf :: LeasedLeaf(t.deliveries, leaf, d)
  {
    hide Times, Size, Settled;
    var u := Times(n, now, limit, t);
    PruningSettles(n, now, limit, t);
    TimesKeepsIntegrity(n, now, limit, t);
    TimesThins(n, now, limit, t);
    if leaf :| LeasedLeaf(t.deliveries, leaf, d) {
      assert Retained(now, t, leaf);
      ChainSurvives(now, t, u, leaf, d);
    }
    if d in u.deliveries && EventExpired(now, t.events, t.deliveries[d].event) {
      var leaf := LeafInSettled(now, t, u, d);
    }
  }

  lemma LeafInSettled(now: int, t: Tables, u: Tables, d: Id) returns (leaf: Id)
    requires Integrity(u) && Settled(now, u) && Thinned(now, t, u)
    requires d in u.deliveries && d in t.deliveries && EventExpired(now, t.events, t.deliveries[d].event)
    ensures LeasedLeaf(t.deliveries, leaf, d) && leaf in u.deliveries
  {
    hide Settled;
    var bound := SequenceBound(u.deliveries);
    leaf := LeasedBelow(now, u, d, bound);
    DescendedBefore(now, t, u, leaf, d);
  }

  /** After enough runs an expired event is left exactly when one of its deliveries is leased. */
  lemma EventSurvives(n: nat, now: int, limit: nat, t: Tables, e: Id)
    requires Integrity(t) && limit >= 1 && n >= Size(t) && e in t.events
    ensures e in Times(n, now, limit, t).events <==>
            t.events[e] > now
            || exists d :: d in t.deliveries && t.deliveries[d].event == e && t.deliveries[d].state.Leased?
  {
    hide Times, Size, Settled;
    var u := Times(n, now, limit, t);
    PruningSettles(n, now, limit, t);
    TimesKeepsIntegrity(n, now, limit, t);
    TimesThins(n, now, limit, t);
    if d :| d in t.deliveries && t.deliveries[d].event == e && t.deliveries[d].state.Leased? {
      assert Retained(now, t, d);
      assert u.deliveries[d].event in u.events;
    }
    if e in u.events && t.events[e] <= now {
      var d := DeliveryOfSettledEvent(now, u, e);
      var leaf := LeafInSettled(now, t, u, d);
      DescendsSameEvent(t.deliveries, leaf, d);
    }
  }

  lemma DeliveryOfSettledEvent(now: int, u: Tables, e: Id) returns (d: Id)
    requires Settled(now, u) && e in u.events && u.events[e] <= now
    ensures d in u.deliveries && u.deliveries[d].event == e
  {
    assert e !in Eligible(PruneEvents, now, u);
    assert HasDelivery(u.deliveries, e);
    d :| d in u.deliveries && u.deliveries[d].event == e;
  }

  /** After enough runs an attempt is left exactly when its event is retained or its delivery is leased. */
  lemma AttemptSurvives(n: nat, now: int, limit: nat, t: Tables, a: Id)
    requires Integrity(t) && limit >= 1 && n >= Size(t) && a in t.attempts
    ensures a in Times(n, now, limit, t).attempts <==> Retained(now, t, t.attempts[a].delivery)
  {
    hide Times, Size, Settled, Integrity, DeliveriesThinned, EventsThinned, Retained;
    var u := Times(n, now, limit, t);
    PruningSettles(n, now, limit, t);
    TimesKeepsIntegrity(n, now, limit, t);
    TimesThins(n, now, limit, t);
    if a in u.attempts {
      AttemptInSettled(now, u, a);
      RetainedBefore(now, t, u, u.attempts[a].delivery);
    }
  }

  lemma RetainedBefore(now: int, t: Tables, u: Tables, d: Id)
    requires Integrity(u) && Thinned(now, t, u) && Retained(now, u, d)
    ensures Retained(now, t, d)
  {
    hide AttemptsThinned;
  }

  lemma AttemptInSettled(now: int, u: Tables, a: Id)
    requires Integrity(u) && Settled(now, u) && a in u.attempts
    ensures Retained(now, u, u.attempts[a].delivery)
  {
    assert a !in Eligible(PruneAttempts, now, u);
    assert u.attempts[a].delivery !in Eligible(CancelDeliveries, now, u);
  }
}
