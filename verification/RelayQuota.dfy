/** From the ledger to the wire: the charges of any number of relays, taken from the
    history of one ledger run, forward no more than the quota in total. */
module RelayQuota {
  import opened Basics
  import opened Calendars
  import opened Meters
  import opened TrafficLedger
  import opened LedgerRuns
  import opened LedgerQuota

  /** The events of all relays in one list. */
  function Joined(relays: seq<seq<Event>>): seq<Event> {
    if relays == [] then [] else Joined(relays[..|relays| - 1]) + relays[|relays| - 1]
  }

  lemma {:induction false} JoinedForwards(relays: seq<seq<Event>>)
    requires forall i :: 0 <= i < |relays| ==> Forwards(relays[i])
    ensures Forwards(Joined(relays))
  {
    if relays != [] {
      JoinedForwards(relays[..|relays| - 1]);
    }
  }

  /** The same charge with the same answer; what was forwarded is the relay's own. */
  predicate SameCharge(a: Event, b: Event) {
    a.key == b.key && a.at == b.at && a.tx == b.tx && a.rx == b.rx && a.admitted == b.admitted
  }

  /** Each relay event is a charge of the history, no charge belonging to two of them. */
  ghost predicate DrawnFrom(events: seq<Event>, picks: seq<nat>, h: seq<Event>) {
    && |picks| == |events| && Distinct(picks)
    && forall i :: 0 <= i < |events| ==> picks[i] < |h| && SameCharge(events[i], h[picks[i]])
  }

  function AdmittedBytes(u: string, month: int, e: Event): nat {
    if e.admitted && Covers(UserMonth(u, month), e.key) then e.tx + e.rx else 0
  }

  lemma {:induction false} DropAdmitted(u: string, month: int, h: seq<Event>, i: nat)
    requires i < |h|
    ensures AdmittedSum(u, month, h) == AdmittedSum(u, month, Without(h, i)) + AdmittedBytes(u, month, h[i])
  {
    var k := |h| - 1;
    if i == k {
      assert Without(h, i) == h[..k];
    } else {
      DropAdmitted(u, month, h[..k], i);
      assert Without(h, i) == Without(h[..k], i) + [h[k]];
      assert Without(h, i)[..k - 1] == Without(h[..k], i);
    }
  }

  lemma DropDrawn(events: seq<Event>, picks: seq<nat>, h: seq<Event>, i: nat)
    requires DrawnFrom(events, picks, h) && i < |events| && picks[i] == |h| - 1
    ensures DrawnFrom(Without(events, i), Without(picks, i), h[..|h| - 1])
  {
    forall k | 0 <= k < |events| - 1
      ensures Without(picks, i)[k] < |h| - 1 && SameCharge(Without(events, i)[k], h[Without(picks, i)[k]])
    {
      var j := if k < i then k else k + 1;
      assert Without(picks, i)[k] == picks[j] && Without(events, i)[k] == events[j];
    }
  }

  /** Charges drawn from a history admit no more than the history did. */
  lemma {:induction false} DrawnAdmitted(u: string, month: int, events: seq<Event>, picks: seq<nat>, h: seq<Event>)
    requires DrawnFrom(events, picks, h)
    ensures AdmittedSum(u, month, events) <= AdmittedSum(u, month, h)
    decreases |h|
  {
    if h != [] {
      var last := |h| - 1;
      if i :| 0 <= i < |picks| && picks[i] == last {
        DropDrawn(events, picks, h, i);
        DrawnAdmitted(u, month, Without(events, i), Without(picks, i), h[..last]);
        DropAdmitted(u, month, events, i);
      } else {
        DrawnAdmitted(u, month, events, picks, h[..last]);
      }
    }
  }

  lemma DrawnAny(u: string, month: int, events: seq<Event>, picks: seq<nat>, h: seq<Event>)
    requires DrawnFrom(events, picks, h) && AnyAdmitted(u, month, events)
    ensures AnyAdmitted(u, month, h)
  {
    var i :| 0 <= i < |events| && events[i].admitted && Covers(UserMonth(u, month), events[i].key);
    assert h[picks[i]].admitted;
  }

  /** The charges that were answered true. The others forward nothing, and those
      refused before their critical section never reach the ledger. */
  function AdmittedOnly(events: seq<Event>): seq<Event> {
    if events == [] then []
    else
      var e := events[|events| - 1];
      AdmittedOnly(events[..|events| - 1]) + if e.admitted then [e] else []
  }

  lemma {:induction false} OnlyAdmittedForwards(u: string, month: int, events: seq<Event>)
    requires Forwards(events)
    ensures Forwards(AdmittedOnly(events))
    ensures ForwardedSum(u, month, AdmittedOnly(events)) == ForwardedSum(u, month, events)
  {
    if events != [] {
      var k := |events| - 1;
      var front, e := AdmittedOnly(events[..k]), events[k];
      OnlyAdmittedForwards(u, month, events[..k]);
      if e.admitted {
        assert (front + [e])[..|front|] == front;
      } else {
        assert front + [] == front;
      }
    }
  }

  lemma DrawnWithinQuota(cal: Calendar, origin: seq<Row>, trace: seq<Ledger>, steps: seq<Step>,
                         u: string, month: int, max: nat, i: nat, events: seq<Event>, picks: seq<nat>)
    requires IsRun(cal, origin, trace, steps) && i < |trace| && FixedQuota(steps, u, max) && max > 0
    requires Forwards(events) && DrawnFrom(events, picks, trace[i].history)
    ensures var sent := ForwardedSum(u, month, events); sent == 0 || Baseline(cal, origin, u, month) + sent <= max
  {
    ForwardedAtMostAdmitted(u, month, events);
    if AnyAdmitted(u, month, events) {
      DrawnAny(u, month, events, picks, trace[i].history);
      DrawnAdmitted(u, month, events, picks, trace[i].history);
      QuotaInductive(cal, origin, trace, steps, u, month, max, i);
    }
  }

  /** Whatever any number of relays forwarded, each within its own admitted charges as
      the copy loops guarantee, fits the fixed limit together with the bytes the month
      started from; or nothing was forwarded at all. Only admitted charges need to be
      in the ledger's history: a relay may end with one that was refused without a commit. */
  lemma RelaysWithinQuota(cal: Calendar, origin: seq<Row>, trace: seq<Ledger>, steps: seq<Step>,
                          u: string, month: int, max: nat, i: nat, relays: seq<seq<Event>>, picks: seq<nat>)
    requires IsRun(cal, origin, trace, steps) && i < |trace| && FixedQuota(steps, u, max) && max > 0
    requires forall k :: 0 <= k < |relays| ==> Forwards(relays[k])
    requires DrawnFrom(AdmittedOnly(Joined(relays)), picks, trace[i].history)
    ensures var sent := ForwardedSum(u, month, Joined(relays));
            sent == 0 || Baseline(cal, origin, u, month) + sent <= max
  {
    JoinedForwards(relays);
    OnlyAdmittedForwards(u, month, Joined(relays));
    DrawnWithinQuota(cal, origin, trace, steps, u, month, max, i, AdmittedOnly(Joined(relays)), picks);
  }
}
