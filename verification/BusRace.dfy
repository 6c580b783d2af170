/** The event bus with its sends outside the lock: a publish picks its channels in one step and
    sends to each of them in a later one, with any other calls in between. */
module BusRace {
  import opened Wrappers
  import opened BusModel

  /** A publish in progress: whom it picked, and whom it has sent to so far. */
  datatype Flight = Flight(event: Event, picked: set<nat>, sent: set<nat>)

  /** `panicked` once a send has met a closed channel. */
  datatype Racing = Racing(bus: State, flights: seq<Flight>, panicked: bool)

  datatype Move = Locked(step: Step) | Pick(event: Event) | Send(flight: nat, id: nat)

  predicate OpenChan(s: State, id: nat) {
    1 <= id <= |s.chans| && s.chans[id - 1].left == None
  }

  predicate Possible(r: Racing, m: Move) {
    && !r.panicked
    && match m
       case Locked(step) => !step.Publish? && Enabled(r.bus, step)
       case Pick(_) => true
       case Send(f, id) => f < |r.flights| && id in r.flights[f].picked - r.flights[f].sent
  }

  ghost function After(r: Racing, m: Move): Racing
    requires Possible(r, m)
  {
    match m
    case Locked(step) => r.(bus := Next(r.bus, step))
    case Pick(e) =>
      if r.bus.closed || !ValidEvent(e) then r
      else
        r.(bus := r.bus.(published := r.bus.published + [e]),
           flights := r.flights + [Flight(e, Targets(r.bus, e), {})])
    case Send(f, id) =>
      if OpenChan(r.bus, id) then
        r.(bus := r.bus.(chans := r.bus.chans[id - 1 := Offered(r.bus.chans[id - 1], r.flights[f].event)]),
           flights := r.flights[f := r.flights[f].(sent := r.flights[f].sent + {id})])
      else r.(panicked := true)
  }

  // ---- What every interleaving keeps ----

  /** How often an event was sent to a channel, by all publishes together. */
  function SentTimes(flights: seq<Flight>, id: nat, e: Event): nat {
    if flights == [] then 0
    else SentTimes(flights[..|flights| - 1], id, e) + Share(flights[|flights| - 1], id, e)
  }

  function Share(f: Flight, id: nat, e: Event): nat {
    if id in f.sent && f.event == e then 1 else 0
  }

  /** How often an event occurs in a sequence. */
  function Times(events: seq<Event>, e: Event): nat {
    if events == [] then 0
    else Times(events[..|events| - 1], e) + if events[|events| - 1] == e then 1 else 0
  }

  ghost predicate QueueOk(c: Chan) {
    c.capacity > 0 && Queue(c.buffer, c.consumed) == Replay(c.capacity, c.history)
  }

  ghost predicate FlightOk(s: State, f: Flight) {
    f.sent <= f.picked && forall id :: id in f.picked ==> 1 <= id <= |s.chans|
  }

  /** A publish picked the channel exactly when it matched and was subscribed at the time. */
  predicate PickedInWindow(f: Flight, n: nat, c: Chan, id: nat) {
    id in f.picked <==> c.joined <= n && (c.left.Some? ==> n < c.left.value) && c.Matches(f.event)
  }

  /** Every publish was recorded with its event, and picked whom it should. */
  ghost predicate Recorded(r: Racing) {
    && |r.flights| == |r.bus.published|
    && (forall n :: 0 <= n < |r.flights| ==> r.flights[n].event == r.bus.published[n])
    && (forall i :: 0 <= i < |r.bus.chans| ==>
          && r.bus.chans[i].joined <= |r.flights|
          && (r.bus.chans[i].left.Some? ==> r.bus.chans[i].left.value <= |r.flights|))
    && forall i, n :: 0 <= i < |r.bus.chans| && 0 <= n < |r.flights| ==>
         PickedInWindow(r.flights[n], n, r.bus.chans[i], i + 1)
  }

  /** The tables and queues are in order, and each channel was offered exactly what was sent to it:
      nothing twice, nothing made up. */
  ghost predicate Sound(r: Racing) {
    && TablesOk(r.bus)
    && (forall f :: f in r.flights ==> FlightOk(r.bus, f))
    && forall i :: 0 <= i < |r.bus.chans| ==> ChanSound(r, i)
  }

  ghost predicate ChanSound(r: Racing, i: nat)
    requires i < |r.bus.chans|
  {
    && QueueOk(r.bus.chans[i])
    && forall e :: Times(Offers(r.bus.chans[i].history), e) == SentTimes(r.flights, i + 1, e)
  }

  lemma {:induction false} NothingSent(flights: seq<Flight>, id: nat, e: Event)
    requires forall f :: f in flights ==> id !in f.sent
    ensures SentTimes(flights, id, e) == 0
  {
    if flights == [] {
    } else {
      assert flights[|flights| - 1] in flights;
      NothingSent(flights[..|flights| - 1], id, e);
    }
  }

  lemma {:induction false} SentOnce(flights: seq<Flight>, f: nat, id: nat, other: nat, e: Event)
    requires f < |flights| && id !in flights[f].sent
    ensures var after := flights[f].(sent := flights[f].sent + {id});
      SentTimes(flights[f := after], other, e)
        == SentTimes(flights, other, e) + if other == id && flights[f].event == e then 1 else 0
  {
    var after := flights[f].(sent := flights[f].sent + {id});
    var front := flights[..|flights| - 1];
    if f == |flights| - 1 {
      assert flights[f := after][..|flights| - 1] == front;
    } else {
      SentOnce(front, f, id, other, e);
      assert flights[f := after][..|flights| - 1] == front[f := after];
    }
  }

  lemma TimesOfMore(events: seq<Event>, last: Event, e: Event)
    ensures Times(events + [last], e) == Times(events, e) + if last == e then 1 else 0
  {
    assert (events + [last])[..|events|] == events;
  }

  lemma OfferedQueue(c: Chan, e: Event)
    requires QueueOk(c)
    ensures QueueOk(Offered(c, e)) && Offers(Offered(c, e).history) == Offers(c.history) + [e]
  {
    assert Offered(c, e).history[..|c.history|] == c.history;
  }

  lemma ReceivedQueue(c: Chan)
    requires QueueOk(c) && c.buffer != []
    ensures QueueOk(Received(c)) && Offers(Received(c).history) == Offers(c.history)
  {
    assert Received(c).history[..|c.history|] == c.history;
  }

  lemma LockedKeepsSound(r: Racing, step: Step)
    requires Sound(r) && Possible(r, Locked(step))
    ensures Sound(After(r, Locked(step)))
  {
    var t := After(r, Locked(step));
    StepKeepsTables(r.bus, step);
    forall f | f in r.flights
      ensures FlightOk(t.bus, f)
    {
      assert FlightOk(r.bus, f);
    }
    hide TablesOk, Replay, Offers, SentTimes, Received;
    forall i | 0 <= i < |t.bus.chans|
      ensures ChanSound(t, i)
    {
      if i == |r.bus.chans| {
        assert forall f :: f in r.flights ==> FlightOk(r.bus, f) && i + 1 !in f.sent;
        forall e
          ensures Times([], e) == SentTimes(r.flights, i + 1, e)
        {
          NothingSent(r.flights, i + 1, e);
        }
        FreshQueue(t.bus.chans[i]);
      } else {
        assert ChanSound(r, i);
        if step.Receive? && step.id == i + 1 {
          ReceivedQueue(r.bus.chans[i]);
        }
      }
    }
  }

  lemma FreshQueue(c: Chan)
    requires c.capacity > 0 && c.buffer == c.consumed == [] && c.history == []
    ensures QueueOk(c) && Offers(c.history) == []
  {
  }

  lemma PickKeepsSound(r: Racing, e: Event)
    requires Sound(r) && Possible(r, Pick(e))
    ensures Sound(After(r, Pick(e)))
  {
    var t := After(r, Pick(e));
    if t != r {
      assert t.flights[..|r.flights|] == r.flights;
      assert forall id, e' :: SentTimes(t.flights, id, e') == SentTimes(r.flights, id, e');
      hide Replay, Offers, SentTimes, Times;
      forall i | 0 <= i < |t.bus.chans|
        ensures ChanSound(t, i)
      {
        assert ChanSound(r, i);
      }
    }
  }

  lemma SendKeepsFlights(r: Racing, f: nat, id: nat)
    requires Sound(r) && Possible(r, Send(f, id))
    ensures forall g :: g in After(r, Send(f, id)).flights ==> FlightOk(After(r, Send(f, id)).bus, g)
  {
    hide TablesOk, ChanSound, Offered;
    var t := After(r, Send(f, id));
    forall k | 0 <= k < |t.flights|
      ensures FlightOk(t.bus, t.flights[k])
    {
      assert r.flights[k] in r.flights && FlightOk(r.bus, r.flights[k]);
    }
  }

  lemma SendKeepsChan(r: Racing, f: nat, id: nat, i: nat)
    requires Sound(r) && Possible(r, Send(f, id)) && OpenChan(r.bus, id) && i < |r.bus.chans|
    ensures ChanSound(After(r, Send(f, id)), i)
  {
    hide TablesOk, FlightOk, Replay, Offers, SentTimes, Times, Offered, QueueOk;
    var t, c, sent := After(r, Send(f, id)), r.bus.chans[i], r.flights[f].event;
    assert ChanSound(r, i);
    assert t.flights == r.flights[f := r.flights[f].(sent := r.flights[f].sent + {id})];
    assert t.bus.chans[i] == if i + 1 == id then Offered(c, sent) else c;
    assert id !in r.flights[f].sent;
    hide After, Possible, Sound, OpenChan;
    OfferedQueue(c, sent);
    forall e
      ensures Times(Offers(t.bus.chans[i].history), e) == SentTimes(t.flights, i + 1, e)
    {
      SentOnce(r.flights, f, id, i + 1, e);
      TimesOfMore(Offers(c.history), sent, e);
    }
  }

  lemma SendKeepsSound(r: Racing, f: nat, id: nat)
    requires Sound(r) && Possible(r, Send(f, id))
    ensures Sound(After(r, Send(f, id)))
  {
    var t := After(r, Send(f, id));
    if t.panicked {
      hide Replay, Offers, SentTimes, Times, TablesOk;
      forall i | 0 <= i < |t.bus.chans|
        ensures ChanSound(t, i)
      {
        assert ChanSound(r, i);
      }
    } else {
      SendKeepsFlights(r, f, id);
      hide FlightOk, ChanSound;
      forall i | 0 <= i < |t.bus.chans|
        ensures ChanSound(t, i)
      {
        SendKeepsChan(r, f, id, i);
      }
    }
  }

  lemma SubscribeKeepsRecorded(r: Racing, step: Step)
    requires Sound(r) && Recorded(r) && Possible(r, Locked(step)) && step.Subscribe?
    ensures Recorded(After(r, Locked(step)))
  {
    var t := After(r, Locked(step));
    hide TablesOk, ChanSound;
    forall i, n | 0 <= i < |t.bus.chans| && 0 <= n < |t.flights|
      ensures PickedInWindow(t.flights[n], n, t.bus.chans[i], i + 1)
    {
      assert FlightOk(r.bus, r.flights[n]);
      assert i < |r.bus.chans| ==> PickedInWindow(r.flights[n], n, r.bus.chans[i], i + 1);
    }
  }

  lemma LockedKeepsRecorded(r: Racing, step: Step)
    requires Sound(r) && Recorded(r) && Possible(r, Locked(step))
    ensures Recorded(After(r, Locked(step)))
  {
    if step.Subscribe? {
      SubscribeKeepsRecorded(r, step);
    } else {
      var t := After(r, Locked(step));
      hide ChanSound, FlightOk;
      forall i, n | 0 <= i < |t.bus.chans| && 0 <= n < |t.flights|
        ensures PickedInWindow(t.flights[n], n, t.bus.chans[i], i + 1)
      {
        assert PickedInWindow(r.flights[n], n, r.bus.chans[i], i + 1);
      }
    }
  }

  lemma PickKeepsRecorded(r: Racing, e: Event)
    requires Sound(r) && Recorded(r) && Possible(r, Pick(e))
    ensures Recorded(After(r, Pick(e)))
  {
    var t := After(r, Pick(e));
    hide ChanSound, FlightOk;
    forall i, n | 0 <= i < |t.bus.chans| && 0 <= n < |t.flights|
      ensures PickedInWindow(t.flights[n], n, t.bus.chans[i], i + 1)
    {
      if n < |r.flights| {
        assert PickedInWindow(r.flights[n], n, r.bus.chans[i], i + 1);
      } else {
        assert i + 1 in Targets(r.bus, e) <==> Target(r.bus, i + 1, e);
      }
    }
  }

  lemma SendKeepsRecorded(r: Racing, f: nat, id: nat)
    requires Recorded(r) && Possible(r, Send(f, id))
    ensures Recorded(After(r, Send(f, id)))
  {
    var t := After(r, Send(f, id));
    forall i, n | 0 <= i < |t.bus.chans| && 0 <= n < |t.flights|
      ensures PickedInWindow(t.flights[n], n, t.bus.chans[i], i + 1)
    {
      assert PickedInWindow(r.flights[n], n, r.bus.chans[i], i + 1);
    }
  }

  ghost predicate IsRace(states: seq<Racing>, moves: seq<Move>) {
    && |states| == |moves| + 1 && states[0] == Racing(Initial(), [], false)
    && forall k :: 0 <= k < |moves| ==> Possible(states[k], moves[k]) && states[k + 1] == After(states[k], moves[k])
  }

  lemma {:induction false} RacesAreSound(states: seq<Racing>, moves: seq<Move>, k: nat)
    requires IsRace(states, moves) && k < |states|
    ensures Sound(states[k])
  {
    if k == 0 {
    } else {
      RacesAreSound(states, moves, k - 1);
      var r := states[k - 1];
      assert Possible(r, moves[k - 1]) && states[k - 1 + 1] == After(r, moves[k - 1]);
      hide Sound, After, IsRace;
      match moves[k - 1]
      case Locked(step) => LockedKeepsSound(r, step);
      case Pick(e) => PickKeepsSound(r, e);
      case Send(f, id) => SendKeepsSound(r, f, id);
    }
  }

  lemma {:induction false} RacesAreRecorded(states: seq<Racing>, moves: seq<Move>, k: nat)
    requires IsRace(states, moves) && k < |states|
    ensures Recorded(states[k])
  {
    hide Sound, Recorded, After;
    if k == 0 {
      StartIsRecorded();
    } else {
      RacesAreRecorded(states, moves, k - 1);
      RacesAreSound(states, moves, k - 1);
      var r := states[k - 1];
      assert Possible(r, moves[k - 1]) && states[k - 1 + 1] == After(r, moves[k - 1]);
      hide IsRace;
      match moves[k - 1]
      case Locked(step) => LockedKeepsRecorded(r, step);
      case Pick(e) => PickKeepsRecorded(r, e);
      case Send(f, id) => SendKeepsRecorded(r, f, id);
    }
  }

  lemma StartIsRecorded()
    ensures Recorded(Racing(Initial(), [], false))
  {
  }

  /** However publishes and other calls interleave, a subscriber's consumed and buffered events are
      its offers less those that met a full buffer, and its offers are exactly the sends to it. */
  lemma RacingDelivery(states: seq<Racing>, moves: seq<Move>, k: nat, i: nat)
    requires IsRace(states, moves) && k < |states| && i < |states[k].bus.chans|
    ensures var c := states[k].bus.chans[i];
      && (forall e :: Times(Offers(c.history), e) == SentTimes(states[k].flights, i + 1, e))
      && c.consumed + c.buffer == Accepted(c.capacity, c.history)
      && |c.buffer| <= c.capacity
  {
    RacesAreSound(states, moves, k);
    assert ChanSound(states[k], i);
    hide IsRace, After, Possible, Sound;
    var c := states[k].bus.chans[i];
    ReplayConserves(c.capacity, c.history);
  }

  /** The events of the sends to a channel, in the order of the sends. */
  ghost function SendLog(states: seq<Racing>, moves: seq<Move>, k: nat, id: nat): seq<Event>
    requires IsRace(states, moves) && k < |states|
  {
    if k == 0 then []
    else
      SendLog(states, moves, k - 1, id) + Sent(states[k - 1], moves[k - 1], id)
  }

  /** The event a move sends to the channel, if it does. */
  function Sent(r: Racing, m: Move, id: nat): seq<Event> {
    if m.Send? && m.id == id && m.flight < |r.flights| && OpenChan(r.bus, id) then [r.flights[m.flight].event] else []
  }

  lemma SendOffers(r: Racing, f: nat, id: nat, i: nat)
    requires Sound(r) && Possible(r, Send(f, id)) && i < |r.bus.chans|
    ensures var after := After(r, Send(f, id)).bus.chans;
      |after| == |r.bus.chans|
      && Offers(after[i].history) == Offers(r.bus.chans[i].history) + Sent(r, Send(f, id), i + 1)
  {
    hide TablesOk, Replay, FlightOk, SentTimes, Times, Offers, Offered, QueueOk;
    var t, c, e := After(r, Send(f, id)), r.bus.chans[i], r.flights[f].event;
    assert ChanSound(r, i);
    assert t.bus.chans[i] == if i + 1 == id && OpenChan(r.bus, id) then Offered(c, e) else c;
    assert Sent(r, Send(f, id), i + 1) == if i + 1 == id && OpenChan(r.bus, id) then [e] else [];
    assert |t.bus.chans| == |r.bus.chans|;
    hide After, Possible, Sound, OpenChan, Sent;
    OfferedQueue(c, e);
  }

  lemma LockedOffers(r: Racing, step: Step, i: nat)
    requires Sound(r) && Possible(r, Locked(step)) && i < |After(r, Locked(step)).bus.chans|
    ensures Offers(After(r, Locked(step)).bus.chans[i].history)
      == if i < |r.bus.chans| then Offers(r.bus.chans[i].history) else []
  {
    hide TablesOk, Replay, FlightOk, SentTimes, Times, Received;
    if i < |r.bus.chans| {
      assert ChanSound(r, i);
      if step.Receive? && step.id == i + 1 {
        ReceivedQueue(r.bus.chans[i]);
      }
    }
  }

  /** What a move adds to a channel's offers; a new channel has none. */
  lemma MoveOffers(r: Racing, m: Move, i: nat)
    requires Sound(r) && Possible(r, m) && i < |After(r, m).bus.chans|
    ensures Offers(After(r, m).bus.chans[i].history)
      == (if i < |r.bus.chans| then Offers(r.bus.chans[i].history) else []) + Sent(r, m, i + 1)
  {
    hide Sound, Offers;
    match m
    case Locked(step) => LockedOffers(r, step, i);
    case Pick(_) =>
    case Send(f, id) => SendOffers(r, f, id, i);
  }

  /** A channel that does not exist yet has been sent nothing. */
  lemma {:induction false} NothingLogged(states: seq<Racing>, moves: seq<Move>, k: nat, id: nat)
    requires IsRace(states, moves) && k < |states| && id > |states[k].bus.chans|
    ensures SendLog(states, moves, k, id) == []
  {
    if k == 0 {
    } else {
      assert Possible(states[k - 1], moves[k - 1]) && states[k - 1 + 1] == After(states[k - 1], moves[k - 1]);
      ChansGrow(states[k - 1], moves[k - 1]);
      NothingLogged(states, moves, k - 1, id);
    }
  }

  lemma ChansGrow(r: Racing, m: Move)
    requires Possible(r, m)
    ensures |r.bus.chans| <= |After(r, m).bus.chans|
  {
  }

  /** A subscriber is offered the events of the sends to it, in the order they were made. */
  lemma {:induction false} OffersInSendOrder(states: seq<Racing>, moves: seq<Move>, k: nat, i: nat)
    requires IsRace(states, moves) && k < |states| && i < |states[k].bus.chans|
    ensures Offers(states[k].bus.chans[i].history) == SendLog(states, moves, k, i + 1)
  {
    hide Sound, After, Offers;
    if k == 0 {
    } else {
      var r := states[k - 1];
      assert Possible(r, moves[k - 1]) && states[k - 1 + 1] == After(r, moves[k - 1]);
      RacesAreSound(states, moves, k - 1);
      MoveOffers(r, moves[k - 1], i);
      if i < |r.bus.chans| {
        OffersInSendOrder(states, moves, k - 1, i);
      } else {
        NothingLogged(states, moves, k - 1, i + 1);
      }
    }
  }

  lemma {:induction false} TimesInWindow(flights: seq<Flight>, published: seq<Event>, c: Chan, id: nat,
                                         lo: nat, hi: nat, e: Event)
    requires |flights| == |published| && lo <= hi <= |flights|
    requires forall n :: 0 <= n < |flights| ==> flights[n].event == published[n] && flights[n].sent == flights[n].picked
    requires forall n :: 0 <= n < |flights| ==> (id in flights[n].picked <==> lo <= n < hi && c.Matches(published[n]))
    ensures SentTimes(flights, id, e) == Times(Matching(c, published[lo..hi]), e)
    decreases |flights|
  {
    hide Times, Matching;
    NothingMatches(c, e);
    if flights == [] {
      assert published[lo..hi] == [];
    } else {
      var m := |flights| - 1;
      if hi == m + 1 && lo < hi {
        SliceOfPrefix(published, m, lo, m);
        MatchingOfMore(c, published, lo, hi, e);
        TimesInWindow(flights[..m], published[..m], c, id, lo, m, e);
      } else if hi <= m {
        SliceOfPrefix(published, m, lo, hi);
        TimesInWindow(flights[..m], published[..m], c, id, lo, hi, e);
      } else {
        assert published[lo..hi] == [];
        NoneInWindow(flights, id, e);
      }
    }
  }

  lemma SliceOfPrefix(published: seq<Event>, m: nat, lo: nat, hi: nat)
    requires lo <= hi <= m <= |published|
    ensures published[..m][lo..hi] == published[lo..hi]
  {
  }

  lemma NothingMatches(c: Chan, e: Event)
    ensures Times(Matching(c, []), e) == 0
  {
  }

  lemma MatchingOfMore(c: Chan, published: seq<Event>, lo: nat, hi: nat, e: Event)
    requires lo < hi <= |published|
    ensures Times(Matching(c, published[lo..hi]), e)
      == Times(Matching(c, published[lo..hi - 1]), e)
         + if c.Matches(published[hi - 1]) && published[hi - 1] == e then 1 else 0
  {
    var window, last := published[lo..hi], published[hi - 1];
    var front := window[..|window| - 1];
    assert front == published[lo..hi - 1] && window[|window| - 1] == last;
    MatchingUnfolds(c, window);
    hide Matching, Times, Chan.Matches;
    if c.Matches(last) {
      TimesOfMore(Matching(c, front), last, e);
    }
  }

  lemma MatchingUnfolds(c: Chan, events: seq<Event>)
    requires events != []
    ensures var front, last := events[..|events| - 1], events[|events| - 1];
      Matching(c, events) == if c.Matches(last) then Matching(c, front) + [last] else Matching(c, front)
  {
    hide Chan.Matches;
  }

  lemma NoneInWindow(flights: seq<Flight>, id: nat, e: Event)
    requires forall n :: 0 <= n < |flights| ==> flights[n].sent == flights[n].picked && id !in flights[n].picked
    ensures SentTimes(flights, id, e) == 0
  {
    NothingSent(flights, id, e);
  }

  /** Every publish has sent to all it picked. */
  ghost predicate Complete(r: Racing) {
    forall f :: f in r.flights ==> f.sent == f.picked
  }

  /** Once every publish is complete, a subscriber has been offered each event as often as it was
      published, matching, while it was subscribed, whatever interleaved; what is consumed and buffered
      is that in the order of the sends, less what met a full buffer. */
  lemma CompleteDelivery(states: seq<Racing>, moves: seq<Move>, k: nat, i: nat)
    requires IsRace(states, moves) && k < |states| && i < |states[k].bus.chans| && Complete(states[k])
    ensures var s := states[k].bus; var c := s.chans[i];
      && (forall e :: Times(Offers(c.history), e) == Times(Matching(c, WhileSubscribed(c, s.published)), e))
      && Offers(c.history) == SendLog(states, moves, k, i + 1)
      && c.consumed + c.buffer == Accepted(c.capacity, c.history)
  {
    RacesAreRecorded(states, moves, k);
    RacingDelivery(states, moves, k, i);
    OffersInSendOrder(states, moves, k, i);
    hide SendLog, Offers, Accepted, Times, SentTimes, Matching, IsRace;
    var r, c := states[k], states[k].bus.chans[i];
    forall n | 0 <= n < |r.flights|
      ensures r.flights[n].sent == r.flights[n].picked
      ensures PickedInWindow(r.flights[n], n, c, i + 1)
    {
      assert r.flights[n] in r.flights;
    }
    hide Complete;
    hide PickedInWindow, ChanSound, FlightOk;
    forall e
      ensures SentTimes(r.flights, i + 1, e) == Times(Matching(c, WhileSubscribed(c, r.bus.published)), e)
    {
      WindowTimes(r.flights, r.bus.published, c, i + 1, e);
    }
  }

  lemma WindowTimes(flights: seq<Flight>, published: seq<Event>, c: Chan, id: nat, e: Event)
    requires |flights| == |published| && c.joined <= |published|
    requires c.left.Some? ==> c.left.value <= |published|
    requires forall n :: 0 <= n < |flights| ==>
      && flights[n].event == published[n] && flights[n].sent == flights[n].picked
      && PickedInWindow(flights[n], n, c, id)
    ensures SentTimes(flights, id, e) == Times(Matching(c, WhileSubscribed(c, published)), e)
  {
    hide SentTimes, Times, Matching;
    var lo, hi := c.joined, End(c, published);
    if lo <= hi {
      TimesInWindow(flights, published, c, id, lo, hi, e);
    } else {
      TimesInWindow(flights, published, c, id, hi, hi, e);
      assert published[hi..hi] == [];
    }
  }

  lemma MoveKeepsTerms(r: Racing, m: Move, i: nat)
    requires Sound(r) && Possible(r, m) && i < |r.bus.chans|
    ensures i < |After(r, m).bus.chans|
    ensures var c, d := r.bus.chans[i], After(r, m).bus.chans[i];
      d.types == c.types && d.capacity == c.capacity && d.joined == c.joined
  {
    hide ChanSound, FlightOk;
  }

  /** A subscription's channel is, in every interleaving, for exactly the events of the types asked for. */
  lemma {:induction false} RacingTerms(states: seq<Racing>, moves: seq<Move>, m: nat, n: nat,
                                       buffer: int, types: seq<string>)
    requires IsRace(states, moves) && m < n < |states|
    requires moves[m] == Locked(Subscribe(buffer, types)) && !states[m].bus.closed
    ensures var i := |states[m].bus.chans|;
      && i < |states[n].bus.chans|
      && var c := states[n].bus.chans[i];
         && c.capacity == (if buffer <= 0 then 32 else buffer) && c.joined == |states[m].bus.published|
         && (forall e: Event :: c.Matches(e) <==> types == [] || e.eventType in types)
    decreases n
  {
    assert Possible(states[n - 1], moves[n - 1]) && states[n - 1 + 1] == After(states[n - 1], moves[n - 1]);
    if n == m + 1 {
      NewSubscription(states[m].bus, buffer, types);
    } else {
      RacingTerms(states, moves, m, n - 1, buffer, types);
      RacesAreSound(states, moves, n - 1);
      hide IsRace, After, Possible, Sound;
      MoveKeepsTerms(states[n - 1], moves[n - 1], |states[m].bus.chans|);
    }
  }

  /** In the subscriber's terms: once every publish is complete it has been offered each event as often
      as an event of a type it asked for was published while it was subscribed. */
  lemma CompleteDeliversAsked(states: seq<Racing>, moves: seq<Move>, m: nat, n: nat, buffer: int, types: seq<string>)
    requires IsRace(states, moves) && m < n < |states| && Complete(states[n])
    requires moves[m] == Locked(Subscribe(buffer, types)) && !states[m].bus.closed
    ensures var s, i := states[n].bus, |states[m].bus.chans|;
      && i < |s.chans|
      && forall e :: Times(Offers(s.chans[i].history), e)
           == Times(AskedFor(types, WhileSubscribed(s.chans[i], s.published)), e)
  {
    RacingTerms(states, moves, m, n, buffer, types);
    var s, i := states[n].bus, |states[m].bus.chans|;
    CompleteDelivery(states, moves, n, i);
    hide IsRace, Complete, Times, Offers, Matching, SendLog;
    MatchingIsAsked(s.chans[i], types, WhileSubscribed(s.chans[i], s.published));
  }

  // ---- Sending to a closed channel ----

  predicate Shuts(m: Move, id: nat) {
    m.Locked? && Closes(m.step, id)
  }

  lemma MoveKeepsOpen(r: Racing, m: Move, id: nat)
    requires Sound(r) && Possible(r, m) && 1 <= id <= |r.bus.chans|
    ensures id <= |After(r, m).bus.chans|
    ensures OpenChan(After(r, m).bus, id) <==> OpenChan(r.bus, id) && !Shuts(m, id)
  {
    hide ChanSound, FlightOk;
  }

  lemma FlightKeepsPicked(r: Racing, m: Move, f: nat)
    requires Possible(r, m) && f < |r.flights|
    ensures f < |After(r, m).flights| && After(r, m).flights[f].picked == r.flights[f].picked
  {
    hide Next, Targets;
  }

  /** A picked channel is open later exactly when nothing shut it since. */
  lemma {:induction false} OpenSincePick(states: seq<Racing>, moves: seq<Move>, m: nat, n: nat, id: nat)
    requires IsRace(states, moves) && m < n < |states| && moves[m].Pick?
    requires var f := |states[m].flights|; f < |states[m + 1].flights| && id in states[m + 1].flights[f].picked
    ensures var f := |states[m].flights|;
      && f < |states[n].flights| && states[n].flights[f].picked == states[m + 1].flights[f].picked
      && 1 <= id <= |states[n].bus.chans|
      && (OpenChan(states[n].bus, id) <==> forall k :: m < k < n ==> !Shuts(moves[k], id))
    decreases n
  {
    hide After, Possible, Sound, OpenChan, Shuts;
    RacesAreSound(states, moves, n - 1);
    assert Possible(states[n - 1], moves[n - 1]) && states[n - 1 + 1] == After(states[n - 1], moves[n - 1]);
    if n == m + 1 {
      PickedIsOpen(states[m], moves[m].event, id);
    } else {
      OpenSincePick(states, moves, m, n - 1, id);
      hide IsRace;
      FlightKeepsPicked(states[n - 1], moves[n - 1], |states[m].flights|);
      MoveKeepsOpen(states[n - 1], moves[n - 1], id);
    }
  }

  lemma PickedIsOpen(r: Racing, e: Event, id: nat)
    requires Sound(r) && Possible(r, Pick(e)) && |r.flights| < |After(r, Pick(e)).flights|
    requires id in After(r, Pick(e)).flights[|r.flights|].picked
    ensures 1 <= id <= |After(r, Pick(e)).bus.chans| && OpenChan(After(r, Pick(e)).bus, id)
  {
    hide ChanSound, FlightOk;
  }

  /** A send panics exactly when, since its publish picked the channel, the bus was closed or that
      subscription was cancelled. */
  lemma PanicsExactly(states: seq<Racing>, moves: seq<Move>, m: nat, n: nat, id: nat)
    requires IsRace(states, moves) && m < n < |moves| && moves[m].Pick?
    requires |states[m].flights| < |states[m + 1].flights| && moves[n] == Send(|states[m].flights|, id)
    ensures states[n + 1].panicked <==> exists k :: m < k < n && Shuts(moves[k], id)
  {
    assert Possible(states[n], moves[n]) && states[n + 1] == After(states[n], moves[n]);
    FlightSince(states, moves, m, n);
    OpenSincePick(states, moves, m, n, id);
    hide IsRace, Shuts;
  }

  lemma {:induction false} FlightSince(states: seq<Racing>, moves: seq<Move>, m: nat, n: nat)
    requires IsRace(states, moves) && m < n < |states|
    requires |states[m].flights| < |states[m + 1].flights|
    ensures var f := |states[m].flights|;
      f < |states[n].flights| && states[n].flights[f].picked == states[m + 1].flights[f].picked
    decreases n
  {
    hide After, Possible;
    if n == m + 1 {
    } else {
      FlightSince(states, moves, m, n - 1);
      assert Possible(states[n - 1], moves[n - 1]) && states[n - 1 + 1] == After(states[n - 1], moves[n - 1]);
      hide IsRace;
      FlightKeepsPicked(states[n - 1], moves[n - 1], |states[m].flights|);
    }
  }

  /** It does happen: subscribe to everything, publish, and close the bus before the send. */
  lemma RacePanics(e: Event) returns (states: seq<Racing>, moves: seq<Move>)
    requires ValidEvent(e)
    ensures IsRace(states, moves) && |moves| == 4 && states[4].panicked
  {
    var r0 := Racing(Initial(), [], false);
    var r1 := After(r0, Locked(Subscribe(0, [])));
    assert Targets(r1.bus, e) == {1};
    var r2 := After(r1, Pick(e));
    var r3 := After(r2, Locked(Close));
    states := [r0, r1, r2, r3, After(r3, Send(0, 1))];
    moves := [Locked(Subscribe(0, [])), Pick(e), Locked(Close), Send(0, 1)];
  }

  // ---- A publish nobody disturbs ----

  ghost predicate CanSend(r: Racing, f: nat, ids: seq<nat>)
    decreases |ids|
  {
    ids == [] || (Possible(r, Send(f, ids[0])) && CanSend(After(r, Send(f, ids[0])), f, ids[1..]))
  }

  ghost function SendEach(r: Racing, f: nat, ids: seq<nat>): Racing
    requires CanSend(r, f, ids)
    decreases |ids|
  {
    if ids == [] then r else SendEach(After(r, Send(f, ids[0])), f, ids[1..])
  }

  function Members(ids: seq<nat>): set<nat> {
    set id | id in ids
  }

  function OfferTo(chans: seq<Chan>, ids: set<nat>, e: Event): seq<Chan> {
    seq(|chans|, i requires 0 <= i < |chans| => if i + 1 in ids then Offered(chans[i], e) else chans[i])
  }

  lemma {:induction false} SendsAdd(r: Racing, f: nat, ids: seq<nat>)
    requires !r.panicked && f < |r.flights| && forall i, j :: 0 <= i < j < |ids| ==> ids[i] != ids[j]
    requires forall id :: id in ids ==> id in r.flights[f].picked - r.flights[f].sent && OpenChan(r.bus, id)
    ensures CanSend(r, f, ids)
    ensures SendEach(r, f, ids)
      == r.(bus := r.bus.(chans := OfferTo(r.bus.chans, Members(ids), r.flights[f].event)),
            flights := r.flights[f := r.flights[f].(sent := r.flights[f].sent + Members(ids))])
    decreases |ids|
  {
    hide Offered;
    if ids == [] {
      assert Members(ids) == {} && OfferTo(r.bus.chans, {}, r.flights[f].event) == r.bus.chans;
      assert r.flights[f].(sent := r.flights[f].sent + {}) == r.flights[f];
    } else {
      var id, rest := ids[0], ids[1..];
      assert id in ids && id !in rest && Members(ids) == {id} + Members(rest);
      var t := After(r, Send(f, id));
      assert Possible(r, Send(f, id)) && !t.panicked;
      assert forall i :: 0 <= i < |rest| ==> rest[i] == ids[i + 1];
      forall x | x in rest
        ensures x in t.flights[f].picked - t.flights[f].sent && OpenChan(t.bus, x)
      {
        assert x in ids && x != id;
      }
      SendsAdd(t, f, rest);
      assert OfferTo(t.bus.chans, Members(rest), r.flights[f].event)
        == OfferTo(r.bus.chans, Members(ids), r.flights[f].event);
      assert t.flights[f].sent + Members(rest) == r.flights[f].sent + Members(ids);
      assert t.flights[f := t.flights[f].(sent := t.flights[f].sent + Members(rest))]
        == r.flights[f := r.flights[f].(sent := r.flights[f].sent + Members(ids))];
    }
  }

  /** With no other call in between, picking and sending in any order is one publishing step. */
  lemma UndisturbedPublish(r: Racing, e: Event, ids: seq<nat>)
    requires Sound(r) && !r.panicked && !r.bus.closed && ValidEvent(e)
    requires forall i, j :: 0 <= i < j < |ids| ==> ids[i] != ids[j]
    requires Members(ids) == Targets(r.bus, e)
    ensures var picked := After(r, Pick(e));
      && CanSend(picked, |r.flights|, ids)
      && SendEach(picked, |r.flights|, ids).bus == Next(r.bus, Publish(e, Targets(r.bus, e)))
      && !SendEach(picked, |r.flights|, ids).panicked
  {
    hide ChanSound, FlightOk, Offered;
    var picked, targets := After(r, Pick(e)), Targets(r.bus, e);
    forall id | id in ids
      ensures id in targets && OpenChan(picked.bus, id)
    {
      assert id in Members(ids);
    }
    SendsAdd(picked, |r.flights|, ids);
    OffersToTargets(r.bus, e);
    hide CanSend, SendEach, OfferTo, Members, Targets, AfterPublish, Sound;
  }

  lemma OffersToTargets(s: State, e: Event)
    requires !s.closed && ValidEvent(e)
    ensures Enabled(s, Publish(e, Targets(s, e)))
    ensures Next(s, Publish(e, Targets(s, e)))
      == s.(chans := OfferTo(s.chans, Targets(s, e), e), published := s.published + [e])
  {
    hide Offered;
    var chans := OfferTo(s.chans, Targets(s, e), e);
    forall i | 0 <= i < |s.chans|
      ensures chans[i] == AfterPublish(s, i + 1, e, Targets(s, e))
    {
      assert Target(s, i + 1, e) <==> i + 1 in Targets(s, e);
    }
    assert chans == Next(s, Publish(e, Targets(s, e))).chans;
  }
}
