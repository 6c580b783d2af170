/** The event bus as a state machine: a bounded, lossy queue per subscriber. Every call is one
    step; a publish whose context is cancelled may stop before reaching every subscriber. */
module BusModel {
  import opened Wrappers

  datatype Event = Event(id: string, eventType: string, source: string, timestamp: Option<int>)

  /** What a channel sees: an event offered to it, or a receive by its consumer. */
  datatype Action = Offer(event: Event) | Take

  datatype Queue = Queue(buffer: seq<Event>, consumed: seq<Event>)

  /** One subscription's channel. It joined when `joined` events had been published and, once
      closed, left when `left` had been; `missed` are publishes cut short before reaching it. */
  datatype Chan = Chan(
      capacity: nat, types: Option<set<string>>, joined: nat, left: Option<nat>,
      buffer: seq<Event>, consumed: seq<Event>, history: seq<Action>, missed: set<nat>) {

    predicate Matches(e: Event) {
      types.None? || e.eventType in types.value
    }
  }

  /** Subscription ids count from 1; channel `id` is `chans[id - 1]`. */
  datatype State = State(closed: bool, subscribers: set<nat>, wildcards: set<nat>, chans: seq<Chan>,
                         published: seq<Event>)

  datatype Step = Subscribe(buffer: int, types: seq<string>) | Unsubscribe(id: nat) | Close
    | Publish(event: Event, sent: set<nat>) | Receive(id: nat)

  const DEFAULT_BUFFER: nat := 32

  predicate ValidEvent(e: Event) {
    e.eventType != "" && e.timestamp.Some?
  }

  function Capacity(buffer: int): nat {
    if buffer <= 0 then DEFAULT_BUFFER else buffer
  }

  function TypeSet(types: seq<string>): Option<set<string>> {
    if types == [] then None else Some(set t | t in types)
  }

  function Initial(): State {
    State(false, {}, {}, [], [])
  }

  predicate Active(s: State, id: nat) {
    id in s.subscribers || id in s.wildcards
  }

  /** Whom a publish addresses. */
  predicate Target(s: State, id: nat, e: Event) {
    1 <= id <= |s.chans| && Active(s, id) && s.chans[id - 1].Matches(e)
  }

  /** The ids a publish addresses. */
  ghost function Targets(s: State, e: Event): set<nat> {
    set id | id in s.subscribers + s.wildcards && Target(s, id, e)
  }

  predicate Enabled(s: State, step: Step) {
    match step
    case Publish(e, sent) => forall id :: id in sent ==> Target(s, id, e)
    case Receive(id) => 1 <= id <= |s.chans| && s.chans[id - 1].buffer != []
    case _ => true
  }

  function Offered(c: Chan, e: Event): Chan {
    c.(buffer := if |c.buffer| < c.capacity then c.buffer + [e] else c.buffer, history := c.history + [Offer(e)])
  }

  function Received(c: Chan): Chan
    requires c.buffer != []
  {
    c.(buffer := c.buffer[1..], consumed := c.consumed + [c.buffer[0]], history := c.history + [Take])
  }

  /** A channel's part in publishing event number `n`. */
  function AfterPublish(s: State, id: nat, e: Event, sent: set<nat>): Chan
    requires 1 <= id <= |s.chans|
  {
    var c := s.chans[id - 1];
    if id in sent then Offered(c, e)
    else if Target(s, id, e) then c.(missed := c.missed + {|s.published|})
    else c
  }

  function CloseChan(c: Chan, now: nat): Chan {
    c.(left := Some(now))
  }

  function Next(s: State, step: Step): State
    requires Enabled(s, step)
  {
    match step
    case Subscribe(buffer, types) =>
      if s.closed then s
      else
        var id := |s.chans| + 1;
        var c := Chan(Capacity(buffer), TypeSet(types), |s.published|, None, [], [], [], {});
        s.(subscribers := if types == [] then s.subscribers else s.subscribers + {id},
           wildcards := if types == [] then s.wildcards + {id} else s.wildcards,
           chans := s.chans + [c])
    case Unsubscribe(id) =>
      if s.closed || !(1 <= id <= |s.chans| && Active(s, id)) then s
      else
        s.(subscribers := s.subscribers - {id}, wildcards := s.wildcards - {id},
           chans := s.chans[id - 1 := CloseChan(s.chans[id - 1], |s.published|)])
    case Close =>
      State(true, {}, {},
            seq(|s.chans|, i requires 0 <= i < |s.chans| =>
              if Active(s, i + 1) then CloseChan(s.chans[i], |s.published|) else s.chans[i]),
            s.published)
    case Publish(e, sent) =>
      if s.closed || !ValidEvent(e) then s
      else
        s.(chans := seq(|s.chans|, i requires 0 <= i < |s.chans| => AfterPublish(s, i + 1, e, sent)),
           published := s.published + [e])
    case Receive(id) =>
      s.(chans := s.chans[id - 1 := Received(s.chans[id - 1])])
  }

  // ---- What a channel holds, from its history alone ----

  function Replay(capacity: nat, history: seq<Action>): Queue {
    if history == [] then Queue([], [])
    else
      var q := Replay(capacity, history[..|history| - 1]);
      match history[|history| - 1]
      case Offer(e) => if |q.buffer| < capacity then q.(buffer := q.buffer + [e]) else q
      case Take => if q.buffer == [] then q else Queue(q.buffer[1..], q.consumed + [q.buffer[0]])
  }

  /** The offers that met a free slot, in order. */
  function Accepted(capacity: nat, history: seq<Action>): seq<Event> {
    if history == [] then []
    else
      var front, last := history[..|history| - 1], history[|history| - 1];
      Accepted(capacity, front)
      + if last.Offer? && |Replay(capacity, front).buffer| < capacity then [last.event] else []
  }

  function Offers(history: seq<Action>): seq<Event> {
    if history == [] then []
    else
      var last := history[|history| - 1];
      Offers(history[..|history| - 1]) + if last.Offer? then [last.event] else []
  }

  /** The events among those numbered `lo` to `hi` that the channel asked for and was reached by. */
  function Wanted(c: Chan, published: seq<Event>, lo: nat, hi: nat): seq<Event>
    requires hi <= |published|
    decreases hi
  {
    if hi <= lo then []
    else
      Wanted(c, published, lo, hi - 1)
      + if c.Matches(published[hi - 1]) && (hi - 1) !in c.missed then [published[hi - 1]] else []
  }

  /** Consumed and buffered together are exactly the accepted offers, and the buffer is bounded. */
  lemma {:induction false} ReplayConserves(capacity: nat, history: seq<Action>)
    ensures var q := Replay(capacity, history);
      q.consumed + q.buffer == Accepted(capacity, history) && |q.buffer| <= capacity
  {
    if history == [] {
    } else {
      ReplayConserves(capacity, history[..|history| - 1]);
    }
  }

  function Takes(history: seq<Action>): nat {
    if history == [] then 0 else Takes(history[..|history| - 1]) + if history[|history| - 1].Take? then 1 else 0
  }

  /** An offer is dropped only when a full buffer's worth is waiting: with at most `capacity` offers
      beyond those already taken at every moment, nothing is lost. */
  lemma {:induction false} NothingDroppedWhenKeptUp(capacity: nat, history: seq<Action>)
    requires forall n :: 0 <= n <= |history| ==> |Offers(history[..n])| <= capacity + Takes(history[..n])
    requires forall n :: 0 <= n <= |history| ==> Takes(history[..n]) <= |Offers(history[..n])|
    ensures Accepted(capacity, history) == Offers(history)
    ensures |Replay(capacity, history).consumed| == Takes(history)
  {
    if history == [] {
    } else {
      var front := history[..|history| - 1];
      assert forall n :: 0 <= n <= |front| ==> front[..n] == history[..n];
      NothingDroppedWhenKeptUp(capacity, front);
      ReplayConserves(capacity, front);
      assert history[..|history|] == history;
    }
  }

  // ---- What every reachable state satisfies ----

  function End(c: Chan, published: seq<Event>): nat {
    if c.left.Some? && c.left.value <= |published| then c.left.value else |published|
  }

  function WhileSubscribed(c: Chan, published: seq<Event>): seq<Event> {
    if c.joined <= End(c, published) then published[c.joined..End(c, published)] else []
  }

  ghost predicate ChanOk(c: Chan, published: seq<Event>) {
    && c.capacity > 0
    && c.joined <= End(c, published) && (c.left.Some? ==> c.left.value <= |published|)
    && Queue(c.buffer, c.consumed) == Replay(c.capacity, c.history)
    && Offers(c.history) == Wanted(c, published, c.joined, End(c, published))
    && forall n :: n in c.missed ==> n < |published|
  }

  /** The two tables are disjoint, hold exactly the open channels, and agree on wildcards. */
  ghost predicate TablesOk(s: State) {
    && s.subscribers !! s.wildcards
    && (s.closed ==> s.subscribers == {} && s.wildcards == {})
    && (forall id :: id in s.subscribers ==> 1 <= id <= |s.chans|)
    && (forall id :: id in s.wildcards ==> 1 <= id <= |s.chans|)
    && forall i :: 0 <= i < |s.chans| ==>
         && (s.chans[i].left == None <==> i + 1 in s.subscribers || i + 1 in s.wildcards)
         && (i + 1 in s.subscribers ==> s.chans[i].types.Some?)
         && (i + 1 in s.wildcards ==> s.chans[i].types.None?)
  }

  ghost predicate Inv(s: State) {
    TablesOk(s) && forall i :: 0 <= i < |s.chans| ==> ChanOk(s.chans[i], s.published)
  }

  lemma {:induction false} WantedIgnoresLater(c: Chan, d: Chan, published: seq<Event>, e: Event, lo: nat, hi: nat)
    requires hi <= |published| && d.types == c.types && (d.missed == c.missed || d.missed == c.missed + {|published|})
    ensures Wanted(d, published + [e], lo, hi) == Wanted(c, published, lo, hi)
    decreases hi
  {
    if hi <= lo {
    } else {
      WantedIgnoresLater(c, d, published, e, lo, hi - 1);
    }
  }

  lemma PublishKeepsChan(s: State, id: nat, e: Event, sent: set<nat>)
    requires Inv(s) && 1 <= id <= |s.chans| && Enabled(s, Publish(e, sent))
    ensures ChanOk(AfterPublish(s, id, e, sent), s.published + [e])
  {
    var c, d, n := s.chans[id - 1], AfterPublish(s, id, e, sent), |s.published|;
    assert ChanOk(c, s.published);
    WantedIgnoresLater(c, d, s.published, e, c.joined, End(c, s.published));
    assert id in sent ==> d.history[..|c.history|] == c.history;
    assert (s.published + [e])[n] == e;
  }

  lemma ReceiveKeepsChan(c: Chan, published: seq<Event>)
    requires ChanOk(c, published) && c.buffer != []
    ensures ChanOk(Received(c), published)
  {
    var d := Received(c);
    assert d.history[..|c.history|] == c.history;
    WantedSame(c, d, published, c.joined, End(c, published));
  }

  lemma {:induction false} WantedSame(c: Chan, d: Chan, published: seq<Event>, lo: nat, hi: nat)
    requires hi <= |published| && d.types == c.types && d.missed == c.missed
    ensures Wanted(d, published, lo, hi) == Wanted(c, published, lo, hi)
    decreases hi
  {
    if hi <= lo {
    } else {
      WantedSame(c, d, published, lo, hi - 1);
    }
  }

  lemma CloseKeepsChan(c: Chan, published: seq<Event>)
    requires ChanOk(c, published) && c.left == None
    ensures ChanOk(CloseChan(c, |published|), published)
  {
    WantedSame(c, CloseChan(c, |published|), published, c.joined, |published|);
  }

  lemma StepKeepsChan(s: State, step: Step, i: nat)
    requires Inv(s) && Enabled(s, step) && i < |Next(s, step).chans|
    ensures ChanOk(Next(s, step).chans[i], Next(s, step).published)
  {
    hide Replay, Wanted, Offers, AfterPublish, CloseChan, Received;
    match step
    case Subscribe(buffer, types) =>
      if !s.closed && i == |s.chans| {
        NewChanOk(Capacity(buffer), TypeSet(types), s.published);
      }
    case Unsubscribe(id) =>
      if i == id - 1 && Active(s, id) {
        CloseKeepsChan(s.chans[i], s.published);
      }
    case Close =>
      if Active(s, i + 1) {
        CloseKeepsChan(s.chans[i], s.published);
      }
    case Publish(e, sent) =>
      if !s.closed && ValidEvent(e) {
        PublishKeepsChan(s, i + 1, e, sent);
      }
    case Receive(id) =>
      if i == id - 1 {
        ReceiveKeepsChan(s.chans[i], s.published);
      }
  }

  lemma NewChanOk(capacity: nat, types: Option<set<string>>, published: seq<Event>)
    requires capacity > 0
    ensures ChanOk(Chan(capacity, types, |published|, None, [], [], [], {}), published)
  {
  }

  lemma StepKeepsTables(s: State, step: Step)
    requires TablesOk(s) && Enabled(s, step)
    ensures TablesOk(Next(s, step))
  {
    var t := Next(s, step);
    match step
    case Subscribe(buffer, types) =>
      assert TablesOk(t);
    case Unsubscribe(id) =>
      assert TablesOk(t);
    case Close =>
      assert TablesOk(t);
    case Publish(e, sent) =>
      assert TablesOk(t);
    case Receive(id) =>
      assert TablesOk(t);
  }

  lemma StepKeepsInv(s: State, step: Step)
    requires Inv(s) && Enabled(s, step)
    ensures Inv(Next(s, step))
  {
    StepKeepsTables(s, step);
    forall i | 0 <= i < |Next(s, step).chans|
      ensures ChanOk(Next(s, step).chans[i], Next(s, step).published)
    {
      StepKeepsChan(s, step, i);
    }
  }

  // ---- Whole runs ----

  ghost predicate IsRun(states: seq<State>, steps: seq<Step>) {
    && |states| == |steps| + 1 && states[0] == Initial()
    && forall k :: 0 <= k < |steps| ==> Enabled(states[k], steps[k]) && states[k + 1] == Next(states[k], steps[k])
  }

  lemma {:induction false} RunsAreSafe(states: seq<State>, steps: seq<Step>, k: nat)
    requires IsRun(states, steps) && k < |states|
    ensures Inv(states[k])
  {
    hide Next, Enabled, ChanOk;
    if k == 0 {
    } else {
      RunsAreSafe(states, steps, k - 1);
      StepKeepsInv(states[k - 1], steps[k - 1]);
      assert states[k - 1 + 1] == Next(states[k - 1], steps[k - 1]);
    }
  }

  /** No publish of the run was cut short by a cancelled context. */
  ghost predicate Uncancelled(s: State, step: Step) {
    step.Publish? ==> forall id :: Target(s, id, step.event) ==> id in step.sent
  }

  lemma {:induction false} NothingMissed(states: seq<State>, steps: seq<Step>, k: nat)
    requires IsRun(states, steps) && k < |states|
    requires forall n :: 0 <= n < |steps| ==> Uncancelled(states[n], steps[n])
    ensures forall i :: 0 <= i < |states[k].chans| ==> states[k].chans[i].missed == {}
  {
    if k == 0 {
    } else {
      NothingMissed(states, steps, k - 1);
      var s, step := states[k - 1], steps[k - 1];
      assert states[k - 1 + 1] == Next(s, step) && Enabled(s, step) && Uncancelled(s, step);
    }
  }

  /** The events of a range that match. */
  function Matching(c: Chan, events: seq<Event>): seq<Event> {
    if events == [] then []
    else
      var last := events[|events| - 1];
      Matching(c, events[..|events| - 1]) + if c.Matches(last) then [last] else []
  }

  lemma {:induction false} WantedIsMatching(c: Chan, published: seq<Event>, lo: nat, hi: nat)
    requires lo <= hi <= |published| && c.missed == {}
    ensures Wanted(c, published, lo, hi) == Matching(c, published[lo..hi])
    decreases hi
  {
    if hi <= lo {
    } else {
      WantedIsMatching(c, published, lo, hi - 1);
      assert published[lo..hi][..hi - 1 - lo] == published[lo..hi - 1];
    }
  }

  /** What a subscriber has consumed followed by what is buffered is the sequence of matching
      events published while it was subscribed, without exactly those that met a full buffer. */
  lemma Delivery(states: seq<State>, steps: seq<Step>, k: nat, i: nat)
    requires IsRun(states, steps) && k < |states| && i < |states[k].chans|
    requires forall n :: 0 <= n < |steps| ==> Uncancelled(states[n], steps[n])
    ensures var s := states[k]; var c := s.chans[i];
      && Offers(c.history) == Matching(c, WhileSubscribed(c, s.published))
      && c.consumed + c.buffer == Accepted(c.capacity, c.history)
      && |c.buffer| <= c.capacity
  {
    RunsAreSafe(states, steps, k);
    NothingMissed(states, steps, k);
    var c, published := states[k].chans[i], states[k].published;
    assert ChanOk(c, published);
    hide IsRun, Next, Enabled, Inv, Uncancelled;
    WantedIsMatching(c, published, c.joined, End(c, published));
    ReplayConserves(c.capacity, c.history);
  }

  // ---- What a subscriber asked for ----

  /** The events a subscriber to these types asked for: all of them when it named none. */
  function AskedFor(types: seq<string>, events: seq<Event>): seq<Event> {
    if events == [] then []
    else
      var last := events[|events| - 1];
      AskedFor(types, events[..|events| - 1]) + if types == [] || last.eventType in types then [last] else []
  }

  lemma NewSubscription(s: State, buffer: int, types: seq<string>)
    requires !s.closed
    ensures var t := Next(s, Subscribe(buffer, types));
      && |t.chans| == |s.chans| + 1 && t.chans[..|s.chans|] == s.chans && t.published == s.published
      && var c := t.chans[|s.chans|];
         && c.capacity == (if buffer <= 0 then 32 else buffer)
         && (forall e: Event :: c.Matches(e) <==> types == [] || e.eventType in types)
         && c.joined == |s.published| && c.buffer == c.consumed == [] && c.left == None
    ensures var t, id := Next(s, Subscribe(buffer, types)), |s.chans| + 1;
      && t.wildcards == (if types == [] then s.wildcards + {id} else s.wildcards)
      && t.subscribers == (if types == [] then s.subscribers else s.subscribers + {id})
  {
  }

  lemma ChannelsKeepTerms(s: State, step: Step, i: nat)
    requires Inv(s) && Enabled(s, step) && i < |s.chans|
    ensures i < |Next(s, step).chans|
    ensures var c, d := s.chans[i], Next(s, step).chans[i];
      d.types == c.types && d.capacity == c.capacity && d.joined == c.joined
  {
    hide ChanOk;
  }

  /** Over every run, the channel made by a subscription keeps the capacity asked for, 32 when not
      positive, and is for exactly the events of the types asked for. */
  lemma {:induction false} SubscriptionTerms(states: seq<State>, steps: seq<Step>, m: nat, n: nat,
                                             buffer: int, types: seq<string>)
    requires IsRun(states, steps) && m < n < |states| && steps[m] == Subscribe(buffer, types) && !states[m].closed
    ensures var i := |states[m].chans|;
      && i < |states[n].chans|
      && var c := states[n].chans[i];
         && c.capacity == (if buffer <= 0 then 32 else buffer) && c.joined == |states[m].published|
         && (forall e: Event :: c.Matches(e) <==> types == [] || e.eventType in types)
    decreases n
  {
    assert states[n - 1 + 1] == Next(states[n - 1], steps[n - 1]) && Enabled(states[n - 1], steps[n - 1]);
    if n == m + 1 {
      NewSubscription(states[m], buffer, types);
    } else {
      SubscriptionTerms(states, steps, m, n - 1, buffer, types);
      RunsAreSafe(states, steps, n - 1);
      hide Next, Enabled, Inv, IsRun;
      ChannelsKeepTerms(states[n - 1], steps[n - 1], |states[m].chans|);
    }
  }

  lemma {:induction false} MatchingIsAsked(c: Chan, types: seq<string>, events: seq<Event>)
    requires forall e: Event :: c.Matches(e) <==> types == [] || e.eventType in types
    ensures Matching(c, events) == AskedFor(types, events)
  {
    hide Chan.Matches;
    if events == [] {
    } else {
      MatchingIsAsked(c, types, events[..|events| - 1]);
    }
  }

  /** Delivery in the subscriber's terms: what it has consumed followed by what is buffered are the
      events of the types it asked for, published while it was subscribed, less those that met a full
      buffer of the size it asked for. */
  lemma DeliversWhatWasAsked(states: seq<State>, steps: seq<Step>, m: nat, n: nat, buffer: int, types: seq<string>)
    requires IsRun(states, steps) && m < n < |states| && steps[m] == Subscribe(buffer, types) && !states[m].closed
    requires forall k :: 0 <= k < |steps| ==> Uncancelled(states[k], steps[k])
    ensures var s, i, capacity := states[n], |states[m].chans|, if buffer <= 0 then 32 else buffer;
      && i < |s.chans|
      && var c := s.chans[i]; var end := if c.left.Some? then c.left.value else |s.published|;
         && |states[m].published| <= end <= |s.published|
         && Offers(c.history) == AskedFor(types, s.published[|states[m].published|..end])
         && c.consumed + c.buffer == Accepted(capacity, c.history) && |c.buffer| <= capacity
  {
    SubscriptionTerms(states, steps, m, n, buffer, types);
    var i := |states[m].chans|;
    RunsAreSafe(states, steps, n);
    assert ChanOk(states[n].chans[i], states[n].published);
    Delivery(states, steps, n, i);
    hide IsRun, Next, Enabled, Inv, Uncancelled, Offers, Accepted, Matching, Replay, Wanted;
    MatchingIsAsked(states[n].chans[i], types, WhileSubscribed(states[n].chans[i], states[n].published));
  }

  // ---- Sending after the lock is released ----

  predicate Closes(step: Step, id: nat) {
    step == Close || step == Unsubscribe(id)
  }

  /** A publisher picks its channels under the lock and sends after releasing it. Between the two,
      a picked channel gets closed exactly when some step closes the bus or that subscription, so
      the send is safe exactly when none does. */
  lemma {:induction false} ClosedExactlyByACloser(states: seq<State>, steps: seq<Step>, m: nat, n: nat, id: nat)
    requires IsRun(states, steps) && m <= n < |states|
    requires Active(states[m], id)
    ensures 1 <= id <= |states[n].chans|
    ensures states[n].chans[id - 1].left == None <==> forall k :: m <= k < n ==> !Closes(steps[k], id)
    decreases n
  {
    hide Next, Enabled, ChanOk;
    RunsAreSafe(states, steps, n);
    RunsAreSafe(states, steps, m);
    if m == n {
    } else {
      ClosedExactlyByACloser(states, steps, m, n - 1, id);
      RunsAreSafe(states, steps, n - 1);
      assert states[n - 1 + 1] == Next(states[n - 1], steps[n - 1]);
      LeavesByClosing(states[n - 1], steps[n - 1], id);
    }
  }

  lemma LeavesByClosing(s: State, step: Step, id: nat)
    requires Inv(s) && Enabled(s, step) && 1 <= id <= |s.chans|
    ensures id <= |Next(s, step).chans|
    ensures Next(s, step).chans[id - 1].left == None <==> s.chans[id - 1].left == None && !Closes(step, id)
  {
    hide ChanOk;
  }
}
