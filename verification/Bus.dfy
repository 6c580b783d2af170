/** The event bus: two tables of subscriptions over channels that are closed at most once. Each
    method is one step of the machine in BusModel. */
module Bus {
  import opened Wrappers
  import opened BusModel

  datatype BusError = BusClosed | InvalidEvent | SubscriptionMissing | ContextDone

  /** A buffered Go channel: sending to a closed one, or closing it twice, would panic. */
  class Channel {
    const capacity: nat
    var buffer: seq<Event>
    var closed: bool
    ghost const id: nat
    ghost const types: Option<set<string>>
    ghost const joined: nat
    ghost var left: Option<nat>
    ghost var consumed: seq<Event>
    ghost var history: seq<Action>
    ghost var missed: set<nat>

    constructor (capacity: nat, ghost id: nat, ghost types: Option<set<string>>, ghost joined: nat)
      ensures View() == Chan(capacity, types, joined, None, [], [], [], {})
      ensures this.id == id && !closed
    {
      this.capacity, buffer, closed := capacity, [], false;
      this.id, this.types, this.joined := id, types, joined;
      left, consumed, history, missed := None, [], [], {};
    }

    ghost function View(): Chan
      reads this
    {
      Chan(capacity, types, joined, left, buffer, consumed, history, missed)
    }

    /** A non-blocking send: a full buffer drops the event. */
    method Send(e: Event)
      requires !closed
      modifies this`buffer, this`history
      ensures View() == Offered(old(View()), e)
    {
      if |buffer| < capacity {
        buffer := buffer + [e];
      }
      history := history + [Offer(e)];
    }

    method Close(ghost now: nat)
      requires !closed
      modifies this`closed, this`left
      ensures closed && View() == CloseChan(old(View()), now)
    {
      closed := true;
      left := Some(now);
    }

    /** A receive that finds an event; it works on a closed channel too. */
    method Receive() returns (e: Event)
      requires buffer != []
      modifies this`buffer, this`consumed, this`history
      ensures e == old(buffer)[0] && View() == Received(old(View()))
    {
      e := buffer[0];
      buffer := buffer[1..];
      consumed := consumed + [e];
      history := history + [Take];
    }
  }

  datatype Subscription = Subscription(ch: Channel, types: Option<set<string>>) {
    predicate Matches(eventType: string) {
      types.None? || eventType in types.value
    }
  }

  // ---- Machine states part-way through a loop ----

  function SendSome(chans: seq<Chan>, ids: set<nat>, e: Event): (r: seq<Chan>)
    ensures |r| == |chans|
  {
    seq(|chans|, i requires 0 <= i < |chans| => if i + 1 in ids then Offered(chans[i], e) else chans[i])
  }

  function CloseSome(chans: seq<Chan>, ids: set<nat>, now: nat): (r: seq<Chan>)
    ensures |r| == |chans|
  {
    seq(|chans|, i requires 0 <= i < |chans| => if i + 1 in ids then CloseChan(chans[i], now) else chans[i])
  }

  function MarkMissed(chans: seq<Chan>, ids: set<nat>, n: nat): (r: seq<Chan>)
    ensures |r| == |chans|
  {
    seq(|chans|, i requires 0 <= i < |chans| =>
      if i + 1 in ids then chans[i].(missed := chans[i].missed + {n}) else chans[i])
  }

  lemma SendOneMore(chans: seq<Chan>, ids: set<nat>, id: nat, e: Event)
    requires 1 <= id <= |chans| && id !in ids
    ensures SendSome(chans, ids, e)[id - 1] == chans[id - 1]
    ensures SendSome(chans, ids + {id}, e) == SendSome(chans, ids, e)[id - 1 := Offered(chans[id - 1], e)]
  {
    hide Offered;
  }

  lemma CloseOneMore(chans: seq<Chan>, ids: set<nat>, id: nat, now: nat)
    requires 1 <= id <= |chans| && id !in ids
    ensures CloseSome(chans, ids, now)[id - 1] == chans[id - 1]
    ensures CloseSome(chans, ids + {id}, now) == CloseSome(chans, ids, now)[id - 1 := CloseChan(chans[id - 1], now)]
  {
    hide CloseChan;
  }

  lemma NothingYet(chans: seq<Chan>, e: Event, now: nat)
    ensures SendSome(chans, {}, e) == chans && CloseSome(chans, {}, now) == chans
  {
  }

  lemma PublishShape(s: State, e: Event, sent: set<nat>)
    requires Inv(s) && !s.closed && ValidEvent(e) && sent <= Targets(s, e)
    ensures Enabled(s, Publish(e, sent)) && Inv(Next(s, Publish(e, sent)))
    ensures Next(s, Publish(e, sent))
      == s.(chans := MarkMissed(SendSome(s.chans, sent, e), Targets(s, e) - sent, |s.published|),
            published := s.published + [e])
  {
    assert Enabled(s, Publish(e, sent));
    StepKeepsInv(s, Publish(e, sent));
    hide Inv, Offered;
    var shaped := MarkMissed(SendSome(s.chans, sent, e), Targets(s, e) - sent, |s.published|);
    forall i | 0 <= i < |s.chans|
      ensures AfterPublish(s, i + 1, e, sent) == shaped[i]
    {
      assert i + 1 in Targets(s, e) <==> Target(s, i + 1, e);
    }
    assert Next(s, Publish(e, sent)).chans == shaped;
  }

  lemma CloseShape(s: State)
    requires Inv(s)
    ensures Inv(Next(s, BusModel.Close))
    ensures Next(s, BusModel.Close)
      == State(true, {}, {}, CloseSome(s.chans, s.subscribers + s.wildcards, |s.published|), s.published)
  {
    StepKeepsInv(s, BusModel.Close);
    hide Inv;
    assert Next(s, BusModel.Close).chans == CloseSome(s.chans, s.subscribers + s.wildcards, |s.published|);
  }

  lemma SubscribeShape(s: State, buffer: int, types: seq<string>)
    requires Inv(s) && !s.closed
    ensures var id := |s.chans| + 1; var step := BusModel.Subscribe(buffer, types);
      && Inv(Next(s, step))
      && Next(s, step) == State(
           false, if types == [] then s.subscribers else s.subscribers + {id},
           if types == [] then s.wildcards + {id} else s.wildcards,
           s.chans + [Chan(Capacity(buffer), TypeSet(types), |s.published|, None, [], [], [], {})], s.published)
  {
    StepKeepsInv(s, BusModel.Subscribe(buffer, types));
  }

  lemma UnsubscribeShape(s: State, id: nat)
    requires Inv(s) && !s.closed && Active(s, id)
    ensures 1 <= id <= |s.chans| && Inv(Next(s, BusModel.Unsubscribe(id)))
    ensures Next(s, BusModel.Unsubscribe(id)) == State(
      false, s.subscribers - {id}, s.wildcards - {id},
      s.chans[id - 1 := CloseChan(s.chans[id - 1], |s.published|)], s.published)
  {
    StepKeepsInv(s, BusModel.Unsubscribe(id));
  }

  ghost predicate Holds(chans: seq<Channel>, id: nat, sub: Subscription) {
    1 <= id <= |chans| && sub.ch == chans[id - 1] && sub.types == chans[id - 1].types
  }

  ghost predicate TableHolds(table: map<nat, Subscription>, chans: seq<Channel>) {
    forall id :: id in table ==> Holds(chans, id, table[id])
  }

  lemma TableGrows(table: map<nat, Subscription>, chans: seq<Channel>, ch: Channel, sub: Subscription)
    requires TableHolds(table, chans) && sub.ch == ch && sub.types == ch.types
    ensures TableHolds(table, chans + [ch])
    ensures TableHolds(table[|chans| + 1 := sub], chans + [ch])
  {
    forall id | id in table
      ensures Holds(chans + [ch], id, table[id])
    {
      assert Holds(chans, id, table[id]);
    }
  }

  ghost function Ids(ids: seq<nat>): set<nat> {
    set id | id in ids
  }

  /** Distinct subscriptions with their ids. */
  ghost predicate Picked(chans: seq<Channel>, subs: seq<Subscription>, ids: seq<nat>) {
    && |subs| == |ids| && (forall i :: 0 <= i < |ids| ==> Holds(chans, ids[i], subs[i]))
    && forall i, j :: 0 <= i < j < |ids| ==> ids[i] != ids[j]
  }

  /** A loop over a table's keys: those seen and those pending. */
  ghost predicate Walked(all: set<nat>, pending: set<nat>, seen: set<nat>) {
    seen !! pending && seen + pending == all
  }

  lemma WalkStarts(all: set<nat>, done: set<nat>)
    ensures Walked(all, all, {}) && done + {} == done
  {
  }

  lemma WalkOn(all: set<nat>, pending: set<nat>, seen: set<nat>, id: nat)
    requires Walked(all, pending, seen) && id in pending
    ensures Walked(all, pending - {id}, seen + {id}) && id in all && id !in seen
  {
  }

  lemma AddedTo(done: set<nat>, seen: set<nat>, all: set<nat>, id: nat)
    requires all !! done && id in all && id !in seen
    ensures id !in done + seen && done + (seen + {id}) == done + seen + {id}
  {
  }

  lemma WalkEnds(all: set<nat>, seen: set<nat>)
    requires Walked(all, {}, seen)
    ensures seen == all
  {
  }

  /** The entries among `keys` that pass the filter. */
  ghost function Chosen(table: map<nat, Subscription>, keys: set<nat>, filter: Option<string>): (chosen: set<nat>)
    ensures chosen <= keys
  {
    set id | id in keys && id in table && (filter.None? || table[id].Matches(filter.value))
  }

  lemma ChooseOne(table: map<nat, Subscription>, keys: set<nat>, id: nat, filter: Option<string>)
    requires id in table
    ensures Chosen(table, keys + {id}, filter)
      == Chosen(table, keys, filter) + if filter.None? || table[id].Matches(filter.value) then {id} else {}
  {
  }

  lemma PickedNothing(chans: seq<Channel>)
    ensures Picked(chans, [], []) && Ids([]) == {}
  {
  }

  lemma SentIds(chans: seq<Channel>, subs: seq<Subscription>, ids: seq<nat>, n: nat)
    requires Picked(chans, subs, ids) && n <= |ids|
    ensures Ids(ids[..n]) <= Ids(ids) && (Ids(ids[..n]) == Ids(ids) <==> n == |ids|)
  {
    assert ids[..|ids|] == ids;
    if n < |ids| {
      assert ids[n] in Ids(ids) && ids[n] !in Ids(ids[..n]);
    }
  }

  lemma PickOne(chans: seq<Channel>, subs: seq<Subscription>, ids: seq<nat>, id: nat, sub: Subscription)
    requires Picked(chans, subs, ids) && Holds(chans, id, sub) && id !in Ids(ids)
    ensures Picked(chans, subs + [sub], ids + [id]) && Ids(ids + [id]) == Ids(ids) + {id}
  {
  }

  class EventBus {
    var closed: bool
    var nextSubID: nat
    var subscribers: map<nat, Subscription>
    var wildcards: map<nat, Subscription>
    ghost var chans: seq<Channel>
    ghost var published: seq<Event>

    /** The tables hold the open channels under their own ids. */
    ghost predicate Linked()
      reads this, chans
    {
      && nextSubID == |chans|
      && (forall i :: 0 <= i < |chans| ==> chans[i].id == i + 1 && (chans[i].closed <==> chans[i].left.Some?))
      && TableHolds(subscribers, chans) && TableHolds(wildcards, chans)
    }

    ghost function ChanStates(): (states: seq<Chan>)
      reads this, chans
      ensures |states| == |chans| && forall i :: 0 <= i < |chans| ==> states[i] == chans[i].View()
    {
      seq(|chans|, i requires 0 <= i < |chans| reads this, chans => chans[i].View())
    }

    ghost function View(): State
      reads this, chans
    {
      State(closed, subscribers.Keys, wildcards.Keys, ChanStates(), published)
    }

    ghost predicate Valid()
      reads this, chans
    {
      Linked() && Inv(View())
    }

    constructor ()
      ensures Valid() && View() == Initial()
    {
      closed, nextSubID, subscribers, wildcards := false, 0, map[], map[];
      chans, published := [], [];
    }

    lemma LinkedParts()
      requires Valid()
      ensures Linked() && nextSubID == |chans|
      ensures forall id :: id in subscribers ==> Holds(chans, id, subscribers[id]) && !chans[id - 1].closed
      ensures forall id :: id in wildcards ==> Holds(chans, id, wildcards[id]) && !chans[id - 1].closed
      ensures subscribers.Keys !! wildcards.Keys
      ensures forall id :: id in subscribers ==> 1 <= id <= |chans| && ChanStates()[id - 1].left == None
      ensures forall id :: id in wildcards ==> 1 <= id <= |chans| && ChanStates()[id - 1].left == None
    {
      hide ChanOk;
      assert forall i :: 0 <= i < |chans| ==> (View().chans[i].left == None <==> !chans[i].closed);
      forall id | id in subscribers
        ensures !chans[id - 1].closed
      {
        assert id in View().subscribers && id == (id - 1) + 1;
      }
      forall id | id in wildcards
        ensures !chans[id - 1].closed
      {
        assert id in View().wildcards && id == (id - 1) + 1;
      }
    }

    lemma LinkedChannels(id: nat)
      requires Linked()
      ensures id in subscribers ==> subscribers[id].ch in chans
      ensures id in wildcards ==> wildcards[id].ch in chans
    {
    }

    /** The locked region of a subscription on an open bus. */
    method Add(capacity: nat, typeSet: Option<set<string>>) returns (ch: Channel)
      requires Linked()
      modifies this`nextSubID, this`chans, this`subscribers, this`wildcards
      ensures Linked() && nextSubID == old(nextSubID) + 1
      ensures fresh(ch) && chans == old(chans) + [ch]
      ensures ChanStates() == old(ChanStates()) + [Chan(capacity, typeSet, |published|, None, [], [], [], {})]
      ensures subscribers.Keys == old(subscribers.Keys) + if typeSet.None? then {} else {nextSubID}
      ensures wildcards.Keys == old(wildcards.Keys) + if typeSet.None? then {nextSubID} else {}
    {
      hide ChanStates, Holds, TableHolds;
      ghost var before, was := ChanStates(), chans;
      nextSubID := nextSubID + 1;
      ch := new Channel(capacity, nextSubID, typeSet, |published|);
      chans := chans + [ch];
      var sub := Subscription(ch, typeSet);
      TableGrows(subscribers, was, ch, sub);
      TableGrows(wildcards, was, ch, sub);
      if typeSet.None? {
        wildcards := wildcards[nextSubID := sub];
      } else {
        subscribers := subscribers[nextSubID := sub];
      }
      assert ChanStates() == before + [ch.View()];
    }

    method SubscribeOpen(buffer: int, types: seq<string>) returns (ch: Channel)
      requires Valid() && !closed
      modifies this`nextSubID, this`chans, this`subscribers, this`wildcards
      ensures Valid() && nextSubID == old(nextSubID) + 1
      ensures View() == Next(old(View()), BusModel.Subscribe(buffer, types))
      ensures fresh(ch) && chans == old(chans) + [ch]
    {
      hide Inv, ChanStates, Next, Enabled, Linked, Capacity, Holds;
      ghost var before := View();
      SubscribeShape(before, buffer, types);
      LinkedParts();
      ch := Add(Capacity(buffer), TypeSet(types));
      assert subscribers.Keys == if types == [] then before.subscribers else before.subscribers + {nextSubID};
      assert wildcards.Keys == if types == [] then before.wildcards + {nextSubID} else before.wildcards;
    }

    /** A fresh id and channel; a closed bus refuses. */
    method Subscribe(buffer: int, types: seq<string>) returns (r: Result<(nat, Channel), BusError>)
      requires Valid()
      modifies this
      ensures Valid()
      ensures r.Ok? <==> !old(closed)
      ensures r.Err? ==> r.error == BusClosed && unchanged(this)
      ensures View() == Next(old(View()), BusModel.Subscribe(buffer, types))
      ensures r.Ok? ==> r.value.0 == old(nextSubID) + 1 && fresh(r.value.1) && chans == old(chans) + [r.value.1]
      ensures r.Ok? ==>
        var c := r.value.1.View();
        && c.capacity == (if buffer <= 0 then 32 else buffer) && c.buffer == []
        && forall e: Event :: c.Matches(e) <==> types == [] || e.eventType in types
      ensures r.Ok? ==> if types == [] then r.value.0 in wildcards else r.value.0 in subscribers
    {
      hide Inv, ChanStates, Linked, Holds;
      if closed {
        return Err(BusClosed);
      }
      ghost var before := View();
      NewSubscription(before, buffer, types);
      LinkedParts();
      assert nextSubID == |before.chans|;
      hide Next, Valid, Chan.Matches;
      var ch := SubscribeOpen(buffer, types);
      assert View().chans[|before.chans|] == ch.View();
      return Ok((nextSubID, ch));
    }

    method CloseOne(id: nat, sub: Subscription)
      requires Linked() && Holds(chans, id, sub) && !chans[id - 1].closed
      modifies sub.ch
      ensures Linked()
      ensures ChanStates() == old(ChanStates())[id - 1 := CloseChan(old(ChanStates())[id - 1], |published|)]
      ensures forall i :: 0 <= i < |chans| && i != id - 1 ==> chans[i].closed == old(chans[i].closed)
    {
      ghost var before := ChanStates();
      sub.ch.Close(|published|);
      assert ChanStates() == before[id - 1 := CloseChan(before[id - 1], |published|)];
    }

    method Drop(id: nat)
      requires Linked() && subscribers.Keys !! wildcards.Keys
      modifies this`subscribers, this`wildcards
      ensures Linked() && ChanStates() == old(ChanStates())
      ensures subscribers.Keys == old(subscribers.Keys) - {id} && wildcards.Keys == old(wildcards.Keys) - {id}
    {
      hide ChanStates;
      ghost var before := ChanStates();
      if id in subscribers {
        subscribers := subscribers - {id};
      } else {
        wildcards := wildcards - {id};
      }
      assert ChanStates() == before;
    }

    method UnsubscribeOpen(id: nat)
      requires Valid() && !closed && (id in subscribers || id in wildcards)
      modifies this`subscribers, this`wildcards, chans
      ensures Valid()
      ensures View() == Next(old(View()), BusModel.Unsubscribe(id))
    {
      hide Inv, ChanStates, Next, Enabled, Holds;
      UnsubscribeShape(View(), id);
      LinkedParts();
      var sub := if id in subscribers then subscribers[id] else wildcards[id];
      assert sub.ch in chans by {
        LinkedChannels(id);
      }
      hide Linked;
      CloseOne(id, sub);
      Drop(id);
    }

    /** Closes the one channel, once. */
    method Unsubscribe(id: nat) returns (error: Option<BusError>)
      requires Valid()
      modifies this, chans
      ensures Valid() && chans == old(chans)
      ensures View() == Next(old(View()), BusModel.Unsubscribe(id))
      ensures error == (if old(closed) then Some(BusClosed)
                        else if id in old(subscribers) || id in old(wildcards) then None else Some(SubscriptionMissing))
    {
      hide Inv, ChanStates, Linked, Holds;
      if closed {
        return Some(BusClosed);
      }
      if id !in subscribers && id !in wildcards {
        return Some(SubscriptionMissing);
      }
      hide Next, Valid;
      UnsubscribeOpen(id);
      return None;
    }

    lemma StillOpen(table: map<nat, Subscription>, id: nat)
      requires Linked() && TableHolds(table, chans) && id in table
      ensures Holds(chans, id, table[id]) && table[id].ch in chans
      ensures ChanStates()[id - 1].left == None ==> !chans[id - 1].closed
    {
      assert Holds(chans, id, table[id]);
    }

    /** Closes the channel of one entry of a table. */
    method CloseEntry(table: map<nat, Subscription>, id: nat, ghost before: seq<Chan>, ghost done: set<nat>)
      requires Linked() && TableHolds(table, chans) && id in table && id !in done
      requires |before| == |chans| && 1 <= id <= |before| && before[id - 1].left == None
      requires ChanStates() == CloseSome(before, done, |published|)
      modifies chans
      ensures Linked() && ChanStates() == CloseSome(before, done + {id}, |published|)
    {
      hide ChanStates, CloseSome, CloseChan, Linked, Holds, TableHolds;
      CloseOneMore(before, done, id, |published|);
      StillOpen(table, id);
      CloseOne(id, table[id]);
    }

    /** Closes the channel of every entry of a table. */
    method CloseEach(table: map<nat, Subscription>, ghost before: seq<Chan>, ghost done: set<nat>)
      requires Linked() && TableHolds(table, chans) && table.Keys !! done
      requires |before| == |chans| && forall id :: id in table ==> 1 <= id <= |before| && before[id - 1].left == None
      requires ChanStates() == CloseSome(before, done, |published|)
      modifies chans
      ensures Linked() && ChanStates() == CloseSome(before, done + table.Keys, |published|)
    {
      hide ChanStates, CloseSome, CloseChan, Linked, Holds, TableHolds, Walked;
      var pending := table.Keys;
      ghost var seen: set<nat> := {};
      WalkStarts(table.Keys, done);
      while pending != {}
        invariant unchanged(this) && Linked()
        invariant Walked(table.Keys, pending, seen)
        invariant ChanStates() == CloseSome(before, done + seen, |published|)
        decreases pending
      {
        var id :| id in pending;
        WalkOn(table.Keys, pending, seen, id);
        AddedTo(done, seen, table.Keys, id);
        CloseEntry(table, id, before, done + seen);
        pending, seen := pending - {id}, seen + {id};
      }
      WalkEnds(table.Keys, seen);
    }

    method CloseOpen()
      requires Valid() && !closed
      modifies this`closed, this`subscribers, this`wildcards, chans
      ensures Valid() && View() == Next(old(View()), BusModel.Close)
    {
      hide Inv, ChanStates, Next, Enabled, CloseSome, Holds, TableHolds;
      ghost var before := ChanStates();
      CloseShape(View());
      LinkedParts();
      NothingYet(before, Event("", "", "", None), |published|);
      CloseEach(subscribers, before, {});
      CloseEach(wildcards, before, {} + subscribers.Keys);
      assert {} + subscribers.Keys + wildcards.Keys == subscribers.Keys + wildcards.Keys;
      ClearTables();
      assert subscribers.Keys == {} && wildcards.Keys == {};
    }

    method ClearTables()
      requires Linked()
      modifies this`closed, this`subscribers, this`wildcards
      ensures Linked() && ChanStates() == old(ChanStates())
      ensures closed && subscribers == map[] && wildcards == map[]
    {
      hide ChanStates;
      ghost var before := ChanStates();
      closed, subscribers, wildcards := true, map[], map[];
      assert ChanStates() == before;
    }

    /** Closes every open channel, each once; closing again does nothing. */
    method Close()
      requires Valid()
      modifies this, chans
      ensures Valid() && closed && chans == old(chans)
      ensures !old(closed) ==> View() == Next(old(View()), BusModel.Close)
      ensures old(closed) ==> View() == old(View())
    {
      hide Inv, ChanStates, Linked;
      if closed {
        return;
      }
      hide Next;
      CloseOpen();
    }

    /** A consumer's receive. */
    method Receive(ch: Channel) returns (e: Event)
      requires Valid() && ch in chans && ch.buffer != []
      modifies ch
      ensures Valid() && e == old(ch.buffer)[0]
      ensures View() == Next(old(View()), BusModel.Receive(ch.id))
    {
      hide Inv, ChanStates, Received;
      ghost var before := View();
      assert before.chans[ch.id - 1] == ch.View();
      StepKeepsInv(before, BusModel.Receive(ch.id));
      e := ch.Receive();
      assert ChanStates() == before.chans[ch.id - 1 := Received(before.chans[ch.id - 1])];
    }

    // ---- Publishing ----

    /** The snapshot taken under the read lock: every wildcard, then every matching subscriber. */
    method Snapshot(e: Event) returns (subs: seq<Subscription>, ghost ids: seq<nat>)
      requires TableHolds(subscribers, chans) && TableHolds(wildcards, chans) && subscribers.Keys !! wildcards.Keys
      ensures Picked(chans, subs, ids)
      ensures Ids(ids)
        == Chosen(wildcards, wildcards.Keys, None) + Chosen(subscribers, subscribers.Keys, Some(e.eventType))
    {
      hide Picked, Ids;
      PickedNothing(chans);
      subs, ids := [], [];
      subs, ids := PickAll(wildcards, None, subs, ids);
      subs, ids := PickAll(subscribers, Some(e.eventType), subs, ids);
    }

    /** Appends the entries of a table, all of them or those that match an event type. */
    method PickAll(table: map<nat, Subscription>, filter: Option<string>, before: seq<Subscription>,
                   ghost idsBefore: seq<nat>)
      returns (subs: seq<Subscription>, ghost ids: seq<nat>)
      requires TableHolds(table, chans) && Picked(chans, before, idsBefore) && table.Keys !! Ids(idsBefore)
      ensures Picked(chans, subs, ids)
      ensures Ids(ids) == Ids(idsBefore) + Chosen(table, table.Keys, filter)
    {
      subs, ids := before, idsBefore;
      var pending := table.Keys;
      ghost var seen: set<nat> := {};
      assert Chosen(table, seen, filter) == {};
      assert Walked(table.Keys, pending, seen);
      hide Picked, Ids, Chosen, Holds, Subscription.Matches, Walked;
      while pending != {}
        invariant Walked(table.Keys, pending, seen)
        invariant Picked(chans, subs, ids)
        invariant Ids(ids) == Ids(idsBefore) + Chosen(table, seen, filter)
        decreases pending
      {
        var id :| id in pending;
        WalkOn(table.Keys, pending, seen, id);
        ChooseOne(table, seen, id, filter);
        assert Holds(chans, id, table[id]);
        if filter.None? || table[id].Matches(filter.value) {
          PickOne(chans, subs, ids, id, table[id]);
          subs, ids := subs + [table[id]], ids + [id];
        }
        pending, seen := pending - {id}, seen + {id};
      }
      WalkEnds(table.Keys, seen);
    }

    lemma TargetsByTable(e: Event)
      requires Valid()
      ensures Targets(View(), e)
        == Chosen(wildcards, wildcards.Keys, None) + Chosen(subscribers, subscribers.Keys, Some(e.eventType))
    {
      LinkedParts();
      var s := View();
      assert forall id :: id in wildcards ==> id in s.wildcards && s.chans[id - 1].types == None by {
        hide ChanOk;
        forall id | id in wildcards
          ensures s.chans[id - 1].types == None
        {
          assert (id - 1) + 1 in s.wildcards;
        }
      }
      hide Inv, ChanStates, Linked, Valid;
    }

    method SendOne(ghost id: nat, sub: Subscription, e: Event, ghost before: seq<Chan>, ghost done: set<nat>)
      requires Linked() && Holds(chans, id, sub) && !sub.ch.closed && id !in done
      requires |before| == |chans| && ChanStates() == SendSome(before, done, e)
      modifies sub.ch`buffer, sub.ch`history
      ensures Linked() && ChanStates() == SendSome(before, done + {id}, e)
    {
      SendOneMore(before, done, id, e);
      hide SendSome, Offered;
      ghost var states := ChanStates();
      sub.ch.Send(e);
      assert ChanStates() == states[id - 1 := Offered(states[id - 1], e)];
    }

    /** The sends after the lock is released. A context that may be cancelled can be so before any of
        them, and then may end them at an open buffer and does end them at a full one. */
    method SendAll(subs: seq<Subscription>, ghost ids: seq<nat>, e: Event, cancellable: bool, ghost before: seq<Chan>)
      returns (n: nat)
      requires Linked() && Picked(chans, subs, ids) && ChanStates() == before
      requires forall i :: 0 <= i < |subs| ==> 1 <= ids[i] <= |before| && before[ids[i] - 1].left == None
      modifies chans
      ensures n <= |subs| && (!cancellable ==> n == |subs|)
      ensures Linked() && ChanStates() == SendSome(before, Ids(ids[..n]), e)
    {
      hide ChanStates, SendSome, Linked, Holds, Ids, Picked;
      NothingYet(before, e, 0);
      PickedNothing(chans);
      PickedAlike(subs, ids);
      n := 0;
      var cancelled := false;
      assert ids[..n] == [];
      while n < |subs|
        invariant unchanged(this) && Linked() && n <= |subs| == |ids|
        invariant ChanStates() == SendSome(before, Ids(ids[..n]), e)
        invariant cancelled ==> cancellable
      {
        SendReady(subs, ids, n, before, e);
        var nowDone: bool := *;
        cancelled := cancelled || (cancellable && nowDone);
        if cancelled {
          var doneFirst: bool := *;
          if doneFirst || |subs[n].ch.buffer| >= subs[n].ch.capacity {
            return;
          }
        }
        SendOne(ids[n], subs[n], e, before, Ids(ids[..n]));
        n := n + 1;
      }
      assert ids[..n] == ids;
    }

    lemma PickedAlike(subs: seq<Subscription>, ids: seq<nat>)
      requires Picked(chans, subs, ids)
      ensures |ids| == |subs|
    {
    }

    lemma SendReady(subs: seq<Subscription>, ids: seq<nat>, n: nat, before: seq<Chan>, e: Event)
      requires Linked() && Picked(chans, subs, ids) && n < |subs|
      requires 1 <= ids[n] <= |before| && before[ids[n] - 1].left == None
      requires |before| == |chans| && ChanStates() == SendSome(before, Ids(ids[..n]), e)
      ensures Holds(chans, ids[n], subs[n]) && subs[n].ch in chans && !subs[n].ch.closed
      ensures ids[n] !in Ids(ids[..n]) && Ids(ids[..n + 1]) == Ids(ids[..n]) + {ids[n]}
    {
      assert Holds(chans, ids[n], subs[n]);
      assert ids[..n + 1] == ids[..n] + [ids[n]];
      SendOneMore(before, Ids(ids[..n]), ids[n], e);
      assert ChanStates()[ids[n] - 1] == chans[ids[n] - 1].View();
    }

    /** History only: the publish is recorded, and the channels it did not reach note so. */
    ghost method Record(e: Event, unreached: set<nat>)
      requires Linked()
      modifies this`published, chans
      ensures Linked() && published == old(published) + [e]
      ensures ChanStates() == MarkMissed(old(ChanStates()), unreached, |old(published)|)
    {
      var before, n := ChanStates(), |published|;
      published := published + [e];
      forall c | c in chans && c.id in unreached {
        c.missed := c.missed + {n};
      }
      assert ChanStates() == MarkMissed(before, unreached, n);
    }

    method PublishOpen(e: Event, cancellable: bool) returns (complete: bool, ghost sent: set<nat>)
      requires Valid() && !closed && ValidEvent(e)
      modifies this`published, chans
      ensures Valid() && sent <= Targets(old(View()), e)
      ensures View() == Next(old(View()), BusModel.Publish(e, sent))
      ensures complete <==> sent == Targets(old(View()), e)
      ensures !cancellable ==> complete
    {
      hide Inv, ChanStates, Next, Enabled, SendSome, MarkMissed, Holds, TableHolds, Ids, Picked, Chosen, ChanOk,
        Targets;
      ghost var before := View();
      LinkedParts();
      TargetsByTable(e);
      var subs, ids := Snapshot(e);
      PickedAreOpen(subs, ids);
      var n := SendAll(subs, ids, e, cancellable, before.chans);
      sent := Ids(ids[..n]);
      SentIds(chans, subs, ids, n);
      PublishShape(before, e, sent);
      Record(e, Targets(before, e) - sent);
      complete := n == |subs|;
    }

    lemma PickedAreOpen(subs: seq<Subscription>, ids: seq<nat>)
      requires Valid() && Picked(chans, subs, ids)
      requires Ids(ids) <= wildcards.Keys + subscribers.Keys
      ensures |ids| == |subs| && forall i :: 0 <= i < |ids| ==>
        1 <= ids[i] <= |chans| && ChanStates()[ids[i] - 1].left == None
    {
      LinkedParts();
      forall i | 0 <= i < |ids|
        ensures 1 <= ids[i] <= |chans| && ChanStates()[ids[i] - 1].left == None
      {
        assert ids[i] in Ids(ids);
      }
    }

    /** Offers the event to every wildcard and matching subscriber, without blocking. Only a
        context cancelled by then can leave some of them out. */
    method Publish(e: Event, cancellable: bool) returns (error: Option<BusError>, ghost sent: set<nat>)
      requires Valid()
      modifies this`published, chans
      ensures Valid()
      ensures error == Some(InvalidEvent) <==> e.eventType == "" || e.timestamp.None?
      ensures error == Some(BusClosed) <==> e.eventType != "" && e.timestamp.Some? && old(closed)
      ensures error == Some(InvalidEvent) || error == Some(BusClosed) ==> View() == old(View())
      ensures error == None || error == Some(ContextDone) ==>
        sent <= Targets(old(View()), e) && View() == Next(old(View()), BusModel.Publish(e, sent))
      ensures error == None ==> sent == Targets(old(View()), e)
      ensures error != Some(SubscriptionMissing) && (error == Some(ContextDone) ==> cancellable)
    {
      hide Valid, Next, Targets, Enabled;
      sent := {};
      if !ValidEvent(e) {
        return Some(InvalidEvent), sent;
      }
      if closed {
        return Some(BusClosed), sent;
      }
      var complete;
      complete, sent := PublishOpen(e, cancellable);
      return if complete then None else Some(ContextDone), sent;
    }
  }
}
