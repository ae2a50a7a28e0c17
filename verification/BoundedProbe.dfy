/**
 * A probe of a slow provider: one queued request, replies that may come late or never, and the
 * replacement of a provider that is stuck. The provider and the clock move between any two steps
 * of the client (src/bounded_probe.rs).
 */
module BoundedProbe {
  import opened Wrappers

  /** What is asked, and what a provider computes. */
  type Key(==, !new)
  type Value(!new)

  // ---------- the outside: clock, provider threads, channels ----------

  datatype Request = Request(key: Key, reply: nat)

  /** A provider thread with its one-slot queue; `alive` until its receiving end is dropped. */
  datatype Provider = Provider(alive: bool, slot: Option<Request>, working: Option<Request>)

  /** A reply channel of capacity one; `open` while somebody could still answer. */
  datatype Channel = Channel(value: Option<Value>, open: bool)

  /** `computed` lists, in order, what was computed for which request and key. */
  datatype World = World(
    clock: nat,
    providers: seq<Provider>,
    channels: seq<Channel>,
    computed: seq<(nat, Key, Value)>)

  function Closed(channels: seq<Channel>, r: Option<Request>): (c: seq<Channel>)
    ensures |c| == |channels|
  {
    if r.Some? && r.value.reply < |channels| then channels[r.value.reply := channels[r.value.reply].(open := false)]
    else channels
  }

  ghost predicate Ticks(a: World, b: World)
  {
    a.clock <= b.clock && b == a.(clock := b.clock)
  }

  /** A provider takes the queued request when it has finished the one before. */
  ghost predicate Takes(a: World, b: World, p: nat)
  {
    && p < |a.providers| && a.providers[p].alive && a.providers[p].slot.Some? && a.providers[p].working.None?
    && b == a.(providers := a.providers[p := Provider(true, None, a.providers[p].slot)])
  }

  /** A provider answers: any value, for the key of the request it works on. */
  ghost predicate Answers(a: World, b: World, p: nat)
  {
    && p < |a.providers| && a.providers[p].alive && a.providers[p].working.Some?
    && var r := a.providers[p].working.value;
    && r.reply < |a.channels|
    && exists v: Value :: b == Answered(a, p, v)
  }

  function Answered(a: World, p: nat, v: Value): World
    requires p < |a.providers| && a.providers[p].working.Some?
    requires a.providers[p].working.value.reply < |a.channels|
  {
    var r := a.providers[p].working.value;
    a.(providers := a.providers[p := a.providers[p].(working := None)],
       channels := a.channels[r.reply := Channel(Some(v), false)],
       computed := a.computed + [(r.reply, r.key, v)])
  }

  /** A provider ends; whatever it held will never be answered. */
  ghost predicate Ends(a: World, b: World, p: nat)
  {
    && p < |a.providers| && a.providers[p].alive
    && b == a.(providers := a.providers[p := Provider(false, None, None)],
               channels := Closed(Closed(a.channels, a.providers[p].slot), a.providers[p].working))
  }

  ghost predicate OutsideStep(a: World, b: World)
  {
    Ticks(a, b) || exists p :: Takes(a, b, p) || Answers(a, b, p) || Ends(a, b, p)
  }

  ghost predicate Path(path: seq<World>)
  {
    |path| > 0 && forall i :: 0 <= i < |path| - 1 ==> OutsideStep(path[i], path[i + 1])
  }

  /** Any number of steps of the outside. */
  ghost predicate Outside(a: World, b: World)
  {
    exists path :: |path| > 0 && Path(path) && path[0] == a && path[|path| - 1] == b
  }

  // ---------- what the outside can never break ----------

  /** The key and the time of every request this probe ever submitted, by its reply channel. */
  type Submissions = map<nat, (Key, nat)>

  ghost predicate RequestKnown(r: Option<Request>, channels: nat, s: Submissions)
  {
    r.Some? ==> r.value.reply < channels && r.value.reply in s && s[r.value.reply].0 == r.value.key
  }

  ghost predicate ProviderKnown(p: Provider, channels: nat, s: Submissions)
  {
    RequestKnown(p.slot, channels, s) && RequestKnown(p.working, channels, s)
  }

  /** Every waiting answer was computed for the key of the request it answers. */
  ghost predicate AnswerKnown(w: World, id: nat, s: Submissions)
    requires id < |w.channels|
  {
    w.channels[id].value.Some? ==>
      id in s && (id, s[id].0, w.channels[id].value.value) in w.computed
  }

  ghost predicate Attributed(w: World, s: Submissions)
  {
    && (forall p :: 0 <= p < |w.providers| ==> ProviderKnown(w.providers[p], |w.channels|, s))
    && (forall id :: 0 <= id < |w.channels| ==> AnswerKnown(w, id, s))
  }

  /** What one or more outside steps leave of a world, as far as the probe cares. */
  ghost predicate Later(a: World, b: World)
  {
    && a.clock <= b.clock && |a.providers| <= |b.providers| && |a.channels| == |b.channels| && a.computed <= b.computed
    && (forall p :: 0 <= p < |a.providers| && a.providers[p].slot.None? ==> b.providers[p].slot.None?)
  }

  lemma TakeKeeps(a: World, b: World, p: nat, s: Submissions)
    requires Attributed(a, s) && Takes(a, b, p)
    ensures Attributed(b, s) && Later(a, b)
  {
    forall q | 0 <= q < |b.providers|
      ensures ProviderKnown(b.providers[q], |b.channels|, s)
    {
      assert ProviderKnown(a.providers[q], |a.channels|, s);
    }
    forall id | 0 <= id < |b.channels|
      ensures AnswerKnown(b, id, s)
    {
      assert AnswerKnown(a, id, s);
    }
  }

  lemma AnswerKeeps(a: World, b: World, p: nat, s: Submissions)
    requires Attributed(a, s) && Answers(a, b, p)
    ensures Attributed(b, s) && Later(a, b)
  {
    assert ProviderKnown(a.providers[p], |a.channels|, s);
    forall id | 0 <= id < |b.channels|
      ensures AnswerKnown(b, id, s)
    {
      assert AnswerKnown(a, id, s);
    }
    forall q | 0 <= q < |b.providers|
      ensures ProviderKnown(b.providers[q], |b.channels|, s)
    {
      assert ProviderKnown(a.providers[q], |a.channels|, s);
    }
  }

  lemma EndKeeps(a: World, b: World, p: nat, s: Submissions)
    requires Attributed(a, s) && Ends(a, b, p)
    ensures Attributed(b, s) && Later(a, b)
  {
    forall q | 0 <= q < |b.providers|
      ensures ProviderKnown(b.providers[q], |b.channels|, s)
    {
      assert ProviderKnown(a.providers[q], |a.channels|, s);
    }
    forall id | 0 <= id < |b.channels|
      ensures AnswerKnown(b, id, s)
    {
      assert AnswerKnown(a, id, s);
      assert b.channels[id].value == a.channels[id].value;
    }
  }

  lemma TickKeeps(a: World, b: World, s: Submissions)
    requires Attributed(a, s) && Ticks(a, b)
    ensures Attributed(b, s) && Later(a, b)
  {
    forall id | 0 <= id < |b.channels|
      ensures AnswerKnown(b, id, s)
    {
      assert AnswerKnown(a, id, s);
    }
  }

  lemma StepKeeps(a: World, b: World, s: Submissions)
    requires Attributed(a, s) && OutsideStep(a, b)
    ensures Attributed(b, s) && Later(a, b)
  {
    hide Attributed, Later, Ticks, Takes, Answers, Ends;
    if Ticks(a, b) {
      TickKeeps(a, b, s);
    } else {
      var p :| Takes(a, b, p) || Answers(a, b, p) || Ends(a, b, p);
      if Takes(a, b, p) {
        TakeKeeps(a, b, p, s);
      } else if Answers(a, b, p) {
        AnswerKeeps(a, b, p, s);
      } else {
        EndKeeps(a, b, p, s);
      }
    }
  }

  lemma {:induction false} PathKeeps(path: seq<World>, s: Submissions)
    requires Path(path) && Attributed(path[0], s)
    ensures Attributed(path[|path| - 1], s) && Later(path[0], path[|path| - 1])
  {
    hide OutsideStep, Attributed;
    if |path| > 1 {
      var n := |path| - 1;
      var before := path[..n];
      assert Path(before);
      PathKeeps(before, s);
      assert OutsideStep(path[n - 1], path[n]);
      StepKeeps(path[n - 1], path[n], s);
    }
  }

  lemma OutsideKeeps(a: World, b: World, s: Submissions)
    requires Outside(a, b) && Attributed(a, s)
    ensures Attributed(b, s) && Later(a, b)
  {
    hide Path, Attributed, Later;
    var path :| |path| > 0 && Path(path) && path[0] == a && path[|path| - 1] == b;
    PathKeeps(path, s);
  }

  lemma OneStep(a: World, b: World)
    requires OutsideStep(a, b)
    ensures Outside(a, b)
  {
    var path := [a, b];
    assert Path(path) && path[0] == a && path[|path| - 1] == b;
  }

  lemma OutsideJoins(a: World, b: World, c: World)
    requires Outside(a, b) && Outside(b, c)
    ensures Outside(a, c)
  {
    var p :| |p| > 0 && Path(p) && p[0] == a && p[|p| - 1] == b;
    var q :| |q| > 0 && Path(q) && q[0] == b && q[|q| - 1] == c;
    var path := p + q[1..];
    forall i | 0 <= i < |path| - 1
      ensures OutsideStep(path[i], path[i + 1])
    {
      if i < |p| - 1 {
        assert path[i] == p[i] && path[i + 1] == p[i + 1];
      } else {
        assert path[i] == q[i - (|p| - 1)] && path[i + 1] == q[i + 1 - (|p| - 1)];
      }
    }
    assert path[0] == a && path[|path| - 1] == c;
  }

  lemma OutsideStays(a: World)
    ensures Outside(a, a)
  {
    var path := [a];
    assert Path(path) && path[0] == a && path[|path| - 1] == a;
  }

  lemma {:induction false} PathClock(path: seq<World>)
    requires Path(path)
    ensures path[0].clock <= path[|path| - 1].clock
  {
    if |path| > 1 {
      var n := |path| - 1;
      assert Path(path[..n]);
      PathClock(path[..n]);
      assert OutsideStep(path[n - 1], path[n]);
    }
  }

  /** The outside never turns the clock back. */
  lemma OutsideClock(a: World, b: World)
    requires Outside(a, b)
    ensures a.clock <= b.clock
  {
    hide Path;
    var path :| |path| > 0 && Path(path) && path[0] == a && path[|path| - 1] == b;
    PathClock(path);
  }

  /** The shared outside; `Interfere` stands for whatever happens between two steps of the client. */
  class Platform {
    var world: World

    constructor ()
      ensures world == World(0, [], [], [])
    {
      world := World(0, [], [], []);
    }

    method Interfere()
      modifies this
      ensures Outside(old(world), world)
    {
      OutsideStays(world);
    }
  }

  // ---------- the probe ----------

  datatype ProbeFailure = Timeout | Busy | Disconnected | Expired

  datatype Pending = Pending(key: Key, started: nat, reply: nat)

  datatype Healing = Healing(stuckAfter: nat, remaining: nat, busySince: Option<nat>)

  /** What the probe experienced, in order. */
  datatype Event = SeenFull(at: nat) | Accepted(at: nat) | Received(at: nat) | Replaced(at: nat)

  /** The client's own steps: a request enters the free slot of a living provider and gets the next channel. */
  ghost predicate Accepts(a: World, b: World, p: nat, key: Key, reply: nat)
  {
    && p < |a.providers| && a.providers[p].alive && a.providers[p].slot.None? && reply == |a.channels|
    && b == a.(providers := a.providers[p := a.providers[p].(slot := Some(Request(key, reply)))],
               channels := a.channels + [Channel(None, true)])
  }

  /** A waiting answer is taken out of its channel. */
  ghost predicate Receives(a: World, b: World, reply: nat, value: Value)
  {
    && reply < |a.channels| && a.channels[reply].value == Some(value)
    && b == a.(channels := a.channels[reply := a.channels[reply].(value := None)])
  }

  /** How a request was submitted: the worlds before, right after it was accepted, and at its stamp. */
  datatype Sent = Sent(sender: nat, before: World, sent: World, stamped: World)

  ghost predicate Submits(s: Sent, key: Key, reply: nat, submittedAt: nat, started: nat)
  {
    && Accepts(s.before, s.sent, s.sender, key, reply) && s.sent.clock == submittedAt
    && Outside(s.sent, s.stamped) && s.stamped.clock == started
  }

  /** The further way of its answer: the worlds when it is received, right after, and at the check of its age. */
  datatype Arrival = Arrival(arrived: World, taken: World, checked: World)

  /** An answer handed out: which request it answered, its stamp, when its age was checked, and its whole way. */
  datatype Delivery = Delivery(
    reply: nat,
    key: Key,
    value: Value,
    submittedAt: nat,
    started: nat,
    checkedAt: nat,
    maxAge: nat,
    request: Sent,
    arrival: Arrival)

  /** Whether an answer stamped at `started` may be handed out at `checkedAt`. */
  predicate Fresh(started: nat, checkedAt: nat, maxAge: nat)
  {
    started <= checkedAt && checkedAt - started < maxAge
  }

  /** The steps by which the probe hands out an answer, with the outside moving freely between them. */
  ghost predicate HandedOut(d: Delivery)
  {
    && Submits(d.request, d.key, d.reply, d.submittedAt, d.started)
    && Outside(d.request.stamped, d.arrival.arrived)
    && Receives(d.arrival.arrived, d.arrival.taken, d.reply, d.value)
    && Outside(d.arrival.taken, d.arrival.checked) && d.arrival.checked.clock == d.checkedAt
    && Fresh(d.started, d.checkedAt, d.maxAge)
  }

  /**
   * What a request that is awaited comes to, by what its channel holds when the wait ends and by the world in
   * which the age is checked: an answer that is fresh is handed out, whoever sent it and however late.
   */
  ghost predicate Outcome(p: Pending, maxAge: nat, arrived: World, checked: World, r: Result<Value, ProbeFailure>)
  {
    && p.reply < |arrived.channels| && arrived.clock <= checked.clock
    && var channel := arrived.channels[p.reply];
    && (channel.value.Some? && Fresh(p.started, checked.clock, maxAge) ==> r == Ok(channel.value.value))
    && (channel.value.Some? && !Fresh(p.started, checked.clock, maxAge) ==> r == Err(Expired))
    && (channel.value.None? ==> r == Err(if channel.open then Timeout else Disconnected))
  }

  /** A full queue was seen at or before `bound`, and nothing was accepted, answered or replaced since. */
  ghost predicate FullSince(log: seq<Event>, bound: nat)
  {
    exists i :: 0 <= i < |log| && log[i].SeenFull? && log[i].at <= bound
      && forall k :: i < k < |log| ==> log[k].SeenFull?
  }

  lemma FullExtends(log: seq<Event>, bound: nat, at: nat)
    requires FullSince(log, bound)
    ensures FullSince(log + [SeenFull(at)], bound)
  {
    var i :| 0 <= i < |log| && log[i].SeenFull? && log[i].at <= bound
      && forall k :: i < k < |log| ==> log[k].SeenFull?;
    var more := log + [SeenFull(at)];
    assert more[i] == log[i];
  }

  lemma JustifiedExtends(log: seq<Event>, e: Event, stuckAfter: nat)
    requires Justified(log, stuckAfter)
    requires e.Replaced? ==> stuckAfter <= e.at && FullSince(log, e.at - stuckAfter)
    ensures Justified(log + [e], stuckAfter)
  {
    hide FullSince;
    var more := log + [e];
    forall k | 0 <= k < |more| && more[k].Replaced?
      ensures stuckAfter <= more[k].at && FullSince(more[..k], more[k].at - stuckAfter)
    {
      if k < |log| { assert more[..k] == log[..k]; } else { assert more[..k] == log; }
    }
  }

  /** Every replacement had, before it, a queue full for long enough with no sign of life since. */
  ghost predicate Justified(log: seq<Event>, stuckAfter: nat)
  {
    forall k :: 0 <= k < |log| && log[k].Replaced? ==>
      stuckAfter <= log[k].at && FullSince(log[..k], log[k].at - stuckAfter)
  }

  ghost function Replacements(log: seq<Event>): nat
  {
    if log == [] then 0
    else Replacements(log[..|log| - 1]) + if log[|log| - 1].Replaced? then 1 else 0
  }

  lemma ReplacementsExtend(log: seq<Event>, e: Event)
    ensures Replacements(log + [e]) == Replacements(log) + if e.Replaced? then 1 else 0
  {
    assert (log + [e])[..|log|] == log;
  }

  /** The healing state agrees with the log: every respawn is there, justified, and within the bound. */
  ghost predicate HealingOk(h: Option<Healing>, respawns: nat, max: nat, log: seq<Event>, clock: nat)
  {
    && Replacements(log) == respawns
    && (h.None? ==> respawns == 0)
    && (h.Some? ==> h.value.remaining + respawns == max && Justified(log, h.value.stuckAfter))
    && (h.Some? && h.value.busySince.Some? ==>
          h.value.busySince.value <= clock && FullSince(log, h.value.busySince.value))
  }

  function Alive(h: Option<Healing>): Option<Healing> {
    if h.Some? then Some(h.value.(busySince := None)) else None
  }

  lemma HealingAlive(h: Option<Healing>, respawns: nat, max: nat, log: seq<Event>, clock: nat, e: Event)
    requires HealingOk(h, respawns, max, log, clock) && !e.Replaced?
    ensures HealingOk(Alive(h), respawns, max, log + [e], clock)
  {
    hide FullSince;
    ReplacementsExtend(log, e);
    if h.Some? { JustifiedExtends(log, e, h.value.stuckAfter); }
  }

  lemma HealingFull(h: Option<Healing>, respawns: nat, max: nat, log: seq<Event>, clock: nat)
    requires HealingOk(h, respawns, max, log, clock)
    ensures HealingOk(h, respawns, max, log + [SeenFull(clock)], clock)
  {
    hide FullSince;
    ReplacementsExtend(log, SeenFull(clock));
    if h.Some? {
      JustifiedExtends(log, SeenFull(clock), h.value.stuckAfter);
      if h.value.busySince.Some? { FullExtends(log, h.value.busySince.value, clock); }
    }
  }

  lemma HealingReplaced(h: Healing, respawns: nat, max: nat, log: seq<Event>, clock: nat)
    requires HealingOk(Some(h), respawns, max, log, clock) && h.remaining > 0 && h.busySince.Some?
    requires clock - h.busySince.value >= h.stuckAfter
    ensures HealingOk(Some(h.(remaining := h.remaining - 1, busySince := None)), respawns + 1, max,
      log + [Replaced(clock)], clock)
  {
    hide FullSince;
    ReplacementsExtend(log, Replaced(clock));
    FullEarlier(log, h.busySince.value, clock - h.stuckAfter);
    JustifiedExtends(log, Replaced(clock), h.stuckAfter);
  }

  lemma FullEarlier(log: seq<Event>, since: nat, bound: nat)
    requires FullSince(log, since) && since <= bound
    ensures FullSince(log, bound)
  {
    var i :| 0 <= i < |log| && log[i].SeenFull? && log[i].at <= since
      && forall k :: i < k < |log| ==> log[k].SeenFull?;
    assert log[i].at <= bound;
  }

  /** An answer that was handed out by these steps, computed for the key of a request of this probe. */
  ghost predicate GoodDelivery(d: Delivery, computed: seq<(nat, Key, Value)>, s: Submissions)
  {
    && d.reply in s && s[d.reply] == (d.key, d.submittedAt)
    && (d.reply, d.key, d.value) in computed
    && HandedOut(d)
  }

  /** Every delivery so far was right, and no submission was answered twice. */
  ghost predicate Booked(w: World, s: Submissions, delivered: set<nat>, deliveries: seq<Delivery>)
  {
    && (forall id :: id in s ==> id < |w.channels|)
    && (forall id :: id in delivered ==> id in s)
    && (forall d :: d in deliveries ==> d.reply in delivered && GoodDelivery(d, w.computed, s))
    && (forall i, j :: 0 <= i < j < |deliveries| ==> deliveries[i].reply != deliveries[j].reply)
  }

  lemma BookedLater(a: World, b: World, s: Submissions, delivered: set<nat>,
                          deliveries: seq<Delivery>)
    requires Booked(a, s, delivered, deliveries) && Later(a, b)
    ensures Booked(b, s, delivered, deliveries)
  {
    forall d | d in deliveries
      ensures GoodDelivery(d, b.computed, s)
    {
      hide HandedOut;
      assert GoodDelivery(d, a.computed, s);
    }
  }

  lemma DeliverOnce(w: World, s: Submissions, delivered: set<nat>, deliveries: seq<Delivery>,
                          d: Delivery)
    requires Booked(w, s, delivered, deliveries) && GoodDelivery(d, w.computed, s) && d.reply in delivered
    requires forall e :: e in deliveries ==> e.reply != d.reply
    ensures Booked(w, s, delivered, deliveries + [d])
  {
    hide GoodDelivery;
  }

  class BoundedProbe {
    const platform: Platform
    var sender: nat
    var pending: Option<Pending>
    var healing: Option<Healing>
    var respawns: nat

    ghost const maxRespawns: nat
    ghost var submitted: Submissions
    ghost var delivered: set<nat>
    ghost var log: seq<Event>
    ghost var deliveries: seq<Delivery>
    ghost var waiting: Option<Sent>

    ghost predicate Valid()
      reads this, platform
    {
      && sender < |platform.world.providers|
      && Attributed(platform.world, submitted)
      && Booked(platform.world, submitted, delivered, deliveries)
      && (pending.Some? ==> waiting.Some? && PendingOk(pending.value, waiting.value))
      && HealingOk(healing, respawns, maxRespawns, log, platform.world.clock)
    }

    /** A pending request is one of ours, not answered yet; only the outside moved since it was stamped. */
    ghost predicate PendingOk(p: Pending, s: Sent)
      reads this, platform
    {
      && p.reply < |platform.world.channels| && p.reply in submitted && p.reply !in delivered
      && submitted[p.reply].0 == p.key && Submits(s, p.key, p.reply, submitted[p.reply].1, p.started)
      && Outside(s.stamped, platform.world)
    }

    /** Starts the provider thread; `resilience` is (stuck_after, max_respawns) of a resilient probe. */
    constructor (platform: Platform, resilience: Option<(nat, nat)>)
      requires Attributed(platform.world, map[])
      modifies platform
      ensures Valid() && this.platform == platform && pending.None? && respawns == 0
      ensures submitted == map[] && delivered == {} && log == [] && deliveries == []
      ensures healing == if resilience.Some? then Some(Healing(resilience.value.0, resilience.value.1, None)) else None
    {
      this.platform := platform;
      sender := |platform.world.providers|;
      pending, respawns := None, 0;
      healing := if resilience.Some? then Some(Healing(resilience.value.0, resilience.value.1, None)) else None;
      maxRespawns := if resilience.Some? then resilience.value.1 else 0;
      submitted, delivered, log, deliveries, waiting := map[], {}, [], [], None;
      new;
      var w := platform.world;
      platform.world := w.(providers := w.providers + [Provider(true, None, None)]);
      NewProviderKeeps(w, platform.world, submitted);
    }

    /** The outside moves; the probe keeps what it knows. */
    method Wait()
      requires Valid()
      modifies platform
      ensures Valid() && Later(old(platform.world), platform.world) && Outside(old(platform.world), platform.world)
    {
      hide Outside, Attributed, Booked, FullSince, Justified, Submits;
      platform.Interfere();
      if pending.Some? { OutsideJoins(waiting.value.stamped, old(platform.world), platform.world); }
      OutsideKeeps(old(platform.world), platform.world, submitted);
      BookedLater(old(platform.world), platform.world, submitted, delivered, deliveries);
    }

    function Elapsed(since: nat): nat
      reads platform
    {
      if platform.world.clock >= since then platform.world.clock - since else 0
    }

    /** `try_send` of a fresh request on the current queue. */
    method TrySend(key: Key) returns (failure: Option<ProbeFailure>, reply: nat)
      requires Valid() && pending.None?
      modifies this, platform
      ensures Valid() && pending.None? && sender == old(sender)
      ensures respawns == old(respawns) && delivered == old(delivered) && deliveries == old(deliveries)
      ensures platform.world.clock == old(platform.world.clock)
      ensures failure == if !old(platform.world.providers[sender]).alive then Some(Disconnected)
                         else if old(platform.world.providers[sender]).slot.Some? then Some(Busy) else None
      ensures failure.None? ==>
        && reply < |platform.world.channels| && reply !in old(submitted) && reply !in delivered
        && submitted == old(submitted)[reply := (key, platform.world.clock)]
        && platform.world.providers[sender].slot == Some(Request(key, reply))
        && log == old(log) + [Accepted(platform.world.clock)] && healing == Alive(old(healing))
        && Accepts(old(platform.world), platform.world, sender, key, reply)
      ensures failure.Some? ==>
        && submitted == old(submitted) && healing == old(healing) && platform.world == old(platform.world)
        && log == if failure == Some(Busy) then old(log) + [SeenFull(platform.world.clock)] else old(log)
    {
      hide Attributed, HealingOk;
      var w := platform.world;
      reply := |w.channels|;
      if !w.providers[sender].alive { return Some(Disconnected), reply; }
      if w.providers[sender].slot.Some? {
        HealingFull(healing, respawns, maxRespawns, log, w.clock);
        log := log + [SeenFull(w.clock)];
        return Some(Busy), reply;
      }
      var request := Request(key, reply);
      ghost var before := submitted;
      platform.world := w.(
        providers := w.providers[sender := w.providers[sender].(slot := Some(request))],
        channels := w.channels + [Channel(None, true)]);
      submitted := submitted[reply := (key, w.clock)];
      HealingAlive(healing, respawns, maxRespawns, log, w.clock, Accepted(w.clock));
      log := log + [Accepted(w.clock)];
      healing := Alive(healing);
      SendKeeps(w, platform.world, before, submitted, sender, request);
      return None, reply;
    }

    /** The provider is replaced when its queue has been full for long enough and respawns remain. */
    method ReplaceIfStuck(spawns: bool) returns (replaced: bool)
      requires Valid() && pending.None?
      requires |log| > 0 && log[|log| - 1].SeenFull? && log[|log| - 1].at <= platform.world.clock
      modifies this, platform
      ensures Valid() && pending.None?
      ensures submitted == old(submitted) && delivered == old(delivered) && deliveries == old(deliveries)
      ensures Later(old(platform.world), platform.world)
      ensures replaced ==> spawns && old(healing).Some? && old(healing).value.remaining > 0
      ensures !replaced && spawns && healing.Some? && healing.value.remaining > 0 ==>
        && healing.value.busySince.Some?
        && platform.world.clock - healing.value.busySince.value < healing.value.stuckAfter
      ensures replaced ==>
        && respawns == old(respawns) + 1 && log == old(log) + [Replaced(platform.world.clock)]
        && platform.world.providers[sender] == Provider(true, None, None)
      ensures !replaced ==>
        respawns == old(respawns) && sender == old(sender) && log == old(log)
    {
      hide Attributed, Booked, Justified, Replacements;
      if healing.None? { return false; }
      if healing.value.busySince.None? {
        healing := Some(healing.value.(busySince := Some(platform.world.clock)));
      }
      Wait();
      if healing.value.remaining == 0 || Elapsed(healing.value.busySince.value) < healing.value.stuckAfter {
        return false;
      }
      if !spawns { return false; }
      var w := platform.world;
      platform.world := w.(providers := w.providers + [Provider(true, None, None)]);
      NewProviderKeeps(w, platform.world, submitted);
      BookedLater(w, platform.world, submitted, delivered, deliveries);
      HealingReplaced(healing.value, respawns, maxRespawns, log, w.clock);
      healing := Some(healing.value.(remaining := healing.value.remaining - 1, busySince := None));
      sender := |w.providers|;
      respawns := respawns + 1;
      log := log + [Replaced(w.clock)];
      return true;
    }

    /** Submits `key`, replacing a stuck provider first when that is allowed. */
    method Submit(key: Key, spawns: bool) returns (failure: Option<ProbeFailure>)
      requires Valid() && pending.None?
      modifies this, platform
      ensures Valid() && delivered == old(delivered) && deliveries == old(deliveries)
      ensures failure.Some? ==> pending.None? && failure.value in {Busy, Disconnected}
      ensures failure.None? ==>
        && pending.Some? && pending.value.key == key && pending.value.started == platform.world.clock
        && waiting.Some? && waiting.value.stamped == platform.world
        // The stamp is the time of submission exactly when the clock stood still between the two.
        && (pending.value.started == submitted[pending.value.reply].1 <==>
              waiting.value.stamped.clock == waiting.value.sent.clock)
      ensures old(log) <= log && respawns - old(respawns) in {0, 1}
      ensures respawns > old(respawns) ==> failure != Some(Busy)
      ensures failure.None? ==> pending.value.reply in submitted && pending.value.reply !in old(submitted)
      // A living provider with a free slot takes the request, a dead one refuses it, and a full one only
      // when it is not replaced.
      ensures var p := old(platform.world.providers[sender]);
        && (p.alive && p.slot.None? ==> failure.None? && respawns == old(respawns))
        && (!p.alive ==> failure == Some(Disconnected))
        && (p.alive && p.slot.Some? ==> (failure == Some(Busy) <==> respawns == old(respawns)))
    {
      hide Attributed, Booked, HealingOk, Outside, Accepts;
      ghost var before := platform.world;
      var answer, reply := TrySend(key);
      if answer == Some(Disconnected) { return answer; }
      if answer == Some(Busy) {
        Wait();
        var replaced := ReplaceIfStuck(spawns);
        if !replaced { return Some(Busy); }
        Wait();
        // Nothing but this probe fills the fresh queue, so the retry is never refused as full.
        before := platform.world;
        answer, reply := TrySend(key);
        if answer.Some? { return answer; }
      }
      // The request is stamped only now, after it was accepted.
      ghost var sent := platform.world;
      Wait();
      pending := Some(Pending(key, platform.world.clock, reply));
      waiting := Some(Sent(sender, before, sent, platform.world));
      OutsideStays(platform.world);
      return None;
    }

    /** Takes a waiting answer out of its channel. */
    method Receive(p: Pending) returns (value: Value)
      requires Valid() && pending == Some(p) && platform.world.channels[p.reply].value.Some?
      modifies this, platform
      ensures Valid() && pending.None? && sender == old(sender) && respawns == old(respawns)
      ensures delivered == old(delivered) + {p.reply} && submitted == old(submitted) && deliveries == old(deliveries)
      ensures platform.world.clock == old(platform.world.clock)
      ensures (p.reply, p.key, value) in platform.world.computed
      ensures Receives(old(platform.world), platform.world, p.reply, value)
      ensures forall d :: d in deliveries ==> d.reply != p.reply
      ensures log == old(log) + [Received(platform.world.clock)] && healing == Alive(old(healing))
    {
      hide HealingOk;
      var w := platform.world;
      assert AnswerKnown(w, p.reply, submitted);
      value := w.channels[p.reply].value.value;
      platform.world := w.(channels := w.channels[p.reply := w.channels[p.reply].(value := None)]);
      ReceiveKeeps(w, platform.world, submitted, p.reply);
      pending := None;
      delivered := delivered + {p.reply};
      HealingAlive(healing, respawns, maxRespawns, log, w.clock, Received(w.clock));
      log := log + [Received(w.clock)];
      healing := Alive(healing);
    }

    /** Waits for the answer of the pending request, and hands it out when it is still fresh. */
    method Await(p: Pending, maxAge: nat)
      returns (r: Result<Value, ProbeFailure>, ghost arrived: World, ghost checked: World)
      requires Valid() && pending == Some(p)
      modifies this, platform
      ensures Outside(old(platform.world), arrived) && checked == platform.world
      ensures Outcome(p, maxAge, arrived, checked, r)
      ensures healing == (if r == Err(Timeout) || r == Err(Disconnected) then old(healing) else Alive(old(healing)))
      ensures sender == old(sender) && submitted == old(submitted)
      ensures Valid() && old(log) <= log && old(delivered) <= delivered && respawns == old(respawns)
      ensures r.Err? ==> deliveries == old(deliveries) && r != Err(Busy)
      ensures r.Ok? ==> Delivers(old(deliveries), old(delivered), p.key, r.value, maxAge)
      ensures r == Err(Timeout) <==> pending.Some?
      ensures r == Err(Timeout) ==> pending == old(pending)
    {
      hide Attributed, HealingOk, Booked, Outside, Accepts;
      // The outside moves on while the answer is awaited.
      Wait();
      arrived, checked := platform.world, platform.world;
      var channel := platform.world.channels[p.reply];
      ghost var request := waiting.value;
      OutsideClock(request.stamped, arrived);
      if channel.value.None? {
        if channel.open { return Err(Timeout), arrived, checked; }
        pending := None;
        return Err(Disconnected), arrived, checked;
      }
      var value := Receive(p);
      ghost var taken := platform.world;
      Wait();
      checked := platform.world;
      if Elapsed(p.started) >= maxAge { return Err(Expired), arrived, checked; }
      ghost var arrival := Arrival(arrived, taken, platform.world);
      ghost var d := Delivery(p.reply, p.key, value, submitted[p.reply].1, p.started, arrival.checked.clock, maxAge,
                              request, arrival);
      DeliverOnce(platform.world, submitted, delivered, deliveries, d);
      deliveries := deliveries + [d];
      return Ok(value), arrived, checked;
    }

    /** Exactly one delivery was added: this answer, for this key, of a request not answered before. */
    ghost predicate Delivers(before: seq<Delivery>, answered: set<nat>, key: Key, value: Value, maxAge: nat)
      reads this, platform
    {
      && |deliveries| == |before| + 1
      && var d := deliveries[|before|];
      && deliveries == before + [d] && d.key == key && d.value == value && d.maxAge == maxAge
      && d.reply !in answered && d.checkedAt == platform.world.clock
      // Counted from its submission, the age exceeds the bound at most by the lag of the stamp.
      && d.checkedAt - d.submittedAt < maxAge + (d.started - d.submittedAt)
      && GoodDelivery(d, platform.world.computed, submitted)
    }

    /**
     * One query. An answer is handed out only for a request of exactly this key, computed from that
     * key, stamped less than `maxAge` before its age was checked, and never twice. And it is handed out:
     * a request of this key that is still fresh is awaited and not sent again, otherwise a new one is sent if
     * the provider takes it, and what is awaited comes to what its channel holds.
     */
    method QueryResult(key: Key, maxAge: nat, spawns: bool)
      returns (r: Result<Value, ProbeFailure>, ghost asked: World, ghost awaited: Option<Pending>,
               ghost arrived: World, ghost checked: World)
      requires Valid()
      modifies this, platform
      ensures Valid() && old(log) <= log && old(delivered) <= delivered
      ensures respawns - old(respawns) in {0, 1} && (respawns > old(respawns) ==> r != Err(Busy))
      ensures r.Err? ==> deliveries == old(deliveries)
      ensures r.Ok? ==> Delivers(old(deliveries), old(delivered), key, r.value, maxAge)
      ensures r == Err(Timeout) ==> pending.Some? && pending.value.key == key
      ensures Outside(old(platform.world), asked)
      ensures awaited.Some? ==>
        awaited.value.key == key && Outcome(awaited.value, maxAge, arrived, checked, r)
      ensures awaited.None? ==> r == Err(Busy) || r == Err(Disconnected)
      ensures var kept := old(pending).Some? && old(pending).value.key == key
          && Fresh(old(pending).value.started, asked.clock, maxAge);
        && (kept ==> awaited == old(pending) && submitted == old(submitted) && respawns == old(respawns))
        && (!kept && awaited.Some? ==> awaited.value.reply in submitted && awaited.value.reply !in old(submitted))
        && old(sender) < |asked.providers|
        && var p := asked.providers[old(sender)];
        && (!kept && p.alive && p.slot.None? ==> awaited.Some?)
        && (!kept && !p.alive ==> r == Err(Disconnected))
    {
      hide Attributed, HealingOk, Booked, Delivers, Outside, Outcome;
      Wait();
      asked, arrived, checked := platform.world, platform.world, platform.world;
      awaited := pending;
      if pending.Some? { OutsideClock(waiting.value.stamped, platform.world); }
      if pending.Some? && (pending.value.key != key || Elapsed(pending.value.started) >= maxAge) {
        pending := None;
      }
      if pending.None? {
        var failure := Submit(key, spawns);
        awaited := pending;
        if failure.Some? { return Err(failure.value), asked, awaited, arrived, checked; }
      }
      r, arrived, checked := Await(pending.value, maxAge);
    }
  }

  lemma ReceiveKeeps(a: World, b: World, s: Submissions, reply: nat)
    requires Attributed(a, s) && reply < |a.channels|
    requires b == a.(channels := a.channels[reply := a.channels[reply].(value := None)])
    ensures Attributed(b, s)
  {
    forall id | 0 <= id < |b.channels|
      ensures AnswerKnown(b, id, s)
    {
      assert AnswerKnown(a, id, s);
    }
  }

  lemma SendKeeps(a: World, b: World, s: Submissions, t: Submissions, p: nat, r: Request)
    requires Attributed(a, s) && p < |a.providers| && a.providers[p].slot.None?
    requires (forall id :: id in s ==> id < |a.channels|) && r.reply == |a.channels|
    requires t == s[r.reply := (r.key, a.clock)]
    requires b == a.(providers := a.providers[p := a.providers[p].(slot := Some(r))],
      channels := a.channels + [Channel(None, true)])
    ensures Attributed(b, t)
  {
    forall q | 0 <= q < |b.providers|
      ensures ProviderKnown(b.providers[q], |b.channels|, t)
    {
      assert ProviderKnown(a.providers[q], |a.channels|, s);
    }
    forall id | 0 <= id < |b.channels|
      ensures AnswerKnown(b, id, t)
    {
      if id < |a.channels| { assert AnswerKnown(a, id, s); }
    }
  }

  lemma NewProviderKeeps(a: World, b: World, s: Submissions)
    requires Attributed(a, s) && b == a.(providers := a.providers + [Provider(true, None, None)])
    ensures Attributed(b, s)
  {
    forall q | 0 <= q < |b.providers|
      ensures ProviderKnown(b.providers[q], |b.channels|, s)
    {
      if q < |a.providers| { assert ProviderKnown(a.providers[q], |a.channels|, s); }
    }
    forall id | 0 <= id < |b.channels|
      ensures AnswerKnown(b, id, s)
    {
      assert AnswerKnown(a, id, s);
    }
  }

  // ---------- the age of an answer ----------

  /** Every answer handed out is younger than `maxAge` plus the lag of its stamp, counted from its submission. */
  lemma AgeFromSubmission(d: Delivery)
    requires HandedOut(d)
    ensures d.submittedAt <= d.started <= d.checkedAt
    ensures d.checkedAt - d.submittedAt < d.maxAge + (d.started - d.submittedAt)
  {
    hide Outside;
    OutsideClock(d.request.sent, d.request.stamped);
  }

  /** The latest answer of a request whose stamp lags by `lag`: a fresh probe, one request, one provider. */
  lemma LateHandOut(key: Key, value: Value, lag: nat, maxAge: nat) returns (d: Delivery)
    requires maxAge > 0
    ensures HandedOut(d) && d.key == key && d.value == value && d.maxAge == maxAge
    ensures d.submittedAt == 0 && d.started == lag && d.checkedAt == lag + maxAge - 1
    ensures d.request.before == World(0, [Provider(true, None, None)], [], [])
    ensures GoodDelivery(d, d.arrival.checked.computed, map[d.reply := (key, d.submittedAt)])
  {
    var request := Request(key, 0);
    var before := World(0, [Provider(true, None, None)], [], []);
    var sent := World(0, [Provider(true, Some(request), None)], [Channel(None, true)], []);
    assert Accepts(before, sent, 0, key, 0);
    var stamped := sent.(clock := lag);
    assert Ticks(sent, stamped);
    OneStep(sent, stamped);
    var arrived := AnswerOf(stamped, key, value);
    var taken := arrived.(channels := [Channel(None, false)]);
    assert Receives(arrived, taken, 0, value);
    var checked := taken.(clock := lag + maxAge - 1);
    assert Ticks(taken, checked);
    OneStep(taken, checked);
    d := Delivery(0, key, value, 0, lag, checked.clock, maxAge, Sent(0, before, sent, stamped),
                  Arrival(arrived, taken, checked));
    assert checked.computed[0] == (0, key, value);
  }

  /** The only provider takes the only request and answers it. */
  lemma AnswerOf(a: World, key: Key, value: Value) returns (b: World)
    requires a.providers == [Provider(true, Some(Request(key, 0)), None)] && a.channels == [Channel(None, true)]
    ensures Outside(a, b) && b.clock == a.clock && b.computed == a.computed + [(0, key, value)]
    ensures b.providers == [Provider(true, None, None)] && b.channels == [Channel(Some(value), false)]
  {
    var working := a.(providers := a.providers[0 := Provider(true, None, a.providers[0].slot)]);
    assert Takes(a, working, 0);
    OneStep(a, working);
    b := Answered(working, 0, value);
    assert Answers(working, b, 0);
    OneStep(working, b);
    OutsideJoins(a, working, b);
  }

  /**
   * Counted from submission, the bound of a query holds for all answers whose stamp lags by `lag` exactly
   * when there is no lag, that is, when the clock stood still between the accepted `try_send` and the stamp.
   */
  lemma BoundFromSubmission(key: Key, value: Value, lag: nat, maxAge: nat)
    requires maxAge > 0
    ensures (forall d :: HandedOut(d) && d.maxAge == maxAge && d.started - d.submittedAt == lag ==>
                           d.checkedAt - d.submittedAt < maxAge)
            <==> lag == 0
  {
    hide HandedOut;
    forall d | HandedOut(d)
      ensures d.checkedAt - d.submittedAt < d.maxAge + (d.started - d.submittedAt)
    {
      AgeFromSubmission(d);
    }
    var late := LateHandOut(key, value, lag, maxAge);
  }

  /** So a probe can hand out at 14, with a bound of 5, the answer of a request it submitted at 0. */
  lemma StampMayLag(key: Key, value: Value) returns (d: Delivery)
    ensures HandedOut(d) && d.request.before == World(0, [Provider(true, None, None)], [], [])
    ensures d.submittedAt == 0 && d.started == 10 && d.maxAge == 5 && d.checkedAt == 14
  {
    d := LateHandOut(key, value, 10, 5);
  }
}
