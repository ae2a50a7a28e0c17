/** Allowances over sliding windows and the contained event loop (src/rate_limit.rs, src/panic_guard.rs). */
module SlidingWindows {

  /** Instants and durations count the same ticks; an instant in the future has age zero. */
  function Age(now: nat, earlier: nat): nat
  {
    if now >= earlier then now - earlier else 0
  }

  /** Drops leading instants of age `keep` or more. */
  function Evict(queue: seq<nat>, now: nat, keep: nat): (rest: seq<nat>)
    ensures |rest| <= |queue| && rest == queue[|queue| - |rest|..]
    ensures |rest| > 0 ==> Age(now, rest[0]) < keep
    ensures forall i :: 0 <= i < |queue| - |rest| ==> Age(now, queue[i]) >= keep
  {
    if |queue| > 0 && Age(now, queue[0]) >= keep then Evict(queue[1..], now, keep) else queue
  }

  ghost predicate Ordered(times: seq<nat>)
  {
    forall i, j :: 0 <= i < j < |times| ==> times[i] <= times[j]
  }

  /** How many of `times` are younger than `keep` at `now`. */
  function Younger(times: seq<nat>, now: nat, keep: nat): nat
  {
    if |times| == 0 then 0
    else Younger(times[..|times| - 1], now, keep) + if Age(now, times[|times| - 1]) < keep then 1 else 0
  }

  /** The instants less than `keep` before `now`, or after it. */
  lemma {:induction false} YoungerCounts(times: seq<nat>, now: nat, keep: nat)
    requires keep > 0
    ensures Younger(times, now, keep) == |set i | 0 <= i < |times| && now < times[i] + keep|
  {
    var all := set i | 0 <= i < |times| && now < times[i] + keep;
    if |times| > 0 {
      var n := |times| - 1;
      YoungerCounts(times[..n], now, keep);
      var some := set i | 0 <= i < |times[..n]| && now < times[..n][i] + keep;
      assert all == some + if now < times[n] + keep then {n} else {};
    }
  }

  /** In an ordered history the young instants are its tail. */
  lemma {:induction false} YoungerIsTail(times: seq<nat>, now: nat, keep: nat, cut: nat)
    requires cut <= |times|
    requires forall i :: 0 <= i < cut ==> Age(now, times[i]) >= keep
    requires forall i :: cut <= i < |times| ==> Age(now, times[i]) < keep
    ensures Younger(times, now, keep) == |times| - cut
  {
    if |times| > 0 {
      YoungerIsTail(times[..|times| - 1], now, keep, if cut == |times| then cut - 1 else cut);
    }
  }

  /** `queue` holds the end of the whole history, and what it lost was already too old at `last`. */
  ghost predicate Remembers(queue: seq<nat>, history: seq<nat>, last: nat, keep: nat)
  {
    && Ordered(history) && (forall i :: 0 <= i < |history| ==> history[i] <= last)
    && |queue| <= |history| && queue == history[|history| - |queue|..]
    && forall i :: 0 <= i < |history| - |queue| ==> Age(last, history[i]) >= keep
  }

  /** After eviction at a later time the queue holds exactly the young part of the history. */
  lemma EvictedRemembers(queue: seq<nat>, history: seq<nat>, last: nat, now: nat, keep: nat)
    requires Remembers(queue, history, last, keep) && last <= now
    ensures Remembers(Evict(queue, now, keep), history, now, keep)
    ensures |Evict(queue, now, keep)| == Younger(history, now, keep)
  {
    hide Younger, Evict, Ordered, Age;
    var rest := Evict(queue, now, keep);
    OldPart(queue, history, last, now, keep);
    YoungPart(history, rest, now, keep);
    YoungerIsTail(history, now, keep, |history| - |rest|);
  }

  lemma YoungPart(history: seq<nat>, rest: seq<nat>, now: nat, keep: nat)
    requires Ordered(history) && |rest| <= |history| && rest == history[|history| - |rest|..]
    requires |rest| > 0 ==> Age(now, rest[0]) < keep
    ensures forall i :: |history| - |rest| <= i < |history| ==> Age(now, history[i]) < keep
  {
    var cut := |history| - |rest|;
    forall i | cut <= i < |history|
      ensures Age(now, history[i]) < keep
    {
      assert history[cut] == rest[0];
    }
  }

  lemma OldPart(queue: seq<nat>, history: seq<nat>, last: nat, now: nat, keep: nat)
    requires Remembers(queue, history, last, keep) && last <= now
    ensures forall i :: 0 <= i < |history| - |Evict(queue, now, keep)| ==> Age(now, history[i]) >= keep
  {
    var rest := Evict(queue, now, keep);
    forall i | 0 <= i < |history| - |rest|
      ensures Age(now, history[i]) >= keep
    {
      if i >= |history| - |queue| {
        assert history[i] == queue[i - (|history| - |queue|)];
      }
    }
  }

  /** The eviction loop on the front of the queue. */
  method DropOld(queue: seq<nat>, now: nat, keep: nat) returns (rest: seq<nat>)
    ensures rest == Evict(queue, now, keep)
  {
    rest := queue;
    while |rest| > 0 && Age(now, rest[0]) >= keep
      invariant Evict(rest, now, keep) == Evict(queue, now, keep)
      decreases |rest|
    {
      rest := rest[1..];
    }
  }

  lemma PushRemembers(queue: seq<nat>, history: seq<nat>, now: nat, keep: nat)
    requires Remembers(queue, history, now, keep)
    ensures Remembers(queue + [now], history + [now], now, keep)
  {
  }

  // ---------- the allowance ----------

  class RateLimit {
    const max: nat
    const per: nat
    var granted: seq<nat>
    /** Every grant ever made, and the latest time seen. */
    ghost var history: seq<nat>
    ghost var last: nat

    ghost predicate Valid()
      reads this
    {
      Remembers(granted, history, last, per) && Spread(history, max, per)
    }

    constructor (max: nat, per: nat)
      ensures Valid() && history == [] && last == 0 && this.max == max && this.per == per
    {
      this.max, this.per := max, per;
      granted, history, last := [], [], 0;
    }

    /** Grants at `now` exactly when fewer than `max` of all grants so far are younger than `per`. */
    method TryTake(now: nat) returns (ok: bool)
      requires Valid() && last <= now
      modifies this
      ensures Valid() && last == now
      ensures ok <==> Younger(old(history), now, per) < max
      ensures history == if ok then old(history) + [now] else old(history)
    {
      hide Evict, Spread, Younger, Remembers;
      EvictedRemembers(granted, history, last, now, per);
      granted := DropOld(granted, now, per);
      last := now;
      if |granted| < max {
        PushRemembers(granted, history, now, per);
        GrantKeepsSpread(granted, history, now, max, per);
        granted := granted + [now];
        history := history + [now];
        return true;
      }
      return false;
    }
  }

  /** Any grant is at least `per` later than the grant `max` places before it. */
  ghost predicate Spread(history: seq<nat>, max: nat, per: nat)
  {
    && (max == 0 ==> history == [])
    && forall i :: 0 <= i && i + max < |history| && max > 0 ==> SpreadAt(history, i, max, per)
  }

  ghost predicate SpreadAt(history: seq<nat>, i: nat, max: nat, per: nat)
    requires i + max < |history|
  {
    history[i + max] >= history[i] + per
  }

  lemma GrantKeepsSpread(queue: seq<nat>, history: seq<nat>, now: nat, max: nat, per: nat)
    requires Remembers(queue, history, now, per) && Spread(history, max, per) && |queue| < max
    ensures Spread(history + [now], max, per)
  {
    var more := history + [now];
    forall i | 0 <= i && i + max < |more|
      ensures SpreadAt(more, i, max, per)
    {
      if i + max < |history| {
        assert SpreadAt(history, i, max, per);
      } else {
        assert Age(now, history[i]) >= per;
      }
    }
  }

  /** How many grants lie in the half-open window of length `per` from `from` on. */
  function InWindow(history: seq<nat>, from: nat, per: nat): nat
  {
    if |history| == 0 then 0
    else InWindow(history[..|history| - 1], from, per)
         + if from <= history[|history| - 1] < from + per then 1 else 0
  }

  /** The grants from `from` on and before `from + per`. */
  function GrantsWithin(history: seq<nat>, from: nat, per: nat): set<int>
  {
    set i | 0 <= i < |history| && from <= history[i] && history[i] < from + per
  }

  lemma {:induction false} WindowIsCount(history: seq<nat>, from: nat, per: nat)
    ensures InWindow(history, from, per) == |GrantsWithin(history, from, per)|
  {
    if |history| > 0 {
      var n := |history| - 1;
      var earlier := GrantsWithin(history[..n], from, per);
      WindowIsCount(history[..n], from, per);
      if from <= history[n] < from + per {
        assert GrantsWithin(history, from, per) == earlier + {n} && n !in earlier;
      } else {
        assert GrantsWithin(history, from, per) == earlier;
      }
    }
  }

  lemma {:induction false} WindowBefore(history: seq<nat>, from: nat, per: nat)
    requires forall i :: 0 <= i < |history| ==> history[i] < from
    ensures InWindow(history, from, per) == 0
  {
    if |history| > 0 {
      WindowBefore(history[..|history| - 1], from, per);
    }
  }

  lemma {:induction false} WindowCount(history: seq<nat>, from: nat, per: nat, n: nat)
    requires n <= |history|
    ensures InWindow(history, from, per) <= InWindow(history[..n], from, per) + (|history| - n)
    decreases |history|
  {
    if n == |history| {
      assert history[..n] == history;
    } else {
      WindowCount(history[..|history| - 1], from, per, n);
      assert history[..|history| - 1][..n] == history[..n];
    }
  }

  /** No half-open window of length `per` ever holds more than `max` grants. */
  lemma WindowHoldsAtMostMax(history: seq<nat>, from: nat, max: nat, per: nat)
    requires Ordered(history) && Spread(history, max, per)
    ensures |set i | 0 <= i < |history| && from <= history[i] && history[i] < from + per| <= max
  {
    hide Spread, InWindow;
    AtMostMax(history, from, max, per);
    WindowIsCount(history, from, per);
    assert GrantsWithin(history, from, per)
      == set i | 0 <= i < |history| && from <= history[i] && history[i] < from + per;
  }

  lemma {:induction false} AtMostMax(history: seq<nat>, from: nat, max: nat, per: nat)
    requires Ordered(history) && Spread(history, max, per)
    ensures InWindow(history, from, per) <= max
    decreases |history|
  {
    if |history| > 0 && max > 0 {
      var n := |history| - 1;
      if !(from <= history[n] < from + per) {
        assert Spread(history[..n], max, per) by {
          forall i | 0 <= i && i + max < n
            ensures SpreadAt(history[..n], i, max, per)
          {
            assert SpreadAt(history, i, max, per);
          }
        }
        AtMostMax(history[..n], from, max, per);
      } else if |history| <= max {
        WindowCount(history, from, per, 0);
        assert history[..0] == [];
      } else {
        var cut := |history| - max;
        WindowCount(history, from, per, cut);
        assert SpreadAt(history, cut - 1, max, per);
        WindowBefore(history[..cut], from, per);
      }
    }
  }

  // ---------- faults and the contained loop ----------

  class FaultWindow {
    const limit: nat
    const window: nat
    var times: seq<nat>
    ghost var history: seq<nat>
    ghost var last: nat

    ghost predicate Valid()
      reads this
    {
      Remembers(times, history, last, window + 1)
    }

    constructor (limit: nat, window: nat)
      ensures Valid() && history == [] && last == 0 && this.limit == limit && this.window == window
    {
      this.limit, this.window := limit, window;
      times, history, last := [], [], 0;
    }

    /** True exactly when at least `limit` of all faults so far lie within the window, this one included. */
    method Record(now: nat) returns (tooMany: bool)
      requires Valid() && last <= now
      modifies this
      ensures Valid() && last == now && history == old(history) + [now]
      ensures tooMany <==> TooMany(history, limit, window)
    {
      hide Evict, Remembers;
      EvictedRemembers(times, history, last, now, window + 1);
      times := DropOld(times, now, window + 1);
      PushRemembers(times, history, now, window + 1);
      times := times + [now];
      history := history + [now];
      last := now;
      assert history[..|history| - 1] == old(history);
      assert Age(now, now) == 0;
      return |times| >= limit;
    }
  }

  /** At the latest fault, at least `limit` faults are no older than `window`. */
  predicate TooMany(faults: seq<nat>, limit: nat, window: nat)
  {
    |faults| > 0 && Younger(faults, faults[|faults| - 1], window + 1) >= limit
  }

  datatype WorkerExit = Closed | Stopped | TooManyFaults

  /** An event as the loop meets it: is `stop` set, does processing panic, and when. */
  datatype Event = Event(payload: int, stop: bool, panics: bool, at: nat)

  /** What the worker works on; a panic leaves it wherever processing had come. */
  type State(!new)

  /** A shared flag; `stores` are all the values that were stored in it, in order. */
  class Flag {
    var set_: bool
    ghost var stores: seq<bool>

    method Store(value: bool)
      modifies this
      ensures set_ == value && stores == old(stores) + [value]
    {
      set_ := value;
      stores := stores + [value];
    }
  }

  /** Marks the worker busy from its construction until it is dropped. */
  class BusyGuard {
    const flag: Flag

    constructor (flag: Flag)
      modifies flag
      ensures this.flag == flag && flag.set_ && flag.stores == old(flag.stores) + [true]
    {
      this.flag := flag;
      new;
      flag.Store(true);
    }

    method Drop()
      modifies flag
      ensures !flag.set_ && flag.stores == old(flag.stores) + [false]
    {
      flag.Store(false);
    }
  }

  /**
   * One event under the guard, which is dropped at the end of its block and by anything that unwinds through
   * it. The loop catches a panic of processing inside the block, so there it is the end of the block.
   */
  method ProcessGuarded(busy: Flag, state: State, e: Event, process: (State, Event) -> State)
    returns (after: State, panicked: bool)
    modifies busy
    ensures !busy.set_ && busy.stores == old(busy.stores) + [true, false]
    ensures after == process(state, e) && panicked == e.panics
  {
    var guard := new BusyGuard(busy);
    after := process(state, e);
    if e.panics {
      // The rest of processing is skipped; the guard is not.
      guard.Drop();
      return after, true;
    }
    guard.Drop();
    return after, false;
  }

  /** The state after some events: each processed once, and repaired when that panicked. */
  function StateAfter(state: State, events: seq<Event>, process: (State, Event) -> State, repair: State -> State): State
  {
    if events == [] then state
    else
      var e := events[|events| - 1];
      var after := process(StateAfter(state, events[..|events| - 1], process, repair), e);
      if e.panics then repair(after) else after
  }

  /** Every handled event set the flag and cleared it again. */
  function BusyStores(handled: nat): (stores: seq<bool>)
    ensures |stores| == 2 * handled
  {
    if handled == 0 then [] else BusyStores(handled - 1) + [true, false]
  }

  /** The times of the panics among `events`. */
  function Faults(events: seq<Event>): seq<nat>
  {
    if |events| == 0 then []
    else Faults(events[..|events| - 1]) + if events[|events| - 1].panics then [events[|events| - 1].at] else []
  }

  /** Event `k` neither stops the loop nor is a fault that makes too many. */
  ghost predicate PassesAt(events: seq<Event>, k: nat, faults: seq<nat>, limit: nat, window: nat)
    requires k < |events|
  {
    !events[k].stop && (events[k].panics ==> !TooMany(faults + Faults(events[..k + 1]), limit, window))
  }

  ghost predicate RunsThrough(events: seq<Event>, faults: seq<nat>, limit: nat, window: nat)
  {
    forall k :: 0 <= k < |events| ==> PassesAt(events, k, faults, limit, window)
  }

  lemma RunsOneMore(events: seq<Event>, e: Event, faults: seq<nat>, limit: nat, window: nat)
    requires RunsThrough(events, faults, limit, window)
    requires !e.stop && (e.panics ==> !TooMany(faults + Faults(events + [e]), limit, window))
    ensures RunsThrough(events + [e], faults, limit, window)
  {
    hide TooMany, Faults;
    var more := events + [e];
    forall k | 0 <= k < |more|
      ensures PassesAt(more, k, faults, limit, window)
    {
      if k < |events| {
        assert PassesAt(events, k, faults, limit, window);
        assert more[..k + 1] == events[..k + 1];
      } else {
        assert more[..k + 1] == more;
      }
    }
  }

  ghost predicate Timed(events: seq<Event>, last: nat)
  {
    && (forall i :: 0 <= i < |events| ==> last <= events[i].at)
    && forall i, j :: 0 <= i < j < |events| ==> events[i].at <= events[j].at
  }

  /** Why the loop ended after handling `handled`. */
  ghost predicate Ended(exit: WorkerExit, events: seq<Event>, handled: seq<Event>, before: seq<nat>, limit: nat,
      window: nat)
  {
    match exit
    case Closed => |handled| == |events| && RunsThrough(handled, before, limit, window)
    case Stopped =>
      |handled| < |events| && events[|handled|].stop && RunsThrough(handled, before, limit, window)
    case TooManyFaults =>
      && |handled| > 0 && !handled[|handled| - 1].stop && handled[|handled| - 1].panics
      && TooMany(before + Faults(handled), limit, window)
      && RunsThrough(handled[..|handled| - 1], before, limit, window)
  }

  /**
   * Every event is handled once and in order, and repaired after a panic. The loop ends at the first set
   * stop flag, right after the first fault that makes too many, or when no sender is left. The busy flag is
   * set and cleared once for each event, so it is never left set.
   */
  method RunContained(start: State, events: seq<Event>, busy: Flag, faults: FaultWindow,
                      process: (State, Event) -> State, repair: State -> State)
    returns (state: State, exit: WorkerExit, handled: seq<Event>)
    requires faults.Valid() && Timed(events, faults.last)
    modifies busy, faults
    ensures faults.Valid() && faults.history == old(faults.history) + Faults(handled)
    ensures busy.stores == old(busy.stores) + BusyStores(|handled|)
    ensures !busy.set_ || (handled == [] && busy.set_ == old(busy.set_))
    ensures |handled| <= |events| && handled == events[..|handled|]
    ensures state == StateAfter(start, handled, process, repair)
    ensures Ended(exit, events, handled, old(faults.history), faults.limit, faults.window)
  {
    hide Remembers, TooMany, RunsThrough, StateAfter, Faults, BusyStores, Timed;
    ghost var before := faults.history;
    state, handled := start, [];
    NoneHandled(start, process, repair, before, faults.limit, faults.window);
    TimedAt(events, faults.last, 0);
    for n := 0 to |events|
      invariant handled == events[..n] && state == StateAfter(start, handled, process, repair)
      invariant faults.Valid() && faults.history == before + Faults(handled)
      invariant n < |events| ==> faults.last <= events[n].at
      invariant busy.stores == old(busy.stores) + BusyStores(n)
      invariant !busy.set_ || (n == 0 && busy.set_ == old(busy.set_))
      invariant RunsThrough(handled, before, faults.limit, faults.window)
    {
      var e := events[n];
      if e.stop { return state, Stopped, handled; }
      ghost var done := handled;
      var panicked;
      state, panicked := ProcessGuarded(busy, state, e, process);
      handled := handled + [e];
      OneHandled(start, done, e, process, repair);
      TimedAt(events, old(faults.last), n + 1);
      assert handled == events[..n + 1];
      if panicked {
        state := repair(state);
        var tooMany := faults.Record(e.at);
        assert faults.history == before + Faults(handled);
        if tooMany { return state, TooManyFaults, handled; }
      }
      RunsOneMore(done, e, before, faults.limit, faults.window);
    }
    return state, Closed, handled;
  }

  lemma NoneHandled(start: State, process: (State, Event) -> State, repair: State -> State,
                    faults: seq<nat>, limit: nat, window: nat)
    ensures StateAfter(start, [], process, repair) == start && Faults([]) == [] && BusyStores(0) == []
    ensures RunsThrough([], faults, limit, window)
  {
  }

  lemma OneHandled(start: State, done: seq<Event>, e: Event, process: (State, Event) -> State, repair: State -> State)
    ensures (done + [e])[..|done|] == done
    ensures Faults(done + [e]) == Faults(done) + if e.panics then [e.at] else []
    ensures BusyStores(|done| + 1) == BusyStores(|done|) + [true, false]
    ensures var after := process(StateAfter(start, done, process, repair), e);
      StateAfter(start, done + [e], process, repair) == if e.panics then repair(after) else after
  {
    assert (done + [e])[..|done|] == done;
  }

  /** No event comes before the one handled last. */
  lemma TimedAt(events: seq<Event>, last: nat, n: nat)
    requires Timed(events, last)
    ensures n < |events| ==> last <= events[n].at
    ensures 0 < n < |events| ==> events[n - 1].at <= events[n].at
  {
  }
}
