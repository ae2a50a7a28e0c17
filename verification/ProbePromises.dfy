/**
 * What the state of a reply channel means over whole runs of the probe and its providers: it is open exactly while a
 * living provider holds its request, so a timeout leaves somebody who may answer, and a disconnection nobody
 * (src/bounded_probe.rs).
 */
module ProbePromises {
  import opened Wrappers
  import opened BoundedProbe

  // ---------- runs ----------

  /** A provider thread is started, by the constructor or to replace another. */
  ghost predicate Starts(a: World, b: World)
  {
    b == a.(providers := a.providers + [Provider(true, None, None)])
  }

  ghost predicate WorldStep(a: World, b: World)
  {
    || OutsideStep(a, b) || Starts(a, b)
    || (exists p, key, reply :: Accepts(a, b, p, key, reply))
    || (exists reply, value :: Receives(a, b, reply, value))
  }

  ghost predicate WorldRun(run: seq<World>)
  {
    && |run| > 0 && run[0] == World(0, [], [], [])
    && forall i :: 0 <= i < |run| - 1 ==> WorldStep(run[i], run[i + 1])
  }

  // ---------- who may still answer ----------

  ghost predicate Holds(r: Option<Request>, id: nat)
  {
    r.Some? && r.value.reply == id
  }

  /** The provider has the request of this channel in its queue or works on it. */
  ghost predicate Owes(p: Provider, id: nat)
  {
    Holds(p.slot, id) || Holds(p.working, id)
  }

  ghost predicate Owed(w: World, id: nat)
  {
    exists p :: 0 <= p < |w.providers| && Owes(w.providers[p], id)
  }

  /** A provider that ended holds nothing, and none holds one request twice. */
  ghost predicate SoundProvider(p: Provider, channels: nat)
  {
    && (!p.alive ==> p.slot.None? && p.working.None?)
    && (p.slot.Some? ==> p.slot.value.reply < channels) && (p.working.Some? ==> p.working.value.reply < channels)
    && (p.slot.Some? && p.working.Some? ==> p.slot.value.reply != p.working.value.reply)
  }

  /** No two providers hold the request of one channel. */
  ghost predicate OwedOnce(w: World)
  {
    forall p: nat, q: nat, id: nat ::
      p < |w.providers| && q < |w.providers| && Owes(w.providers[p], id) && Owes(w.providers[q], id) ==>
      p == q
  }

  ghost predicate OpenWhileOwed(w: World)
  {
    forall id :: 0 <= id < |w.channels| ==>
      && (w.channels[id].open <==> Owed(w, id))
      && (w.channels[id].open ==> w.channels[id].value.None?)
  }

  ghost predicate Promised(w: World)
  {
    && (forall p :: 0 <= p < |w.providers| ==> SoundProvider(w.providers[p], |w.channels|))
    && OwedOnce(w) && OpenWhileOwed(w)
  }

  // ---------- every step keeps it ----------

  lemma OwedStays(a: World, b: World, p: nat, id: nat)
    requires p < |a.providers| && |b.providers| == |a.providers|
    requires forall q :: 0 <= q < |a.providers| && q != p ==> b.providers[q] == a.providers[q]
    requires Owes(b.providers[p], id) <==> Owes(a.providers[p], id)
    ensures Owed(b, id) <==> Owed(a, id)
  {
    hide Owes;
    if Owed(a, id) {
      var q :| 0 <= q < |a.providers| && Owes(a.providers[q], id);
      assert Owes(b.providers[q], id);
    }
    if Owed(b, id) {
      var q :| 0 <= q < |b.providers| && Owes(b.providers[q], id);
      assert Owes(a.providers[q], id);
    }
  }

  lemma TakingPromises(a: World, b: World, p: nat)
    requires Promised(a) && Takes(a, b, p)
    ensures Promised(b)
  {
    forall id
      ensures Owes(b.providers[p], id) <==> Owes(a.providers[p], id)
    {
    }
    hide Owes;
    forall id | 0 <= id < |b.channels|
      ensures Owed(b, id) <==> Owed(a, id)
    {
      OwedStays(a, b, p, id);
    }
    assert SoundProvider(a.providers[p], |a.channels|);
    assert OwedOnce(b);
  }

  /** A provider that lets go of requests: they are owed no more, and everything else is as before. */
  lemma LettingGo(a: World, b: World, p: nat, id: nat)
    requires OwedOnce(a) && p < |a.providers| && |b.providers| == |a.providers|
    requires forall q :: 0 <= q < |a.providers| && q != p ==> b.providers[q] == a.providers[q]
    requires Owes(b.providers[p], id) ==> Owes(a.providers[p], id)
    ensures Owed(b, id) <==> Owed(a, id) && (Owes(a.providers[p], id) ==> Owes(b.providers[p], id))
  {
    hide Owes;
    if Owed(b, id) {
      var q :| 0 <= q < |b.providers| && Owes(b.providers[q], id);
      assert Owes(a.providers[q], id);
    }
    if Owed(a, id) && (Owes(a.providers[p], id) ==> Owes(b.providers[p], id)) {
      var q :| 0 <= q < |a.providers| && Owes(a.providers[q], id);
      assert Owes(b.providers[q], id);
    }
  }

  lemma LessIsOwedOnce(a: World, b: World, p: nat)
    requires OwedOnce(a) && p < |a.providers| && |b.providers| == |a.providers|
    requires forall q :: 0 <= q < |a.providers| && q != p ==> b.providers[q] == a.providers[q]
    requires forall id :: Owes(b.providers[p], id) ==> Owes(a.providers[p], id)
    ensures OwedOnce(b)
  {
    hide Owes;
  }

  lemma AnsweringPromises(a: World, b: World, p: nat)
    requires Promised(a) && Answers(a, b, p)
    ensures Promised(b)
  {
    var r := a.providers[p].working.value;
    assert SoundProvider(a.providers[p], |a.channels|);
    forall id
      ensures Owes(b.providers[p], id) <==> Owes(a.providers[p], id) && id != r.reply
    {
    }
    assert Owes(a.providers[p], r.reply);
    hide Owes;
    LessIsOwedOnce(a, b, p);
    forall id | 0 <= id < |b.channels|
      ensures b.channels[id].open <==> Owed(b, id)
      ensures b.channels[id].open ==> b.channels[id].value.None?
    {
      LettingGo(a, b, p, id);
      assert id != r.reply ==> b.channels[id] == a.channels[id];
    }
  }

  lemma EndingPromises(a: World, b: World, p: nat)
    requires Promised(a) && Ends(a, b, p)
    ensures Promised(b)
  {
    assert SoundProvider(a.providers[p], |a.channels|);
    forall id: nat
      ensures !Owes(b.providers[p], id)
      ensures 0 <= id < |a.channels| ==>
        b.channels[id] == if Owes(a.providers[p], id) then a.channels[id].(open := false) else a.channels[id]
    {
    }
    hide Owes, Closed;
    LessIsOwedOnce(a, b, p);
    forall id | 0 <= id < |b.channels|
      ensures b.channels[id].open <==> Owed(b, id)
      ensures b.channels[id].open ==> b.channels[id].value.None?
    {
      LettingGo(a, b, p, id);
    }
  }

  lemma StartingPromises(a: World, b: World)
    requires Promised(a) && Starts(a, b)
    ensures Promised(b)
  {
    var n := |a.providers|;
    assert forall id :: !Owes(b.providers[n], id);
    hide Owes;
    forall id
      ensures Owed(b, id) <==> Owed(a, id)
    {
      if Owed(a, id) {
        var q :| 0 <= q < n && Owes(a.providers[q], id);
        assert Owes(b.providers[q], id);
      }
      if Owed(b, id) {
        var q :| 0 <= q < |b.providers| && Owes(b.providers[q], id);
        assert Owes(a.providers[q], id);
      }
    }
    assert forall q :: 0 <= q < n ==> SoundProvider(a.providers[q], |a.channels|);
  }

  /** No provider holds the request of a channel that does not exist yet. */
  lemma NothingBeyond(w: World, p: nat, id: nat)
    requires Promised(w) && p < |w.providers| && id >= |w.channels|
    ensures !Owes(w.providers[p], id)
  {
    hide OwedOnce, OpenWhileOwed;
    assert SoundProvider(w.providers[p], |w.channels|);
  }

  lemma AcceptingPromises(a: World, b: World, p: nat, key: Key, reply: nat)
    requires Promised(a) && Accepts(a, b, p, key, reply)
    ensures Promised(b)
  {
    assert SoundProvider(a.providers[p], |a.channels|);
    forall id
      ensures Owes(b.providers[p], id) <==> Owes(a.providers[p], id) || id == reply
    {
    }
    assert Owes(b.providers[p], reply);
    forall q | 0 <= q < |b.providers|
      ensures SoundProvider(b.providers[q], |b.channels|) && !Owes(a.providers[q], reply)
    {
      assert SoundProvider(a.providers[q], |a.channels|);
      NothingBeyond(a, q, reply);
    }
    hide Owes, SoundProvider;
    forall id | 0 <= id < |b.channels|
      ensures b.channels[id].open <==> Owed(b, id)
      ensures b.channels[id].open ==> b.channels[id].value.None?
    {
      if id == reply {
        assert Owes(b.providers[p], id);
      } else {
        OwedStays(a, b, p, id);
        assert b.channels[id] == a.channels[id];
      }
    }
    assert OwedOnce(b);
  }

  lemma ReceivingPromises(a: World, b: World, reply: nat, value: Value)
    requires Promised(a) && Receives(a, b, reply, value)
    ensures Promised(b)
  {
    hide Owes;
    assert !a.channels[reply].open;
    forall id | 0 <= id < |b.channels|
      ensures b.channels[id].open == a.channels[id].open && (Owed(b, id) <==> Owed(a, id))
      ensures b.channels[id].open ==> b.channels[id].value.None?
    {
    }
  }

  lemma TickingPromises(a: World, b: World)
    requires Promised(a) && Ticks(a, b)
    ensures Promised(b)
  {
    hide Owes;
    forall id
      ensures Owed(b, id) <==> Owed(a, id)
    {
    }
  }

  lemma StepPromises(a: World, b: World)
    requires Promised(a) && WorldStep(a, b)
    ensures Promised(b)
  {
    hide Promised, Takes, Answers, Ends, Accepts, Receives, Ticks, Starts;
    if OutsideStep(a, b) {
      if Ticks(a, b) {
        TickingPromises(a, b);
      } else {
        var p :| Takes(a, b, p) || Answers(a, b, p) || Ends(a, b, p);
        if Takes(a, b, p) {
          TakingPromises(a, b, p);
        } else if Answers(a, b, p) {
          AnsweringPromises(a, b, p);
        } else {
          EndingPromises(a, b, p);
        }
      }
    } else if Starts(a, b) {
      StartingPromises(a, b);
    } else if p, key, reply :| Accepts(a, b, p, key, reply) {
      AcceptingPromises(a, b, p, key, reply);
    } else {
      var reply, value :| Receives(a, b, reply, value);
      ReceivingPromises(a, b, reply, value);
    }
  }

  lemma {:induction false} AlwaysPromised(run: seq<World>, k: nat)
    requires WorldRun(run) && k < |run|
    ensures Promised(run[k])
  {
    hide Promised, WorldStep;
    if k == 0 {
      NothingYet();
    } else {
      AlwaysPromised(run, k - 1);
      assert WorldStep(run[k - 1], run[k]);
      StepPromises(run[k - 1], run[k]);
    }
  }

  lemma NothingYet()
    ensures Promised(World(0, [], [], []))
  {
  }

  /**
   * In every world that is reached a channel is open exactly while a living provider holds its request, and never
   * open with an answer in it. So when a wait ends without an answer, it is a timeout exactly if somebody may still
   * answer, and a disconnection exactly if nobody ever will.
   */
  lemma OpenWhileAnswerable(run: seq<World>, k: nat, p: Pending, maxAge: nat, checked: World,
      r: Result<Value, ProbeFailure>)
    requires WorldRun(run) && k < |run| && Outcome(p, maxAge, run[k], checked, r)
    requires run[k].channels[p.reply].value.None?
    ensures r == Err(Timeout) <==> exists q ::
      0 <= q < |run[k].providers| && run[k].providers[q].alive && Owes(run[k].providers[q], p.reply)
    ensures r == Err(Timeout) || r == Err(Disconnected)
  {
    hide WorldRun;
    AlwaysPromised(run, k);
    var w := run[k];
    if w.channels[p.reply].open {
      var q :| 0 <= q < |w.providers| && Owes(w.providers[q], p.reply);
      assert SoundProvider(w.providers[q], |w.channels|);
    }
  }
}
