/**
 * The installer helper: one retained background worker, the command loop that drives it, and the
 * proof that session and worker never disagree, whatever the worker's thread does and whenever
 * (src/installer_worker.rs, src/installer_helper_windows.rs).
 */
module InstallerHelper {
  import opened Wrappers
  import opened InstallerSession

  // ---------- threads and the worker ----------

  /** What a thread does; an install is that of the download it was handed. */
  datatype Work = CatalogWork | DownloadWork | InstallWork(prepared: Prepared)

  datatype Outcome =
    | CatalogDone(catalog: Result<Selection, InstallError>)
    | DownloadDone(download: Result<Prepared, InstallError>)
    | InstallDone(prepared: Prepared, install: Result<(), InstallError>)

  datatype Thread = Running(work: Work) | Finished(outcome: Outcome) | Panicked(work: Work)

  datatype Pending = Pending(ticket: Ticket, cancelled: bool, thread: nat)

  /** The session, the worker's slot, and every thread that was ever started, by number. */
  datatype World = World(session: Session, pending: Option<Pending>, threads: seq<Thread>)
  {
    predicate Busy() { pending.Some? }
  }

  function Spawn(w: World, ticket: Ticket, work: Work): World
  {
    w.(pending := Some(Pending(ticket, false, |w.threads|)), threads := w.threads + [Running(work)])
  }

  /** `spawns` is whether the operating system grants a thread. */
  function StartCatalog(w: World, spawns: bool): (World, Reply)
  {
    if w.Busy() then (w, Refused(WrongState))
    else
      var (s, r) := Apply(w.session, BeginCatalog);
      if !r.Issued? then (w.(session := s), r)
      else if spawns then (Spawn(w.(session := s), r.ticket, CatalogWork), Done)
      else (w.(session := Apply(s, Call.Cancel).0), Refused(WrongState))
  }

  function StartDownload(w: World, ticket: Ticket, spawns: bool): (World, Reply)
  {
    if w.Busy() || w.session.phase != Downloading(ticket) then (w, Refused(WrongState))
    else if spawns then (Spawn(w, ticket, DownloadWork), Done)
    else (w.(session := Apply(w.session, Call.Cancel).0), Refused(WrongState))
  }

  function StartInstall(w: World, ticket: Ticket, prepared: Prepared, spawns: bool): (World, Reply)
  {
    if w.Busy() || w.session.phase != Installing(ticket) then (w, Refused(WrongState))
    else if spawns then (Spawn(w, ticket, InstallWork(prepared)), Done)
    else (w.(session := Apply(w.session, FinishInstall(ticket)).0), Refused(WrongState))
  }

  /** Delivers the result of a thread that was not cancelled to the session. */
  function Deliver(s: Session, ticket: Ticket, t: Thread): (Session, Reply)
    requires !t.Running?
  {
    match t
    case Finished(CatalogDone(result)) => Apply(s, FinishCatalog(ticket, result))
    case Finished(DownloadDone(result)) => Apply(s, FinishDownload(ticket, result))
    case Finished(InstallDone(_, result)) =>
      var (next, r) := Apply(s, FinishInstall(ticket));
      if r == Done && result.Err? then (next, Refused(Install(result.error))) else (next, r)
    case Panicked(_) => (Apply(s, Call.Cancel).0, Refused(WrongState))
  }

  /** A non-blocking check; nothing is joined before its thread ended. */
  function Poll(w: World): (World, Option<Reply>)
    requires w.pending.Some? ==> w.pending.value.thread < |w.threads|
  {
    if w.pending.None? || w.threads[w.pending.value.thread].Running? then (w, None)
    else if w.pending.value.cancelled then (w.(pending := None), Some(Refused(Install(Cancelled))))
    else
      var (s, r) := Deliver(w.session, w.pending.value.ticket, w.threads[w.pending.value.thread]);
      (w.(pending := None, session := s), Some(r))
  }

  /** Revokes the session's approval and the worker's, in that order. */
  function CancelWork(w: World): (World, Reply)
  {
    var (s, r) := Apply(w.session, Call.Cancel);
    if r.Refused? then (w.(session := s), r)
    else
      (w.(session := s,
          pending := if w.pending.None? then None else Some(w.pending.value.(cancelled := true))), r)
  }

  // ---------- the commands ----------

  /** A request with what the machine answers while it is handled. */
  datatype Command =
    | CheckCatalog(storeOk: bool, spawns: bool)
    | Select(view: U64, replaced: Result<Selection, InstallError>)
    | ConfirmDownload(view: U64, storeOk: bool, confirmed: Result<bool, InstallError>, spawns: bool)
    | ConfirmInstall(view: U64, storeOk: bool, spawns: bool)
    | CancelAll
    | PollOnly

  /** The world after a command and whether the reply says the operation was carried out. */
  function Dispatch(w: World, c: Command): (World, bool)
  {
    match c
    case CheckCatalog(storeOk, spawns) =>
      if !storeOk then (w, false)
      else
        var (next, r) := StartCatalog(w, spawns);
        (next, !r.Refused?)
    case Select(view, replaced) =>
      if w.Busy() then (w, false)
      else
        var (s, r) := Apply(w.session, ReplaceSelection(view, replaced));
        (w.(session := s), !r.Refused?)
    case ConfirmDownload(view, storeOk, confirmed, spawns) =>
      if w.Busy() || view != w.session.generation || !storeOk then (w, false)
      else
        var (s, r) := Apply(w.session, BeginDownload(confirmed));
        if r.Issued? then
          var (next, started) := StartDownload(w.(session := s), r.ticket, spawns);
          (next, !started.Refused?)
        else (w.(session := s), !r.Refused?)
    case ConfirmInstall(view, storeOk, spawns) =>
      if w.Busy() || view != w.session.generation || !storeOk || !w.session.phase.Reviewing? then (w, false)
      else
        var ticket := w.session.phase.ticket;
        var (s, r) := Apply(w.session, BeginInstall(ticket));
        if !r.Released? then (w.(session := s), false)
        else
          var (next, started) := StartInstall(w.(session := s), ticket, r.prepared, spawns);
          (next, !started.Refused?)
    case CancelAll =>
      var (next, r) := CancelWork(w);
      (next, !r.Refused?)
    case PollOnly => (w, true)
  }

  // ---------- the helper as a state machine ----------

  /** A session ends after this many requests. */
  const MAX_REQUESTS: nat := 4096

  /**
   * `installPanicked` records that the panic of an install's thread was joined; `closing` that the helper
   * takes no more requests and only waits for its worker.
   */
  datatype Helper = Helper(world: World, requests: nat, installPanicked: bool, closing: bool)
  {
    /** The helper may leave: nothing is waited for. */
    predicate Left() { closing && !world.Busy() }
  }

  const INITIAL_REQUESTS: nat := 0

  ghost predicate Initial(h: Helper)
  {
    h == Helper(World(Session(0, Empty), None, []), INITIAL_REQUESTS, false, false)
  }

  function WorkOf(t: Thread): Work
  {
    match t
    case Running(work) => work
    case Panicked(work) => work
    case Finished(CatalogDone(_)) => CatalogWork
    case Finished(DownloadDone(_)) => DownloadWork
    case Finished(InstallDone(prepared, _)) => InstallWork(prepared)
  }

  /** A running thread ends at any moment, with a result of its own kind or by a panic. */
  ghost predicate ThreadEnds(a: World, b: World)
  {
    exists id, t: Thread ::
      && 0 <= id < |a.threads| && a.threads[id].Running? && !t.Running? && WorkOf(t) == WorkOf(a.threads[id])
      && b == a.(threads := a.threads[id := t])
  }

  predicate SlotOk(w: World)
  {
    w.pending.Some? ==> w.pending.value.thread < |w.threads|
  }

  /** Polling joins the panic of an install that nobody cancelled. */
  predicate JoinsPanickedInstall(w: World)
  {
    && SlotOk(w) && w.pending.Some? && !w.pending.value.cancelled
    && w.threads[w.pending.value.thread].Panicked? && w.threads[w.pending.value.thread].work.InstallWork?
  }

  ghost predicate PollStep(a: Helper, b: Helper)
  {
    && SlotOk(a.world) && b.world == Poll(a.world).0 && b.requests == a.requests && b.closing == a.closing
    && b.installPanicked == (a.installPanicked || JoinsPanickedInstall(a.world))
  }

  ghost predicate CommandStep(a: Helper, b: Helper, c: Command)
  {
    && !a.closing && !b.closing && a.requests < MAX_REQUESTS && b.requests == a.requests + 1
    && b.world == Dispatch(a.world, c).0 && b.installPanicked == a.installPanicked
  }

  /** A close request, the end of the parent, or a broken request: everything is revoked, once. */
  ghost predicate CloseStep(a: Helper, b: Helper)
  {
    !a.closing && b == a.(world := CancelWork(a.world).0, closing := true)
  }

  ghost predicate ThreadStep(a: Helper, b: Helper)
  {
    ThreadEnds(a.world, b.world) && b == a.(world := b.world)
  }

  ghost predicate Step(a: Helper, b: Helper)
  {
    || ThreadStep(a, b)
    || PollStep(a, b)
    || CloseStep(a, b)
    || exists c :: CommandStep(a, b, c)
  }

  ghost predicate Run(run: seq<Helper>)
  {
    |run| > 0 && Initial(run[0]) && forall i :: 0 <= i < |run| - 1 ==> Step(run[i], run[i + 1])
  }

  // ---------- agreement of session and worker ----------

  /** The phase the session is in while work of this kind runs for this ticket. */
  function PhaseOf(work: Work, ticket: Ticket): Phase
  {
    match work
    case CatalogWork => Checking(ticket)
    case DownloadWork => Downloading(ticket)
    case InstallWork(_) => Installing(ticket)
  }

  ghost predicate Agree(h: Helper)
  {
    var w := h.world;
    && SlotOk(w)
    // At most one live thread, and it is the one in the slot.
    && (forall id :: 0 <= id < |w.threads| && w.threads[id].Running? ==>
          w.pending.Some? && w.pending.value.thread == id)
    // Uncancelled work runs for the ticket of the session's phase; cancelled work for none.
    && (w.pending.Some? ==> PendingAgrees(w, w.pending.value))
    // A phase that waits for work has its worker, except after a panicked install.
    && (w.session.InFlight() && w.pending.None? ==> h.installPanicked)
    && (h.installPanicked ==> w.session.phase.Installing? && w.pending.None?)
    // A closing helper waits for nothing but cancelled work and an install that was under way.
    && (h.closing && w.pending.Some? ==>
          w.pending.value.cancelled || WorkOf(w.threads[w.pending.value.thread]).InstallWork?)
    // Generations stay far below their limit.
    && w.session.generation + (if w.pending.Some? then 1 else 0) <= 2 * h.requests + (if h.closing then 1 else 0)
    && h.requests <= MAX_REQUESTS
  }

  ghost predicate PendingAgrees(w: World, p: Pending)
    requires p.thread < |w.threads|
  {
    var work := WorkOf(w.threads[p.thread]);
    if p.cancelled then w.session.phase == Empty && !work.InstallWork?
    else w.session.phase == PhaseOf(work, p.ticket)
  }

  lemma ThreadKeepsAgreement(a: Helper, b: Helper)
    requires Agree(a) && ThreadStep(a, b)
    ensures Agree(b)
  {
  }

  lemma CloseKeepsAgreement(a: Helper, b: Helper)
    requires Agree(a) && CloseStep(a, b)
    ensures Agree(b)
  {
  }

  lemma PollKeepsAgreement(a: Helper, b: Helper)
    requires Agree(a) && PollStep(a, b)
    ensures Agree(b)
  {
  }

  lemma CommandKeepsAgreement(a: Helper, b: Helper, c: Command)
    requires Agree(a) && CommandStep(a, b, c)
    ensures Agree(b)
  {
  }

  lemma {:induction false} AlwaysAgree(run: seq<Helper>, k: nat)
    requires Run(run) && k < |run|
    ensures Agree(run[k])
  {
    if k > 0 {
      hide Agree, ThreadStep, PollStep, CommandStep, CloseStep, Initial;
      AlwaysAgree(run, k - 1);
      var a, b := run[k - 1], run[k];
      assert Step(a, b);
      if PollStep(a, b) {
        PollKeepsAgreement(a, b);
      } else if exists c :: CommandStep(a, b, c) {
        var c :| CommandStep(a, b, c);
        CommandKeepsAgreement(a, b, c);
      } else if CloseStep(a, b) {
        CloseKeepsAgreement(a, b);
      } else {
        ThreadKeepsAgreement(a, b);
      }
    }
  }

  // ---------- what the agreement gives over whole runs ----------

  /** Never two live workers, and none outside the slot. */
  lemma AtMostOneLiveThread(run: seq<Helper>, k: nat, i: nat, j: nat)
    requires Run(run) && k < |run|
    requires i < |run[k].world.threads| && j < |run[k].world.threads|
    requires run[k].world.threads[i].Running? && run[k].world.threads[j].Running?
    ensures i == j && run[k].world.Busy()
  {
    AlwaysAgree(run, k);
  }

  /** What a finished thread's result should read as to the user. */
  function Report(o: Outcome): Reply
  {
    match o
    case CatalogDone(r) => if r.Ok? then Done else Refused(Install(r.error))
    case DownloadDone(r) => if r.Ok? then Done else Refused(Install(r.error))
    case InstallDone(_, r) => if r.Ok? then Done else Refused(Install(r.error))
  }

  /** The phase a delivered result leaves. */
  function ResultPhase(o: Outcome, ticket: Ticket): Phase
  {
    match o
    case CatalogDone(Ok(selection)) => Selecting(selection)
    case DownloadDone(Ok(prepared)) => Reviewing(ticket, prepared)
    case _ => Empty
  }

  /** The result of an uncancelled worker is never stale: it is delivered exactly as it is. */
  lemma ResultsAreNeverStale(run: seq<Helper>, k: nat)
    requires Run(run) && k < |run| && SlotOk(run[k].world) && run[k].world.pending.Some?
    requires !run[k].world.pending.value.cancelled
    requires run[k].world.threads[run[k].world.pending.value.thread].Finished?
    ensures var w := run[k].world;
      var o := w.threads[w.pending.value.thread].outcome;
      && Poll(w).1 == Some(Report(o))
      && Poll(w).0.session == Session(w.session.generation, ResultPhase(o, w.pending.value.ticket))
  {
    AlwaysAgree(run, k);
  }

  ghost predicate CancelledWork(h: Helper, thread: nat)
  {
    h.world.pending.Some? && h.world.pending.value.thread == thread && h.world.pending.value.cancelled
  }

  lemma CancelledStep(a: Helper, b: Helper, thread: nat)
    requires Agree(a) && Step(a, b) && thread < |a.world.threads|
    requires CancelledWork(a, thread) || a.world.pending.None? || a.world.pending.value.thread > thread
    ensures thread < |b.world.threads|
    ensures CancelledWork(b, thread) || b.world.pending.None? || b.world.pending.value.thread > thread
  {
  }

  /**
   * Once cancelled, a worker stays cancelled as long as it is in the slot, and when its thread ends
   * nothing of its result reaches the session; it was never an install.
   */
  lemma {:induction false} CancelledIsNeverDelivered(run: seq<Helper>, i: nat, k: nat, thread: nat)
    requires Run(run) && i <= k < |run| && CancelledWork(run[i], thread)
    ensures thread < |run[k].world.threads|
    ensures CancelledWork(run[k], thread) || run[k].world.pending.None? || run[k].world.pending.value.thread > thread
    ensures CancelledWork(run[k], thread) ==>
      && SlotOk(run[k].world) && Poll(run[k].world).0.session == run[k].world.session
      && run[k].world.session.phase == Empty && !WorkOf(run[k].world.threads[thread]).InstallWork?
    decreases k
  {
    hide Run, Step, Agree, Poll, SlotOk, CancelledWork;
    AlwaysAgree(run, k);
    if i < k {
      CancelledIsNeverDelivered(run, i, k - 1, thread);
      AlwaysAgree(run, k - 1);
      RunStep(run, k);
      CancelledStep(run[k - 1], run[k], thread);
    } else {
      CancelledThread(run[k], thread);
    }
    if CancelledWork(run[k], thread) { CancelledNow(run[k], thread); }
  }

  lemma RunStep(run: seq<Helper>, k: nat)
    requires Run(run) && 0 < k < |run|
    ensures Step(run[k - 1], run[k])
  {
    hide Step;
  }

  lemma CancelledThread(h: Helper, thread: nat)
    requires Agree(h) && CancelledWork(h, thread)
    ensures thread < |h.world.threads|
  {
  }

  lemma CancelledNow(h: Helper, thread: nat)
    requires Agree(h) && CancelledWork(h, thread)
    ensures SlotOk(h.world) && thread < |h.world.threads| && Poll(h.world).0.session == h.world.session
    ensures h.world.session.phase == Empty && !WorkOf(h.world.threads[thread]).InstallWork?
  {
  }

  /** A phase that waits for work has its worker, except exactly after a panicked install. */
  lemma WaitingPhasesHaveTheirWorker(run: seq<Helper>, k: nat)
    requires Run(run) && k < |run|
    ensures var w := run[k].world;
      && SlotOk(w)
      && (run[k].installPanicked <==> w.session.InFlight() && w.pending.None?)
      && (w.session.InFlight() && w.pending.Some? ==>
            && !w.pending.value.cancelled
            && w.session.phase == PhaseOf(WorkOf(w.threads[w.pending.value.thread]), w.pending.value.ticket))
  {
    AlwaysAgree(run, k);
  }

  lemma StuckStep(a: Helper, b: Helper)
    requires Agree(a) && a.installPanicked && Step(a, b)
    ensures b.installPanicked && b.world == a.world
  {
  }

  lemma NoneWaited(h: Helper)
    requires Agree(h) && h.installPanicked
    ensures !h.world.Busy()
  {
  }

  lemma StuckRefuses(h: Helper, c: Command)
    requires Agree(h) && h.installPanicked && c != PollOnly
    ensures Dispatch(h.world, c) == (h.world, false)
  {
  }

  /**
   * After a panicked install nothing of session and worker ever changes again: every request but a poll is
   * refused, and closing the helper changes nothing either and lets it leave at once.
   */
  lemma {:induction false} PanickedInstallIsFinal(run: seq<Helper>, i: nat, k: nat, c: Command)
    requires Run(run) && i <= k < |run| && run[i].installPanicked
    ensures run[k].world == run[i].world && run[k].installPanicked
    ensures c != PollOnly ==> Dispatch(run[k].world, c) == (run[k].world, false)
    ensures run[k].closing ==> run[k].Left()
    decreases k
  {
    hide Run, Step, Agree, Dispatch;
    AlwaysAgree(run, k);
    if i < k {
      PanickedInstallIsFinal(run, i, k - 1, c);
      AlwaysAgree(run, k - 1);
      RunStep(run, k);
      StuckStep(run[k - 1], run[k]);
    }
    NoneWaited(run[k]);
    if c != PollOnly {
      StuckRefuses(run[k], c);
    }
  }

  function Then(h: Helper, c: Command): Helper
  {
    h.(world := Dispatch(h.world, c).0, requests := h.requests + 1)
  }

  function Ended(h: Helper, id: nat, t: Thread): Helper
    requires id < |h.world.threads|
  {
    h.(world := h.world.(threads := h.world.threads[id := t]))
  }

  function Polled(h: Helper): Helper
    requires SlotOk(h.world)
  {
    Helper(Poll(h.world).0, h.requests, h.installPanicked || JoinsPanickedInstall(h.world), h.closing)
  }

  lemma CommandLeads(h: Helper, c: Command)
    requires h.requests < MAX_REQUESTS && !h.closing
    ensures Step(h, Then(h, c))
  {
    assert CommandStep(h, Then(h, c), c);
  }

  lemma EndLeads(h: Helper, id: nat, t: Thread)
    requires id < |h.world.threads| && h.world.threads[id].Running? && !t.Running?
    requires WorkOf(t) == WorkOf(h.world.threads[id])
    ensures Step(h, Ended(h, id, t))
  {
    assert ThreadStep(h, Ended(h, id, t));
  }

  lemma PollLeads(h: Helper)
    requires SlotOk(h.world)
    ensures Step(h, Polled(h))
  {
    assert PollStep(h, Polled(h));
  }

  /** The first six steps of the run below: the catalog is checked, a selection downloaded, the review shown. */
  lemma ReviewReached(selection: Selection, prepared: Prepared) returns (run: seq<Helper>)
    ensures Run(run) && run[|run| - 1] == Helper(
      World(Session(2, Reviewing(2, prepared)), None,
            [Finished(CatalogDone(Ok(selection))), Finished(DownloadDone(Ok(prepared)))]), 2, false, false)
  {
    hide Step;
    var h0 := Helper(World(Session(0, Empty), None, []), INITIAL_REQUESTS, false, false);
    var check, download := CheckCatalog(true, true), ConfirmDownload(1, true, Ok(true), true);
    var h1 := Then(h0, check);
    CommandLeads(h0, check);
    var h2 := Ended(h1, 0, Finished(CatalogDone(Ok(selection))));
    EndLeads(h1, 0, Finished(CatalogDone(Ok(selection))));
    var h3 := Polled(h2);
    PollLeads(h2);
    var h4 := Then(h3, download);
    CommandLeads(h3, download);
    var h5 := Ended(h4, 1, Finished(DownloadDone(Ok(prepared))));
    EndLeads(h4, 1, Finished(DownloadDone(Ok(prepared))));
    var h6 := Polled(h5);
    PollLeads(h5);
    run := [h0, h1, h2, h3, h4, h5, h6];
  }

  /** The exception is no empty one: an install may be approved and panic, whatever it would install. */
  lemma InstallMayPanic(selection: Selection, prepared: Prepared) returns (run: seq<Helper>)
    ensures Run(run) && run[|run| - 1].installPanicked
    ensures run[|run| - 1].world.session.phase == Installing(2) && run[|run| - 1].world.pending.None?
  {
    hide Step;
    var before := ReviewReached(selection, prepared);
    var install := ConfirmInstall(2, true, true);
    var h6 := before[|before| - 1];
    var h7 := Then(h6, install);
    CommandLeads(h6, install);
    var h8 := Ended(h7, 2, Panicked(InstallWork(prepared)));
    EndLeads(h7, 2, Panicked(InstallWork(prepared)));
    var h9 := Polled(h8);
    PollLeads(h8);
    run := before + [h7, h8, h9];
    forall i | 0 <= i < |run| - 1
      ensures Step(run[i], run[i + 1])
    {
      if i < |before| - 1 { assert run[i] == before[i] && run[i + 1] == before[i + 1]; }
    }
  }

  // ---------- what the user saw ----------

  /** The view a request names: that of the page it was made on. */
  function ViewOf(c: Command): Option<U64>
  {
    match c
    case Select(view, _) => Some(view)
    case ConfirmDownload(view, _, _, _) => Some(view)
    case ConfirmInstall(view, _, _) => Some(view)
    case _ => None
  }

  /** A request made on another page than the session's changes nothing and is refused. */
  lemma OtherViewsAreRefused(w: World, c: Command)
    requires ViewOf(c).Some? && ViewOf(c).value != w.session.generation
    ensures Dispatch(w, c) == (w, false)
  {
  }

  /** A selection made on the page that is shown replaces it, under a new view. */
  lemma SelectOnItsPage(w: World, selection: Selection, edited: Selection)
    requires !w.Busy() && w.session.phase == Selecting(selection) && w.session.generation < MAX_U64
    ensures Dispatch(w, Select(w.session.generation, Ok(edited)))
         == (w.(session := Session(w.session.generation + 1, Selecting(edited))), true)
  {
  }

  /** A download confirmed on the page that is shown starts, under a new view; without a selection none does. */
  lemma DownloadOfItsPage(w: World, selection: Selection, confirmed: bool)
    requires !w.Busy() && w.session.phase == Selecting(selection) && w.session.generation < MAX_U64
    ensures var (next, carriedOut) := Dispatch(w, ConfirmDownload(w.session.generation, true, Ok(confirmed), true));
      && carriedOut && next.session.generation == w.session.generation + 1
      && (if confirmed then
            && next.session.phase == Downloading(w.session.generation + 1)
            && next.pending == Some(Pending(w.session.generation + 1, false, |w.threads|))
            && next.threads == w.threads + [Running(DownloadWork)]
          else next.session.phase == Empty && next.pending.None? && next.threads == w.threads)
  {
  }

  /** An install confirmed on the review that is shown starts: the install of exactly that review. */
  lemma InstallOfItsReview(w: World, ticket: Ticket, prepared: Prepared)
    requires !w.Busy() && w.session.phase == Reviewing(ticket, prepared)
    ensures Dispatch(w, ConfirmInstall(w.session.generation, true, true))
         == (World(Session(w.session.generation, Installing(ticket)), Some(Pending(ticket, false, |w.threads|)),
                   w.threads + [Running(InstallWork(prepared))]), true)
  {
  }

  /** A check of the catalog starts from any page that nothing is under way on, under a new view. */
  lemma CatalogFromAnyPage(w: World)
    requires !w.Busy() && (w.session.phase == Empty || ShowsPage(w.session)) && w.session.generation < MAX_U64
    ensures var ticket := w.session.generation + 1;
      Dispatch(w, CheckCatalog(true, true))
      == (World(Session(ticket, Checking(ticket)), Some(Pending(ticket, false, |w.threads|)),
                w.threads + [Running(CatalogWork)]), true)
  {
  }

  predicate ShowsPage(s: Session) { s.phase.Selecting? || s.phase.Reviewing? }

  ghost predicate AsksForStore(c: Command)
  {
    c.CheckCatalog? || c.ConfirmDownload? || c.ConfirmInstall?
  }

  /** While a thread is retained, or without the store where it is needed, nothing begins and nothing changes. */
  lemma BusyOrWithoutStore(w: World, c: Command)
    requires !c.CancelAll? && !c.PollOnly?
    requires w.Busy() || (AsksForStore(c) && !c.storeOk)
    ensures Dispatch(w, c) == (w, false)
  {
  }

  /** A cancellation is refused during an install; else it empties the session and marks what is still running. */
  lemma CancelOutcome(w: World)
    requires w.session.generation < MAX_U64
    ensures w.session.phase.Installing? ==> Dispatch(w, CancelAll) == (w, false)
    ensures !w.session.phase.Installing? ==>
      var (next, carriedOut) := Dispatch(w, CancelAll);
      && carriedOut && next.session == Session(w.session.generation + 1, Empty) && next.threads == w.threads
      && (w.pending.None? ==> next.pending.None?)
      && (w.pending.Some? ==>
            next.pending == Some(Pending(w.pending.value.ticket, true, w.pending.value.thread)))
  {
  }

  /** Without a thread from the system the request is refused, nothing runs, and no phase waits for it. */
  lemma NoThreadNoWork(w: World, c: Command)
    requires !w.Busy() && AsksForStore(c) && !c.spawns && w.session.generation < MAX_U64 - 1
    requires !w.session.InFlight()
    ensures var (next, carriedOut) := Dispatch(w, c);
      && next.threads == w.threads && next.pending.None? && !next.session.InFlight()
      && (carriedOut ==> c.ConfirmDownload? && c.confirmed == Ok(false))
  {
  }

  /** Within one view the session only moves on: work, the page it leads to, an install, and nothing. */
  function Stage(p: Phase): nat
  {
    match p
    case Checking(_) => 0
    case Downloading(_) => 0
    case Selecting(_) => 1
    case Reviewing(_, _) => 1
    case Installing(_) => 2
    case Empty => 3
  }

  ghost predicate MovesOn(a: Session, b: Session)
  {
    || a.generation < b.generation
    || (a.generation == b.generation && (a.phase == b.phase || Stage(a.phase) < Stage(b.phase)))
  }

  lemma StepMovesOn(a: Helper, b: Helper)
    requires Agree(a) && Step(a, b)
    ensures MovesOn(a.world.session, b.world.session)
  {
  }

  lemma {:induction false} SessionMovesOn(run: seq<Helper>, i: nat, k: nat)
    requires Run(run) && i <= k < |run|
    ensures MovesOn(run[i].world.session, run[k].world.session)
    decreases k
  {
    hide Run, Step, Agree;
    if i < k {
      SessionMovesOn(run, i, k - 1);
      AlwaysAgree(run, k - 1);
      RunStep(run, k);
      StepMovesOn(run[k - 1], run[k]);
    }
  }

  /** A view names one page: whenever it is shown, it shows the same selection or the same review. */
  lemma OneViewOnePage(run: seq<Helper>, i: nat, k: nat)
    requires Run(run) && i < |run| && k < |run|
    requires run[i].world.session.generation == run[k].world.session.generation
    requires ShowsPage(run[i].world.session) && ShowsPage(run[k].world.session)
    ensures run[i].world.session.phase == run[k].world.session.phase
  {
    hide Run;
    if i <= k { SessionMovesOn(run, i, k); } else { SessionMovesOn(run, k, i); }
  }

  /** The install with this number was started by a confirmation on the page that showed its review. */
  ghost predicate ConfirmedAt(a: Helper, b: Helper, id: nat, prepared: Prepared)
  {
    exists c: Command ::
      && c.ConfirmInstall? && CommandStep(a, b, c) && c.view == a.world.session.generation
      && a.world.session.phase.Reviewing? && a.world.session.phase.prepared == prepared && |a.world.threads| == id
  }

  lemma ThreadOrigin(a: Helper, b: Helper, id: nat)
    requires Agree(a) && Step(a, b) && id < |b.world.threads|
    ensures id < |a.world.threads| ==> WorkOf(a.world.threads[id]) == WorkOf(b.world.threads[id])
    ensures id >= |a.world.threads| && WorkOf(b.world.threads[id]).InstallWork? ==>
      ConfirmedAt(a, b, id, WorkOf(b.world.threads[id]).prepared)
  {
    if id >= |a.world.threads| {
      var c :| CommandStep(a, b, c);
    }
  }

  /** Whatever install ever runs, the user confirmed it on the very review of what it installs. */
  lemma {:induction false} InstallsWhatWasShown(run: seq<Helper>, k: nat, id: nat) returns (i: nat)
    requires Run(run) && k < |run| && id < |run[k].world.threads|
    requires WorkOf(run[k].world.threads[id]).InstallWork?
    ensures i < k && ConfirmedAt(run[i], run[i + 1], id, WorkOf(run[k].world.threads[id]).prepared)
    decreases k
  {
    hide Step, Agree, ConfirmedAt;
    if k > 0 {
      AlwaysAgree(run, k - 1);
      RunStep(run, k);
      ThreadOrigin(run[k - 1], run[k], id);
      if id < |run[k - 1].world.threads| {
        i := InstallsWhatWasShown(run, k - 1, id);
      } else {
        i := k - 1;
      }
    }
  }

  // ---------- the end of the helper ----------

  lemma ClosingStep(a: Helper, b: Helper)
    requires Agree(a) && a.closing && Step(a, b)
    ensures b.closing && |b.world.threads| == |a.world.threads|
    ensures a.Left() ==> b.Left() && b.world.session == a.world.session
  {
  }

  /** A closing helper starts no more work, and once it may leave it stays so. */
  lemma {:induction false} ClosingStartsNothing(run: seq<Helper>, i: nat, k: nat)
    requires Run(run) && i <= k < |run| && run[i].closing
    ensures run[k].closing && |run[k].world.threads| == |run[i].world.threads|
    ensures run[i].Left() ==> run[k].Left() && run[k].world.session == run[i].world.session
    decreases k
  {
    hide Step, Agree;
    if i < k {
      ClosingStartsNothing(run, i, k - 1);
      AlwaysAgree(run, k - 1);
      ClosingStep(run[k - 1], run[k]);
    }
  }

  /**
   * What a closing helper still waits for is cancelled, or an install that was under way, which is never cut
   * off; and as soon as that one thread has ended, the next poll lets the helper leave, with the session empty
   * unless that poll joined the panic of the install.
   */
  lemma ClosingWaitsForOneThread(run: seq<Helper>, k: nat)
    requires Run(run) && k < |run| && run[k].closing && run[k].world.Busy()
    ensures SlotOk(run[k].world)
    ensures var w := run[k].world;
      var t := w.threads[w.pending.value.thread];
      && (w.pending.value.cancelled <==> !WorkOf(t).InstallWork?)
      && (!t.Running? ==>
            && Polled(run[k]).Left()
            && (Polled(run[k]).world.session.phase == Empty <==> !Polled(run[k]).installPanicked))
  {
    AlwaysAgree(run, k);
  }

  /** Within the request limit no session call is ever refused for want of generations. */
  lemma GenerationsNeverRunOut(run: seq<Helper>, k: nat, call: Call)
    requires Run(run) && k < |run|
    ensures run[k].world.session.generation <= 2 * MAX_REQUESTS + (if run[k].closing then 1 else 0)
    ensures Apply(run[k].world.session, call).1 != Refused(Exhausted)
  {
    AlwaysAgree(run, k);
  }

  // ---------- the worker object ----------

  /** The threads of the process; the operating system moves them on between the calls below. */
  class Threads {
    var list: seq<Thread>

    constructor ()
      ensures list == []
    {
      list := [];
    }
  }

  class InstallerWorker {
    var pending: Option<Pending>

    ghost function WorldOf(session: InstallerSession, threads: Threads): World
      reads this, session, threads
    {
      World(session.View(), pending, threads.list)
    }

    constructor ()
      ensures pending.None?
    {
      pending := None;
    }

    method SpawnThread(threads: Threads, ticket: Ticket, work: Work)
      modifies this, threads
      ensures pending == Some(Pending(ticket, false, |old(threads.list)|))
      ensures threads.list == old(threads.list) + [Running(work)]
    {
      pending := Some(Pending(ticket, false, |threads.list|));
      threads.list := threads.list + [Running(work)];
    }

    method StartCatalogWork(session: InstallerSession, threads: Threads, spawns: bool) returns (r: Reply)
      modifies this, session, threads
      ensures (WorldOf(session, threads), r) == StartCatalog(old(WorldOf(session, threads)), spawns)
    {
      if pending.Some? { return Refused(WrongState); }
      r := session.BeginCatalogCheck();
      if !r.Issued? { return r; }
      if spawns {
        SpawnThread(threads, r.ticket, CatalogWork);
        return Done;
      }
      var _ := session.Revoke();
      return Refused(WrongState);
    }

    method StartDownloadWork(session: InstallerSession, threads: Threads, ticket: Ticket, spawns: bool)
      returns (r: Reply)
      modifies this, session, threads
      ensures (WorldOf(session, threads), r) == StartDownload(old(WorldOf(session, threads)), ticket, spawns)
    {
      if pending.Some? || !session.phase.Downloading? || session.phase.ticket != ticket { return Refused(WrongState); }
      if spawns {
        SpawnThread(threads, ticket, DownloadWork);
        return Done;
      }
      var _ := session.Revoke();
      return Refused(WrongState);
    }

    method StartInstallWork(session: InstallerSession, threads: Threads, ticket: Ticket, prepared: Prepared,
                            spawns: bool)
      returns (r: Reply)
      modifies this, session, threads
      ensures (WorldOf(session, threads), r) == StartInstall(old(WorldOf(session, threads)), ticket, prepared, spawns)
    {
      if pending.Some? || !session.phase.Installing? || session.phase.ticket != ticket { return Refused(WrongState); }
      if spawns {
        SpawnThread(threads, ticket, InstallWork(prepared));
        return Done;
      }
      var _ := session.CompleteInstall(ticket);
      return Refused(WrongState);
    }

    method PollWork(session: InstallerSession, threads: Threads) returns (r: Option<Reply>)
      requires SlotOk(WorldOf(session, threads))
      modifies this, session
      ensures (WorldOf(session, threads), r) == Poll(old(WorldOf(session, threads)))
    {
      if pending.None? || threads.list[pending.value.thread].Running? { return None; }
      var taken := pending.value;
      pending := None;
      if taken.cancelled { return Some(Refused(Install(Cancelled))); }
      match threads.list[taken.thread]
      case Finished(CatalogDone(result)) =>
        var reply := session.FinishCatalogCheck(taken.ticket, result);
        return Some(reply);
      case Finished(DownloadDone(result)) =>
        var reply := session.CompleteDownload(taken.ticket, result);
        return Some(reply);
      case Finished(InstallDone(_, result)) =>
        var reply := session.CompleteInstall(taken.ticket);
        if reply == Done && result.Err? { return Some(Refused(Install(result.error))); }
        return Some(reply);
      case Panicked(_) =>
        var _ := session.Revoke();
        return Some(Refused(WrongState));
    }

    method CancelPending(session: InstallerSession, threads: Threads) returns (r: Reply)
      modifies this, session
      ensures (WorldOf(session, threads), r) == CancelWork(old(WorldOf(session, threads)))
    {
      r := session.Revoke();
      if r.Refused? { return r; }
      if pending.Some? { pending := Some(pending.value.(cancelled := true)); }
    }
  }
}
