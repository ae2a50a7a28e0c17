/** The installer workflow: tickets, its phases and the approval chain (src/installer_session.rs). */
module InstallerSession {
  import opened Wrappers

  type Ticket = U64

  /** The model of the selection page, and a download that is ready to install. */
  type Selection(==, !new)
  type Prepared(==, !new)

  datatype Phase =
    | Empty
    | Checking(ticket: Ticket)
    | Selecting(selection: Selection)
    | Downloading(ticket: Ticket)
    | Reviewing(ticket: Ticket, prepared: Prepared)
    | Installing(ticket: Ticket)

  datatype InstallError = Cancelled | Failed(code: nat)

  datatype SessionError = WrongState | Exhausted | Install(error: InstallError)

  datatype Session = Session(generation: U64, phase: Phase)
  {
    predicate InFlight() { phase.Checking? || phase.Downloading? || phase.Installing? }
  }

  /** What a session call answers. */
  datatype Reply =
    | Done
    | Issued(ticket: Ticket)
    | NothingSelected
    | Released(prepared: Prepared)
    | Refused(error: SessionError)

  /** A call with what the outside contributed to it: results of workers and of selection checks. */
  datatype Call =
    | BeginCatalog
    | FinishCatalog(ticket: Ticket, catalog: Result<Selection, InstallError>)
    | ShowCatalog(selection: Selection)
    | EditSelection(edited: Selection)
    | ReplaceSelection(view: U64, replaced: Result<Selection, InstallError>)
    | BeginDownload(confirmed: Result<bool, InstallError>)
    | FinishDownload(ticket: Ticket, download: Result<Prepared, InstallError>)
    | BeginInstall(ticket: Ticket)
    | FinishInstall(ticket: Ticket)
    | Cancel

  /** Claims the next generation for `phase`, which may depend on the ticket it makes. */
  function Claim(s: Session, phase: U64 -> Phase, reply: U64 -> Reply): (Session, Reply)
  {
    match CheckedAdd(s.generation, 1)
    case None => (s, Refused(Exhausted))
    case Some(g) => (Session(g, phase(g)), reply(g))
  }

  /** One call of the session. */
  function Apply(s: Session, call: Call): (Session, Reply)
  {
    match call
    case BeginCatalog =>
      if s.InFlight() then (s, Refused(WrongState))
      else Claim(s, (g: U64) => Checking(g), (g: U64) => Issued(g))
    case FinishCatalog(t, result) =>
      if s.phase != Checking(t) then (s, Refused(WrongState))
      else
        (match result
         case Err(e) => (s.(phase := Empty), Refused(Install(e)))
         case Ok(selection) => (s.(phase := Selecting(selection)), Done))
    case ShowCatalog(selection) =>
      if s.InFlight() then (s, Refused(WrongState))
      else Claim(s, (g: U64) => Selecting(selection), (g: U64) => Done)
    case EditSelection(edited) =>
      if !s.phase.Selecting? then (s, Refused(WrongState)) else (s.(phase := Selecting(edited)), Done)
    case ReplaceSelection(view, replaced) =>
      if view != s.generation then (s, Refused(WrongState))
      else if CheckedAdd(s.generation, 1).None? then (s, Refused(Exhausted))
      else if !s.phase.Selecting? then (s, Refused(WrongState))
      else
        (match replaced
         case Err(e) => (s, Refused(Install(e)))
         case Ok(selection) => (Session(s.generation + 1, Selecting(selection)), Done))
    case BeginDownload(confirmed) =>
      if !s.phase.Selecting? then (s, Refused(WrongState))
      else
        Claim(s,
          (g: U64) => if confirmed == Ok(true) then Downloading(g) else Empty,
          (g: U64) =>
            match confirmed
            case Err(e) => Refused(Install(e))
            case Ok(some) => if some then Issued(g) else NothingSelected)
    case FinishDownload(t, result) =>
      if s.phase != Downloading(t) then (s, Refused(WrongState))
      else
        (match result
         case Err(e) => (s.(phase := Empty), Refused(Install(e)))
         case Ok(prepared) => (s.(phase := Reviewing(t, prepared)), Done))
    case BeginInstall(t) =>
      if s.phase.Reviewing? && s.phase.ticket == t then (s.(phase := Installing(t)), Released(s.phase.prepared))
      else (s, Refused(WrongState))
    case FinishInstall(t) =>
      if s.phase != Installing(t) then (s, Refused(WrongState)) else (s.(phase := Empty), Done)
    case Cancel =>
      if s.phase.Installing? then (s, Refused(WrongState))
      else Claim(s, (g: U64) => Empty, (g: U64) => Done)
  }

  // ---------- runs of calls ----------

  /** `states[i]` is the session before `calls[i]`; anything may call anything at any time. */
  ghost predicate Run(states: seq<Session>, calls: seq<Call>)
  {
    && |states| == |calls| + 1
    && states[0] == Session(0, Empty)
    && forall i :: 0 <= i < |calls| ==> states[i + 1] == Apply(states[i], calls[i]).0
  }

  function ReplyAt(states: seq<Session>, calls: seq<Call>, i: nat): Reply
    requires i < |calls| && i < |states|
  {
    Apply(states[i], calls[i]).1
  }

  lemma StepGeneration(s: Session, call: Call)
    ensures s.generation <= Apply(s, call).0.generation
    ensures Apply(s, call).1.Issued? ==>
      Apply(s, call).1.ticket == Apply(s, call).0.generation == s.generation + 1
  {
  }

  lemma {:induction false} GenerationsGrow(states: seq<Session>, calls: seq<Call>, i: nat, j: nat)
    requires Run(states, calls) && i <= j < |states|
    ensures states[i].generation <= states[j].generation
    decreases j
  {
    hide Apply;
    if i < j {
      GenerationsGrow(states, calls, i, j - 1);
      StepGeneration(states[j - 1], calls[j - 1]);
    }
  }

  /** Tickets strictly increase over any run, so no ticket is ever issued twice. */
  lemma TicketsIncrease(states: seq<Session>, calls: seq<Call>, i: nat, j: nat)
    requires Run(states, calls) && i < j < |calls|
    requires ReplyAt(states, calls, i).Issued? && ReplyAt(states, calls, j).Issued?
    ensures ReplyAt(states, calls, i).ticket < ReplyAt(states, calls, j).ticket
  {
    hide Apply;
    StepGeneration(states[i], calls[i]);
    StepGeneration(states[j], calls[j]);
    GenerationsGrow(states, calls, i + 1, j);
  }

  // ---------- the approval chain ----------

  /** From the approval of the download at call `i` on, up to state `k`, the session only downloads. */
  ghost predicate DownloadingSince(states: seq<Session>, calls: seq<Call>, i: nat, k: nat, t: Ticket)
    requires Run(states, calls)
  {
    && i < k < |states|
    && calls[i].BeginDownload? && ReplyAt(states, calls, i) == Issued(t)
    && forall m :: i < m <= k ==> states[m] == Session(t, Downloading(t))
  }

  /** From the completed download at call `j` on, up to state `k`, the session only shows the review. */
  ghost predicate ReviewingSince(states: seq<Session>, calls: seq<Call>, j: nat, k: nat, t: Ticket, p: Prepared)
    requires Run(states, calls)
  {
    && j < k < |states|
    && calls[j] == FinishDownload(t, Ok(p)) && ReplyAt(states, calls, j) == Done
    && forall m :: j < m <= k ==> states[m] == Session(t, Reviewing(t, p))
  }

  /** The selection that a call brings in. */
  function Brought(call: Call): Option<Selection>
  {
    match call
    case FinishCatalog(_, Ok(selection)) => Some(selection)
    case ShowCatalog(selection) => Some(selection)
    case EditSelection(edited) => Some(edited)
    case ReplaceSelection(_, Ok(selection)) => Some(selection)
    case _ => None
  }

  /** From call `i` on, which brought the selection in, up to state `k`, the page shows just this selection. */
  ghost predicate ShownSince(states: seq<Session>, calls: seq<Call>, i: nat, k: nat, selection: Selection)
    requires Run(states, calls)
  {
    && i < k < |states|
    && Brought(calls[i]) == Some(selection) && ReplyAt(states, calls, i) == Done
    && (calls[i].EditSelection? ==> states[i].phase.Selecting? && states[i].generation == states[i + 1].generation)
    && (calls[i].ReplaceSelection? ==> states[i].phase.Selecting? && calls[i].view == states[i].generation)
    && (calls[i].FinishCatalog? ==> states[i].phase == Checking(calls[i].ticket))
    && forall m :: i < m <= k ==> states[m].phase == Selecting(selection)
  }

  lemma StepIntoSelecting(s: Session, call: Call)
    requires Apply(s, call).0.phase.Selecting?
    ensures
      || Apply(s, call).0 == s
      || (Brought(call) == Some(Apply(s, call).0.phase.selection) && Apply(s, call).1 == Done
          && (call.EditSelection? ==> s.phase.Selecting? && s.generation == Apply(s, call).0.generation)
          && (call.ReplaceSelection? ==> s.phase.Selecting? && call.view == s.generation)
          && (call.FinishCatalog? ==> s.phase == Checking(call.ticket)))
  {
  }

  /** What is shown was brought in by a checked catalog, a new one, or an edit of the page that is open. */
  lemma {:induction false} SelectionOrigin(states: seq<Session>, calls: seq<Call>, k: nat) returns (i: nat)
    requires Run(states, calls) && k < |states| && states[k].phase.Selecting?
    ensures ShownSince(states, calls, i, k, states[k].phase.selection)
    decreases k
  {
    hide Apply;
    assert k > 0;
    StepIntoSelecting(states[k - 1], calls[k - 1]);
    if states[k] == states[k - 1] {
      i := SelectionOrigin(states, calls, k - 1);
    } else {
      i := k - 1;
    }
  }

  lemma StepIntoDownloading(s: Session, call: Call)
    requires Apply(s, call).0.phase.Downloading?
    ensures
      || (call.BeginDownload? && Apply(s, call).1 == Issued(Apply(s, call).0.generation)
          && Apply(s, call).0.phase.ticket == Apply(s, call).0.generation)
      || Apply(s, call).0 == s
  {
  }

  lemma StepIntoReviewing(s: Session, call: Call)
    requires Apply(s, call).0.phase.Reviewing?
    ensures var next := Apply(s, call).0;
      || (s.phase == Downloading(next.phase.ticket) && s.generation == next.generation
          && call == FinishDownload(next.phase.ticket, Ok(next.phase.prepared)) && Apply(s, call).1 == Done)
      || next == s
  {
  }

  lemma {:induction false} DownloadOrigin(states: seq<Session>, calls: seq<Call>, k: nat) returns (i: nat)
    requires Run(states, calls) && k < |states| && states[k].phase.Downloading?
    ensures DownloadingSince(states, calls, i, k, states[k].phase.ticket)
    decreases k
  {
    hide Apply;
    assert k > 0;
    StepIntoDownloading(states[k - 1], calls[k - 1]);
    if states[k] == states[k - 1] {
      i := DownloadOrigin(states, calls, k - 1);
    } else {
      i := k - 1;
    }
  }

  lemma {:induction false} ReviewOrigin(states: seq<Session>, calls: seq<Call>, k: nat)
    returns (i: nat, j: nat)
    requires Run(states, calls) && k < |states| && states[k].phase.Reviewing?
    ensures ReviewingSince(states, calls, j, k, states[k].phase.ticket, states[k].phase.prepared)
    ensures DownloadingSince(states, calls, i, j, states[k].phase.ticket)
    decreases k
  {
    hide Apply;
    assert k > 0;
    StepIntoReviewing(states[k - 1], calls[k - 1]);
    if states[k] == states[k - 1] {
      i, j := ReviewOrigin(states, calls, k - 1);
    } else {
      j := k - 1;
      i := DownloadOrigin(states, calls, j);
      assert states[j] == Session(states[k].phase.ticket, Downloading(states[k].phase.ticket));
    }
  }

  /**
   * An install begins only for a ticket that a download approval issued and a completed download
   * answered, with no cancellation, refresh or other change of the session in between, and it
   * hands out exactly what that download prepared.
   */
  lemma InstallWasApproved(states: seq<Session>, calls: seq<Call>, k: nat) returns (i: nat, j: nat)
    requires Run(states, calls) && k < |calls| && calls[k].BeginInstall? && ReplyAt(states, calls, k).Released?
    ensures DownloadingSince(states, calls, i, j, calls[k].ticket)
    ensures ReviewingSince(states, calls, j, k, calls[k].ticket, ReplyAt(states, calls, k).prepared)
  {
    i, j := ReviewOrigin(states, calls, k);
  }

  /** No approval installs twice: later installs always carry later tickets. */
  lemma InstallsAtMostOnce(states: seq<Session>, calls: seq<Call>, k: nat, m: nat)
    requires Run(states, calls) && k < m < |calls|
    requires calls[k].BeginInstall? && ReplyAt(states, calls, k).Released?
    requires calls[m].BeginInstall? && ReplyAt(states, calls, m).Released?
    ensures calls[k].ticket < calls[m].ticket
  {
    var i0, j0 := InstallWasApproved(states, calls, k);
    var i, j := InstallWasApproved(states, calls, m);
    assert states[k + 1].phase.Installing?;
    assert i >= k + 1 by {
      assert forall n :: i < n <= m ==> !states[n].phase.Installing?;
    }
    assert states[k] == Session(calls[k].ticket, states[k].phase);
    GenerationsGrow(states, calls, k, i);
    StepGeneration(states[i], calls[i]);
  }

  // ---------- the session object ----------

  /** The session as the helper holds it; each method is one call of the model above. */
  class InstallerSession {
    var generation: U64
    var phase: Phase

    ghost function View(): Session
      reads this
    {
      Session(generation, phase)
    }

    constructor ()
      ensures View() == Session(0, Empty)
    {
      generation, phase := 0, Empty;
    }

    method Next() returns (r: Option<Ticket>)
      modifies this`generation
      ensures r == CheckedAdd(old(generation), 1)
      ensures generation == if r.Some? then r.value else old(generation)
    {
      r := CheckedAdd(generation, 1);
      if r.Some? { generation := r.value; }
    }

    method BeginCatalogCheck() returns (r: Reply)
      modifies this
      ensures (View(), r) == Apply(old(View()), BeginCatalog)
    {
      if phase.Checking? || phase.Downloading? || phase.Installing? { return Refused(WrongState); }
      var ticket := Next();
      if ticket.None? { return Refused(Exhausted); }
      phase := Checking(ticket.value);
      return Issued(ticket.value);
    }

    method FinishCatalogCheck(ticket: Ticket, result: Result<Selection, InstallError>) returns (r: Reply)
      modifies this
      ensures (View(), r) == Apply(old(View()), FinishCatalog(ticket, result))
    {
      if !phase.Checking? || phase.ticket != ticket { return Refused(WrongState); }
      phase := Empty;
      if result.Err? { return Refused(Install(result.error)); }
      phase := Selecting(result.value);
      return Done;
    }

    method Show(selection: Selection) returns (r: Reply)
      modifies this
      ensures (View(), r) == Apply(old(View()), ShowCatalog(selection))
    {
      if phase.Checking? || phase.Downloading? || phase.Installing? { return Refused(WrongState); }
      var ticket := Next();
      if ticket.None? { return Refused(Exhausted); }
      phase := Selecting(selection);
      return Done;
    }

    method Replace(view: U64, replaced: Result<Selection, InstallError>) returns (r: Reply)
      modifies this
      ensures (View(), r) == Apply(old(View()), ReplaceSelection(view, replaced))
    {
      if view != generation { return Refused(WrongState); }
      var next := CheckedAdd(generation, 1);
      if next.None? { return Refused(Exhausted); }
      if !phase.Selecting? { return Refused(WrongState); }
      if replaced.Err? { return Refused(Install(replaced.error)); }
      phase := Selecting(replaced.value);
      generation := next.value;
      return Done;
    }

    /** `selection` hands the open page out for editing; the edit lands in the session's own phase. */
    method Edit(edited: Selection) returns (r: Reply)
      modifies this`phase
      ensures (View(), r) == Apply(old(View()), EditSelection(edited))
    {
      if !phase.Selecting? { return Refused(WrongState); }
      phase := Selecting(edited);
      return Done;
    }

    method ApproveDownload(confirmed: Result<bool, InstallError>) returns (r: Reply)
      modifies this
      ensures (View(), r) == Apply(old(View()), BeginDownload(confirmed))
    {
      if !phase.Selecting? { return Refused(WrongState); }
      var ticket := Next();
      if ticket.None? { return Refused(Exhausted); }
      phase := Empty;
      if confirmed.Err? { return Refused(Install(confirmed.error)); }
      if !confirmed.value { return NothingSelected; }
      phase := Downloading(ticket.value);
      return Issued(ticket.value);
    }

    method CompleteDownload(ticket: Ticket, result: Result<Prepared, InstallError>) returns (r: Reply)
      modifies this
      ensures (View(), r) == Apply(old(View()), FinishDownload(ticket, result))
    {
      if !phase.Downloading? || phase.ticket != ticket { return Refused(WrongState); }
      phase := Empty;
      if result.Err? { return Refused(Install(result.error)); }
      phase := Reviewing(ticket, result.value);
      return Done;
    }

    method ApproveInstall(ticket: Ticket) returns (r: Reply)
      modifies this
      ensures (View(), r) == Apply(old(View()), BeginInstall(ticket))
    {
      if !phase.Reviewing? || phase.ticket != ticket { return Refused(WrongState); }
      var prepared := phase.prepared;
      phase := Installing(ticket);
      return Released(prepared);
    }

    method CompleteInstall(ticket: Ticket) returns (r: Reply)
      modifies this
      ensures (View(), r) == Apply(old(View()), FinishInstall(ticket))
    {
      if !phase.Installing? || phase.ticket != ticket { return Refused(WrongState); }
      phase := Empty;
      return Done;
    }

    method Revoke() returns (r: Reply)
      modifies this
      ensures (View(), r) == Apply(old(View()), Cancel)
    {
      if phase.Installing? { return Refused(WrongState); }
      var ticket := Next();
      if ticket.None? { return Refused(Exhausted); }
      phase := Empty;
      return Done;
    }
  }
}
