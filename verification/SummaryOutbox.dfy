/**
 The summary outbox under concurrent, crashing publishers: a publisher loads a summary, publishes it
 to Kafka, and only then acknowledges its revision; meanwhile any other script may run, and the
 record may expire and be created anew.
 */
module SummaryOutbox {
  import opened Common
  import opened Histogram
  import opened RunRecord
  import opened RunLaws
  import opened RunOutcomes

  /** A publication. `life` counts the expiries of the run's record before the summary was loaded. */
  datatype Event = Event(life: nat, revision: nat, summary: Summary)

  /** `at` is when the summary was loaded. */
  datatype Holding = Loaded(event: Event, at: nat) | Sent(event: Event, at: nat)

  datatype Sys = Sys(w: World, life: nat, holding: map<nat, Holding>, published: set<Event>)

  datatype Action =
    | RunScript(op: Op)
    | Drop
    | Load(p: nat)
    | Publish(p: nat)
    | Ack(p: nat)
    | Crash(p: nat)

  /** The record has not expired. */
  ghost predicate Alive(w: World) {
    Evicted(w.slot, w.now) == w.slot
  }

  /** Redis drops an expired record before the next script or read sees it. */
  ghost predicate Next(cfg: Config, s: Sys, a: Action, s': Sys) {
    match a
    case RunScript(op) =>
      !op.Acknowledge? && Legal(cfg, s.w, op) && Alive(s.w) && s' == s.(w := Script(cfg, s.w, op))
    case Drop => !Alive(s.w) && s' == s.(w := Live(s.w), life := s.life + 1)
    case Load(p) =>
      && Alive(s.w) && LoadSummary(s.w.slot).Ok? && LoadSummary(s.w.slot).value.Some?
      && var d := LoadSummary(s.w.slot).value.value;
         d.pending && s' == s.(holding := s.holding[p := Loaded(Event(s.life, d.revision, d.summary), s.w.now)])
    case Publish(p) =>
      && p in s.holding && s.holding[p].Loaded?
      && s' == s.(holding := s.holding[p := Sent(s.holding[p].event, s.holding[p].at)], published := s.published + {s.holding[p].event})
    case Ack(p) =>
      && p in s.holding && s.holding[p].Sent? && Alive(s.w)
      && s' == s.(w := Script(cfg, s.w, Acknowledge(s.holding[p].event.revision)), holding := s.holding - {p})
    case Crash(p) => p in s.holding && s' == s.(holding := s.holding - {p})
  }

  const INIT := Sys(START, 0, map[], {})

  ghost predicate Run(cfg: Config, states: seq<Sys>, actions: seq<Action>) {
    && |states| == |actions| + 1 && states[0] == INIT
    && forall n :: 0 <= n < |actions| ==> Next(cfg, states[n], actions[n], states[n + 1])
  }

  // ---- How a record evolves ------------------------------------------------------------------

  /** Later record `r'` of the same run: revisions and slices only grow, and nothing else changes without them. */
  ghost predicate Evolves(r: RunRecord.Run, r': RunRecord.Run) {
    && r'.meta == r.meta
    && r.revision <= r'.revision && r.tally.received <= r'.tally.received
    && (r.revision == r'.revision ==> r'.status == r.status && r'.finalizedAt == r.finalizedAt)
    && (r.tally.received == r'.tally.received ==> r'.tally == r.tally && r'.firstAt == r.firstAt)
    && (r.tally.received > 0 ==> r'.bounds == r.bounds)
    && (r.bounds != [] ==> r'.bounds == r.bounds)
  }

  lemma AbsorbEvolves(cfg: Config, s: Slot, r: RunRecord.Run, x: Slice, now: nat)
    requires s.run == Some(r)
    ensures var s' := Absorb(s, r, x, now, cfg).0; s'.run.Some? && Evolves(r, s'.run.value)
  {
  }

  lemma IngestEvolves(cfg: Config, s: Slot, x: Slice, now: nat, others: nat)
    requires s.run.Some?
    ensures var s' := IngestStep(s, x, now, cfg, others).0; s'.run.Some? && Evolves(s.run.value, s'.run.value)
  {
    var r := s.run.value;
    var noted := Noted(r, x);
    assert Evolves(r, noted);
    if Screen(r, x).Merge? {
      AbsorbEvolves(cfg, Pruned(s, now).(run := Some(noted)), noted, x, now);
    }
  }

  lemma ScriptEvolves(cfg: Config, w: World, op: Op)
    requires w.slot.run.Some?
    ensures Script(cfg, w, op).slot.run.Some? && Evolves(w.slot.run.value, Script(cfg, w, op).slot.run.value)
  {
    if op.Ingest? {
      IngestEvolves(cfg, w.slot, op.x, w.now, op.others);
    }
  }

  /** Two summaries of one revision differ exactly when a slice arrived or a rejected result set the bounds in between. */
  lemma SummariesDiffer(r: RunRecord.Run, r': RunRecord.Run)
    requires Evolves(r, r') && r.revision == r'.revision && SummaryOf(r).Ok?
    requires TallyInv(r.meta, r.bounds, r.tally) && ControlInv(r)
    requires TallyInv(r'.meta, r'.bounds, r'.tally) && ControlInv(r')
    ensures SummaryOf(r) == SummaryOf(r') <==> r.tally.received == r'.tally.received && r.bounds == r'.bounds
  {
    FinalizedRecordDecodes(r);
    FinalizedRecordDecodes(r');
  }

  /** And it can differ: a late slice that does not complete the run changes an already numbered summary. */
  lemma LateSliceChangesNumberedSummary(cfg: Config, s: Slot, x: Slice, now: nat, others: nat)
    requires SlotInv(cfg, s, now) && ValidSlice(x) && ValidConfig(cfg) && s.run.Some?
    requires IngestStep(s, x, now, cfg, others).1.LateAccepted?
    ensures var s' := IngestStep(s, x, now, cfg, others).0;
            && s'.run.Some? && s'.run.value.revision == s.run.value.revision
            && s'.run.value.status == s.run.value.status
            && SummaryOf(s'.run.value).Ok? && SummaryOf(s'.run.value) != SummaryOf(s.run.value)
  {
    var s' := IngestStep(s, x, now, cfg, others).0;
    IngestKeepsTally(cfg, s, x, now, others);
    IngestKeepsControl(cfg, s, x, now, others);
    LateAcceptedReply(cfg, s, x, now, others);
    FinalizedRecordDecodes(s'.run.value);
  }

  lemma LateAcceptedReply(cfg: Config, s: Slot, x: Slice, now: nat, others: nat)
    requires s.run.Some? && IngestStep(s, x, now, cfg, others).1.LateAccepted?
    ensures var s' := IngestStep(s, x, now, cfg, others).0;
            && s'.run.Some? && s'.run.value.revision == s.run.value.revision
            && s'.run.value.status == s.run.value.status && !s.run.value.status.Open?
            && s'.run.value.tally.received == s.run.value.tally.received + 1
  {
  }

  // ---- The protocol --------------------------------------------------------------------------

  /** `e` may be published or held for record `r`: no newer than it, and exact once the run is complete. */
  ghost predicate EventOk(r: RunRecord.Run, e: Event) {
    && 1 <= e.revision <= r.revision
    && (r.status.Complete? && e.revision == r.revision ==> SummaryOf(r) == Ok(e.summary))
  }

  /** Events of the current record fit it; events of dropped records are older. */
  ghost predicate EventFits(slot: Slot, life: nat, e: Event) {
    e.life <= life && (e.life == life ==> slot.run.Some? && EventOk(slot.run.value, e))
  }

  ghost predicate HeldOk(s: Sys, h: Holding) {
    EventFits(s.w.slot, s.life, h.event) && (h.Sent? ==> h.event in s.published)
  }

  ghost predicate EventsOk(s: Sys) {
    && (forall e :: e in s.published ==> EventFits(s.w.slot, s.life, e))
    && (forall p :: p in s.holding ==> HeldOk(s, s.holding[p]))
  }

  /** A record outlives the load of its pending summary by the retention. */
  ghost predicate HeldInTime(cfg: Config, s: Sys, h: Holding) {
    && h.at <= s.w.now
    && (h.event.life == s.life ==> s.w.slot.expireAt.Some? ==> h.at + cfg.retention <= s.w.slot.expireAt.value)
    && (h.event.life < s.life ==> h.at + cfg.retention < s.w.now)
  }

  ghost predicate TimesOk(cfg: Config, s: Sys) {
    forall p :: p in s.holding ==> HeldInTime(cfg, s, s.holding[p])
  }

  ghost predicate Inv(cfg: Config, s: Sys) {
    SlotInv(cfg, s.w.slot, s.w.now) && EventsOk(s) && TimesOk(cfg, s)
  }

  lemma EvolvingKeepsEvent(r: RunRecord.Run, r': RunRecord.Run, e: Event)
    requires EventOk(r, e) && Evolves(r, r') && ControlInv(r) && ControlInv(r')
    requires r.status.Complete? ==> r' == r.(acked := r'.acked)
    ensures EventOk(r', e)
  {
    if r.status.Complete? {
      assert SummaryOf(r') == SummaryOf(r);
    }
  }

  lemma EventsTransfer(s: Sys, s': Sys)
    requires EventsOk(s) && s'.published == s.published && s'.holding == s.holding
    requires forall e :: EventFits(s.w.slot, s.life, e) ==> EventFits(s'.w.slot, s'.life, e)
    ensures EventsOk(s')
  {
    forall p | p in s'.holding ensures HeldOk(s', s'.holding[p]) {
      assert HeldOk(s, s.holding[p]);
    }
  }

  lemma ScriptKeepsEvents(cfg: Config, s: Sys, op: Op, w': World)
    requires ControlOk(cfg, s.w.slot, s.w.now) && EventsOk(s) && w' == Script(cfg, s.w, op) && ControlOk(cfg, w'.slot, w'.now)
    ensures EventsOk(s.(w := w'))
  {
    forall e | EventFits(s.w.slot, s.life, e) ensures EventFits(w'.slot, s.life, e) {
      if e.life == s.life {
        ScriptEvolves(cfg, s.w, op);
        if s.w.slot.run.value.status.Complete? {
          CompleteRecordIsFinal(cfg, s.w, op);
        }
        EvolvingKeepsEvent(s.w.slot.run.value, w'.slot.run.value, e);
      }
    }
    EventsTransfer(s, s.(w := w'));
  }

  lemma ScriptKeepsInv(cfg: Config, s: Sys, op: Op, w': World)
    requires ValidConfig(cfg) && SlotInv(cfg, s.w.slot, s.w.now) && Legal(cfg, s.w, op) && w' == Script(cfg, s.w, op)
    ensures SlotInv(cfg, w'.slot, w'.now)
  {
    ApplyKeepsTally(cfg, s.w, op);
    ApplyKeepsControl(cfg, s.w, op);
  }

  /** A script leaves the expiry, lifts it, or sets it a full retention ahead. */
  lemma ExpiryMoves(cfg: Config, w: World, op: Op)
    ensures var w' := Script(cfg, w, op);
            && w.now <= w'.now
            && (w'.slot.expireAt == w.slot.expireAt || w'.slot.expireAt.None? || w'.slot.expireAt == Some(w.now + cfg.retention))
  {
  }

  lemma ScriptKeepsTimes(cfg: Config, s: Sys, op: Op, w': World)
    requires TimesOk(cfg, s) && w' == Script(cfg, s.w, op)
    ensures TimesOk(cfg, s.(w := w'))
  {
    ExpiryMoves(cfg, s.w, op);
    forall p | p in s.holding ensures HeldInTime(cfg, s.(w := w'), s.holding[p]) {
      assert HeldInTime(cfg, s, s.holding[p]);
    }
  }

  lemma DropKeepsInv(cfg: Config, s: Sys, s': Sys)
    requires Inv(cfg, s) && Next(cfg, s, Drop, s')
    ensures Inv(cfg, s')
  {
    EvictionKeepsInv(cfg, s.w);
    EventsTransfer(s, s');
    forall p | p in s'.holding ensures HeldInTime(cfg, s', s'.holding[p]) {
      assert HeldOk(s, s.holding[p]) && HeldInTime(cfg, s, s.holding[p]);
    }
  }

  /** Only an acknowledgement moves the acknowledged revision, and only to the revision it names. */
  lemma AckedMoves(cfg: Config, w: World, op: Op)
    requires Script(cfg, w, op).slot.run.Some?
    ensures var a' := Script(cfg, w, op).slot.run.value.acked;
            && (w.slot.run.None? ==> a' == 0)
            && (w.slot.run.Some? && a' != w.slot.run.value.acked ==> op.Acknowledge? && a' == op.revision)
  {
  }

  lemma LoadKeepsInv(cfg: Config, s: Sys, p: nat, s': Sys)
    requires Inv(cfg, s) && Next(cfg, s, Load(p), s')
    ensures Inv(cfg, s')
  {
    forall q | q in s'.holding ensures HeldOk(s', s'.holding[q]) && HeldInTime(cfg, s', s'.holding[q]) {
      if q != p {
        assert HeldOk(s, s.holding[q]) && HeldInTime(cfg, s, s.holding[q]);
      }
    }
  }

  lemma PublishKeepsInv(cfg: Config, s: Sys, p: nat, s': Sys)
    requires Inv(cfg, s) && Next(cfg, s, Publish(p), s')
    ensures Inv(cfg, s')
  {
    forall q | q in s'.holding ensures HeldOk(s', s'.holding[q]) && HeldInTime(cfg, s', s'.holding[q]) {
      assert HeldOk(s, s.holding[q]) && HeldInTime(cfg, s, s.holding[q]);
    }
  }

  lemma CrashKeepsInv(cfg: Config, s: Sys, p: nat)
    requires Inv(cfg, s)
    ensures Inv(cfg, s.(holding := s.holding - {p}))
  {
    var s' := s.(holding := s.holding - {p});
    forall q | q in s'.holding ensures HeldOk(s', s'.holding[q]) && HeldInTime(cfg, s', s'.holding[q]) {
      assert HeldOk(s, s.holding[q]) && HeldInTime(cfg, s, s.holding[q]);
    }
  }

  lemma NextKeepsInv(cfg: Config, s: Sys, a: Action, s': Sys)
    requires ValidConfig(cfg) && Inv(cfg, s) && Next(cfg, s, a, s')
    ensures Inv(cfg, s')
  {
    match a
    case RunScript(op) =>
      ScriptKeepsInv(cfg, s, op, s'.w);
      ScriptKeepsEvents(cfg, s, op, s'.w);
      ScriptKeepsTimes(cfg, s, op, s'.w);
    case Drop => DropKeepsInv(cfg, s, s');
    case Load(p) => LoadKeepsInv(cfg, s, p, s');
    case Publish(p) => PublishKeepsInv(cfg, s, p, s');
    case Ack(p) =>
      var op := Acknowledge(s.holding[p].event.revision);
      ScriptKeepsInv(cfg, s, op, s'.w);
      ScriptKeepsEvents(cfg, s, op, s'.w);
      ScriptKeepsTimes(cfg, s, op, s'.w);
      CrashKeepsInv(cfg, s.(w := s'.w), p);
    case Crash(p) => CrashKeepsInv(cfg, s, p);
  }

  lemma {:induction false} RunKeepsInv(cfg: Config, states: seq<Sys>, actions: seq<Action>, n: nat)
    requires ValidConfig(cfg) && Run(cfg, states, actions) && n < |states|
    ensures Inv(cfg, states[n])
  {
    if n > 0 {
      RunKeepsInv(cfg, states, actions, n - 1);
      NextKeepsInv(cfg, states[n - 1], actions[n - 1], states[n]);
    }
  }

  // ---- When the outbox empties ----------------------------------------------------------------

  /** A summary of this revision of the current record was published. */
  ghost predicate Out(s: Sys, revision: nat) {
    exists e :: e in s.published && e.life == s.life && e.revision == revision
  }

  /** A finalized run is out of the outbox only if its current revision was published. */
  ghost predicate Safe(s: Sys) {
    s.w.slot.run.Some? && !s.w.slot.run.value.status.Open? && s.w.slot.outbox.None? ==> Out(s, s.w.slot.run.value.revision)
  }

  /** The publisher loaded its summary from a record that has since expired. */
  predicate Crosses(s: Sys, a: Action) {
    a.Ack? && a.p in s.holding && s.holding[a.p].event.life < s.life
  }

  /** And the revision it names is the unacknowledged, unpublished one of the record created meanwhile. */
  ghost predicate StrayAck(s: Sys, a: Action) {
    && Crosses(s, a) && s.w.slot.run.Some?
    && s.holding[a.p].event.revision == s.w.slot.run.value.revision > s.w.slot.run.value.acked
    && !Out(s, s.w.slot.run.value.revision)
  }

  /** The acknowledged current revision was published. */
  ghost predicate AckOk(s: Sys) {
    s.w.slot.run.Some? && s.w.slot.run.value.acked == s.w.slot.run.value.revision > 0 ==> Out(s, s.w.slot.run.value.revision)
  }

  lemma AckOkIsSafe(cfg: Config, s: Sys)
    requires Inv(cfg, s)
    ensures AckOk(s) <==> Safe(s)
  {
  }

  lemma OutStays(s: Sys, s': Sys, revision: nat)
    requires Out(s, revision) && s.published <= s'.published && s'.life == s.life
    ensures Out(s', revision)
  {
    var e :| e in s.published && e.life == s.life && e.revision == revision;
    assert e in s'.published;
  }

  lemma ScriptKeepsAck(cfg: Config, s: Sys, op: Op)
    requires SlotInv(cfg, s.w.slot, s.w.now) && AckOk(s) && !op.Acknowledge?
    ensures AckOk(s.(w := Script(cfg, s.w, op)))
  {
    var s' := s.(w := Script(cfg, s.w, op));
    if s'.w.slot.run.Some? && s'.w.slot.run.value.acked == s'.w.slot.run.value.revision > 0 {
      AckedMoves(cfg, s.w, op);
      ScriptEvolves(cfg, s.w, op);
      OutStays(s, s', s'.w.slot.run.value.revision);
    }
  }

  lemma AckKeepsAck(cfg: Config, s: Sys, p: nat, s': Sys)
    requires Inv(cfg, s) && AckOk(s) && Next(cfg, s, Ack(p), s') && !StrayAck(s, Ack(p))
    ensures AckOk(s')
  {
    var e := s.holding[p].event;
    assert HeldOk(s, s.holding[p]);
    if s'.w.slot.run.Some? && s'.w.slot.run.value.acked == s'.w.slot.run.value.revision > 0 {
      AckedMoves(cfg, s.w, Acknowledge(e.revision));
      ScriptEvolves(cfg, s.w, Acknowledge(e.revision));
      if s.w.slot.run.value.acked < s.w.slot.run.value.revision && e.life == s.life {
        assert e in s'.published;
      } else {
        OutStays(s, s', s.w.slot.run.value.revision);
      }
    }
  }

  lemma NextKeepsAck(cfg: Config, s: Sys, a: Action, s': Sys)
    requires Inv(cfg, s) && AckOk(s) && Next(cfg, s, a, s') && !StrayAck(s, a)
    ensures AckOk(s')
  {
    match a
    case RunScript(op) => ScriptKeepsAck(cfg, s, op);
    case Ack(p) => AckKeepsAck(cfg, s, p, s');
    case Drop =>
    case _ =>
      if s.w.slot.run.Some? && Out(s, s.w.slot.run.value.revision) {
        OutStays(s, s', s.w.slot.run.value.revision);
      }
  }

  lemma StrayAckIsUnsafe(cfg: Config, s: Sys, a: Action, s': Sys)
    requires Inv(cfg, s) && Next(cfg, s, a, s') && StrayAck(s, a)
    ensures !Safe(s')
  {
    var r := s.w.slot.run.value;
    assert s'.w.slot.run == Some(r.(acked := r.revision)) && s'.w.slot.outbox.None?;
    if Out(s', r.revision) {
      OutStays(s', s, r.revision);
    }
  }

  lemma {:induction false} UnstrayedRunIsSafe(cfg: Config, states: seq<Sys>, actions: seq<Action>, n: nat)
    requires ValidConfig(cfg) && Run(cfg, states, actions) && n < |states|
    requires forall i :: 0 <= i < n ==> !StrayAck(states[i], actions[i])
    ensures AckOk(states[n])
  {
    if n > 0 {
      UnstrayedRunIsSafe(cfg, states, actions, n - 1);
      var s, a, s' := states[n - 1], actions[n - 1], states[n];
      assert Next(cfg, s, a, s') && !StrayAck(s, a);
      RunKeepsInv(cfg, states, actions, n - 1);
      NextKeepsAck(cfg, s, a, s');
    }
  }

  ghost predicate AlwaysSafe(states: seq<Sys>) {
    forall n :: 0 <= n < |states| ==> Safe(states[n])
  }

  ghost predicate NoStrayAck(states: seq<Sys>, actions: seq<Action>)
    requires |states| == |actions| + 1
  {
    forall n :: 0 <= n < |actions| ==> !StrayAck(states[n], actions[n])
  }

  /**
   Whatever publishers crash, repeat each other or acknowledge late, a finalized run leaves the outbox
   only after a summary of its current revision was published, if and only if no acknowledgement of an
   expired record hits the same, still unpublished revision of the record that replaced it.
   */
  lemma OutboxEmptiesOnlyAfterPublication(cfg: Config, states: seq<Sys>, actions: seq<Action>)
    requires ValidConfig(cfg) && Run(cfg, states, actions)
    ensures AlwaysSafe(states) <==> NoStrayAck(states, actions)
  {
    if NoStrayAck(states, actions) {
      forall n | 0 <= n < |states| ensures Safe(states[n]) {
        UnstrayedRunIsSafe(cfg, states, actions, n);
        RunKeepsInv(cfg, states, actions, n);
        AckOkIsSafe(cfg, states[n]);
      }
    }
    if AlwaysSafe(states) {
      forall n | 0 <= n < |actions| ensures !StrayAck(states[n], actions[n]) {
        if StrayAck(states[n], actions[n]) {
          RunKeepsInv(cfg, states, actions, n);
          StrayAckIsUnsafe(cfg, states[n], actions[n], states[n + 1]);
        }
      }
    }
  }

  lemma CrossingIsLate(cfg: Config, s: Sys, a: Action)
    requires TimesOk(cfg, s) && Crosses(s, a)
    ensures s.w.now > s.holding[a.p].at + cfg.retention
  {
    assert HeldInTime(cfg, s, s.holding[a.p]);
  }

  /** Publishers that acknowledge within the retention of their load never cross an expiry, so the outbox is safe. */
  lemma PromptPublishersAreSafe(cfg: Config, states: seq<Sys>, actions: seq<Action>)
    requires ValidConfig(cfg) && Run(cfg, states, actions)
    requires forall n :: 0 <= n < |actions| && actions[n].Ack? && actions[n].p in states[n].holding ==>
               states[n].w.now <= states[n].holding[actions[n].p].at + cfg.retention
    ensures AlwaysSafe(states)
  {
    forall n | 0 <= n < |actions| ensures !StrayAck(states[n], actions[n]) {
      RunKeepsInv(cfg, states, actions, n);
      if Crosses(states[n], actions[n]) {
        CrossingIsLate(cfg, states[n], actions[n]);
      }
    }
    OutboxEmptiesOnlyAfterPublication(cfg, states, actions);
  }

  /** Every publication of a complete record's final revision carries the same, final summary. */
  lemma CompleteSummaryIsPublishedOnce(cfg: Config, states: seq<Sys>, actions: seq<Action>, n: nat, e: Event)
    requires ValidConfig(cfg) && Run(cfg, states, actions) && n < |states|
    requires states[n].w.slot.run.Some? && states[n].w.slot.run.value.status.Complete?
    requires e in states[n].published && e.life == states[n].life && e.revision == states[n].w.slot.run.value.revision
    ensures SummaryOf(states[n].w.slot.run.value) == Ok(e.summary)
  {
    RunKeepsInv(cfg, states, actions, n);
  }

  // ---- Two moments of one run ------------------------------------------------------------------

  /** The record of `s` is still there in `s'`, possibly evolved. */
  ghost predicate GoesOn(s: Sys, s': Sys) {
    s.w.slot.run.Some? && s'.w.slot.run.Some? && Evolves(s.w.slot.run.value, s'.w.slot.run.value)
  }

  lemma GoesOnAgain(s: Sys, s': Sys, s'': Sys)
    requires GoesOn(s, s') && GoesOn(s', s'')
    ensures GoesOn(s, s'')
  {
  }

  lemma StepEvolves(cfg: Config, s: Sys, a: Action, s': Sys)
    requires Next(cfg, s, a, s') && s'.life == s.life && s.w.slot.run.Some?
    ensures GoesOn(s, s')
  {
    match a
    case RunScript(op) => ScriptEvolves(cfg, s.w, op);
    case Ack(p) => ScriptEvolves(cfg, s.w, Acknowledge(s.holding[p].event.revision));
    case _ =>
  }

  lemma {:induction false} LifeGrows(cfg: Config, states: seq<Sys>, actions: seq<Action>, i: nat, j: nat)
    requires Run(cfg, states, actions) && i <= j < |states|
    ensures states[i].life <= states[j].life
  {
    if i < j {
      LifeGrows(cfg, states, actions, i, j - 1);
      assert Next(cfg, states[j - 1], actions[j - 1], states[j]);
    }
  }

  /** A record evolves from any moment of a run to any later one before it expires. */
  lemma {:induction false} RunEvolves(cfg: Config, states: seq<Sys>, actions: seq<Action>, i: nat, j: nat)
    requires Run(cfg, states, actions) && i <= j < |states| && states[i].life == states[j].life
    requires states[i].w.slot.run.Some?
    ensures GoesOn(states[i], states[j])
  {
    if i < j {
      LifeGrows(cfg, states, actions, i, j - 1);
      LifeGrows(cfg, states, actions, j - 1, j);
      RunEvolves(cfg, states, actions, i, j - 1);
      StepEvolves(cfg, states[j - 1], actions[j - 1], states[j]);
      GoesOnAgain(states[i], states[j - 1], states[j]);
    }
  }

  /**
   Summaries of one record and one revision, taken at any two moments of any run, are equal if and
   only if no slice arrived in between and no rejected result set the unset bounds.
   */
  lemma SameRevisionSameSummary(cfg: Config, states: seq<Sys>, actions: seq<Action>, i: nat, j: nat)
    requires ValidConfig(cfg) && Run(cfg, states, actions) && i <= j < |states| && states[i].life == states[j].life
    requires states[i].w.slot.run.Some? && SummaryOf(states[i].w.slot.run.value).Ok?
    ensures states[j].w.slot.run.Some?
    ensures var r, r' := states[i].w.slot.run.value, states[j].w.slot.run.value;
            r.revision == r'.revision ==>
              (SummaryOf(r) == SummaryOf(r') <==> r.tally.received == r'.tally.received && r.bounds == r'.bounds)
  {
    RunEvolves(cfg, states, actions, i, j);
    RunKeepsInv(cfg, states, actions, i);
    RunKeepsInv(cfg, states, actions, j);
    var r, r' := states[i].w.slot.run.value, states[j].w.slot.run.value;
    if r.revision == r'.revision {
      SummariesDiffer(r, r');
    }
  }
}
