/**
 * Connection syncs as a protocol: every step a start, its background run, a
 * crash or the restart's cleanup takes between two awaits, in any interleaving.
 */
module SyncProtocol {
  datatype SyncStatus = Running | AwaitingApproval | Succeeded | Failed

  datatype SyncRow = SyncRow(connection: nat, status: SyncStatus)

  /**
   * A call of start, by where it waits. Progress writes queue up behind one
   * another: true for a login that awaits approval, false for one that went through.
   */
  datatype Process =
    | Looked(connection: nat)
    | Creating(connection: nat)
    | Scraping(connection: nat, sync: nat, writes: seq<bool>)
    | Draining(connection: nat, sync: nat, writes: seq<bool>)
    | Finishing(connection: nat, sync: nat)
    | Releasing(connection: nat, sync: nat)

  /** The table of sync rows survives a crash; the rest is the server's memory. */
  datatype System = System(rows: map<nat, SyncRow>, nextRow: nat, active: set<nat>, processes: map<nat, Process>, nextProcess: nat)

  datatype Event =
    | Look(connection: nat)
    | Claim(p: nat)
    | Create(p: nat)
    | CreateFails(p: nat)
    | Progress(p: nat, login: bool)
    | Write(p: nat)
    | WriteFails(p: nat)
    | ScrapeEnds(p: nat)
    | Drained(p: nat)
    | Finish(p: nat, success: bool)
    | FinishFails(p: nat)
    | Release(p: nat)
    | Crash
    | Sweep

  predicate Alive(status: SyncStatus) {
    status == Running || status == AwaitingApproval
  }

  predicate LooksBusy(s: System, connection: nat) {
    exists id | id in s.rows :: s.rows[id].connection == connection && Alive(s.rows[id].status)
  }

  function Interrupted(rows: map<nat, SyncRow>): map<nat, SyncRow> {
    map id | id in rows :: if Alive(rows[id].status) then rows[id].(status := Failed) else rows[id]
  }

  function Marked(s: System, sync: nat, status: SyncStatus): map<nat, SyncRow> {
    if sync in s.rows then s.rows[sync := s.rows[sync].(status := status)] else s.rows
  }

  function Moved(s: System, p: nat, to: Process): System {
    s.(processes := s.processes[p := to])
  }

  function Gone(s: System, p: nat): System {
    s.(processes := s.processes - {p})
  }

  /** One step; an event that cannot happen in a state leaves it as it is. */
  function Step(s: System, e: Event): System {
    match e
    case Look(c) =>
      if LooksBusy(s, c) then s
      else s.(processes := s.processes[s.nextProcess := Looked(c)], nextProcess := s.nextProcess + 1)
    case Claim(p) =>
      if !(p in s.processes && s.processes[p].Looked?) then s
      else if s.processes[p].connection in s.active then Gone(s, p)
      else Moved(s, p, Creating(s.processes[p].connection)).(active := s.active + {s.processes[p].connection})
    case Create(p) =>
      if !(p in s.processes && s.processes[p].Creating?) then s
      else
        var c := s.processes[p].connection;
        Moved(s, p, Scraping(c, s.nextRow, [])).(rows := s.rows[s.nextRow := SyncRow(c, Running)], nextRow := s.nextRow + 1)
    case CreateFails(p) =>
      if p in s.processes && s.processes[p].Creating? then Gone(s, p) else s
    case Progress(p, login) =>
      if !(p in s.processes && s.processes[p].Scraping?) then s
      else
        var q := s.processes[p];
        Moved(s, p, Scraping(q.connection, q.sync, q.writes + [login]))
    case Write(p) =>
      if !(p in s.processes && HasWrites(s.processes[p])) then s
      else
        var q := s.processes[p];
        Moved(s, p, q.(writes := q.writes[1..])).(rows := Marked(s, q.sync, if q.writes[0] then AwaitingApproval else Running))
    case WriteFails(p) =>
      if !(p in s.processes && HasWrites(s.processes[p])) then s
      else Moved(s, p, s.processes[p].(writes := s.processes[p].writes[1..]))
    case ScrapeEnds(p) =>
      if !(p in s.processes && s.processes[p].Scraping?) then s
      else Moved(s, p, Draining(s.processes[p].connection, s.processes[p].sync, s.processes[p].writes))
    case Drained(p) =>
      if !(p in s.processes && s.processes[p].Draining? && s.processes[p].writes == []) then s
      else Moved(s, p, Finishing(s.processes[p].connection, s.processes[p].sync))
    case Finish(p, success) =>
      if !(p in s.processes && s.processes[p].Finishing?) then s
      else
        var q := s.processes[p];
        Moved(s, p, Releasing(q.connection, q.sync)).(rows := Marked(s, q.sync, if success then Succeeded else Failed))
    case FinishFails(p) =>
      if !(p in s.processes && s.processes[p].Finishing?) then s
      else Moved(s, p, Releasing(s.processes[p].connection, s.processes[p].sync))
    case Release(p) =>
      if !(p in s.processes && s.processes[p].Releasing?) then s
      else Gone(s, p).(active := s.active - {s.processes[p].connection})
    case Crash => s.(active := {}, processes := map[])
    case Sweep => s.(rows := Interrupted(s.rows))
  }

  predicate HasWrites(q: Process) {
    (q.Scraping? || q.Draining?) && q.writes != []
  }

  function Run(s: System, events: seq<Event>): System {
    if events == [] then s else Step(Run(s, events[..|events| - 1]), events[|events| - 1])
  }

  /** A server that has just come up on whatever rows the table holds. */
  predicate Booted(s: System) {
    s.active == {} && s.processes == map[] && forall id | id in s.rows :: id < s.nextRow
  }

  // ---------- Mutual exclusion ----------

  /** Past the check-and-claim: this process holds its connection. */
  predicate InFlight(q: Process) { !q.Looked? }

  /** The process may still write its sync row. */
  predicate MayWrite(q: Process) { q.Scraping? || q.Draining? || q.Finishing? }

  predicate HasRow(q: Process) { MayWrite(q) || q.Releasing? }

  ghost predicate Exclusive(s: System) {
    forall p, q | p in s.processes && q in s.processes && InFlight(s.processes[p]) && InFlight(s.processes[q])
      && s.processes[p].connection == s.processes[q].connection :: p == q
  }

  ghost predicate Claimed(s: System) {
    forall p | p in s.processes && InFlight(s.processes[p]) :: s.processes[p].connection in s.active
  }

  ghost predicate RowsMatch(s: System) {
    && (forall id | id in s.rows :: id < s.nextRow)
    && (forall p | p in s.processes :: p < s.nextProcess)
    && forall p | p in s.processes && HasRow(s.processes[p]) ::
         s.processes[p].sync in s.rows && s.rows[s.processes[p].sync].connection == s.processes[p].connection
  }

  ghost predicate Inv(s: System) {
    Exclusive(s) && Claimed(s) && RowsMatch(s)
  }

  lemma ExclusiveAndClaimedStay(s: System, e: Event)
    requires Inv(s)
    ensures Exclusive(Step(s, e)) && Claimed(Step(s, e))
  {
  }

  lemma RowsStayMatched(s: System, e: Event)
    requires Inv(s)
    ensures RowsMatch(Step(s, e))
  {
  }

  lemma {:induction false} InvHolds(s: System, events: seq<Event>)
    requires Inv(s)
    ensures Inv(Run(s, events))
  {
    if events != [] {
      var before := Run(s, events[..|events| - 1]);
      InvHolds(s, events[..|events| - 1]);
      ExclusiveAndClaimedStay(before, events[|events| - 1]);
      RowsStayMatched(before, events[|events| - 1]);
    }
  }

  /** In every interleaving, from any boot, a connection has at most one run in flight. */
  lemma AtMostOneInFlight(boot: System, events: seq<Event>, p: nat, q: nat)
    requires Booted(boot)
    requires var s := Run(boot, events);
      && p in s.processes && InFlight(s.processes[p]) && q in s.processes && InFlight(s.processes[q])
      && s.processes[p].connection == s.processes[q].connection
    ensures p == q
  {
    InvHolds(boot, events);
  }

  // ---------- A final status stays ----------

  /** Some process may still write the row. */
  ghost predicate Owned(s: System, id: nat) {
    exists p | p in s.processes :: MayWrite(s.processes[p]) && s.processes[p].sync == id
  }

  ghost predicate Settled(s: System, id: nat) {
    id in s.rows && !Alive(s.rows[id].status) && !Owned(s, id)
  }

  lemma SettledStays(s: System, e: Event, id: nat)
    requires Inv(s) && Settled(s, id)
    ensures Settled(Step(s, e), id) && Step(s, e).rows[id] == s.rows[id]
  {
  }

  /** No later step, of any process, restart or cleanup, touches a settled row. */
  lemma {:induction false} SettledForever(s: System, events: seq<Event>, id: nat)
    requires Inv(s) && Settled(s, id)
    ensures Settled(Run(s, events), id) && Run(s, events).rows[id] == s.rows[id]
  {
    if events != [] {
      var init := events[..|events| - 1];
      SettledForever(s, init, id);
      InvHolds(s, init);
      SettledStays(Run(s, init), events[|events| - 1], id);
    }
  }

  /** Finishing settles: the progress writes queued before it have all gone. */
  lemma FinishSettles(s: System, p: nat, success: bool)
    requires Inv(s) && p in s.processes && s.processes[p].Finishing?
    ensures var id := s.processes[p].sync;
      Settled(Step(s, Finish(p, success)), id) && Step(s, Finish(p, success)).rows[id].status == if success then Succeeded else Failed
  {
  }

  /** The status a run finishes with is the row's status ever after. */
  lemma FinishedIsNeverOverwritten(boot: System, before: seq<Event>, p: nat, success: bool, after: seq<Event>)
    requires Booted(boot)
    requires p in Run(boot, before).processes && Run(boot, before).processes[p].Finishing?
    ensures var id, done := Run(boot, before).processes[p].sync, Step(Run(boot, before), Finish(p, success));
      id in Run(done, after).rows && Run(done, after).rows[id].status == if success then Succeeded else Failed
  {
    var s := Run(boot, before);
    InvHolds(boot, before);
    FinishSettles(s, p, success);
    ExclusiveAndClaimedStay(s, Finish(p, success));
    RowsStayMatched(s, Finish(p, success));
    SettledForever(Step(s, Finish(p, success)), after, s.processes[p].sync);
  }

  // ---------- The restart's cleanup ----------

  /** Every final row is settled: whatever says it ended has ended. */
  ghost predicate FinalMeansEnded(s: System) {
    forall id | id in s.rows && !Alive(s.rows[id].status) :: !Owned(s, id)
  }

  /** No run is between its row's creation and its end. */
  ghost predicate Quiet(s: System) {
    forall p | p in s.processes :: !MayWrite(s.processes[p])
  }

  /** Only finishing and the cleanup make a row final. */
  lemma WhoMakesFinal(s: System, e: Event, id: nat)
    requires Inv(s) && id in Step(s, e).rows && !Alive(Step(s, e).rows[id].status)
    requires id in s.rows ==> Alive(s.rows[id].status)
    ensures e == Sweep || (e.Finish? && e.p in s.processes && s.processes[e.p].Finishing? && s.processes[e.p].sync == id)
  {
  }

  lemma OtherStepsKeepFinal(s: System, e: Event)
    requires Inv(s) && FinalMeansEnded(s) && (e == Sweep ==> Quiet(s))
    ensures FinalMeansEnded(Step(s, e))
  {
    var t := Step(s, e);
    forall id | id in t.rows && !Alive(t.rows[id].status) ensures !Owned(t, id) {
      if id in s.rows && !Alive(s.rows[id].status) {
        assert Settled(s, id);
        SettledStays(s, e, id);
      } else {
        WhoMakesFinal(s, e, id);
        if e.Finish? { FinishSettles(s, e.p, e.success); }
      }
    }
  }

  /** The cleanup keeps final statuses final exactly when no run is under way as it happens. */
  lemma SweepIsSafeIff(s: System)
    requires Inv(s) && FinalMeansEnded(s)
    ensures FinalMeansEnded(Step(s, Sweep)) <==> Quiet(s)
  {
    if Quiet(s) { OtherStepsKeepFinal(s, Sweep); }
    if p :| p in s.processes && MayWrite(s.processes[p]) {
      var id := s.processes[p].sync;
      assert id in s.rows && !Alive(Step(s, Sweep).rows[id].status) && Owned(Step(s, Sweep), id);
    }
  }

  /** Each cleanup in the run comes while no run is under way. */
  ghost predicate SweepsWhenQuiet(s: System, events: seq<Event>) {
    forall i | 0 <= i < |events| && events[i] == Sweep :: Quiet(Run(s, events[..i]))
  }

  /** Then a row that says it ended never changes again, at any point of the run. */
  lemma {:induction false} QuietSweepsKeepFinal(boot: System, events: seq<Event>)
    requires Booted(boot) && SweepsWhenQuiet(boot, events)
    ensures FinalMeansEnded(Run(boot, events))
  {
    if events != [] {
      var n := |events| - 1;
      assert events[..n + 1] == events;
      forall i | 0 <= i < n && events[..n][i] == Sweep ensures Quiet(Run(boot, events[..n][..i])) {
        assert events[..n][..i] == events[..i];
      }
      QuietSweepsKeepFinal(boot, events[..n]);
      InvHolds(boot, events[..n]);
      OtherStepsKeepFinal(Run(boot, events[..n]), events[n]);
    }
  }

  /**
   * The server does not wait for its cleanup before it takes requests. A sync that
   * starts in between is marked failed while it runs, then reports success.
   */
  lemma CleanupCanOvertakeARun(s: System, start: seq<Event>, rest: seq<Event>)
    requires s == System(map[], 0, {}, map[], 0)
    requires start == [Look(7), Claim(0), Create(0), Sweep] && rest == [ScrapeEnds(0), Drained(0), Finish(0, true)]
    ensures Run(s, start).rows == map[0 := SyncRow(7, Failed)]
    ensures Run(Run(s, start), rest).rows == map[0 := SyncRow(7, Succeeded)]
  {
    var claimed := System(map[], 0, {7}, map[0 := Creating(7)], 1);
    var swept := System(map[0 := SyncRow(7, Failed)], 1, {7}, map[0 := Scraping(7, 0, [])], 1);
    StartOf(s, start[..2], claimed);
    var running := Step(claimed, Create(0));
    assert running == System(map[0 := SyncRow(7, Running)], 1, {7}, map[0 := Scraping(7, 0, [])], 1);
    assert Step(running, Sweep) == swept;
    assert start[..3] == start[..2] + [Create(0)] && start == start[..3] + [Sweep];
    RunMore(s, start[..2], Create(0), claimed, running);
    RunMore(s, start[..3], Sweep, running, swept);
    EndOf(swept, rest);
  }

  lemma StartOf(s: System, events: seq<Event>, claimed: System)
    requires s == System(map[], 0, {}, map[], 0) && events == [Look(7), Claim(0)]
    requires claimed == System(map[], 0, {7}, map[0 := Creating(7)], 1)
    ensures Run(s, events) == claimed
  {
    var looked := System(map[], 0, {}, map[0 := Looked(7)], 1);
    assert [] + [Look(7)] == [Look(7)] && events == [Look(7)] + [Claim(0)];
    RunMore(s, [], Look(7), s, looked);
    assert Step(looked, Claim(0)) == claimed;
    RunMore(s, [Look(7)], Claim(0), looked, claimed);
  }

  lemma EndOf(swept: System, events: seq<Event>)
    requires swept == System(map[0 := SyncRow(7, Failed)], 1, {7}, map[0 := Scraping(7, 0, [])], 1)
    requires events == [ScrapeEnds(0), Drained(0), Finish(0, true)]
    ensures Run(swept, events).rows == map[0 := SyncRow(7, Succeeded)]
  {
    var draining := swept.(processes := map[0 := Draining(7, 0, [])]);
    var finishing := swept.(processes := map[0 := Finishing(7, 0)]);
    var one := [] + [ScrapeEnds(0)];
    var two := one + [Drained(0)];
    RunMore(swept, [], ScrapeEnds(0), swept, draining);
    assert Step(draining, Drained(0)) == finishing;
    RunMore(swept, one, Drained(0), draining, finishing);
    RunMore(swept, two, Finish(0, true), finishing, Step(finishing, Finish(0, true)));
    assert events == two + [Finish(0, true)];
  }

  lemma RunMore(s: System, events: seq<Event>, e: Event, from: System, to: System)
    requires Run(s, events) == from && Step(from, e) == to
    ensures Run(s, events + [e]) == to
  {
    assert (events + [e])[..|events|] == events;
  }

  // ---------- Nothing looks alive for ever ----------

  /** A row looks alive exactly as long as a run may still write it, and a claim lasts exactly as long as its run. */
  ghost predicate NothingDangles(s: System) {
    && (forall id | id in s.rows && Alive(s.rows[id].status) :: Owned(s, id))
    && forall c | c in s.active :: exists p | p in s.processes :: InFlight(s.processes[p]) && s.processes[p].connection == c
  }

  predicate Breaks(e: Event) {
    e.CreateFails? || e.FinishFails? || e.Crash?
  }

  lemma WriterStays(s: System, e: Event, p: nat)
    requires Inv(s) && !Breaks(e) && p in s.processes && MayWrite(s.processes[p])
    ensures var t := Step(s, e);
      p in t.processes && HasRow(t.processes[p]) && t.processes[p].sync == s.processes[p].sync
      && (MayWrite(t.processes[p]) || (e.Finish? && e.p == p && !Alive(t.rows[s.processes[p].sync].status)))
  {
  }

  lemma WhoMakesAlive(s: System, e: Event, id: nat)
    requires Inv(s) && id in Step(s, e).rows && Alive(Step(s, e).rows[id].status)
    requires id in s.rows ==> !Alive(s.rows[id].status)
    ensures Owned(Step(s, e), id)
  {
    var t := Step(s, e);
    assert e.Create? || e.Write?;
    assert e.p in t.processes && MayWrite(t.processes[e.p]) && t.processes[e.p].sync == id;
  }

  lemma AliveStaysOwned(s: System, e: Event)
    requires Inv(s) && NothingDangles(s) && !Breaks(e)
    ensures var t := Step(s, e); forall id | id in t.rows && Alive(t.rows[id].status) :: Owned(t, id)
  {
    var t := Step(s, e);
    forall id | id in t.rows && Alive(t.rows[id].status) ensures Owned(t, id) {
      if id in s.rows && Alive(s.rows[id].status) {
        var p :| p in s.processes && MayWrite(s.processes[p]) && s.processes[p].sync == id;
        WriterStays(s, e, p);
      } else {
        WhoMakesAlive(s, e, id);
      }
    }
  }

  lemma HolderStays(s: System, e: Event, p: nat)
    requires Inv(s) && !Breaks(e) && p in s.processes && InFlight(s.processes[p])
    ensures var t := Step(s, e);
      if p in t.processes then InFlight(t.processes[p]) && t.processes[p].connection == s.processes[p].connection
      else s.processes[p].connection !in t.active
  {
  }

  lemma ClaimsStayHeld(s: System, e: Event)
    requires Inv(s) && NothingDangles(s) && !Breaks(e)
    ensures var t := Step(s, e); forall c | c in t.active :: exists p | p in t.processes :: InFlight(t.processes[p]) && t.processes[p].connection == c
  {
    var t := Step(s, e);
    forall c | c in t.active ensures exists p | p in t.processes :: InFlight(t.processes[p]) && t.processes[p].connection == c {
      if c in s.active {
        var p :| p in s.processes && InFlight(s.processes[p]) && s.processes[p].connection == c;
        HolderStays(s, e, p);
      } else {
        assert InFlight(t.processes[e.p]) && t.processes[e.p].connection == c;
      }
    }
  }

  /** After a restart and its cleanup, however long the server then runs without one of these faults, nothing dangles. */
  lemma {:induction false} AfterRestartNothingDangles(boot: System, events: seq<Event>)
    requires Booted(boot) && forall i | 0 <= i < |events| :: !Breaks(events[i])
    ensures NothingDangles(Run(Step(boot, Sweep), events))
  {
    var clean := Step(boot, Sweep);
    if events != [] {
      var init := events[..|events| - 1];
      AfterRestartNothingDangles(boot, init);
      InvHolds(clean, init);
      AliveStaysOwned(Run(clean, init), events[|events| - 1]);
      ClaimsStayHeld(Run(clean, init), events[|events| - 1]);
    }
  }

  lemma ClaimedOnlyWhileInFlight(s: System, c: nat)
    requires Inv(s) && NothingDangles(s)
    ensures c in s.active <==> exists p | p in s.processes :: InFlight(s.processes[p]) && s.processes[p].connection == c
    ensures LooksBusy(s, c) ==> c in s.active
  {
    if id :| id in s.rows && s.rows[id].connection == c && Alive(s.rows[id].status) {
      assert Owned(s, id);
    }
  }

  /**
   * After a restart and its cleanup, a start is refused, at its look or at its claim, exactly
   * while a run of its connection is in flight.
   */
  lemma RefusedOnlyWhileInFlight(boot: System, events: seq<Event>, c: nat)
    requires Booted(boot) && forall i | 0 <= i < |events| :: !Breaks(events[i])
    ensures var s := Run(Step(boot, Sweep), events);
      LooksBusy(s, c) || c in s.active <==> exists p | p in s.processes :: InFlight(s.processes[p]) && s.processes[p].connection == c
  {
    AfterRestartNothingDangles(boot, events);
    InvHolds(Step(boot, Sweep), events);
    ClaimedOnlyWhileInFlight(Run(Step(boot, Sweep), events), c);
  }

  // ---------- A failed last write blocks its connection ----------

  /** The row looks alive, but no run may write it. */
  ghost predicate Orphaned(s: System, id: nat) {
    id in s.rows && Alive(s.rows[id].status) && !Owned(s, id)
  }

  lemma OrphanStays(s: System, e: Event, id: nat)
    requires Inv(s) && Orphaned(s, id) && e != Sweep
    ensures Orphaned(Step(s, e), id) && Step(s, e).rows[id] == s.rows[id]
  {
  }

  lemma FinishFailsOrphans(s: System, p: nat)
    requires Inv(s) && p in s.processes && s.processes[p].Finishing? && Alive(s.rows[s.processes[p].sync].status)
    ensures var id, t := s.processes[p].sync, Step(s, FinishFails(p)); Orphaned(t, id) && t.rows[id] == s.rows[id]
  {
  }

  /**
   * When the write that ends a run fails, its row looks busy with no run behind it: whatever
   * happens, short of a restart's cleanup, every later start of the connection is turned away at its look.
   */
  lemma {:induction false} FailedFinishBlocks(s: System, p: nat, events: seq<Event>)
    requires Inv(s) && p in s.processes && s.processes[p].Finishing? && Alive(s.rows[s.processes[p].sync].status)
    requires forall i | 0 <= i < |events| :: events[i] != Sweep
    ensures var id, c, t := s.processes[p].sync, s.processes[p].connection, Run(Step(s, FinishFails(p)), events);
      Orphaned(t, id) && t.rows[id].connection == c && Step(t, Look(c)) == t && Step(t, Sweep).rows[id].status == Failed
  {
    var id, after := s.processes[p].sync, Step(s, FinishFails(p));
    FinishFailsOrphans(s, p);
    ExclusiveAndClaimedStay(s, FinishFails(p));
    RowsStayMatched(s, FinishFails(p));
    if events != [] {
      var init := events[..|events| - 1];
      FailedFinishBlocks(s, p, init);
      InvHolds(after, init);
      OrphanStays(Run(after, init), events[|events| - 1], id);
    }
    assert LooksBusy(Run(after, events), s.processes[p].connection);
  }

  // ---------- A failed creation blocks its connection ----------

  /** The connection is claimed, but by no run. */
  ghost predicate Leaked(s: System, c: nat) {
    c in s.active && forall p | p in s.processes && InFlight(s.processes[p]) :: s.processes[p].connection != c
  }

  function RowsOf(s: System, c: nat): set<nat> {
    set id | id in s.rows && s.rows[id].connection == c
  }

  lemma LeakStays(s: System, e: Event, c: nat)
    requires Inv(s) && Leaked(s, c) && !e.Crash?
    ensures Leaked(Step(s, e), c) && RowsOf(Step(s, e), c) == RowsOf(s, c)
  {
  }

  /** When a row's creation fails the claim is never given back: no sync of that connection starts until a restart. */
  lemma {:induction false} FailedCreationBlocks(s: System, p: nat, events: seq<Event>)
    requires Inv(s) && p in s.processes && s.processes[p].Creating? && forall i | 0 <= i < |events| :: !events[i].Crash?
    ensures var c, after := s.processes[p].connection, Step(s, CreateFails(p));
      Leaked(Run(after, events), c) && RowsOf(Run(after, events), c) == RowsOf(s, c)
  {
    var c, after := s.processes[p].connection, Step(s, CreateFails(p));
    ExclusiveAndClaimedStay(s, CreateFails(p));
    RowsStayMatched(s, CreateFails(p));
    if events == [] {
      assert Leaked(after, c);
    } else {
      var init := events[..|events| - 1];
      FailedCreationBlocks(s, p, init);
      InvHolds(after, init);
      LeakStays(Run(after, init), events[|events| - 1], c);
    }
  }
}
