/** The start handler's loop over the registered ids: in registration order,
    each account is processed to the end before the next begins; once the
    stop signal is found up at the top of the loop, the records still
    `pendente` are cancelled and the loop ends.

    The loop is written over the step that processes one account, taken as
    a function value, so that what the loop does is proved once from what a
    step does; the batch the start handler runs uses the orchestrator's
    `ProcessSingleUserTask` as that step. */
module Batch {
  import opened Values
  import opened Text
  import opened Randomizer
  import opened Config
  import opened Registry
  import opened StopHandlers
  import opened Orchestrator

  /** Where the loop left off: the engine, how many accounts were processed,
      and whether it ended by sweeping the pending records. */
  datatype Progress = Progress(engine: Engine, processed: nat, swept: bool)

  /** What processing one account does to the engine. */
  type Step = (Engine, string, AccountRun) -> Engine

  /** Every run's draws are in [0, 1). */
  predicate AllDraw(runs: seq<AccountRun>) {
    forall k :: 0 <= k < |runs| ==> Draws(runs[k])
  }

  /** The first `n` runs see no press of the stop button. */
  predicate Undisturbed(runs: seq<AccountRun>, n: nat) {
    forall k :: 0 <= k < n && k < |runs| ==> runs[k].stopAt == NoStop
  }

  /** The ids in `order` are pairwise different. */
  predicate Distinct(order: seq<string>) {
    forall i, j :: 0 <= i < j < |order| ==> order[i] != order[j]
  }

  /** Every id in `order` is registered. */
  predicate AllIn(order: seq<string>, keys: set<string>) {
    forall k :: 0 <= k < |order| ==> order[k] in keys
  }

  lemma RunsTail(runs: seq<AccountRun>, n: nat)
    requires runs != [] && AllDraw(runs) && Undisturbed(runs, n)
    ensures AllDraw(runs[1..]) && Undisturbed(runs[1..], if n == 0 then 0 else n - 1) && Draws(runs[0])
  {
  }

  lemma OrderTail(order: seq<string>, keys: set<string>)
    requires order != [] && Distinct(order) && AllIn(order, keys)
    ensures Distinct(order[1..]) && AllIn(order[1..], keys) && order[0] !in order[1..] && order[0] in keys
  {
    forall k | 0 <= k < |order| - 1
      ensures order[1..][k] != order[0]
    {
      assert order[k + 1] != order[0];
    }
  }

  /** The loop over `order` with `step` processing one account, where
      `runs[k]` is what the outside world does while account `k` is
      processed. It either runs to the end of the order or stops early by
      sweeping; once swept, no record is `pendente`. */
  function Loop(step: Step, e: Engine, order: seq<string>, runs: seq<AccountRun>): (r: Progress)
    requires |runs| == |order|
    ensures r.processed <= |order|
    ensures !r.swept ==> r.processed == |order|
    ensures r.swept ==> r.engine.stop && r.processed < |order|
    ensures r.swept ==> forall id :: id in r.engine.tasks ==> r.engine.tasks[id].status != "pendente"
    decreases |order|
  {
    if order == [] then Progress(e, 0, false)
    else if e.stop then Progress(SweepPending(e), 0, true)
    else
      var rest := Loop(step, step(e, order[0], runs[0]), order[1..], runs[1..]);
      rest.(processed := rest.processed + 1)
  }

  /** One account processed under settings `s`. The loop hands it only runs
      whose draws are in [0, 1); the identity stands in for the others. */
  function StepOf(s: Settings): Step
    requires ValidRanges(s.ranges)
  {
    (e: Engine, id: string, run: AccountRun) =>
      if Draws(run) then ProcessSingleUserTask(e, s, id, run).engine else e
  }

  // ---------------------------------------------------------------------
  // What a step does, stated once so the loop's lemmas can rely on it.

  /** `r` keeps the invariant, the id keying and the registered ids of `e`. */
  predicate Kept(e: Engine, r: Engine) {
    Inv(r) && KeyedById(r.tasks) && r.tasks.Keys == e.tasks.Keys
  }

  /** Every step keeps the invariant, the keying and the ids. */
  ghost predicate KeepsInv(step: Step) {
    forall e, id, run :: Inv(e) && KeyedById(e.tasks) ==> Kept(e, step(e, id, run))
  }

  /** The engine invariant together with the keying by id: what the start
      handler's engines keep. */
  predicate Sound(e: Engine) {
    Inv(e) && KeyedById(e.tasks)
  }

  /** A property of engines the loop's lemmas rely on without looking into
      it; the start handler's batch uses `Sound`. */
  type Check = Engine -> bool

  /** The status each account's record is to end in; the start handler's
      batch uses `SettledOf`. */
  type Want = (string, AccountRun) -> string

  /** A step may start undisturbed from `e` on the registered `id`. */
  predicate CalmStart(ok: Check, e: Engine, id: string, run: AccountRun) {
    ok(e) && id in e.tasks && !e.stop && Draws(run)
  }

  /** `r` is `e` with at most the record `id` changed, still `ok`, and the
      signal still down. */
  predicate QuietStep(ok: Check, e: Engine, id: string, r: Engine) {
    && ok(r) && r.tasks.Keys == e.tasks.Keys && !r.stop && id in r.tasks
    && forall j :: j in e.tasks && j != id ==> r.tasks[j] == e.tasks[j]
  }

  /** Every undisturbed step changes its own record and nothing else. */
  ghost predicate QuietEach(step: Step, ok: Check) {
    forall e, id, run {:trigger CalmStart(ok, e, id, run)} ::
      CalmStart(ok, e, id, run) && run.stopAt == NoStop ==> QuietStep(ok, e, id, step(e, id, run))
  }

  /** Every undisturbed step leaves its own record in the status `want`
      gives it. */
  ghost predicate SettlesEach(step: Step, ok: Check, want: Want) {
    forall e, id, run {:trigger CalmStart(ok, e, id, run)} ::
      CalmStart(ok, e, id, run) && run.stopAt == NoStop ==>
        var r := step(e, id, run); id in r.tasks && r.tasks[id].status == want(id, run)
  }

  /** The settled status of each account under settings `s`. */
  function SettledOf(s: Settings): (w: Want)
    ensures forall id: string, run: AccountRun :: IsDraw(run.uBook) ==> w(id, run) == Settled(s, id, run)
  {
    (id: string, run: AccountRun) => if IsDraw(run.uBook) then Settled(s, id, run) else ""
  }

  /** A record as the stop button leaves it. */
  function AfterPress(t: Task): (c: Task)
    ensures Selects(UnlessGuarded, t) ==> c.status == "cancelado" && c.progresso == "Parado pelo usuário"
    ensures !Selects(UnlessGuarded, t) ==> c == t
  {
    if Selects(UnlessGuarded, t) then Cancel(t, "Parado pelo usuário") else t
  }

  /** `r` is `e` after a press of the stop button during the login of
      `id`: the signal up, the record `id` in `erro` or `cancelado`, every
      other record as the button leaves it. */
  predicate StoppedStep(e: Engine, id: string, r: Engine) {
    && r.tasks.Keys == e.tasks.Keys && r.stop && id in r.tasks
    && r.tasks[id].status in {"erro", "cancelado"}
    && forall j :: j in e.tasks && j != id ==> r.tasks[j] == AfterPress(e.tasks[j])
  }

  /** Every step stopped during its login ends as `StoppedStep` says. */
  ghost predicate StopsAtLogin(step: Step, ok: Check) {
    forall e, id, run {:trigger CalmStart(ok, e, id, run)} ::
      CalmStart(ok, e, id, run) && run.stopAt == DuringLogin ==> StoppedStep(e, id, step(e, id, run))
  }

  /** The orchestrator's step keeps the invariant. */
  lemma StepKeepsInv(s: Settings)
    requires ValidRanges(s.ranges)
    ensures KeepsInv(StepOf(s))
  {
    forall e, id, run | Inv(e) && KeyedById(e.tasks)
      ensures Kept(e, StepOf(s)(e, id, run))
    {
      if Draws(run) {
        ProcessTracks(e, s, id, run);
      }
    }
  }

  /** The orchestrator's step changes only an undisturbed record, and
      settles it. */
  lemma StepSettles(s: Settings)
    requires ValidRanges(s.ranges)
    ensures QuietEach(StepOf(s), Sound) && SettlesEach(StepOf(s), Sound, SettledOf(s))
  {
    forall e, id, run | CalmStart(Sound, e, id, run) && run.stopAt == NoStop
      ensures QuietStep(Sound, e, id, StepOf(s)(e, id, run))
      ensures var r := StepOf(s)(e, id, run); id in r.tasks && r.tasks[id].status == SettledOf(s)(id, run)
    {
      ProcessSettles(e, s, id, run);
      var r := ProcessSingleUserTask(e, s, id, run).engine;
      PackSettled(s, e, id, run, r);
      assert StepOf(s)(e, id, run) == r;
    }
  }

  lemma PackSettled(s: Settings, e: Engine, id: string, run: AccountRun, r: Engine)
    requires IsDraw(run.uBook)
    requires && Inv(r) && KeyedById(r.tasks) && !r.stop
             && r.tasks.Keys == e.tasks.Keys && id in e.tasks
             && r.tasks[id].status == Settled(s, id, run)
             && forall j :: j in e.tasks && j != id ==> r.tasks[j] == e.tasks[j]
    ensures QuietStep(Sound, e, id, r) && id in r.tasks && r.tasks[id].status == SettledOf(s)(id, run)
  {
  }

  /** The orchestrator's step, stopped during the login call, ends as
      `StoppedStep` says. */
  lemma StepStopsAtLogin(s: Settings)
    requires ValidRanges(s.ranges)
    ensures StopsAtLogin(StepOf(s), Sound)
  {
    forall e, id, run | CalmStart(Sound, e, id, run) && run.stopAt == DuringLogin
      ensures StoppedStep(e, id, StepOf(s)(e, id, run))
    {
      ProcessStopAtLogin(e, s, id, run);
      var r := ProcessSingleUserTask(e, s, id, run).engine;
      PackStopped(e, id, r);
      assert StepOf(s)(e, id, run) == r;
    }
  }

  lemma PackStopped(e: Engine, id: string, r: Engine)
    requires && r.stop && r.tasks.Keys == e.tasks.Keys && id in e.tasks
             && r.tasks[id].status in {"erro", "cancelado"}
             && forall j :: j in e.tasks && j != id ==>
                  r.tasks[j] == if Selects(UnlessGuarded, e.tasks[j]) then Cancel(e.tasks[j], "Parado pelo usuário")
                                else e.tasks[j]
    ensures StoppedStep(e, id, r)
  {
  }

  // ---------------------------------------------------------------------
  // What the loop does, from what its step does.

  /** The sweep runs only after the stop button, when the timer is off; it
      keeps the invariant and the keys. */
  lemma SweepKeepsInv(e: Engine)
    requires Inv(e) && KeyedById(e.tasks) && e.stop
    ensures Kept(e, SweepPending(e))
  {
    var r := SweepPending(e);
    forall id | id in r.tasks
      ensures r.tasks[id].referId == id
    {
      assert r.tasks[id].referId == e.tasks[id].referId;
    }
  }

  /** The whole loop keeps the invariant, the keying and the ids when each
      step does. */
  lemma {:induction false} LoopKeepsInv(step: Step, e: Engine, order: seq<string>, runs: seq<AccountRun>)
    requires |runs| == |order| && KeepsInv(step)
    requires Inv(e) && KeyedById(e.tasks)
    ensures Kept(e, Loop(step, e, order, runs).engine)
    decreases |order|
  {
    if order == [] {
    } else if e.stop {
      SweepKeepsInv(e);
    } else {
      var o := step(e, order[0], runs[0]);
      assert Kept(e, o);
      LoopKeepsInv(step, o, order[1..], runs[1..]);
    }
  }

  /** A loop about to run from an `ok` engine with the signal down, on
      distinct registered ids, with the stop button left alone. */
  predicate Calm(ok: Check, e: Engine, order: seq<string>, runs: seq<AccountRun>) {
    && |runs| == |order| && AllDraw(runs) && Undisturbed(runs, |runs|)
    && ok(e) && !e.stop && Distinct(order) && AllIn(order, e.tasks.Keys)
  }

  /** The first step of a calm loop leaves the other records and the rest
      of the loop calm. */
  lemma CalmStep(step: Step, ok: Check, e: Engine, order: seq<string>, runs: seq<AccountRun>)
    requires QuietEach(step, ok) && Calm(ok, e, order, runs) && order != []
    ensures Draws(runs[0]) && order[0] !in order[1..] && runs[0].stopAt == NoStop && CalmStart(ok, e, order[0], runs[0])
    ensures var o := step(e, order[0], runs[0]);
            QuietStep(ok, e, order[0], o) && Calm(ok, o, order[1..], runs[1..])
  {
    RunsTail(runs, |runs|);
    OrderTail(order, e.tasks.Keys);
    assert CalmStart(ok, e, order[0], runs[0]);
  }

  /** A loop with the signal down runs its first step and goes on with the
      rest. */
  lemma LoopCons(step: Step, e: Engine, order: seq<string>, runs: seq<AccountRun>)
    requires |runs| == |order| && order != [] && !e.stop
    ensures var r, r' := Loop(step, e, order, runs), Loop(step, step(e, order[0], runs[0]), order[1..], runs[1..]);
            r.engine == r'.engine && r.swept == r'.swept && r.processed == r'.processed + 1
  {
  }

  /** With the stop button left alone, every account is processed and the
      signal stays down. */
  lemma {:induction false} LoopRunsAll(step: Step, ok: Check, e: Engine, order: seq<string>, runs: seq<AccountRun>)
    requires QuietEach(step, ok) && Calm(ok, e, order, runs)
    ensures var r := Loop(step, e, order, runs);
            !r.swept && r.processed == |order| && !r.engine.stop && r.engine.tasks.Keys == e.tasks.Keys
    decreases |order|
  {
    if order != [] {
      CalmStep(step, ok, e, order, runs);
      LoopRunsAll(step, ok, step(e, order[0], runs[0]), order[1..], runs[1..]);
    }
  }

  /** With the stop button left alone, the records outside the order are
      untouched. */
  lemma {:induction false} LoopLeavesOthers(step: Step, ok: Check, e: Engine, order: seq<string>, runs: seq<AccountRun>,
                                            id: string)
    requires QuietEach(step, ok) && Calm(ok, e, order, runs)
    requires id in e.tasks && id !in order
    ensures var r := Loop(step, e, order, runs).engine;
            id in r.tasks && r.tasks[id] == e.tasks[id]
    decreases |order|
  {
    if order != [] {
      CalmStep(step, ok, e, order, runs);
      assert id != order[0];
      LoopLeavesOthers(step, ok, step(e, order[0], runs[0]), order[1..], runs[1..], id);
    }
  }

  /** With the stop button left alone, each account's record ends in the
      status its step settles it in. */
  lemma {:induction false} LoopSettles(step: Step, ok: Check, want: Want, e: Engine, order: seq<string>,
                                       runs: seq<AccountRun>, k: nat)
    requires QuietEach(step, ok) && SettlesEach(step, ok, want) && Calm(ok, e, order, runs) && k < |order|
    ensures var r := Loop(step, e, order, runs).engine;
            order[k] in r.tasks && r.tasks[order[k]].status == want(order[k], runs[k])
    decreases |order|
  {
    if k == 0 {
      SettlesFirst(step, ok, want, e, order, runs);
    } else {
      CalmStep(step, ok, e, order, runs);
      var o := step(e, order[0], runs[0]);
      LoopSettles(step, ok, want, o, order[1..], runs[1..], k - 1);
      LoopShiftSettled(step, want, e, order, runs, k);
    }
  }

  /** The first account of a calm loop ends settled: its step settles it
      and the rest of the loop leaves it alone. */
  lemma SettlesFirst(step: Step, ok: Check, want: Want, e: Engine, order: seq<string>, runs: seq<AccountRun>)
    requires QuietEach(step, ok) && SettlesEach(step, ok, want) && Calm(ok, e, order, runs) && order != []
    ensures var r := Loop(step, e, order, runs).engine;
            order[0] in r.tasks && r.tasks[order[0]].status == want(order[0], runs[0])
  {
    CalmStep(step, ok, e, order, runs);
    var o := step(e, order[0], runs[0]);
    LoopCons(step, e, order, runs);
    LoopLeavesOthers(step, ok, o, order[1..], runs[1..], order[0]);
  }

  /** What the rest of the loop settles, the whole loop settles, one
      position further on. */
  lemma LoopShiftSettled(step: Step, want: Want, e: Engine, order: seq<string>, runs: seq<AccountRun>, k: nat)
    requires 0 < k < |order| && |runs| == |order| && !e.stop
    requires var r' := Loop(step, step(e, order[0], runs[0]), order[1..], runs[1..]).engine;
             order[1..][k - 1] in r'.tasks && r'.tasks[order[1..][k - 1]].status == want(order[1..][k - 1], runs[1..][k - 1])
    ensures var r := Loop(step, e, order, runs).engine;
            order[k] in r.tasks && r.tasks[order[k]].status == want(order[k], runs[k])
  {
    LoopCons(step, e, order, runs);
    assert order[1..][k - 1] == order[k] && runs[1..][k - 1] == runs[k];
  }

  /** Where a loop stopped during the login call of the account at
      position `k` ends, measured against the engine `e` it started from:
      `k + 1` accounts processed; a sweep exactly when accounts are left; the
      signal up; that account's record in `erro` or `cancelado`; and every
      later record as the stop button leaves it. */
  predicate StoppedAt(e: Engine, order: seq<string>, k: nat, r: Progress)
    requires k < |order|
  {
    && r.processed == k + 1 && r.swept == (k + 1 < |order|) && r.engine.stop
    && r.engine.tasks.Keys == e.tasks.Keys
    && order[k] in r.engine.tasks
    && r.engine.tasks[order[k]].status in {"erro", "cancelado"}
    && forall i :: k < i < |order| && order[i] in e.tasks ==> r.engine.tasks[order[i]] == AfterPress(e.tasks[order[i]])
  }

  /** After the button cancelled every unguarded record but the one being
      processed, which ended in `erro` or `cancelado`, none is `pendente`. */
  lemma NothingPendingAfterStop(e: Engine, r: Engine, id: string)
    requires StoppedStep(e, id, r)
    ensures forall j :: j in r.tasks ==> r.tasks[j].status != "pendente"
  {
    forall j | j in r.tasks
      ensures r.tasks[j].status != "pendente"
    {
      PendingUnguarded();
    }
  }

  /** `pendente` is not one of the guarded statuses. */
  lemma PendingUnguarded()
    ensures Lower("pendente") !in GuardedStates
  {
    assert Lower("pendente") == "pendente";
  }

  /** A loop about to run from an `ok` engine with the signal down, on
      distinct registered ids, where the account at position `k` sees the
      stop button pressed during its login call and the earlier ones are
      left alone. */
  predicate StopsLater(ok: Check, e: Engine, order: seq<string>, runs: seq<AccountRun>, k: nat) {
    && |runs| == |order| && AllDraw(runs) && k < |order| && runs[k].stopAt == DuringLogin && Undisturbed(runs, k)
    && ok(e) && !e.stop && Distinct(order) && AllIn(order, e.tasks.Keys)
  }

  /** The stop button pressed during the login call of the account at
      position `k`, after the earlier accounts ran undisturbed, ends the loop
      as `StoppedAt` describes. The sweep that follows finds nothing left
      `pendente`, because the button has already cancelled every unguarded
      record. */
  lemma {:induction false} LoopStopAtLogin(step: Step, ok: Check, e: Engine, order: seq<string>,
                                           runs: seq<AccountRun>, k: nat)
    requires QuietEach(step, ok) && StopsAtLogin(step, ok) && StopsLater(ok, e, order, runs, k)
    ensures StoppedAt(e, order, k, Loop(step, e, order, runs))
    decreases |order|
  {
    if k == 0 {
      RunsTail(runs, k);
      OrderTail(order, e.tasks.Keys);
      StopAtFirstLogin(step, ok, e, order, runs);
    } else {
      var o := step(e, order[0], runs[0]);
      StopTail(step, ok, e, order, runs, k);
      LoopStopAtLogin(step, ok, o, order[1..], runs[1..], k - 1);
      LoopShiftStopped(step, ok, e, order, runs, k);
    }
  }

  /** Before the account whose login is interrupted, the first step is
      undisturbed and leaves the rest of the loop as the stop lemma needs
      it. */
  lemma StopTail(step: Step, ok: Check, e: Engine, order: seq<string>, runs: seq<AccountRun>, k: nat)
    requires QuietEach(step, ok) && StopsLater(ok, e, order, runs, k) && k > 0
    ensures var o := step(e, order[0], runs[0]);
            QuietStep(ok, e, order[0], o) && order[0] !in order[1..] && StopsLater(ok, o, order[1..], runs[1..], k - 1)
  {
    RunsTail(runs, k);
    OrderTail(order, e.tasks.Keys);
    assert CalmStart(ok, e, order[0], runs[0]);
    assert runs[1..][k - 1] == runs[k];
  }

  /** Where the rest of the loop stops, the whole loop stops, one position
      further on. */
  lemma LoopShiftStopped(step: Step, ok: Check, e: Engine, order: seq<string>, runs: seq<AccountRun>, k: nat)
    requires 0 < k < |order| && |runs| == |order| && !e.stop && order[0] !in order[1..]
    requires var o := step(e, order[0], runs[0]);
             QuietStep(ok, e, order[0], o) && StoppedAt(o, order[1..], k - 1, Loop(step, o, order[1..], runs[1..]))
    ensures StoppedAt(e, order, k, Loop(step, e, order, runs))
  {
    var o := step(e, order[0], runs[0]);
    LoopCons(step, e, order, runs);
    ShiftStopped(ok, e, o, order, k, Loop(step, e, order, runs), Loop(step, o, order[1..], runs[1..]));
  }

  /** The stop button pressed during the first account's login call: that
      account is the only one processed, and the sweep that follows, if any
      account is left, finds nothing `pendente`. */
  lemma StopAtFirstLogin(step: Step, ok: Check, e: Engine, order: seq<string>, runs: seq<AccountRun>)
    requires StopsAtLogin(step, ok) && |runs| == |order| && order != [] && Distinct(order)
    requires CalmStart(ok, e, order[0], runs[0]) && runs[0].stopAt == DuringLogin
    ensures StoppedAt(e, order, 0, Loop(step, e, order, runs))
  {
    var o := step(e, order[0], runs[0]);
    assert StoppedStep(e, order[0], o);
    NothingPendingAfterStop(e, o, order[0]);
    if |order| > 1 {
      assert SweepPending(o) == o;
    }
    forall i | 0 < i < |order|
      ensures order[i] != order[0]
    {
    }
  }

  /** A stop at position `k - 1` of the rest of the loop, after a first
      step that changed only its own record, is a stop at position `k` of
      the whole loop. */
  lemma ShiftStopped(ok: Check, e: Engine, o: Engine, order: seq<string>, k: nat, r: Progress, r': Progress)
    requires 0 < k < |order| && order[0] !in order[1..]
    requires r.engine == r'.engine && r.swept == r'.swept && r.processed == r'.processed + 1
    requires QuietStep(ok, e, order[0], o)
    requires StoppedAt(o, order[1..], k - 1, r')
    ensures StoppedAt(e, order, k, r)
  {
    assert order[k] == order[1..][k - 1];
    forall i | k < i < |order| && order[i] in e.tasks
      ensures r.engine.tasks[order[i]] == AfterPress(e.tasks[order[i]])
    {
      assert order[i] == order[1..][i - 1];
      assert order[i] != order[0];
    }
  }

  // ---------------------------------------------------------------------
  // The start handler's batch.

  /** The batch keeps the invariant, the keying and the registered ids. */
  lemma BatchKeepsInv(e: Engine, s: Settings, order: seq<string>, runs: seq<AccountRun>)
    requires |runs| == |order| && ValidRanges(s.ranges) && AllDraw(runs)
    requires Inv(e) && KeyedById(e.tasks)
    ensures Kept(e, Loop(StepOf(s), e, order, runs).engine)
  {
    StepKeepsInv(s);
    LoopKeepsInv(StepOf(s), e, order, runs);
  }

  /** A batch the stop button leaves alone processes every account, keeps
      the signal down, settles every account's record and touches no other
      record. */
  lemma BatchUndisturbed(e: Engine, s: Settings, order: seq<string>, runs: seq<AccountRun>)
    requires ValidRanges(s.ranges) && Calm(Sound, e, order, runs)
    ensures var r := Loop(StepOf(s), e, order, runs);
            && !r.swept && r.processed == |order| && !r.engine.stop && Kept(e, r.engine)
            && (forall k :: 0 <= k < |order| ==>
                  order[k] in r.engine.tasks && r.engine.tasks[order[k]].status == Settled(s, order[k], runs[k]))
            && (forall id :: id in e.tasks && id !in order ==> r.engine.tasks[id] == e.tasks[id])
  {
    StepKeepsInv(s);
    StepSettles(s);
    LoopKeepsInv(StepOf(s), e, order, runs);
    LoopRunsAll(StepOf(s), Sound, e, order, runs);
    forall k | 0 <= k < |order|
      ensures order[k] in Loop(StepOf(s), e, order, runs).engine.tasks
      ensures Loop(StepOf(s), e, order, runs).engine.tasks[order[k]].status == Settled(s, order[k], runs[k])
    {
      LoopSettles(StepOf(s), Sound, SettledOf(s), e, order, runs, k);
      assert Draws(runs[k]);
    }
    forall id | id in e.tasks && id !in order
      ensures Loop(StepOf(s), e, order, runs).engine.tasks[id] == e.tasks[id]
    {
      LoopLeavesOthers(StepOf(s), Sound, e, order, runs, id);
    }
  }

  /** A batch whose account at position `k` sees the stop button pressed
      during its login call, the earlier ones undisturbed, ends as
      `StoppedAt` describes. */
  lemma BatchStopAtLogin(e: Engine, s: Settings, order: seq<string>, runs: seq<AccountRun>, k: nat)
    requires ValidRanges(s.ranges) && StopsLater(Sound, e, order, runs, k)
    ensures StoppedAt(e, order, k, Loop(StepOf(s), e, order, runs))
  {
    StepSettles(s);
    StepStopsAtLogin(s);
    LoopStopAtLogin(StepOf(s), Sound, e, order, runs, k);
  }
}
