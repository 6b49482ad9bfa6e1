/** The start button's click handler: validate the form, reset the engine,
    gather the settings, parse the account list, create one pending record
    per account, run the batch, and settle the timer at the end. The clock
    readings and what the outside world does while each account is processed
    are parameters. */
module Start {
  import opened Values
  import opened Text
  import opened Randomizer
  import opened Config
  import opened Registry
  import opened Combo
  import opened Validator
  import opened StopHandlers
  import opened Orchestrator
  import opened Batch

  /** How a click ends: refused, with the messages of the failed checks, in
      check order (each is logged; the error span keeps only the last one);
      stopped because the list holds no usable account; or run over the
      created ids. */
  datatype StartResult =
    | Refused(errors: seq<string>, engine: Engine)
    | NoAccounts(engine: Engine)
    | Ran(engine: Engine, order: seq<string>, progress: Progress)

  /** The message shown when the book-service address is missing after the
      form checks passed. */
  const MissingUrl := "URL da API de Livros não definida. Verifique as Configurações Avançadas."

  /** The engine right after the reset: no record, no active id, the signal
      down and the timer off. */
  const Fresh := Engine(map[], {}, false, false)

  /** `settings` as gathered from a form that passed its checks: the chosen
      mode, the parsed ranges, the trimmed slug for the direct-slug mode and
      the trimmed search term for the search mode, empty otherwise. */
  function GatherSettings(f: Form): (s: Settings)
    requires f.mode.Some? && FormRanges(f).Some?
    ensures s.mode == f.mode.value && s.ranges == FormRanges(f).value
    ensures s.mode == DirectSlug ==> s.slug == Trim(f.slug)
    ensures s.mode == Search ==> s.searchTerm == Trim(f.searchTerm)
  {
    var m := f.mode.value;
    Settings(m,
             if m == DirectSlug then Trim(f.slug) else "",
             if m == Search then Trim(f.searchTerm) else "",
             FormRanges(f).value)
  }

  /** A valid form yields settings the randomizer accepts, with a non-blank
      slug for the direct-slug mode and a non-blank term for the search
      mode. */
  lemma SettingsOfValidForm(f: Form)
    requires Valid(f)
    ensures f.mode.Some? && FormRanges(f).Some?
    ensures var s := GatherSettings(f);
            && ValidRanges(s.ranges)
            && (s.mode == DirectSlug ==> s.slug != "")
            && (s.mode == Search ==> s.searchTerm != "")
  {
    ValidSpec(f);
  }

  /** Every entry's clock reading, in entry order. */
  function Clock(now: nat -> nat, n: nat): (clock: seq<nat>)
    ensures |clock| == n && forall i :: 0 <= i < n ==> clock[i] == now(i)
  {
    seq(n, i requires 0 <= i < n => now(i))
  }

  /** What the outside world does for each of the first `n` accounts. */
  function Runs(world: nat -> AccountRun, n: nat): (runs: seq<AccountRun>)
    ensures |runs| == n && forall k :: 0 <= k < n ==> runs[k] == world(k)
  {
    seq(n, k requires 0 <= k < n => world(k))
  }

  /** The engine after the records are created and the summary rebuilt. */
  function Prepared(accounts: seq<Account>, clock: seq<nat>, s: Settings): Engine
    requires |clock| == |accounts|
  {
    Recompute(Fresh.(tasks := CreateTasks(accounts, clock, s)))
  }

  /** The end of the handler: the summary rebuilt, and the timer cleared
      when no task is active. */
  function Settle(e: Engine): (r: Engine)
    ensures r.tasks == e.tasks && r.stop == e.stop && r.active == ActiveOf(e.tasks)
    ensures r.active == {} ==> !r.polling
  {
    var e1 := Recompute(e);
    if e1.active == {} then StopProgressPolling(e1) else e1
  }

  /** The click handler. `now(i)` is the clock reading taken for entry `i`;
      `world(k)` is what the outside world does while the `k`-th account is
      processed. */
  function StartClicked(e: Engine, f: Form, now: nat -> nat, world: nat -> AccountRun): (r: StartResult)
    requires forall k :: Draws(world(k))
  {
    if !Valid(f) then Refused(Validate(f), e)
    else if f.apiUrl == "" then Refused([MissingUrl], e)
    else
      var accounts := ParseCombo(f.combo);
      RunStart(f, world, |accounts|);
      RunAccounts(GatherSettings(f), accounts, Clock(now, |accounts|), Runs(world, |accounts|))
  }

  /** The handler once the form passed: with no account, the reset engine;
      otherwise the records are created and the batch runs over their ids. */
  function RunAccounts(s: Settings, accounts: seq<Account>, clock: seq<nat>, runs: seq<AccountRun>): (r: StartResult)
    requires ValidRanges(s.ranges) && |clock| == |accounts| == |runs| && AllDraw(runs)
    ensures !r.Refused? && (r.NoAccounts? <==> accounts == [])
  {
    if accounts == [] then NoAccounts(Fresh)
    else
      var order := TaskOrder(accounts, clock);
      var p := Loop(StepOf(s), Prepared(accounts, clock, s), order, runs);
      Ran(Settle(p.engine), order, p)
  }

  /** A run starts from settings the randomizer accepts and runs whose
      draws are in [0, 1). */
  lemma RunStart(f: Form, world: nat -> AccountRun, n: nat)
    requires forall k :: Draws(world(k))
    requires Valid(f)
    ensures f.mode.Some? && FormRanges(f).Some?
    ensures ValidRanges(GatherSettings(f).ranges) && AllDraw(Runs(world, n))
  {
    SettingsOfValidForm(f);
  }

  /** The click is refused exactly when the form fails its checks, with the
      checks' messages, and then nothing changes; the missing-address branch
      is never taken, because the checks already reject a blank address. */
  lemma RefusedIffInvalid(e: Engine, f: Form, now: nat -> nat, world: nat -> AccountRun)
    requires forall k :: Draws(world(k))
    ensures var r := StartClicked(e, f, now, world);
            && (r.Refused? <==> !Valid(f))
            && (r.Refused? ==> r.errors == Validate(f) && r.errors != [] && r.engine == e)
  {
    if Valid(f) {
      ValidRuns(e, f, now, world);
    }
  }

  /** The prepared engine: exactly the created ids, each holding its fresh
      record, none active, the signal down and the timer off. */
  lemma PreparedSpec(accounts: seq<Account>, clock: seq<nat>, s: Settings)
    requires |clock| == |accounts|
    ensures var e, order := Prepared(accounts, clock, s), TaskOrder(accounts, clock);
            && Inv(e) && KeyedById(e.tasks) && !e.stop && !e.polling && e.active == {}
            && (forall id :: id in e.tasks <==> id in order)
            && (forall i :: 0 <= i < |order| ==> order[i] in e.tasks && e.tasks[order[i]] == NewTask(order[i], accounts[i], s))
            && Distinct(order) && AllIn(order, e.tasks.Keys)
  {
    CreateTasksSpec(accounts, clock, s);
    CreatedKeyedById(accounts, clock, s);
    CreatedNoneActive(accounts, clock, s);
    TaskOrderDistinct(accounts, clock);
  }

  /** Settling keeps the invariant and the keying. */
  lemma SettleKeepsInv(e: Engine)
    requires Inv(e) && KeyedById(e.tasks)
    ensures Inv(Settle(e)) && KeyedById(Settle(e).tasks)
  {
  }

  /** Past the checks, the handler runs the parsed accounts with the
      settings gathered from the form, one clock reading and one run per
      account. */
  lemma ValidRuns(e: Engine, f: Form, now: nat -> nat, world: nat -> AccountRun)
    requires forall k :: Draws(world(k))
    requires Valid(f)
    ensures f.mode.Some? && FormRanges(f).Some?
    ensures var accounts := ParseCombo(f.combo);
            && ValidRanges(GatherSettings(f).ranges) && AllDraw(Runs(world, |accounts|))
            && StartClicked(e, f, now, world)
               == RunAccounts(GatherSettings(f), accounts, Clock(now, |accounts|), Runs(world, |accounts|))
  {
    RunStart(f, world, |ParseCombo(f.combo)|);
    ValidSpec(f);
    assert f.apiUrl != "" by {
      assert |Trim(f.apiUrl)| <= |f.apiUrl|;
    }
  }

  /** Whatever the outside world does, a run ends with the invariant kept,
      the records keyed by id, exactly the created ids registered, and no
      more of them processed than were created. */
  lemma RanKeepsInv(s: Settings, accounts: seq<Account>, clock: seq<nat>, runs: seq<AccountRun>)
    requires ValidRanges(s.ranges) && |clock| == |accounts| == |runs| && AllDraw(runs)
    ensures var r := RunAccounts(s, accounts, clock, runs);
            && (r.NoAccounts? <==> accounts == [])
            && (r.NoAccounts? ==> r.engine == Fresh)
            && (r.Ran? ==> && Inv(r.engine) && KeyedById(r.engine.tasks)
                           && r.order == TaskOrder(accounts, clock)
                           && (forall id :: id in r.engine.tasks <==> id in r.order)
                           && r.progress.processed <= |r.order|)
  {
    if accounts != [] {
      var order := TaskOrder(accounts, clock);
      PreparedSpec(accounts, clock, s);
      BatchKeepsInv(Prepared(accounts, clock, s), s, order, runs);
      SettleKeepsInv(Loop(StepOf(s), Prepared(accounts, clock, s), order, runs).engine);
    }
  }

  /** A run the stop button leaves alone processes every account in creation
      order, keeps the signal down, and leaves each account's record in its
      settled status. */
  lemma RanUndisturbed(s: Settings, accounts: seq<Account>, clock: seq<nat>, runs: seq<AccountRun>)
    requires ValidRanges(s.ranges) && |clock| == |accounts| == |runs| && AllDraw(runs)
    requires accounts != [] && Undisturbed(runs, |runs|)
    ensures var r := RunAccounts(s, accounts, clock, runs);
            && r.Ran? && !r.progress.swept && r.progress.processed == |accounts| && !r.engine.stop
            && (forall i :: 0 <= i < |r.order| ==>
                  r.order[i] in r.engine.tasks
                  && r.engine.tasks[r.order[i]].status == Settled(s, r.order[i], runs[i]))
  {
    var order := TaskOrder(accounts, clock);
    PreparedSpec(accounts, clock, s);
    BatchUndisturbed(Prepared(accounts, clock, s), s, order, runs);
  }

  /** A run whose `k`-th account sees the stop button pressed during its
      login call, the earlier ones undisturbed, processes `k + 1` accounts,
      ends with the signal up, sweeps exactly when accounts are left, and
      never starts the later accounts: each of their records reads
      `cancelado` with `Parado pelo usuário`. */
  lemma RanStopAtLogin(s: Settings, accounts: seq<Account>, clock: seq<nat>, runs: seq<AccountRun>, k: nat)
    requires ValidRanges(s.ranges) && |clock| == |accounts| == |runs| && AllDraw(runs)
    requires k < |accounts| && runs[k].stopAt == DuringLogin && Undisturbed(runs, k)
    ensures var r := RunAccounts(s, accounts, clock, runs);
            && r.Ran? && r.progress.processed == k + 1 && r.engine.stop
            && r.progress.swept == (k + 1 < |accounts|)
            && r.order[k] in r.engine.tasks && r.engine.tasks[r.order[k]].status in {"erro", "cancelado"}
            && (forall i :: k < i < |r.order| ==>
                  r.order[i] in r.engine.tasks
                  && r.engine.tasks[r.order[i]].status == "cancelado"
                  && r.engine.tasks[r.order[i]].progresso == "Parado pelo usuário")
  {
    var order := TaskOrder(accounts, clock);
    var e0 := Prepared(accounts, clock, s);
    PreparedSpec(accounts, clock, s);
    BatchStopAtLogin(e0, s, order, runs, k);
    forall i | k < i < |order|
      ensures order[i] in e0.tasks && Selects(UnlessGuarded, e0.tasks[order[i]])
    {
      NewTaskWaits(order[i], accounts[i], s);
      PendingUnguarded();
    }
    var p := Loop(StepOf(s), e0, order, runs);
    StoppedRan(e0, order, k, p, RunAccounts(s, accounts, clock, runs));
  }

  /** A run whose loop stopped at position `k`, from an engine whose later
      records are all unguarded, ends with those records cancelled by the
      button. */
  lemma StoppedRan(e0: Engine, order: seq<string>, k: nat, p: Progress, r: StartResult)
    requires k < |order| && StoppedAt(e0, order, k, p) && r == Ran(Settle(p.engine), order, p)
    requires forall i :: k < i < |order| ==> order[i] in e0.tasks && Selects(UnlessGuarded, e0.tasks[order[i]])
    ensures && r.Ran? && r.progress.processed == k + 1 && r.engine.stop
            && r.progress.swept == (k + 1 < |order|)
            && r.order[k] in r.engine.tasks && r.engine.tasks[r.order[k]].status in {"erro", "cancelado"}
            && (forall i :: k < i < |r.order| ==>
                  r.order[i] in r.engine.tasks
                  && r.engine.tasks[r.order[i]].status == "cancelado"
                  && r.engine.tasks[r.order[i]].progresso == "Parado pelo usuário")
  {
  }
}
