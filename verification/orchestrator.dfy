/** One account's run (`processSingleUserTask`): log in, choose a book,
    draw the reading targets, ask the book service to start the task, and
    record each step in the registry through `UpdateTaskStatus`. The three
    remote calls are given as their replies; the stop button may be pressed
    while one of them is out, and its handler then runs in between. */
module Orchestrator {
  import opened Values
  import opened Text
  import opened Randomizer
  import opened Config
  import opened Registry
  import opened ApiErrors
  import opened StopHandlers

  /** An entry of a book list: its slug and its name, either possibly
      missing. A `null` entry or one without a slug has `slug == None`. */
  datatype Book = Book(slug: Option<string>, name: Option<string>)

  /** How the login call ends: it threw (no response, or a success body that
      is not JSON), it got a non-2xx status, or it got a success body whose
      `token` field may be missing. */
  datatype LoginReply =
    | LoginThrew(message: string)
    | LoginRejected(status: int, statusText: string, body: ErrorBody)
    | LoginAccepted(token: Option<string>)

  /** The `initial_status` object of a start reply. */
  datatype InitialStatus = InitialStatus(status: Option<string>, progresso: Option<string>, message: Option<string>)

  /** A start reply: the echoed `refer_id` and, if it is an object, the
      initial status. */
  datatype StartAnswer = StartAnswer(referId: Option<string>, initial: Option<InitialStatus>)

  /** Where in the account's run the stop button is pressed, if at all: while
      the login call, the book-list call or the start call is out. */
  datatype StopPoint = NoStop | DuringLogin | DuringBookLookup | DuringTaskStart

  /** What the outside world supplies for one account: the replies of the
      three remote calls (a book list that is not an array reads as empty),
      the four `Math.random()` draws and the stop point. */
  datatype AccountRun = AccountRun(
    login: LoginReply,
    books: ApiReply<Option<seq<Book>>>,
    start: ApiReply<StartAnswer>,
    uBook: real, uPercent: real, uTime: real, uQuestions: real,
    stopAt: StopPoint)

  predicate Draws(run: AccountRun) {
    IsDraw(run.uBook) && IsDraw(run.uPercent) && IsDraw(run.uTime) && IsDraw(run.uQuestions)
  }

  /** The engine after a step, the statuses the run's record went through
      so far (written by the run or by the stop button), and whether the stop
      button was pressed during this run. */
  datatype Outcome = Outcome(engine: Engine, trace: seq<string>, pressed: bool)

  /** One `updateTaskStatus` call made by the run. */
  function Write(o: Outcome, id: string, status: string, progresso: string,
                 bookName: Option<string>, message: Option<string>): Outcome {
    Outcome(UpdateTaskStatus(o.engine, id, status, progresso, bookName, message),
            if id in o.engine.tasks then o.trace + [status] else o.trace,
            o.pressed)
  }

  /** The stop button's handler, when the stop point is `here`; it cancels
      the run's own record too unless that is guarded. */
  function PressStop(o: Outcome, id: string, at: StopPoint, here: StopPoint): Outcome {
    if at == here then
      var hit := id in o.engine.tasks && Selects(UnlessGuarded, o.engine.tasks[id]);
      Outcome(StopClicked(o.engine), if hit then o.trace + ["cancelado"] else o.trace, true)
    else o
  }

  /** The login step's failure update, with the message cut to 100
      characters. */
  function LoginFailed(o: Outcome, id: string, m: string): Outcome {
    Write(o, id, "erro", "Falha Login: " + Take(m, 100), None, None)
  }

  /** The message of the error the login step catches when no token came
      back: a success body without a token, a rejection, or a failed call. */
  function LoginError(reply: LoginReply): string {
    match reply
    case LoginAccepted(_) => "Token não encontrado na resposta de sucesso da API de login."
    case LoginRejected(status, statusText, body) => LoginErrorMessage(status, statusText, body)
    case LoginThrew(m) => m
  }

  /** Whether the login step returns a token. */
  predicate LoggedIn(reply: LoginReply) {
    reply.LoginAccepted? && Truthy(reply.token)
  }

  /** The record marked `iniciado` as the login call goes out, and the stop
      button when it is pressed while the call is out. */
  function Authenticating(o: Outcome, id: string, at: StopPoint): Outcome {
    PressStop(Write(o, id, "iniciado", "Autenticando...", None, None), id, at, DuringLogin)
  }

  /** `getTokenByLoginJS`: mark the record `iniciado`, make the call, then
      `login_realizado` when a token came back, `erro` otherwise. The second
      component says whether the run goes on. */
  function Login(o: Outcome, id: string, reply: LoginReply, at: StopPoint): (r: (Outcome, bool))
    ensures r.1 <==> LoggedIn(reply)
  {
    var o1 := Authenticating(o, id, at);
    if LoggedIn(reply) then (Write(o1, id, "login_realizado", "Login OK.", None, None), true)
    else (LoginFailed(o1, id, LoginError(reply)), false)
  }

  /** The book chosen for the run, or the message of the error thrown. */
  datatype Selection = Selected(slug: string, name: string) | NotSelected(message: string)

  /** A list entry taken: it needs a slug; a missing name becomes
      `Livro (Slug: <slug>)`. */
  function Chosen(b: Book): (r: Selection)
    ensures r.Selected? <==> Truthy(b.slug)
    ensures r.Selected? ==> r.slug == b.slug.value && r.name != ""
    ensures r.Selected? && Truthy(b.name) ==> r.name == b.name.value
  {
    if Truthy(b.slug) then Selected(b.slug.value, Or(b.name, "Livro (Slug: " + b.slug.value + ")"))
    else NotSelected("Falha ao selecionar livro ou obter slug.")
  }

  /** A book-list reply as the list wrappers return it: anything that is not
      an array reads as the empty list. */
  function BookList(reply: ApiReply<Option<seq<Book>>>): seq<Book>
    requires reply.Reply?
  {
    if reply.value.Some? then reply.value.value else []
  }

  /** Choosing from a list call: a failed call is rethrown as
      `Falha na API de livros (<mode>): <message>`; an empty list gives the
      mode's own message; otherwise a random entry (or the first). */
  function Listed(mode: BookMode, endpoint: string, reply: ApiReply<Option<seq<Book>>>,
                  empty: string, u: real, random: bool): (r: Selection)
    requires IsDraw(u)
    ensures !reply.Reply? ==> r.NotSelected?
    ensures reply.Reply? && BookList(reply) == [] ==> r == NotSelected(empty)
    ensures reply.Reply? && BookList(reply) != [] ==>
      exists k :: 0 <= k < |BookList(reply)| && (!random ==> k == 0) && r == Chosen(BookList(reply)[k])
  {
    match ApiFailureMessage(endpoint, reply)
    case Some(m) => NotSelected("Falha na API de livros (" + ModeName(mode) + "): " + OrElse(m, "Error"))
    case None =>
      var list := BookList(reply);
      if |list| == 0 then NotSelected(empty)
      else Chosen(list[if random then DrawOffset(u, |list|) else 0])
  }

  /** Whether the mode makes a book-list call (and so leaves room for a stop
      click): every mode but the direct slug, and a search only with a
      term. */
  predicate CallsBookApi(s: Settings) {
    s.mode == Recommended || s.mode == Indicated || (s.mode == Search && s.searchTerm != "")
  }

  /** The book-selection step. */
  function SelectBook(s: Settings, reply: ApiReply<Option<seq<Book>>>, u: real): (r: Selection)
    requires IsDraw(u)
    ensures s.mode == DirectSlug ==> (r.Selected? <==> s.slug != "")
    ensures s.mode == DirectSlug && s.slug != "" ==> r == Selected(s.slug, "Livro (Slug: " + s.slug + ")")
    ensures s.mode == Search && s.searchTerm == "" ==> r == NotSelected("Termo de pesquisa não fornecido.")
    ensures CallsBookApi(s) && !reply.Reply? ==> r.NotSelected?
  {
    match s.mode
    case Recommended =>
      Listed(s.mode, "/books/recommended", reply, "API: Nenhum livro recomendado encontrado.", u, true)
    case Indicated =>
      Listed(s.mode, "/books/indicated", reply, "API: Nenhum livro indicado encontrado.", u, true)
    case Search =>
      if s.searchTerm == "" then NotSelected("Termo de pesquisa não fornecido.")
      else Listed(s.mode, "/books/search", reply, "API: Nenhum livro encontrado para '" + s.searchTerm + "'.", u, false)
    case DirectSlug =>
      if s.slug == "" then NotSelected("Slug inválido/vazio fornecido.")
      else Chosen(Book(Some(s.slug), None))
  }

  /** The catch block: unless the record's lower-cased status (or
      `desconhecido` for a missing record) is one of the four guarded ones,
      it is marked `erro` with the message cut to 100 characters. */
  function Fail(o: Outcome, id: string, m: string, bookName: string): (r: Outcome)
    ensures r.engine.tasks.Keys == o.engine.tasks.Keys
    ensures id in o.engine.tasks && StatusKey(o.engine.tasks[id].status) in GuardedStates ==> r == o
    ensures id in o.engine.tasks && StatusKey(o.engine.tasks[id].status) !in GuardedStates ==>
      && r.engine.tasks[id].status == "erro"
      && r.engine.tasks[id].progresso == "Erro: " + Take(m, 100)
      && r.engine.tasks[id].bookName == OrElse(bookName, "N/A")
      && r.trace == o.trace + ["erro"]
    ensures id !in o.engine.tasks ==> r.engine == o.engine && r.trace == o.trace
    ensures r.pressed == o.pressed
  {
    var current := if id in o.engine.tasks then o.engine.tasks[id].status else "";
    if StatusKey(current) in GuardedStates then o
    else Write(o, id, "erro", "Erro: " + Take(m, 100), Some(OrElse(bookName, "N/A")), None)
  }

  /** The assignment of `params`: the batch settings and the drawn targets.
      No summary is rebuilt. */
  function SetTargets(e: Engine, id: string, p: Params): Engine
    requires id in e.tasks
  {
    e.(tasks := e.tasks[id := e.tasks[id].(params := p)])
  }

  /** `Params: <percent>% / <time>m / <questions> Qs.` */
  function ParamsMessage(p: Picked): string {
    "Params: " + IntToString(p.readPercent) + "% / " + IntToString(p.readTime) + "m / "
      + IntToString(p.maxQuestions) + " Qs."
  }

  /** The start call's outcome: the initial status when the reply echoes the
      id, an error otherwise. */
  function Started(reply: ApiReply<StartAnswer>, id: string): (r: Result<Option<InitialStatus>>)
    ensures r.Ok? <==> reply.Reply? && reply.value.referId == Some(id)
  {
    match ApiFailureMessage("/start_read_book_task", reply)
    case Some(m) => Err(m)
    case None =>
      if reply.value.referId == Some(id) then Ok(reply.value.initial)
      else Err("Falha ao iniciar a tarefa na API (resposta inesperada).")
  }

  /** The status written after a successful start: the reply's initial
      status when it has one, `iniciado` otherwise. */
  function StartStatus(initial: Option<InitialStatus>): string {
    if initial.Some? && Truthy(initial.value.status) then initial.value.status.value else "iniciado"
  }

  /** The update after a successful start. */
  function Begun(o: Outcome, id: string, name: string, initial: Option<InitialStatus>): Outcome {
    if initial.Some? && Truthy(initial.value.status) then
      Write(o, id, initial.value.status.value, Or(initial.value.progresso, "Tarefa iniciada via API."),
            Some(name), initial.value.message)
    else Write(o, id, "iniciado", "Tarefa iniciada via API.", Some(name), None)
  }

  /** The targets drawn for a run. */
  function TargetsFor(s: Settings, run: AccountRun, slug: string, name: string): Params
    requires ValidRanges(s.ranges) && Draws(run)
  {
    var p := Randomize(s.ranges, run.uPercent, run.uTime, run.uQuestions);
    Params(s, Some(Targets(p.readTime, p.readPercent, p.maxQuestions, slug, name)))
  }

  /** From the chosen book on: record it, draw the targets, announce them,
      then start the task. */
  function Launch(o: Outcome, s: Settings, id: string, run: AccountRun, slug: string, name: string): Outcome
    requires ValidRanges(s.ranges) && Draws(run)
  {
    var o4 := Write(o, id, "livro_selecionado", "Livro: " + Take(name, 50) + ". Calculando params...", Some(name), None);
    if id !in o4.engine.tasks then
      Fail(o4, id, "Cannot set properties of undefined (setting 'params')", name)
    else StartTask(Configure(o4, s, id, run, slug, name), id, run, name)
  }

  /** The targets are stored on the record, which then reports them and
      moves to `iniciando_tarefa`. */
  function Configure(o: Outcome, s: Settings, id: string, run: AccountRun, slug: string, name: string): Outcome
    requires ValidRanges(s.ranges) && Draws(run)
    requires id in o.engine.tasks
  {
    var p := Randomize(s.ranges, run.uPercent, run.uTime, run.uQuestions);
    var o5 := o.(engine := SetTargets(o.engine, id, TargetsFor(s, run, slug, name)));
    Write(o5, id, "iniciando_tarefa", ParamsMessage(p) + " Iniciando na API...", Some(name), None)
  }

  /** Check the stop signal, then make the start call and record its
      outcome. */
  function StartTask(o: Outcome, id: string, run: AccountRun, name: string): Outcome {
    if o.engine.stop then Write(o, id, "cancelado", "Parado antes de iniciar tarefa na API.", None, None)
    else
      Answered(PressStop(o, id, run.stopAt, DuringTaskStart), id, run, name)
  }

  /** What the start call's reply does to the record: the catch block on a
      failure, the reply's status on a success. */
  function Answered(o: Outcome, id: string, run: AccountRun, name: string): Outcome {
    match Started(run.start, id)
    case Err(m) => Fail(o, id, m, name)
    case Ok(initial) => Begun(o, id, name, initial)
  }

  /** The `try` block with its `catch`. */
  function Attempt(o: Outcome, s: Settings, id: string, run: AccountRun): Outcome
    requires ValidRanges(s.ranges) && Draws(run)
  {
    var (o1, ok) := Login(o, id, run.login, run.stopAt);
    if !ok then o1 else ChooseAndLaunch(o1, s, id, run)
  }

  /** After a successful login: choose the book, then launch or fail. */
  function ChooseAndLaunch(o: Outcome, s: Settings, id: string, run: AccountRun): Outcome
    requires ValidRanges(s.ranges) && Draws(run)
  {
    AfterLookup(Selecting(o, s, id, run.stopAt), s, id, run, SelectBook(s, run.books, run.uBook))
  }

  /** The catch block when no book was chosen, the launch otherwise. */
  function AfterLookup(o: Outcome, s: Settings, id: string, run: AccountRun, sel: Selection): Outcome
    requires ValidRanges(s.ranges) && Draws(run)
  {
    match sel
    case NotSelected(m) => Fail(o, id, m, "N/A")
    case Selected(slug, name) => Launch(o, s, id, run, slug, name)
  }

  /** The record marked `processando` as the book is looked up, and the stop
      button when it is pressed while a list call is out. */
  function Selecting(o: Outcome, s: Settings, id: string, at: StopPoint): Outcome {
    var o2 := Write(o, id, "processando", "Selecionando livro via API...", None, None);
    if CallsBookApi(s) then PressStop(o2, id, at, DuringBookLookup) else o2
  }

  /** `processSingleUserTask`: under a raised stop signal the record is
      cancelled at once and nothing else happens; otherwise the attempt runs
      and the summary is rebuilt at the end (`finally`). */
  function ProcessSingleUserTask(e: Engine, s: Settings, id: string, run: AccountRun): (o: Outcome)
    requires ValidRanges(s.ranges) && Draws(run)
  {
    if e.stop then Write(Outcome(e, [], false), id, "cancelado", "Parado pelo usuário antes de iniciar.", None, None)
    else
      var o := Attempt(Outcome(e, [], false), s, id, run);
      o.(engine := Recompute(o.engine))
  }

  // ---------------------------------------------------------------------
  // What a run keeps: the invariant, the keys, and the other records.

  /** Every record other than `id` is as in `e0`, or, once the stop button
      was pressed, as the stop button leaves it. */
  predicate OthersAfter(e0: Engine, r: Engine, id: string, pressed: bool) {
    && r.tasks.Keys == e0.tasks.Keys
    && forall j :: j in e0.tasks && j != id ==>
         r.tasks[j] == if pressed && Selects(UnlessGuarded, e0.tasks[j]) then Cancel(e0.tasks[j], "Parado pelo usuário")
                       else e0.tasks[j]
  }

  /** The state a run keeps at every step, relative to its start `e0`: the
      engine invariant, records keyed by id, the other records untouched but
      for the stop button, the stop signal raised exactly by a press, and the
      record's status the last one in the trace. */
  predicate Tracks(e0: Engine, id: string, o: Outcome) {
    && Inv(o.engine)
    && KeyedById(o.engine.tasks)
    && OthersAfter(e0, o.engine, id, o.pressed)
    && o.engine.stop == (e0.stop || o.pressed)
    && (id in o.engine.tasks && o.trace != [] ==> o.engine.tasks[id].status == o.trace[|o.trace| - 1])
  }

  lemma WriteTracks(e0: Engine, id: string, o: Outcome, status: string, progresso: string,
                    bookName: Option<string>, message: Option<string>)
    requires Tracks(e0, id, o)
    ensures Tracks(e0, id, Write(o, id, status, progresso, bookName, message))
  {
    UpdateKeepsInv(o.engine, id, status, progresso, bookName, message);
    UpdateKeepsKeyedById(o.engine, id, status, progresso, bookName, message);
  }

  /** A cancelled record is guarded, so the stop walk passes it by. */
  lemma CancelledIsGuarded(t: Task, progresso: string)
    ensures !Selects(UnlessGuarded, Cancel(t, progresso))
  {
    assert Lower("cancelado") == "cancelado";
  }

  /** `cancelado` is one of the guarded statuses. */
  lemma CanceladoGuarded()
    ensures Lower("cancelado") in GuardedStates
  {
    assert Lower("cancelado") == "cancelado";
  }

  lemma PressTracks(e0: Engine, id: string, o: Outcome, at: StopPoint, here: StopPoint)
    requires Tracks(e0, id, o)
    ensures Tracks(e0, id, PressStop(o, id, at, here))
    ensures PressStop(o, id, at, here).pressed == (o.pressed || at == here)
  {
    if at == here {
      Pressed(e0, id, o, PressStop(o, id, at, here));
    }
  }

  /** The outcome of a press on a tracked outcome is tracked. */
  lemma Pressed(e0: Engine, id: string, o: Outcome, o': Outcome)
    requires Tracks(e0, id, o)
    requires var hit := id in o.engine.tasks && Selects(UnlessGuarded, o.engine.tasks[id]);
             o' == Outcome(StopClicked(o.engine), if hit then o.trace + ["cancelado"] else o.trace, true)
    ensures Tracks(e0, id, o')
  {
    PressOthers(e0, id, o.engine, o.pressed);
    CancelledKeyedById(o.engine.tasks);
    PressOwn(o, id);
  }

  /** After a press, every other record is as the button leaves it, whether
      or not it was pressed before. */
  lemma PressOthers(e0: Engine, id: string, e: Engine, pressed: bool)
    requires OthersAfter(e0, e, id, pressed)
    ensures OthersAfter(e0, StopClicked(e), id, true)
  {
    var r := StopClicked(e);
    forall j | j in e0.tasks && j != id
      ensures r.tasks[j] == if Selects(UnlessGuarded, e0.tasks[j]) then Cancel(e0.tasks[j], "Parado pelo usuário")
                            else e0.tasks[j]
    {
      if pressed && Selects(UnlessGuarded, e0.tasks[j]) {
        CancelledIsGuarded(e0.tasks[j], "Parado pelo usuário");
      }
    }
  }

  /** A press appends `cancelado` exactly when it cancels the run's own
      record, so the record's status stays the last one of the trace. */
  lemma PressOwn(o: Outcome, id: string)
    requires id in o.engine.tasks && o.trace != [] ==> o.engine.tasks[id].status == o.trace[|o.trace| - 1]
    ensures var hit := id in o.engine.tasks && Selects(UnlessGuarded, o.engine.tasks[id]);
            var r, trace := StopClicked(o.engine), if hit then o.trace + ["cancelado"] else o.trace;
            id in r.tasks && trace != [] ==> r.tasks[id].status == trace[|trace| - 1]
  {
  }

  /** The stop walk never re-keys a record. */
  lemma CancelledKeyedById(tasks: map<string, Task>)
    requires KeyedById(tasks)
    ensures KeyedById(Cancelled(tasks, UnlessGuarded, "Parado pelo usuário"))
  {
  }

  lemma FailTracks(e0: Engine, id: string, o: Outcome, m: string, bookName: string)
    requires Tracks(e0, id, o)
    ensures Tracks(e0, id, Fail(o, id, m, bookName))
    ensures Fail(o, id, m, bookName).pressed == o.pressed
  {
    WriteTracks(e0, id, o, "erro", "Erro: " + Take(m, 100), Some(OrElse(bookName, "N/A")), None);
  }

  /** Setting the parameters keeps what a run tracks: only statuses decide
      the active set. */
  lemma SetTargetsTracks(e0: Engine, id: string, o: Outcome, p: Params)
    requires Tracks(e0, id, o) && id in o.engine.tasks
    ensures Tracks(e0, id, o.(engine := SetTargets(o.engine, id, p)))
  {
    SetTargetsFrame(o.engine, id, p);
    FrameTracks(e0, id, o, o.(engine := SetTargets(o.engine, id, p)));
  }

  /** Setting the parameters keeps the keys, the statuses, the ids, the
      active set, the signal and the timer, and every other record. */
  lemma SetTargetsFrame(e: Engine, id: string, p: Params)
    requires id in e.tasks
    ensures var r := SetTargets(e, id, p);
            && r.tasks.Keys == e.tasks.Keys && r.active == e.active && r.stop == e.stop && r.polling == e.polling
            && r.tasks[id].status == e.tasks[id].status && r.tasks[id].referId == e.tasks[id].referId
            && forall j :: j in e.tasks && j != id ==> r.tasks[j] == e.tasks[j]
  {
  }

  /** An engine that differs from a tracked one only in fields of the run's
      own record other than its id and status is tracked too. */
  lemma FrameTracks(e0: Engine, id: string, o: Outcome, o': Outcome)
    requires Tracks(e0, id, o) && id in o.engine.tasks
    requires o'.trace == o.trace && o'.pressed == o.pressed
    requires && o'.engine.tasks.Keys == o.engine.tasks.Keys && o'.engine.active == o.engine.active
             && o'.engine.stop == o.engine.stop && o'.engine.polling == o.engine.polling
             && o'.engine.tasks[id].status == o.engine.tasks[id].status
             && o'.engine.tasks[id].referId == o.engine.tasks[id].referId
             && forall j :: j in o.engine.tasks && j != id ==> o'.engine.tasks[j] == o.engine.tasks[j]
    ensures Tracks(e0, id, o')
  {
    FrameKeeps(o.engine.tasks, o'.engine.tasks, id);
    FrameOthers(e0, o.engine, o'.engine, id, o.pressed);
  }

  /** A registry that keeps the keys, every other record, and the record's
      id and status keeps the active set and the keying. */
  lemma FrameKeeps(a: map<string, Task>, b: map<string, Task>, id: string)
    requires id in a && b.Keys == a.Keys && b[id].status == a[id].status && b[id].referId == a[id].referId
    requires forall j :: j in a && j != id ==> b[j] == a[j]
    ensures ActiveOf(b) == ActiveOf(a)
    ensures KeyedById(a) ==> KeyedById(b)
  {
    SameStatusesSameActive(a, b);
  }

  lemma FrameOthers(e0: Engine, e: Engine, r: Engine, id: string, pressed: bool)
    requires OthersAfter(e0, e, id, pressed) && r.tasks.Keys == e.tasks.Keys
    requires forall j :: j in e.tasks && j != id ==> r.tasks[j] == e.tasks[j]
    ensures OthersAfter(e0, r, id, pressed)
  {
  }

  /** Two registries with the same keys and statuses have the same active
      set. */
  lemma SameStatusesSameActive(a: map<string, Task>, b: map<string, Task>)
    requires a.Keys == b.Keys
    requires forall j :: j in a ==> a[j].status == b[j].status
    ensures ActiveOf(a) == ActiveOf(b)
  {
  }

  lemma LoginFailedTracks(e0: Engine, id: string, o: Outcome, m: string)
    requires Tracks(e0, id, o)
    ensures Tracks(e0, id, LoginFailed(o, id, m))
    ensures LoginFailed(o, id, m).pressed == o.pressed
  {
    WriteTracks(e0, id, o, "erro", "Falha Login: " + Take(m, 100), None, None);
  }

  lemma AuthenticatingTracks(e0: Engine, id: string, o: Outcome, at: StopPoint)
    requires Tracks(e0, id, o)
    ensures Tracks(e0, id, Authenticating(o, id, at))
    ensures Authenticating(o, id, at).pressed == (o.pressed || at == DuringLogin)
  {
    var w := Write(o, id, "iniciado", "Autenticando...", None, None);
    WriteTracks(e0, id, o, "iniciado", "Autenticando...", None, None);
    PressTracks(e0, id, w, at, DuringLogin);
  }

  lemma LoginTracks(e0: Engine, id: string, o: Outcome, reply: LoginReply, at: StopPoint)
    requires Tracks(e0, id, o)
    ensures Tracks(e0, id, Login(o, id, reply, at).0)
    ensures Login(o, id, reply, at).0.pressed == (o.pressed || at == DuringLogin)
  {
    AuthenticatingTracks(e0, id, o, at);
    var o1 := Authenticating(o, id, at);
    var r := Login(o, id, reply, at).0;
    if LoggedIn(reply) {
      assert r == Write(o1, id, "login_realizado", "Login OK.", None, None);
      WriteTracks(e0, id, o1, "login_realizado", "Login OK.", None, None);
    } else {
      assert r == LoginFailed(o1, id, LoginError(reply));
      LoginFailedTracks(e0, id, o1, LoginError(reply));
    }
  }

  lemma BegunTracks(e0: Engine, id: string, o: Outcome, name: string, initial: Option<InitialStatus>)
    requires Tracks(e0, id, o)
    ensures Tracks(e0, id, Begun(o, id, name, initial))
    ensures Begun(o, id, name, initial).pressed == o.pressed
  {
    if initial.Some? && Truthy(initial.value.status) {
      WriteTracks(e0, id, o, initial.value.status.value, Or(initial.value.progresso, "Tarefa iniciada via API."),
                  Some(name), initial.value.message);
    } else {
      WriteTracks(e0, id, o, "iniciado", "Tarefa iniciada via API.", Some(name), None);
    }
  }

  lemma StartTaskTracks(e0: Engine, id: string, o: Outcome, run: AccountRun, name: string)
    requires Tracks(e0, id, o)
    ensures Tracks(e0, id, StartTask(o, id, run, name))
    ensures StartTask(o, id, run, name).pressed ==> o.pressed || run.stopAt == DuringTaskStart
    ensures o.pressed ==> StartTask(o, id, run, name).pressed
  {
    if o.engine.stop {
      WriteTracks(e0, id, o, "cancelado", "Parado antes de iniciar tarefa na API.", None, None);
    } else {
      var o1 := PressStop(o, id, run.stopAt, DuringTaskStart);
      PressTracks(e0, id, o, run.stopAt, DuringTaskStart);
      match Started(run.start, id)
      case Err(m) => FailTracks(e0, id, o1, m, name);
      case Ok(initial) => BegunTracks(e0, id, o1, name, initial);
    }
  }

  lemma LaunchTracks(e0: Engine, s: Settings, id: string, o: Outcome, run: AccountRun, slug: string, name: string)
    requires ValidRanges(s.ranges) && Draws(run)
    requires Tracks(e0, id, o)
    ensures Tracks(e0, id, Launch(o, s, id, run, slug, name))
    ensures Launch(o, s, id, run, slug, name).pressed ==> o.pressed || run.stopAt == DuringTaskStart
    ensures o.pressed ==> Launch(o, s, id, run, slug, name).pressed
  {
    var o4 := Write(o, id, "livro_selecionado", "Livro: " + Take(name, 50) + ". Calculando params...", Some(name), None);
    WriteTracks(e0, id, o, "livro_selecionado", "Livro: " + Take(name, 50) + ". Calculando params...", Some(name), None);
    if id !in o4.engine.tasks {
      FailTracks(e0, id, o4, "Cannot set properties of undefined (setting 'params')", name);
    } else {
      ConfigureTracks(e0, s, id, o4, run, slug, name);
      StartTaskTracks(e0, id, Configure(o4, s, id, run, slug, name), run, name);
    }
  }

  lemma ConfigureTracks(e0: Engine, s: Settings, id: string, o: Outcome, run: AccountRun, slug: string, name: string)
    requires ValidRanges(s.ranges) && Draws(run)
    requires Tracks(e0, id, o) && id in o.engine.tasks
    ensures Tracks(e0, id, Configure(o, s, id, run, slug, name))
    ensures Configure(o, s, id, run, slug, name).pressed == o.pressed
  {
    var p := Randomize(s.ranges, run.uPercent, run.uTime, run.uQuestions);
    var o5 := o.(engine := SetTargets(o.engine, id, TargetsFor(s, run, slug, name)));
    SetTargetsTracks(e0, id, o, TargetsFor(s, run, slug, name));
    WriteTracks(e0, id, o5, "iniciando_tarefa", ParamsMessage(p) + " Iniciando na API...", Some(name), None);
  }

  lemma SelectingTracks(e0: Engine, s: Settings, id: string, o: Outcome, at: StopPoint)
    requires Tracks(e0, id, o)
    ensures Tracks(e0, id, Selecting(o, s, id, at))
    ensures Selecting(o, s, id, at).pressed == (o.pressed || (at == DuringBookLookup && CallsBookApi(s)))
  {
    var o2 := Write(o, id, "processando", "Selecionando livro via API...", None, None);
    WriteTracks(e0, id, o, "processando", "Selecionando livro via API...", None, None);
    if CallsBookApi(s) {
      PressTracks(e0, id, o2, at, DuringBookLookup);
    }
  }

  lemma ChooseAndLaunchTracks(e0: Engine, s: Settings, id: string, o: Outcome, run: AccountRun)
    requires ValidRanges(s.ranges) && Draws(run)
    requires Tracks(e0, id, o)
    ensures Tracks(e0, id, ChooseAndLaunch(o, s, id, run))
    ensures run.stopAt == NoStop ==> ChooseAndLaunch(o, s, id, run).pressed == o.pressed
    ensures o.pressed ==> ChooseAndLaunch(o, s, id, run).pressed
  {
    SelectingTracks(e0, s, id, o, run.stopAt);
    AfterLookupTracks(e0, s, id, Selecting(o, s, id, run.stopAt), run, SelectBook(s, run.books, run.uBook));
  }

  lemma AfterLookupTracks(e0: Engine, s: Settings, id: string, o: Outcome, run: AccountRun, sel: Selection)
    requires ValidRanges(s.ranges) && Draws(run)
    requires Tracks(e0, id, o)
    ensures Tracks(e0, id, AfterLookup(o, s, id, run, sel))
    ensures AfterLookup(o, s, id, run, sel).pressed ==> o.pressed || run.stopAt == DuringTaskStart
    ensures o.pressed ==> AfterLookup(o, s, id, run, sel).pressed
  {
    match sel
    case NotSelected(m) => FailTracks(e0, id, o, m, "N/A");
    case Selected(slug, name) => LaunchTracks(e0, s, id, o, run, slug, name);
  }

  lemma AttemptTracks(e0: Engine, s: Settings, id: string, o: Outcome, run: AccountRun)
    requires ValidRanges(s.ranges) && Draws(run)
    requires Tracks(e0, id, o)
    ensures Tracks(e0, id, Attempt(o, s, id, run))
    ensures run.stopAt == NoStop ==> Attempt(o, s, id, run).pressed == o.pressed
    ensures run.stopAt == DuringLogin ==> Attempt(o, s, id, run).pressed
  {
    LoginTracks(e0, id, o, run.login, run.stopAt);
    var (o1, ok) := Login(o, id, run.login, run.stopAt);
    if ok {
      ChooseAndLaunchTracks(e0, s, id, o1, run);
    }
  }

  /** A run keeps the engine invariant and the keys; it changes no other
      record, except that a stop click during the run cancels every other
      unguarded record; and the stop signal ends up raised exactly when it
      was raised before or the button was pressed. With no click the other
      records are untouched; a click during the login always lands. */
  lemma ProcessTracks(e: Engine, s: Settings, id: string, run: AccountRun)
    requires ValidRanges(s.ranges) && Draws(run)
    requires Inv(e) && KeyedById(e.tasks)
    ensures Tracks(e, id, ProcessSingleUserTask(e, s, id, run))
    ensures run.stopAt == NoStop || e.stop ==> !ProcessSingleUserTask(e, s, id, run).pressed
    ensures run.stopAt == DuringLogin && !e.stop ==> ProcessSingleUserTask(e, s, id, run).pressed
  {
    var o0 := Outcome(e, [], false);
    assert Tracks(e, id, o0);
    if e.stop {
      WriteTracks(e, id, o0, "cancelado", "Parado pelo usuário antes de iniciar.", None, None);
    } else {
      AttemptTracks(e, s, id, o0, run);
      var o := Attempt(o0, s, id, run);
      RecomputeRestoresInv(o.engine);
    }
  }

  // ---------------------------------------------------------------------
  // The statuses a run's record goes through.

  /** The statuses a run writes before it is done are not guarded, so the
      stop button and the catch block both act on them. */
  lemma InProgressUnguarded(status: string)
    requires status in {"iniciado", "login_realizado", "processando", "livro_selecionado", "iniciando_tarefa"}
    ensures Lower(status) !in GuardedStates
  {
    assert Lower(status)[0] == LowerChar(status[0]);
  }

  /** The status the start step leaves when the stop button stays up. */
  function StartOutcomeStatus(run: AccountRun, id: string): string {
    match Started(run.start, id)
    case Err(_) => "erro"
    case Ok(initial) => StartStatus(initial)
  }

  /** The statuses the start step adds: `cancelado` when the signal is
      already up; when the button is pressed during the call, `cancelado`
      followed by the status of a successful start (a failed one finds the
      record cancelled and leaves it); otherwise the start's own status. */
  function StartTrace(run: AccountRun, id: string, stopped: bool): seq<string> {
    if stopped then ["cancelado"]
    else if run.stopAt == DuringTaskStart then
      ["cancelado"] + (match Started(run.start, id) case Err(_) => [] case Ok(i) => [StartStatus(i)])
    else [StartOutcomeStatus(run, id)]
  }

  /** The statuses the record of a known id goes through during a run that
      starts with the stop signal down, for each place the stop button may be
      pressed: every step's own status; `cancelado` where the button is
      pressed on an unguarded record; `cancelado` again when the signal is
      found up before the start call; and no `erro` from the catch block
      once the record is cancelled. */
  function ExpectedTrace(s: Settings, id: string, run: AccountRun): seq<string>
    requires IsDraw(run.uBook)
  {
    LoginStatuses(run.login, run.stopAt) +
      (if LoggedIn(run.login) then LookupTrace(s, id, run, run.stopAt == DuringLogin) else [])
  }

  /** The statuses of the login step: `iniciado`, `cancelado` when the button
      is pressed during the call, then the call's outcome. */
  function LoginStatuses(reply: LoginReply, at: StopPoint): seq<string> {
    ["iniciado"] + (if at == DuringLogin then ["cancelado"] else []) +
      [if LoggedIn(reply) then "login_realizado" else "erro"]
  }

  /** The statuses from the book lookup on, once logged in. */
  function LookupTrace(s: Settings, id: string, run: AccountRun, stopped: bool): seq<string>
    requires IsDraw(run.uBook)
  {
    var atLookup := run.stopAt == DuringBookLookup && CallsBookApi(s);
    ["processando"] + (if atLookup then ["cancelado"] else []) +
      LookupTail(SelectBook(s, run.books, run.uBook), id, run, atLookup, stopped)
  }

  /** A write to a known record appends its status and keeps the stop
      signal. */
  lemma WriteAppends(o: Outcome, id: string, status: string, progresso: string,
                     bookName: Option<string>, message: Option<string>)
    requires id in o.engine.tasks
    ensures var r := Write(o, id, status, progresso, bookName, message);
            && id in r.engine.tasks && r.engine.tasks[id].status == status
            && r.trace == o.trace + [status]
            && r.engine.stop == o.engine.stop
  {
  }

  /** A press on a record in an unguarded status cancels it and raises the
      signal. */
  lemma PressAppends(o: Outcome, id: string, at: StopPoint, here: StopPoint)
    requires id in o.engine.tasks && Lower(o.engine.tasks[id].status) !in GuardedStates
    ensures var r := PressStop(o, id, at, here);
            && id in r.engine.tasks
            && r.trace == o.trace + (if at == here then ["cancelado"] else [])
            && r.engine.stop == (o.engine.stop || at == here)
            && r.engine.tasks[id].status == (if at == here then "cancelado" else o.engine.tasks[id].status)
  {
  }

  lemma AuthenticatingTrace(o: Outcome, id: string, at: StopPoint)
    requires id in o.engine.tasks
    ensures var r := Authenticating(o, id, at);
            && id in r.engine.tasks
            && r.trace == o.trace + (["iniciado"] + (if at == DuringLogin then ["cancelado"] else []))
            && r.engine.stop == (o.engine.stop || at == DuringLogin)
  {
    var w := Write(o, id, "iniciado", "Autenticando...", None, None);
    WriteAppends(o, id, "iniciado", "Autenticando...", None, None);
    InProgressUnguarded("iniciado");
    PressAppends(w, id, at, DuringLogin);
    Associate(o.trace, ["iniciado"], if at == DuringLogin then ["cancelado"] else []);
  }

  lemma LoginTrace(o: Outcome, id: string, reply: LoginReply, at: StopPoint)
    requires id in o.engine.tasks
    ensures var r := Login(o, id, reply, at).0;
            && id in r.engine.tasks
            && r.trace == o.trace + LoginStatuses(reply, at)
            && r.engine.stop == (o.engine.stop || at == DuringLogin)
  {
    AuthenticatingTrace(o, id, at);
    LoginAnswered(o, Authenticating(o, id, at), id, reply, at, Login(o, id, reply, at).0);
  }

  /** The second half of the login: the answer appends its one status to the
      trace of the authentication. */
  lemma LoginAnswered(o: Outcome, o1: Outcome, id: string, reply: LoginReply, at: StopPoint, r: Outcome)
    requires id in o1.engine.tasks
    requires o1.trace == o.trace + (["iniciado"] + (if at == DuringLogin then ["cancelado"] else []))
    requires o1.engine.stop == (o.engine.stop || at == DuringLogin)
    requires r == if LoggedIn(reply) then Write(o1, id, "login_realizado", "Login OK.", None, None)
                  else LoginFailed(o1, id, LoginError(reply))
    ensures && id in r.engine.tasks
            && r.trace == o.trace + LoginStatuses(reply, at)
            && r.engine.stop == (o.engine.stop || at == DuringLogin)
  {
    var last := if LoggedIn(reply) then "login_realizado" else "erro";
    if LoggedIn(reply) {
      WriteAppends(o1, id, "login_realizado", "Login OK.", None, None);
    } else {
      WriteAppends(o1, id, "erro", "Falha Login: " + Take(LoginError(reply), 100), None, None);
    }
    Associate(o.trace, ["iniciado"] + (if at == DuringLogin then ["cancelado"] else []), [last]);
  }

  lemma SelectingTrace(o: Outcome, s: Settings, id: string, at: StopPoint)
    requires id in o.engine.tasks
    ensures var r := Selecting(o, s, id, at);
            var atLookup := at == DuringBookLookup && CallsBookApi(s);
            && id in r.engine.tasks
            && r.trace == o.trace + (["processando"] + (if atLookup then ["cancelado"] else []))
            && r.engine.stop == (o.engine.stop || atLookup)
            && r.engine.tasks[id].status == (if atLookup then "cancelado" else "processando")
  {
    var o2 := Write(o, id, "processando", "Selecionando livro via API...", None, None);
    WriteAppends(o, id, "processando", "Selecionando livro via API...", None, None);
    InProgressUnguarded("processando");
    if CallsBookApi(s) {
      PressAppends(o2, id, at, DuringBookLookup);
    }
    var atLookup := at == DuringBookLookup && CallsBookApi(s);
    Associate(o.trace, ["processando"], if atLookup then ["cancelado"] else []);
  }

  /** The catch block appends `erro` to an unguarded record and leaves a
      cancelled one alone. */
  lemma FailTrace(o: Outcome, id: string, m: string, bookName: string)
    requires id in o.engine.tasks
    ensures var r := Fail(o, id, m, bookName);
            && id in r.engine.tasks
            && r.trace == o.trace + (if Lower(o.engine.tasks[id].status) in GuardedStates then [] else ["erro"])
  {
  }

  lemma BegunTrace(o: Outcome, id: string, name: string, initial: Option<InitialStatus>)
    requires id in o.engine.tasks
    ensures Begun(o, id, name, initial).trace == o.trace + [StartStatus(initial)]
  {
  }

  /** The reply on a record that is still in progress adds the start's own
      status; on a cancelled one it adds a success's status only. */
  lemma AnsweredTrace(o: Outcome, id: string, run: AccountRun, name: string)
    requires id in o.engine.tasks
    requires o.engine.tasks[id].status in {"iniciando_tarefa", "cancelado"}
    ensures Answered(o, id, run, name).trace == o.trace +
              if o.engine.tasks[id].status == "cancelado" then
                (match Started(run.start, id) case Err(_) => [] case Ok(i) => [StartStatus(i)])
              else [StartOutcomeStatus(run, id)]
  {
    InProgressUnguarded("iniciando_tarefa");
    CanceladoGuarded();
    match Started(run.start, id)
    case Err(m) => FailTrace(o, id, m, name);
    case Ok(initial) => BegunTrace(o, id, name, initial);
  }

  lemma StartTaskTrace(o: Outcome, id: string, run: AccountRun, name: string)
    requires id in o.engine.tasks && o.engine.tasks[id].status == "iniciando_tarefa"
    ensures StartTask(o, id, run, name).trace == o.trace + StartTrace(run, id, o.engine.stop)
  {
    if o.engine.stop {
      WriteAppends(o, id, "cancelado", "Parado antes de iniciar tarefa na API.", None, None);
    } else {
      InProgressUnguarded("iniciando_tarefa");
      PressAppends(o, id, run.stopAt, DuringTaskStart);
      StartAfterPress(o.trace, PressStop(o, id, run.stopAt, DuringTaskStart), id, run, name);
    }
  }

  /** The start call's answer after the press point: `cancelado` first when
      the button was pressed there, then what the answer appends. */
  lemma StartAfterPress(trace: seq<string>, o1: Outcome, id: string, run: AccountRun, name: string)
    requires id in o1.engine.tasks
    requires o1.trace == trace + (if run.stopAt == DuringTaskStart then ["cancelado"] else [])
    requires o1.engine.tasks[id].status == if run.stopAt == DuringTaskStart then "cancelado" else "iniciando_tarefa"
    ensures Answered(o1, id, run, name).trace == trace + StartTrace(run, id, false)
  {
    AnsweredTrace(o1, id, run, name);
    if run.stopAt == DuringTaskStart {
      Associate(trace, ["cancelado"], match Started(run.start, id) case Err(_) => [] case Ok(i) => [StartStatus(i)]);
    } else {
      assert o1.trace == trace;
    }
  }

  lemma ConfigureTrace(o: Outcome, s: Settings, id: string, run: AccountRun, slug: string, name: string)
    requires ValidRanges(s.ranges) && Draws(run)
    requires id in o.engine.tasks
    ensures var r := Configure(o, s, id, run, slug, name);
            && id in r.engine.tasks && r.engine.tasks[id].status == "iniciando_tarefa"
            && r.trace == o.trace + ["iniciando_tarefa"]
            && r.engine.stop == o.engine.stop
  {
    var p := Randomize(s.ranges, run.uPercent, run.uTime, run.uQuestions);
    var o5 := o.(engine := SetTargets(o.engine, id, TargetsFor(s, run, slug, name)));
    WriteAppends(o5, id, "iniciando_tarefa", ParamsMessage(p) + " Iniciando na API...", Some(name), None);
  }

  lemma LaunchTrace(o: Outcome, s: Settings, id: string, run: AccountRun, slug: string, name: string)
    requires ValidRanges(s.ranges) && Draws(run)
    requires id in o.engine.tasks
    ensures Launch(o, s, id, run, slug, name).trace ==
            o.trace + ["livro_selecionado", "iniciando_tarefa"] + StartTrace(run, id, o.engine.stop)
  {
    var o4 := Write(o, id, "livro_selecionado", "Livro: " + Take(name, 50) + ". Calculando params...", Some(name), None);
    WriteAppends(o, id, "livro_selecionado", "Livro: " + Take(name, 50) + ". Calculando params...", Some(name), None);
    ConfigureTrace(o4, s, id, run, slug, name);
    var o6 := Configure(o4, s, id, run, slug, name);
    StartTaskTrace(o6, id, run, name);
    assert Launch(o, s, id, run, slug, name) == StartTask(o6, id, run, name);
    Regroup(o.trace, "livro_selecionado", "iniciando_tarefa", StartTrace(run, id, o.engine.stop));
  }

  /** Two single appends followed by a tail read as one append of a pair. */
  lemma Regroup<T>(a: seq<T>, x: T, y: T, rest: seq<T>)
    ensures a + [x] + [y] + rest == a + [x, y] + rest
  {
  }

  lemma ChooseAndLaunchTrace(o: Outcome, s: Settings, id: string, run: AccountRun)
    requires ValidRanges(s.ranges) && Draws(run)
    requires id in o.engine.tasks
    ensures ChooseAndLaunch(o, s, id, run).trace == o.trace + LookupTrace(s, id, run, o.engine.stop)
  {
    SelectingTrace(o, s, id, run.stopAt);
    var atLookup := run.stopAt == DuringBookLookup && CallsBookApi(s);
    var sel := SelectBook(s, run.books, run.uBook);
    var head := ["processando"] + (if atLookup then ["cancelado"] else []);
    var tail := LookupTail(sel, id, run, atLookup, o.engine.stop);
    var o3 := Selecting(o, s, id, run.stopAt);
    AfterLookupTrace(o3, s, id, run, sel, atLookup);
    assert LookupTail(sel, id, run, atLookup, o3.engine.stop) == tail;
    assert ChooseAndLaunch(o, s, id, run) == AfterLookup(o3, s, id, run, sel);
    Associate(o.trace, head, tail);
  }

  /** What follows the lookup: the catch block's `erro` unless the record was
      cancelled, or the launch. */
  function LookupTail(sel: Selection, id: string, run: AccountRun, atLookup: bool, stopped: bool): seq<string> {
    match sel
    case NotSelected(_) => (if atLookup then [] else ["erro"])
    case Selected(_, _) => ["livro_selecionado", "iniciando_tarefa"] + StartTrace(run, id, stopped || atLookup)
  }

  /** The steps after the lookup, from the record's state once it is done. */
  lemma AfterLookupTrace(o: Outcome, s: Settings, id: string, run: AccountRun, sel: Selection, atLookup: bool)
    requires ValidRanges(s.ranges) && Draws(run)
    requires id in o.engine.tasks
    requires o.engine.tasks[id].status == (if atLookup then "cancelado" else "processando")
    requires atLookup ==> o.engine.stop
    ensures AfterLookup(o, s, id, run, sel).trace == o.trace + LookupTail(sel, id, run, atLookup, o.engine.stop)
  {
    match sel
    case NotSelected(m) =>
      NotSelectedTrace(o, id, m, atLookup);
    case Selected(slug, name) =>
      LaunchTrace(o, s, id, run, slug, name);
      assert AfterLookup(o, s, id, run, sel) == Launch(o, s, id, run, slug, name);
      var rest := StartTrace(run, id, o.engine.stop);
      assert o.engine.stop || atLookup == o.engine.stop;
      assert LookupTail(sel, id, run, atLookup, o.engine.stop) == ["livro_selecionado", "iniciando_tarefa"] + rest;
      Associate(o.trace, ["livro_selecionado", "iniciando_tarefa"], rest);
  }

  /** With no book chosen, the catch block appends `erro` unless the stop
      button cancelled the record during the lookup. */
  lemma NotSelectedTrace(o: Outcome, id: string, m: string, atLookup: bool)
    requires id in o.engine.tasks
    requires o.engine.tasks[id].status == (if atLookup then "cancelado" else "processando")
    ensures Fail(o, id, m, "N/A").trace == o.trace + (if atLookup then [] else ["erro"])
  {
    InProgressUnguarded("processando");
    CanceladoGuarded();
    FailTrace(o, id, m, "N/A");
  }

  /** Appending is associative. */
  lemma Associate<T>(a: seq<T>, b: seq<T>, c: seq<T>)
    ensures a + b + c == a + (b + c)
  {
  }

  lemma AttemptTrace(o: Outcome, s: Settings, id: string, run: AccountRun)
    requires ValidRanges(s.ranges) && Draws(run)
    requires id in o.engine.tasks && !o.engine.stop
    ensures Attempt(o, s, id, run).trace == o.trace + ExpectedTrace(s, id, run)
  {
    if LoggedIn(run.login) {
      LoggedInTrace(o, s, id, run);
    } else {
      RefusedTrace(o, s, id, run);
    }
  }

  lemma RefusedTrace(o: Outcome, s: Settings, id: string, run: AccountRun)
    requires ValidRanges(s.ranges) && Draws(run)
    requires id in o.engine.tasks && !LoggedIn(run.login)
    ensures Attempt(o, s, id, run).trace == o.trace + ExpectedTrace(s, id, run)
  {
    LoginTrace(o, id, run.login, run.stopAt);
    var login := LoginStatuses(run.login, run.stopAt);
    assert Attempt(o, s, id, run) == Login(o, id, run.login, run.stopAt).0;
    assert ExpectedTrace(s, id, run) == login + [];
    assert login + [] == login;
  }

  lemma LoggedInTrace(o: Outcome, s: Settings, id: string, run: AccountRun)
    requires ValidRanges(s.ranges) && Draws(run)
    requires id in o.engine.tasks && !o.engine.stop && LoggedIn(run.login)
    ensures Attempt(o, s, id, run).trace == o.trace + ExpectedTrace(s, id, run)
  {
    LoginTrace(o, id, run.login, run.stopAt);
    var o1 := Login(o, id, run.login, run.stopAt).0;
    assert Attempt(o, s, id, run) == ChooseAndLaunch(o1, s, id, run);
    ChooseAndLaunchTrace(o1, s, id, run);
    Associate(o.trace, LoginStatuses(run.login, run.stopAt), LookupTrace(s, id, run, run.stopAt == DuringLogin));
  }

  /** The statuses one account's record goes through, from the first write
      to the last, match the reference for every place the stop button may
      be pressed, and the record ends in the last of them. A record the stop
      signal finds before it starts is cancelled and nothing else. */
  lemma ProcessTrace(e: Engine, s: Settings, id: string, run: AccountRun)
    requires ValidRanges(s.ranges) && Draws(run)
    requires Inv(e) && KeyedById(e.tasks) && id in e.tasks
    ensures var o := ProcessSingleUserTask(e, s, id, run);
            && o.trace == (if e.stop then ["cancelado"] else ExpectedTrace(s, id, run))
            && id in o.engine.tasks
            && o.engine.tasks[id].status == o.trace[|o.trace| - 1]
  {
    ProcessTracks(e, s, id, run);
    if !e.stop {
      AttemptTrace(Outcome(e, [], false), s, id, run);
    }
  }

  /** Where a run the stop button leaves alone puts its record: `erro` when
      the login or the book choice fails, the start's own status otherwise. */
  function Settled(s: Settings, id: string, run: AccountRun): string
    requires IsDraw(run.uBook)
  {
    if !LoggedIn(run.login) then "erro"
    else match SelectBook(s, run.books, run.uBook)
      case NotSelected(_) => "erro"
      case Selected(_, _) => StartOutcomeStatus(run, id)
  }

  /** With no stop, the reference trace ends in the settled status. */
  lemma ExpectedEndsSettled(s: Settings, id: string, run: AccountRun)
    requires IsDraw(run.uBook) && run.stopAt == NoStop
    ensures var t := ExpectedTrace(s, id, run);
            t != [] && t[|t| - 1] == Settled(s, id, run)
  {
    var login := LoginStatuses(run.login, run.stopAt);
    assert login == ["iniciado"] + [] + [if LoggedIn(run.login) then "login_realizado" else "erro"];
    if LoggedIn(run.login) {
      var sel := SelectBook(s, run.books, run.uBook);
      var tail := LookupTail(sel, id, run, false, false);
      assert tail != [] && tail[|tail| - 1] == Settled(s, id, run);
      var lookup := ["processando"] + [] + tail;
      assert lookup[|lookup| - 1] == tail[|tail| - 1];
      assert LookupTrace(s, id, run, false) == lookup;
      assert (login + lookup)[|login + lookup| - 1] == lookup[|lookup| - 1];
    } else {
      assert ExpectedTrace(s, id, run) == login + [];
    }
  }

  /** With a stop during the login call, the record ends in `erro` or
      `cancelado`: the only later step that writes anything else, the start
      call, is skipped once the signal is up. */
  lemma ExpectedEndsAfterLoginStop(s: Settings, id: string, run: AccountRun)
    requires IsDraw(run.uBook) && run.stopAt == DuringLogin
    ensures var t := ExpectedTrace(s, id, run);
            t != [] && t[|t| - 1] in {"erro", "cancelado"}
  {
    var login := LoginStatuses(run.login, run.stopAt);
    assert login == ["iniciado"] + ["cancelado"] + [if LoggedIn(run.login) then "login_realizado" else "erro"];
    if LoggedIn(run.login) {
      var sel := SelectBook(s, run.books, run.uBook);
      var tail := LookupTail(sel, id, run, false, true);
      assert tail != [] && tail[|tail| - 1] in {"erro", "cancelado"};
      var lookup := ["processando"] + [] + tail;
      assert lookup[|lookup| - 1] == tail[|tail| - 1];
      assert LookupTrace(s, id, run, true) == lookup;
      assert (login + lookup)[|login + lookup| - 1] == lookup[|lookup| - 1];
    } else {
      assert ExpectedTrace(s, id, run) == login + [];
    }
  }

  /** One account with the stop button left alone: its record ends in the
      settled status, the stop signal stays down, and every other record is
      as it was. */
  lemma ProcessSettles(e: Engine, s: Settings, id: string, run: AccountRun)
    requires ValidRanges(s.ranges) && Draws(run) && run.stopAt == NoStop
    requires Inv(e) && KeyedById(e.tasks) && id in e.tasks && !e.stop
    ensures var r := ProcessSingleUserTask(e, s, id, run).engine;
            && Inv(r) && KeyedById(r.tasks) && !r.stop
            && r.tasks.Keys == e.tasks.Keys
            && r.tasks[id].status == Settled(s, id, run)
            && forall j :: j in e.tasks && j != id ==> r.tasks[j] == e.tasks[j]
  {
    ProcessTracks(e, s, id, run);
    ProcessTrace(e, s, id, run);
    ExpectedEndsSettled(s, id, run);
  }

  /** One account with the stop button pressed during its login call: its
      record ends in `erro` or `cancelado`, the signal is up, and every other
      record not already guarded is cancelled with `Parado pelo usuário`. */
  lemma ProcessStopAtLogin(e: Engine, s: Settings, id: string, run: AccountRun)
    requires ValidRanges(s.ranges) && Draws(run) && run.stopAt == DuringLogin
    requires Inv(e) && KeyedById(e.tasks) && id in e.tasks && !e.stop
    ensures var r := ProcessSingleUserTask(e, s, id, run).engine;
            && Inv(r) && KeyedById(r.tasks) && r.stop
            && r.tasks.Keys == e.tasks.Keys
            && r.tasks[id].status in {"erro", "cancelado"}
            && forall j :: j in e.tasks && j != id ==>
                 r.tasks[j] == if Selects(UnlessGuarded, e.tasks[j]) then Cancel(e.tasks[j], "Parado pelo usuário")
                               else e.tasks[j]
  {
    ProcessTracks(e, s, id, run);
    ProcessTrace(e, s, id, run);
    ExpectedEndsAfterLoginStop(s, id, run);
  }
}
