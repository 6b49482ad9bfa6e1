/** The account list of the start flow and the task records built from it.
    The list is one `login:senha` entry per line; each accepted entry becomes a
    record with id `task_<login before '@' or 'user'>_<timestamp>_<index>`
    that starts as `pendente` / `Na fila...` / `N/A`. */
module Combo {
  import opened Values
  import opened Text
  import opened Config
  import opened Registry

  /** One accepted entry of the list. */
  datatype Account = Account(login: string, password: string)

  /** One line of the list: trimmed, it must contain a `:`; the login is the
      trimmed text before the first `:`, the password the trimmed text after
      it (later colons kept), and both must be non-empty. */
  function ParseLine(line: string): (r: Option<Account>)
    ensures r.Some? ==> r.value.login != "" && r.value.password != ""
  {
    var t := Trim(line);
    if t != "" && ':' in t then
      var parts := Split(t, ':');
      var login := Trim(parts[0]);
      var password := Trim(Join(parts[1..], ':'));
      if login != "" && password != "" then Some(Account(login, password)) else None
    else None
  }

  /** The line parser stated through the first colon instead of split and
      join: a line is accepted exactly when its trimmed text has a `:` with
      non-blank text on both sides, and the entry is those two sides trimmed. */
  lemma ParseLineSpec(line: string)
    ensures var t := Trim(line);
            var login, password := Trim(Before(t, ':')), Trim(After(t, ':'));
            ParseLine(line) ==
              if ':' in t && login != "" && password != "" then Some(Account(login, password)) else None
  {
    var t := Trim(line);
    if ':' in t {
      SplitHead(t, ':');
      SplitTail(t, ':');
    }
  }

  /** An accepted login has no colon and no surrounding whitespace; an
      accepted password has no surrounding whitespace. */
  lemma ParsedAccountShape(line: string)
    requires ParseLine(line).Some?
    ensures var a := ParseLine(line).value;
            && ':' !in a.login
            && !IsSpace(a.login[0]) && !IsSpace(a.login[|a.login| - 1])
            && !IsSpace(a.password[0]) && !IsSpace(a.password[|a.password| - 1])
  {
    ParseLineSpec(line);
  }

  /** The present values of a sequence of optional values, in order. */
  function Somes<T>(xs: seq<Option<T>>): (r: seq<T>)
    ensures |r| <= |xs|
  {
    if |xs| == 0 then []
    else (if xs[0].Some? then [xs[0].value] else []) + Somes(xs[1..])
  }

  lemma {:induction false} SomesAppend<T>(a: seq<Option<T>>, b: seq<Option<T>>)
    ensures Somes(a + b) == Somes(a) + Somes(b)
    decreases |a|
  {
    if |a| == 0 {
      assert a + b == b;
    } else {
      var h := if a[0].Some? then [a[0].value] else [];
      assert (a + b)[0] == a[0];
      assert (a + b)[1..] == a[1..] + b;
      assert Somes(a + b) == h + Somes(a[1..] + b);
      SomesAppend(a[1..], b);
      assert Somes(a) == h + Somes(a[1..]);
    }
  }

  lemma {:induction false} SomesMembers<T>(xs: seq<Option<T>>, x: T)
    ensures x in Somes(xs) <==> Some(x) in xs
    decreases |xs|
  {
    if |xs| > 0 {
      SomesMembers(xs[1..], x);
      assert xs == [xs[0]] + xs[1..];
    }
  }

  /** `r` is the values of `xs` at the strictly increasing positions `idx`,
      which take in every position that holds a value. */
  ghost predicate Picks<T>(xs: seq<Option<T>>, idx: seq<nat>, r: seq<T>) {
    && |idx| == |r|
    && (forall t :: 0 <= t < |idx| ==> idx[t] < |xs| && xs[idx[t]] == Some(r[t]))
    && (forall s, t :: 0 <= s < t < |idx| ==> idx[s] < idx[t])
    && (forall k :: 0 <= k < |xs| && xs[k].Some? ==> k in idx)
  }

  /** The present values are kept in order, one for each position that has
      one. */
  lemma {:induction false} SomesInOrder<T>(xs: seq<Option<T>>)
    ensures exists idx :: Picks(xs, idx, Somes(xs))
    decreases |xs|
  {
    if |xs| == 0 {
      assert Picks(xs, [], Somes(xs));
    } else {
      SomesInOrder(xs[1..]);
      var tail :| Picks(xs[1..], tail, Somes(xs[1..]));
      var shifted := ShiftPicks(xs, tail, Somes(xs[1..]));
      if xs[0].Some? {
        PicksFirst(xs, shifted, Somes(xs[1..]));
        assert Somes(xs) == [xs[0].value] + Somes(xs[1..]);
        assert Picks(xs, [0] + shifted, Somes(xs));
      } else {
        assert Somes(xs) == Somes(xs[1..]);
        assert Picks(xs, shifted, Somes(xs));
      }
    }
  }

  /** Every present value is kept, and only those. */
  lemma SomesMembersAll<T>(xs: seq<Option<T>>)
    ensures forall x :: x in Somes(xs) <==> Some(x) in xs
  {
    forall x
      ensures x in Somes(xs) <==> Some(x) in xs
    {
      SomesMembers(xs, x);
    }
  }

  /** Positions picked from the tail of `xs` are positions one further on in
      `xs`, and they take in every position after the first that holds a
      value. */
  lemma ShiftPicks<T>(xs: seq<Option<T>>, tail: seq<nat>, r: seq<T>) returns (idx: seq<nat>)
    requires |xs| > 0 && Picks(xs[1..], tail, r)
    ensures |idx| == |r|
    ensures forall t :: 0 <= t < |idx| ==> 1 <= idx[t] < |xs| && xs[idx[t]] == Some(r[t])
    ensures forall s, t :: 0 <= s < t < |idx| ==> idx[s] < idx[t]
    ensures forall k :: 1 <= k < |xs| && xs[k].Some? ==> k in idx
  {
    idx := seq(|tail|, t requires 0 <= t < |tail| => tail[t] + 1);
    forall k | 1 <= k < |xs| && xs[k].Some?
      ensures k in idx
    {
      assert xs[1..][k - 1] == xs[k];
      var t :| 0 <= t < |tail| && tail[t] == k - 1;
      assert idx[t] == k;
    }
  }

  /** A value at the front, then the values picked after it. */
  lemma PicksFirst<T>(xs: seq<Option<T>>, idx: seq<nat>, r: seq<T>)
    requires |xs| > 0 && xs[0].Some?
    requires |idx| == |r|
    requires forall t :: 0 <= t < |idx| ==> 1 <= idx[t] < |xs| && xs[idx[t]] == Some(r[t])
    requires forall s, t :: 0 <= s < t < |idx| ==> idx[s] < idx[t]
    requires forall k :: 1 <= k < |xs| && xs[k].Some? ==> k in idx
    ensures Picks(xs, [0] + idx, [xs[0].value] + r)
  {
    var idx', r' := [0] + idx, [xs[0].value] + r;
    assert forall t :: 1 <= t < |idx'| ==> idx'[t] == idx[t - 1] && r'[t] == r[t - 1];
    forall k | 0 <= k < |xs| && xs[k].Some?
      ensures k in idx'
    {
      if k > 0 {
        assert k in idx;
      }
    }
  }

  /** When every value is present, they are all kept. */
  lemma {:induction false} SomesAllPresent<T>(xs: seq<Option<T>>, ys: seq<T>)
    requires |xs| == |ys|
    requires forall k :: 0 <= k < |xs| ==> xs[k] == Some(ys[k])
    ensures Somes(xs) == ys
    decreases |xs|
  {
    if |xs| > 0 {
      SomesAllPresent(xs[1..], ys[1..]);
      assert ys == [ys[0]] + ys[1..];
    }
  }

  /** `f` applied to every element, in order. */
  function Map<A, B>(f: A -> B, xs: seq<A>): (r: seq<B>)
    ensures |r| == |xs|
    ensures forall k :: 0 <= k < |xs| ==> r[k] == f(xs[k])
  {
    seq(|xs|, k requires 0 <= k < |xs| => f(xs[k]))
  }

  lemma MapAppend<A, B>(f: A -> B, a: seq<A>, b: seq<A>)
    ensures Map(f, a + b) == Map(f, a) + Map(f, b)
  {
    forall k | 0 <= k < |a + b|
      ensures Map(f, a + b)[k] == (Map(f, a) + Map(f, b))[k]
    {
      if k < |a| {
        assert (a + b)[k] == a[k];
      } else {
        assert (a + b)[k] == b[k - |a|];
      }
    }
  }

  /** The accepted entries of a list of lines, in line order. */
  function ParseLines(lines: seq<string>): (r: seq<Account>)
    ensures |r| <= |lines|
  {
    Somes(Map(ParseLine, lines))
  }

  /** The whole text area: trimmed, split on line feeds, each line parsed. */
  function ParseCombo(text: string): seq<Account> {
    ParseLines(Split(Trim(text), '\n'))
  }

  /** Parsing is line by line: the entries of two blocks of lines are the
      entries of the first block followed by those of the second. */
  lemma ParseLinesAppend(a: seq<string>, b: seq<string>)
    ensures ParseLines(a + b) == ParseLines(a) + ParseLines(b)
  {
    MapAppend(ParseLine, a, b);
    SomesAppend(Map(ParseLine, a), Map(ParseLine, b));
  }

  /** An entry is accepted exactly when some line parses to it. */
  lemma ParseLinesMembers(lines: seq<string>, acc: Account)
    ensures acc in ParseLines(lines) <==> exists k :: 0 <= k < |lines| && ParseLine(lines[k]) == Some(acc)
  {
    var parsed := Map(ParseLine, lines);
    SomesMembers(parsed, acc);
    if Some(acc) in parsed {
      var k :| 0 <= k < |parsed| && parsed[k] == Some(acc);
      assert ParseLine(lines[k]) == Some(acc);
    }
  }

  /** An entry that the parser gives back unchanged when written as
      `login:senha`: both sides non-empty, no surrounding whitespace, no line
      feed, and no colon in the login. */
  predicate Writable(a: Account) {
    && a.login != "" && a.password != ""
    && !IsSpace(a.login[0]) && !IsSpace(a.login[|a.login| - 1])
    && !IsSpace(a.password[0]) && !IsSpace(a.password[|a.password| - 1])
    && ':' !in a.login && '\n' !in a.login && '\n' !in a.password
  }

  /** The entry as one line of the list. */
  function Render(a: Account): string {
    a.login + ":" + a.password
  }

  /** A list of entries, one per line. */
  function RenderAll(accounts: seq<Account>): seq<string> {
    seq(|accounts|, i requires 0 <= i < |accounts| => Render(accounts[i]))
  }

  /** A written entry parses back to itself. */
  lemma ParseRender(a: Account)
    requires Writable(a)
    ensures ParseLine(Render(a)) == Some(a)
  {
    var s := Render(a);
    assert s == a.login + [':'] + a.password;
    TrimTrimmed(s);
    BeforeAfterCons(a.login, ':', a.password);
    TrimTrimmed(a.login);
    TrimTrimmed(a.password);
    ParseLineSpec(s);
  }

  /** The lines of written entries parse back to the entries. */
  lemma ParseLinesRender(accounts: seq<Account>)
    requires forall i :: 0 <= i < |accounts| ==> Writable(accounts[i])
    ensures ParseLines(RenderAll(accounts)) == accounts
  {
    var parsed := Map(ParseLine, RenderAll(accounts));
    forall k | 0 <= k < |accounts|
      ensures parsed[k] == Some(accounts[k])
    {
      ParseRender(accounts[k]);
    }
    SomesAllPresent(parsed, accounts);
  }

  /** A written entry takes up one line. */
  lemma RenderOneLine(a: Account)
    requires Writable(a)
    ensures '\n' !in Render(a)
  {
    assert Render(a) == a.login + [':'] + a.password;
  }

  /** Round trip over the whole text area: writing entries one per line and
      parsing the text gives back exactly those entries, in order. */
  lemma ParseComboRender(accounts: seq<Account>)
    requires forall i :: 0 <= i < |accounts| ==> Writable(accounts[i])
    ensures ParseCombo(Join(RenderAll(accounts), '\n')) == accounts
  {
    var lines := RenderAll(accounts);
    var text := Join(lines, '\n');
    if |accounts| == 0 {
      assert text == "";
    } else {
      JoinEnds(lines, '\n');
      var first, last := lines[0], lines[|lines| - 1];
      assert first[0] == accounts[0].login[0];
      var a := accounts[|accounts| - 1];
      assert last == a.login + ":" + a.password;
      assert last[|last| - 1] == a.password[|a.password| - 1];
      assert text[0] == first[0];
      assert text[|text| - 1] == last[|last| - 1];
      TrimTrimmed(text);
      forall k | 0 <= k < |lines|
        ensures '\n' !in lines[k]
      {
        RenderOneLine(accounts[k]);
      }
      SplitJoin(lines, '\n');
      assert Split(Trim(text), '\n') == lines;
      ParseLinesRender(accounts);
    }
  }

  /** The id's user part: the login up to its first `@`, or `user` when that
      is empty. */
  function RaPart(login: string): (r: string)
    ensures r != ""
  {
    OrElse(Split(login, '@')[0], "user")
  }

  /** `task_<ra part>_<timestamp>_<index>`. */
  function TaskId(login: string, timestamp: nat, i: nat): string {
    "task_" + RaPart(login) + "_" + NatToString(timestamp) + "_" + NatToString(i)
  }

  /** The index can be read back from the id: it is the number after the last
      underscore, whatever the login and the timestamp. */
  lemma TaskIdIndex(login: string, timestamp: nat, i: nat)
    ensures ParseDigits(AfterLast(TaskId(login, timestamp, i), '_')) == i
  {
    var d := NatToString(i);
    assert '_' !in d;
    var p := "task_" + RaPart(login) + "_" + NatToString(timestamp);
    assert TaskId(login, timestamp, i) == p + ['_'] + d;
    AfterLastSuffix(p, '_', d);
    ParseNatToString(i);
  }

  /** Entries at different positions get different ids, even for the same
      login and the same timestamp. */
  lemma TaskIdsDistinct(login1: string, t1: nat, i: nat, login2: string, t2: nat, j: nat)
    requires i != j
    ensures TaskId(login1, t1, i) != TaskId(login2, t2, j)
  {
    TaskIdIndex(login1, t1, i);
    TaskIdIndex(login2, t2, j);
  }

  /** A fresh record: waiting in the queue, no book, the batch settings and
      no detail message. */
  function NewTask(id: string, a: Account, settings: Settings): Task {
    Task(id, a.login, a.password, "pendente", "Na fila...", "N/A", Params(settings, None), None)
  }

  /** A fresh record is pending, hence not running. */
  lemma NewTaskWaits(id: string, a: Account, settings: Settings)
    ensures BucketOf(NewTask(id, a, settings).status) == PendingBucket
    ensures !Running(NewTask(id, a, settings).status)
  {
    assert Lower("pendente") == "pendente";
  }

  /** The ids of the batch, in creation order; `clock[i]` is the clock
      reading taken for entry `i`. */
  function TaskOrder(accounts: seq<Account>, clock: seq<nat>): (order: seq<string>)
    requires |clock| == |accounts|
    ensures |order| == |accounts|
  {
    seq(|accounts|, i requires 0 <= i < |accounts| => TaskId(accounts[i].login, clock[i], i))
  }

  /** Storing `vs[i]` under `ks[i]`, for `i` from first to last. */
  function Register<K, V>(ks: seq<K>, vs: seq<V>): map<K, V>
    requires |ks| == |vs|
    decreases |ks|
  {
    if |ks| == 0 then map[]
    else
      var n := |ks| - 1;
      Register(ks[..n], vs[..n])[ks[n] := vs[n]]
  }

  /** Registering distinct keys: exactly those keys, each holding its own
      value. */
  lemma {:induction false} RegisterSpec<K, V>(ks: seq<K>, vs: seq<V>)
    requires |ks| == |vs|
    requires forall i, j :: 0 <= i < j < |ks| ==> ks[i] != ks[j]
    ensures var m := Register(ks, vs);
            && (forall k :: k in m <==> k in ks)
            && |m| == |ks|
            && (forall i :: 0 <= i < |ks| ==> ks[i] in m && m[ks[i]] == vs[i])
    decreases |ks|
  {
    if |ks| > 0 {
      var n := |ks| - 1;
      var prev := Register(ks[..n], vs[..n]);
      RegisterSpec(ks[..n], vs[..n]);
      assert ks[n] !in ks[..n];
      assert ks == ks[..n] + [ks[n]];
      forall i | 0 <= i < n
        ensures Register(ks, vs)[ks[i]] == vs[i]
      {
        assert ks[..n][i] == ks[i];
        assert vs[..n][i] == vs[i];
      }
    }
  }

  /** The fresh records of the batch, in creation order. */
  function NewTasks(accounts: seq<Account>, order: seq<string>, settings: Settings): (r: seq<Task>)
    requires |order| == |accounts|
    ensures |r| == |accounts|
    ensures forall i :: 0 <= i < |r| ==> r[i] == NewTask(order[i], accounts[i], settings)
  {
    seq(|accounts|, i requires 0 <= i < |accounts| => NewTask(order[i], accounts[i], settings))
  }

  /** The registry after the creation loop: entry `i`'s fresh record stored
      under its id, entries in order. */
  function CreateTasks(accounts: seq<Account>, clock: seq<nat>, settings: Settings): map<string, Task>
    requires |clock| == |accounts|
  {
    var order := TaskOrder(accounts, clock);
    Register(order, NewTasks(accounts, order, settings))
  }

  /** The ids of a batch are pairwise distinct. */
  lemma TaskOrderDistinct(accounts: seq<Account>, clock: seq<nat>)
    requires |clock| == |accounts|
    ensures var order := TaskOrder(accounts, clock);
            forall i, j :: 0 <= i < j < |order| ==> order[i] != order[j]
  {
    var order := TaskOrder(accounts, clock);
    forall i, j | 0 <= i < j < |order|
      ensures order[i] != order[j]
    {
      TaskIdsDistinct(accounts[i].login, clock[i], i, accounts[j].login, clock[j], j);
    }
  }

  /** The creation loop registers exactly the ids of the batch, one record
      per entry, each id holding the fresh record of its own entry. */
  lemma CreateTasksSpec(accounts: seq<Account>, clock: seq<nat>, settings: Settings)
    requires |clock| == |accounts|
    ensures var tasks, order := CreateTasks(accounts, clock, settings), TaskOrder(accounts, clock);
            && (forall id :: id in tasks <==> id in order)
            && |tasks| == |accounts|
            && (forall i :: 0 <= i < |order| ==> order[i] in tasks && tasks[order[i]] == NewTask(order[i], accounts[i], settings))
  {
    var order := TaskOrder(accounts, clock);
    TaskOrderDistinct(accounts, clock);
    RegisterSpec(order, NewTasks(accounts, order, settings));
  }

  /** Every created record is stored under its own id. */
  lemma CreatedKeyedById(accounts: seq<Account>, clock: seq<nat>, settings: Settings)
    requires |clock| == |accounts|
    ensures KeyedById(CreateTasks(accounts, clock, settings))
  {
    var tasks, order := CreateTasks(accounts, clock, settings), TaskOrder(accounts, clock);
    CreateTasksSpec(accounts, clock, settings);
    forall id | id in tasks
      ensures tasks[id].referId == id
    {
      var i :| 0 <= i < |order| && order[i] == id;
    }
  }

  /** Every created record is pending, so none is active yet. */
  lemma CreatedNoneActive(accounts: seq<Account>, clock: seq<nat>, settings: Settings)
    requires |clock| == |accounts|
    ensures ActiveOf(CreateTasks(accounts, clock, settings)) == {}
  {
    var tasks, order := CreateTasks(accounts, clock, settings), TaskOrder(accounts, clock);
    CreateTasksSpec(accounts, clock, settings);
    forall id | id in tasks
      ensures !Running(tasks[id].status)
    {
      var i :| 0 <= i < |order| && order[i] == id;
      NewTaskWaits(order[i], accounts[i], settings);
    }
  }
}
