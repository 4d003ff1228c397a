/** A backtest as a transition system: processes that start it, drive it day by day, crash, are
    killed, stop themselves, are marked failed, and are resumed. One process drives at a time.
    A day is one transaction: until its commit, nothing of it is in the database. */
module RunProtocol {
  import opened Trading
  import opened Dates
  import opened Ledger
  import opened Engine
  import opened DayTransaction
  import Replay
  import Counterfactual

  datatype Status = RUNNING | FAILED | SUCCESS

  /** A row of `runs`: its status is SUCCESS or, within the day's transaction, still RUNNING. */
  datatype RunRow = RunRow(day: int, success: bool)

  /** The committed database: the backtest's status and recorded tokens, its runs, its rows. */
  datatype Db = Db(status: Status, usage: Option<nat>, runs: seq<RunRow>, store: Store)

  /** A day in progress: what its transaction has written so far. */
  datatype Tx = Tx(runs: seq<RunRow>, store: Store, written: nat)

  datatype Process =
    | Idle
    | Driving(todo: seq<int>, tokens: nat, tx: Option<Tx>)
    | Returning(tokens: nat)
    | Failing(tokens: nat)

  /** `recorded`, `lost` and `spent` are history: tokens of each process that ended through
      `_finish`, tokens of processes killed before that, and all tokens ever used. */
  datatype Sys = Sys(db: Db, process: Process, recorded: seq<nat>, lost: nat, spent: nat)

  const DATE_MIN: int := 1

  function Total(xs: seq<nat>): nat {
    if xs == [] then 0 else Total(xs[..|xs| - 1]) + xs[|xs| - 1]
  }

  /** Days after the last completed one. */
  function After(days: seq<int>, last: int): seq<int> {
    if days == [] then []
    else After(days[..|days| - 1], last) + if days[|days| - 1] > last then [days[|days| - 1]] else []
  }

  function LastDay(runs: seq<RunRow>): int {
    if runs == [] then DATE_MIN
    else
      var before, day := LastDay(runs[..|runs| - 1]), runs[|runs| - 1].day;
      if day > before then day else before
  }

  predicate AllSucceeded(runs: seq<RunRow>) {
    forall i :: 0 <= i < |runs| ==> runs[i].success
  }

  // ---------------------------------------------------------------- transitions

  /** The backtests row has been inserted, in a transaction of its own. */
  ghost predicate Init(cfg: Config, s: Sys) {
    s == Sys(Db(RUNNING, None, [], NOTHING_STORED), Driving(cfg.calendar, 0, None), [], 0, 0)
  }

  ghost predicate BeginDay(cfg: Config, s: Sys, t: Sys) {
    && s.process.Driving? && s.process.tx.None? && s.process.todo != []
    && t == s.(process := s.process.(tx := Some(Tx(s.db.runs + [RunRow(s.process.todo[0], false)], s.db.store, 0))))
  }

  /** The graph's LLM calls, whenever they happen. */
  ghost predicate Spend(s: Sys, t: Sys, tokens: nat) {
    && s.process.Driving?
    && t == s.(process := s.process.(tokens := s.process.tokens + tokens), spent := s.spent + tokens)
  }

  ghost predicate DecideSymbol(cfg: Config, s: Sys, t: Sys) {
    && s.process.Driving? && s.process.tx.Some? && s.process.todo != []
    && s.process.tx.value.written < |cfg.symbols|
    && var tx := s.process.tx.value;
       var next := WriteSymbol(cfg, s.db.store, tx.store, s.process.todo[0], cfg.symbols[tx.written]);
       && next.Some?
       && t == s.(process := s.process.(tx := Some(Tx(tx.runs, next.value, tx.written + 1))))
  }

  ghost predicate CommitDay(cfg: Config, s: Sys, t: Sys) {
    && s.process.Driving? && s.process.tx.Some? && s.process.todo != []
    && s.process.tx.value.written == |cfg.symbols|
    && var tx := s.process.tx.value;
       && tx.runs != []
       && var last := |tx.runs| - 1;
          t == s.(db := s.db.(runs := tx.runs[last := tx.runs[last].(success := true)], store := tx.store),
                  process := s.process.(todo := s.process.todo[1..], tx := None))
  }

  function Recorded(usage: Option<nat>): nat {
    if usage.Some? then usage.value else 0
  }

  /** `_finish`: the status and the added tokens, only while the row says RUNNING. */
  function Ended(db: Db, status: Status, tokens: nat): Db {
    if db.status != RUNNING then db
    else db.(status := status, usage := Some(Recorded(db.usage) + tokens))
  }

  function Finished(s: Sys, status: Status, tokens: nat): Sys {
    if s.db.status != RUNNING then s
    else s.(db := Ended(s.db, status, tokens), recorded := s.recorded + [tokens])
  }

  ghost predicate Finish(s: Sys, t: Sys) {
    && s.process.Driving? && s.process.tx.None? && s.process.todo == []
    && t == Finished(s, SUCCESS, s.process.tokens).(process := Returning(s.process.tokens))
  }

  ghost predicate Return(s: Sys, t: Sys) {
    s.process.Returning? && t == s.(process := Idle)
  }

  /** Any exception -- a failed call, a missing open, the oversell error, the spending cap, Ctrl-C --
      at any point: the open transaction is rolled back. */
  ghost predicate Raise(s: Sys, t: Sys) {
    && (s.process.Driving? || s.process.Returning?)
    && t == s.(process := Failing(s.process.tokens))
  }

  ghost predicate MarkFailed(s: Sys, t: Sys) {
    s.process.Failing? && t == Finished(s, FAILED, s.process.tokens).(process := Idle)
  }

  /** Tokens the current process has used and not yet recorded. */
  function Unrecorded(s: Sys): nat {
    match s.process
    case Driving(_, tokens, _) => tokens
    case Failing(tokens) => if s.db.status == RUNNING then tokens else 0
    case _ => 0
  }

  /** The process disappears at any point; the database rolls its open transaction back. */
  ghost predicate Kill(s: Sys, t: Sys) {
    !s.process.Idle? && t == s.(process := Idle, lost := s.lost + Unrecorded(s))
  }

  /** A resume with matching settings that `_start_resume` accepts. */
  ghost predicate Resume(cfg: Config, s: Sys, t: Sys) {
    && s.process.Idle? && s.db.status != SUCCESS
    && AllSucceeded(s.db.runs)
    && t == s.(db := s.db.(status := RUNNING), process := Driving(After(cfg.calendar, LastDay(s.db.runs)), 0, None))
  }

  ghost predicate Next(cfg: Config, s: Sys, t: Sys) {
    || BeginDay(cfg, s, t) || DecideSymbol(cfg, s, t) || CommitDay(cfg, s, t)
    || (exists tokens: nat :: Spend(s, t, tokens))
    || Finish(s, t) || Return(s, t) || Raise(s, t) || MarkFailed(s, t) || Kill(s, t) || Resume(cfg, s, t)
  }

  ghost predicate Behaviour(cfg: Config, states: seq<Sys>) {
    && states != []
    && Init(cfg, states[0])
    && forall i :: 0 <= i < |states| - 1 ==> Next(cfg, states[i], states[i + 1])
  }

  // ---------------------------------------------------------------- the invariant

  /** The committed days are a prefix of the calendar, each run once and whole, and the rows are
      those of exactly these days. */
  ghost predicate CommittedPrefix(cfg: Config, db: Db) {
    && |db.runs| <= |cfg.calendar|
    && (forall i :: 0 <= i < |db.runs| ==> db.runs[i] == RunRow(cfg.calendar[i], true))
    && AfterDays(cfg, |db.runs|) == Some(db.store)
    && (db.status == SUCCESS ==> |db.runs| == |cfg.calendar|)
  }

  ghost predicate OpenDay(cfg: Config, db: Db, todo: seq<int>, tx: Tx) {
    && todo != [] && tx.written <= |cfg.symbols|
    && tx.runs == db.runs + [RunRow(todo[0], false)]
    && DayWrites(cfg, db.store, todo[0], tx.written) == Some(tx.store)
  }

  ghost predicate ProcessSound(cfg: Config, s: Sys) {
    match s.process
    case Driving(todo, _, tx) =>
      && s.db.status == RUNNING
      && |s.db.runs| <= |cfg.calendar| && todo == cfg.calendar[|s.db.runs|..]
      && (tx.Some? ==> OpenDay(cfg, s.db, todo, tx.value))
    case Returning(_) => s.db.status == SUCCESS
    case Failing(_) => s.db.status != FAILED
    case Idle => true
  }

  ghost predicate TokensConserved(s: Sys) {
    && Recorded(s.db.usage) == Total(s.recorded)
    && Total(s.recorded) + s.lost + Unrecorded(s) == s.spent
  }

  ghost predicate Inv(cfg: Config, s: Sys) {
    CommittedPrefix(cfg, s.db) && ProcessSound(cfg, s) && TokensConserved(s)
  }

  lemma {:induction false} AfterIsSuffix(days: seq<int>, n: nat, last: int)
    requires StrictlyIncreasing(days) && n <= |days|
    requires forall i :: 0 <= i < n ==> days[i] <= last
    requires forall i :: n <= i < |days| ==> last < days[i]
    ensures After(days, last) == days[n..]
  {
    if days != [] {
      var m := |days| - 1;
      if n <= m {
        AfterIsSuffix(days[..m], n, last);
        assert days[n..] == days[..m][n..] + [days[m]];
      } else {
        AfterIsSuffix(days[..m], m, last);
        assert days[..m][m..] == [];
      }
    }
  }

  lemma {:induction false} LastDayOfPrefix(cfg: Config, runs: seq<RunRow>)
    requires StrictlyIncreasing(cfg.calendar) && |runs| <= |cfg.calendar|
    requires forall i :: 0 <= i < |runs| ==> runs[i].day == cfg.calendar[i]
    requires forall i :: 0 <= i < |cfg.calendar| ==> DATE_MIN < cfg.calendar[i]
    ensures LastDay(runs) == if runs == [] then DATE_MIN else cfg.calendar[|runs| - 1]
  {
    if runs != [] {
      LastDayOfPrefix(cfg, runs[..|runs| - 1]);
    }
  }

  /** A resume continues exactly after the committed days. */
  lemma ResumeContinues(cfg: Config, db: Db)
    requires Valid(cfg) && CommittedPrefix(cfg, db)
    requires forall i :: 0 <= i < |cfg.calendar| ==> DATE_MIN < cfg.calendar[i]
    ensures After(cfg.calendar, LastDay(db.runs)) == cfg.calendar[|db.runs|..]
  {
    LastDayOfPrefix(cfg, db.runs);
    AfterIsSuffix(cfg.calendar, |db.runs|, LastDay(db.runs));
  }

  lemma TotalAppend(xs: seq<nat>, x: nat)
    ensures Total(xs + [x]) == Total(xs) + x
  {
    assert (xs + [x])[..|xs|] == xs;
  }

  lemma FinishKeepsTokens(s: Sys, status: Status, p: Process)
    requires TokensConserved(s) && status != RUNNING
    requires s.process.Driving? || s.process.Failing?
    requires s.process.Driving? ==> s.db.status == RUNNING
    requires p.Idle? || p.Returning?
    ensures TokensConserved(Finished(s, status, s.process.tokens).(process := p))
  {
    hide Total;
    TotalAppend(s.recorded, s.process.tokens);
  }

  lemma CommitKeepsPrefix(cfg: Config, s: Sys, t: Sys)
    requires Inv(cfg, s) && CommitDay(cfg, s, t)
    ensures Inv(cfg, t)
  {
    var n, tx := |s.db.runs|, s.process.tx.value;
    assert cfg.calendar[n..][0] == cfg.calendar[n];
    assert cfg.calendar[n..][1..] == cfg.calendar[n + 1..];
    assert t.db.runs == s.db.runs + [RunRow(cfg.calendar[n], true)];
    hide DayWrites;
    assert AfterDays(cfg, n + 1) == Some(tx.store);
  }

  lemma DayStepsKeepInv(cfg: Config, s: Sys, t: Sys)
    requires Inv(cfg, s)
    requires BeginDay(cfg, s, t) || DecideSymbol(cfg, s, t)
    ensures Inv(cfg, t)
  {
    hide AfterDays, WriteSymbol;
  }

  lemma FinishingStepsKeepInv(cfg: Config, s: Sys, t: Sys)
    requires Inv(cfg, s)
    requires Finish(s, t) || MarkFailed(s, t)
    ensures Inv(cfg, t)
  {
    hide AfterDays, DayWrites, OpenDay, TokensConserved;
    if Finish(s, t) {
      FinishKeepsTokens(s, SUCCESS, t.process);
    } else {
      FinishKeepsTokens(s, FAILED, t.process);
    }
  }

  lemma LeavingStepsKeepInv(cfg: Config, s: Sys, t: Sys)
    requires Inv(cfg, s)
    requires Return(s, t) || Raise(s, t) || Kill(s, t)
    ensures Inv(cfg, t)
  {
    hide CommittedPrefix, OpenDay, Total;
  }

  lemma NextKeepsInv(cfg: Config, s: Sys, t: Sys)
    requires Valid(cfg) && Inv(cfg, s) && Next(cfg, s, t)
    requires forall i :: 0 <= i < |cfg.calendar| ==> DATE_MIN < cfg.calendar[i]
    ensures Inv(cfg, t)
  {
    if CommitDay(cfg, s, t) {
      CommitKeepsPrefix(cfg, s, t);
    } else if BeginDay(cfg, s, t) || DecideSymbol(cfg, s, t) {
      DayStepsKeepInv(cfg, s, t);
    } else if Resume(cfg, s, t) {
      ResumeContinues(cfg, s.db);
    } else if exists tokens: nat :: Spend(s, t, tokens) {
      hide AfterDays, DayWrites;
    } else if Finish(s, t) || MarkFailed(s, t) {
      FinishingStepsKeepInv(cfg, s, t);
    } else {
      LeavingStepsKeepInv(cfg, s, t);
    }
  }

  lemma {:induction false} ReachableStatesAreSound(cfg: Config, states: seq<Sys>, i: nat)
    requires Valid(cfg) && Behaviour(cfg, states) && i < |states|
    requires forall j :: 0 <= j < |cfg.calendar| ==> DATE_MIN < cfg.calendar[j]
    ensures Inv(cfg, states[i])
  {
    if i == 0 {
      assert cfg.calendar[0..] == cfg.calendar;
    } else {
      ReachableStatesAreSound(cfg, states, i - 1);
      NextKeepsInv(cfg, states[i - 1], states[i]);
    }
  }

  // ---------------------------------------------------------------- results over all runs

  /** The ledger never refuses the open day's next write; only its forecast's CHECK may. */
  lemma OpenWriteRefusedOnlyByForecast(cfg: Config, s: Sys)
    requires Valid(cfg) && Inv(cfg, s)
    ensures
      var p := s.process;
      p.Driving? && p.tx.Some? && p.todo != [] && p.tx.value.written < |cfg.symbols| ==>
        (WriteSymbol(cfg, s.db.store, p.tx.value.store, p.todo[0], cfg.symbols[p.tx.value.written]).Some?
         <==> Fits(cfg, s.db.store, p.todo[0], cfg.symbols[p.tx.value.written]))
  {
    var p := s.process;
    if p.Driving? && p.tx.Some? && p.todo != [] && p.tx.value.written < |cfg.symbols| {
      var n, w := |s.db.runs|, p.tx.value.written;
      assert cfg.calendar[n..][0] == cfg.calendar[n];
      StoreIsHistory(cfg, n);
      HistoryIsReady(cfg, s.db.store, n);
      hide AfterDays, WriteSymbol, Fits, Ready, History, Valid;
      DayRefusedOnlyByForecasts(cfg, s.db.store, cfg.calendar[n], w);
      hide DayWrites, Progress;
      LedgerNeverRefuses(cfg, s.db.store, p.tx.value.store, cfg.calendar[n], w);
    }
  }

  /** CRASH AND RESUME. In every state that any interleaving of days, exceptions, kills, cap stops
      and resumes can reach: the committed days are the first days of the calendar, each once; the
      rows are those of an uninterrupted run over these days; no committed day is partly written,
      so a resume is never refused for that; the ledger never refuses a trade; and all tokens are
      recorded, lost to a kill, or still with the running process. */
  lemma CrashesAndResumesChangeNothing(cfg: Config, states: seq<Sys>, i: nat)
    requires Valid(cfg) && Behaviour(cfg, states) && i < |states|
    requires forall j :: 0 <= j < |cfg.calendar| ==> DATE_MIN < cfg.calendar[j]
    ensures
      var db := states[i].db;
      && |db.runs| <= |cfg.calendar|
      && (forall j :: 0 <= j < |db.runs| ==> db.runs[j] == RunRow(cfg.calendar[j], true))
      && AllSucceeded(db.runs)
      && AfterDays(cfg, |db.runs|) == Some(db.store)
      && (db.status == SUCCESS ==> AfterDays(cfg, |cfg.calendar|) == Some(db.store))
    ensures TokensConserved(states[i])
    ensures
      var p := states[i].process;
      p.Driving? && p.tx.Some? && p.todo != [] && p.tx.value.written < |cfg.symbols| ==>
        (WriteSymbol(cfg, states[i].db.store, p.tx.value.store, p.todo[0], cfg.symbols[p.tx.value.written]).Some?
         <==> Fits(cfg, states[i].db.store, p.todo[0], cfg.symbols[p.tx.value.written]))
  {
    ReachableStatesAreSound(cfg, states, i);
    OpenWriteRefusedOnlyByForecast(cfg, states[i]);
    hide AfterDays, WriteSymbol, Fits, DayWrites, Behaviour;
  }

  /** A finished backtest stays as it is: nothing that happens to its process afterwards changes
      the database. */
  lemma SuccessIsFinal(cfg: Config, s: Sys, t: Sys)
    requires Inv(cfg, s) && Next(cfg, s, t) && s.db.status == SUCCESS
    ensures t.db == s.db
  {
    hide AfterDays, DayWrites;
  }

  /** END TO END. Whatever crashed and was resumed on the way, the committed rows of each symbol
      and the replay of the tape read back from the committed decisions agree: lots, quantities and
      CLOSED rows exactly, prices and P&L within what the columns round away. */
  lemma ReplayMatchesCommittedRows(cfg: Config, states: seq<Sys>, i: nat, symbol: string, row: real, open: real)
    requires Valid(cfg) && Behaviour(cfg, states) && i < |states| && symbol in cfg.symbols
    requires forall j :: 0 <= j < |cfg.calendar| ==> DATE_MIN < cfg.calendar[j]
    requires Counterfactual.Columns(cfg.store, cfg.column, row, open)
    ensures
      var store := states[i].db.store;
      Counterfactual.Coupled(BookOf(store.outcomes, KeyOf(cfg, symbol)),
                             Replay.Run(TapeQuery(store.decisions, symbol), Replay.VAR_RULES, cfg.bps),
                             Counterfactual.ColumnErrors(row, open, cfg.bps))
  {
    hide Counterfactual.Coupled, Counterfactual.ColumnErrors, Counterfactual.Columns, BookRun;
    CommittedHistory(cfg, states, i, symbol);
    var days := InputsOf(cfg, symbol, |states[i].db.runs|);
    hide Valid, Behaviour, InputsOf;
    Counterfactual.ReplayFollowsRun(days, true, cfg.store, cfg.column, row, open, cfg.bps);
    Counterfactual.HandedWithVar(days);
  }

  // ---------------------------------------------------------------- SUCCESS stays within reach

  /** A path of steps of the system. */
  ghost predicate Path(cfg: Config, path: seq<Sys>) {
    path != [] && forall i :: 0 <= i < |path| - 1 ==> Next(cfg, path[i], path[i + 1])
  }

  ghost predicate LeadsToSuccess(cfg: Config, s: Sys, path: seq<Sys>) {
    Path(cfg, path) && path[0] == s && path[|path| - 1].db.status == SUCCESS
  }

  /** What is left to do: leave a failure, resume, the days, the symbols of the open day. */
  function Phase(s: Sys): nat {
    match s.process
    case Failing(_) => 2
    case Idle => 1
    case _ => 0
  }

  function SymbolsLeft(cfg: Config, s: Sys): nat {
    if s.process.Driving? && s.process.tx.Some? then
      if s.process.tx.value.written <= |cfg.symbols| then |cfg.symbols| - s.process.tx.value.written else 0
    else |cfg.symbols| + 1
  }

  function DaysLeft(cfg: Config, s: Sys): nat {
    if |s.db.runs| <= |cfg.calendar| then |cfg.calendar| - |s.db.runs| else 0
  }

  /** The step that brings a backtest without SUCCESS nearer to it. */
  lemma NearerStep(cfg: Config, s: Sys) returns (t: Sys)
    requires Valid(cfg) && Inv(cfg, s) && s.db.status != SUCCESS
    requires forall i :: 0 <= i < |cfg.calendar| ==> DATE_MIN < cfg.calendar[i]
    requires AfterDays(cfg, |cfg.calendar|).Some?
    ensures Next(cfg, s, t)
    ensures t.db.status == SUCCESS
         || Phase(t) < Phase(s)
         || (Phase(t) == Phase(s) && DaysLeft(cfg, t) < DaysLeft(cfg, s))
         || (Phase(t) == Phase(s) && DaysLeft(cfg, t) == DaysLeft(cfg, s) && SymbolsLeft(cfg, t) < SymbolsLeft(cfg, s))
  {
    hide AfterDays, WriteSymbol, DayWrites, Valid;
    match s.process
    case Failing(tokens) =>
      t := Finished(s, FAILED, tokens).(process := Idle);
      assert MarkFailed(s, t);
    case Idle =>
      t := s.(db := s.db.(status := RUNNING), process := Driving(After(cfg.calendar, LastDay(s.db.runs)), 0, None));
      assert Resume(cfg, s, t);
    case Driving(todo, tokens, tx) =>
      if tx.None? && todo == [] {
        t := Finished(s, SUCCESS, tokens).(process := Returning(tokens));
        assert Finish(s, t);
      } else if tx.None? {
        t := s.(process := s.process.(tx := Some(Tx(s.db.runs + [RunRow(todo[0], false)], s.db.store, 0))));
        assert BeginDay(cfg, s, t);
      } else {
        t := DayStep(cfg, s);
      }
    case Returning(_) => assert false;
  }

  lemma DayStep(cfg: Config, s: Sys) returns (t: Sys)
    requires Valid(cfg) && Inv(cfg, s) && s.process.Driving? && s.process.tx.Some?
    requires AfterDays(cfg, |cfg.calendar|).Some?
    ensures Next(cfg, s, t) && t.process.Driving?
    ensures if t.process.tx.Some? then t.db == s.db && SymbolsLeft(cfg, t) < SymbolsLeft(cfg, s)
            else DaysLeft(cfg, t) < DaysLeft(cfg, s)
  {
    if s.process.tx.value.written == |cfg.symbols| {
      t := CommitStep(cfg, s);
    } else {
      t := DecideStep(cfg, s);
    }
  }

  lemma CommitStep(cfg: Config, s: Sys) returns (t: Sys)
    requires Inv(cfg, s) && s.process.Driving? && s.process.tx.Some?
    requires s.process.tx.value.written == |cfg.symbols|
    ensures Next(cfg, s, t) && t.process.Driving? && t.process.tx == None
    ensures DaysLeft(cfg, t) < DaysLeft(cfg, s)
  {
    hide AfterDays, DayWrites, TokensConserved;
    var todo, tx := s.process.todo, s.process.tx.value;
    var last := |tx.runs| - 1;
    t := s.(db := s.db.(runs := tx.runs[last := tx.runs[last].(success := true)], store := tx.store),
            process := s.process.(todo := todo[1..], tx := None));
    assert CommitDay(cfg, s, t);
  }

  /** The open day goes on: its forecasts fit, because the whole calendar's do. */
  lemma DecideStep(cfg: Config, s: Sys) returns (t: Sys)
    requires Valid(cfg) && Inv(cfg, s) && s.process.Driving? && s.process.tx.Some?
    requires s.process.tx.value.written != |cfg.symbols| && AfterDays(cfg, |cfg.calendar|).Some?
    ensures Next(cfg, s, t) && t.process.Driving? && t.process.tx.Some? && t.db == s.db
    ensures SymbolsLeft(cfg, t) < SymbolsLeft(cfg, s)
  {
    hide AfterDays, DayWrites, Valid, WriteSymbol, Fits, TokensConserved;
    var todo, tx := s.process.todo, s.process.tx.value;
    var symbol := cfg.symbols[tx.written];
    OpenDayFits(cfg, s);
    OpenWriteRefusedOnlyByForecast(cfg, s);
    assert Fits(cfg, s.db.store, todo[0], symbol);
    var next := WriteSymbol(cfg, s.db.store, tx.store, todo[0], symbol).value;
    t := s.(process := s.process.(tx := Some(Tx(tx.runs, next, tx.written + 1))));
    assert DecideSymbol(cfg, s, t);
  }

  lemma OpenDayFits(cfg: Config, s: Sys)
    requires Valid(cfg) && Inv(cfg, s) && s.process.Driving? && s.process.todo != []
    requires AfterDays(cfg, |cfg.calendar|).Some?
    ensures DayFits(cfg, s.db.store, s.process.todo[0], |cfg.symbols|)
  {
    var n := |s.db.runs|;
    assert s.process.todo[0] == cfg.calendar[n];
    hide AfterDays, DayWrites, Valid, DayFits;
    EarlierDaysWentThrough(cfg, n + 1, |cfg.calendar|);
    NextDayExactlyWhen(cfg, n);
  }

  lemma {:induction false} EarlierDaysWentThrough(cfg: Config, m: nat, n: nat)
    requires m <= n <= |cfg.calendar| && AfterDays(cfg, n).Some?
    ensures AfterDays(cfg, m).Some?
  {
    if m < n {
      EarlierDaysWentThrough(cfg, m, n - 1);
    }
  }

  lemma {:induction false} FindPath(cfg: Config, s: Sys) returns (path: seq<Sys>)
    requires Valid(cfg) && Inv(cfg, s)
    requires forall i :: 0 <= i < |cfg.calendar| ==> DATE_MIN < cfg.calendar[i]
    requires AfterDays(cfg, |cfg.calendar|).Some?
    ensures LeadsToSuccess(cfg, s, path)
    decreases if s.db.status == SUCCESS then 0 else 1, Phase(s), DaysLeft(cfg, s), SymbolsLeft(cfg, s)
  {
    path := [s];
    if s.db.status != SUCCESS {
      var t := NearerStep(cfg, s);
      NextKeepsInv(cfg, s, t);
      hide Next, Inv, AfterDays, Phase, DaysLeft, SymbolsLeft, Valid, LeadsToSuccess;
      var rest := FindPath(cfg, t);
      PathFromEarlier(cfg, s, t, rest);
      path := [s] + rest;
    }
  }

  lemma PathFromEarlier(cfg: Config, s: Sys, t: Sys, rest: seq<Sys>)
    requires Next(cfg, s, t) && LeadsToSuccess(cfg, t, rest)
    ensures LeadsToSuccess(cfg, s, [s] + rest)
  {
    hide Next;
    var path := [s] + rest;
    forall i | 0 <= i < |path| - 1 ensures Next(cfg, path[i], path[i + 1]) {
      if i > 0 {
        assert Next(cfg, rest[i - 1], rest[i]);
      }
    }
  }

  lemma {:induction false} PathKeepsInv(cfg: Config, path: seq<Sys>, i: nat)
    requires Valid(cfg) && Path(cfg, path) && Inv(cfg, path[0]) && i < |path|
    requires forall j :: 0 <= j < |cfg.calendar| ==> DATE_MIN < cfg.calendar[j]
    ensures Inv(cfg, path[i])
  {
    if i > 0 {
      PathKeepsInv(cfg, path, i - 1);
      NextKeepsInv(cfg, path[i - 1], path[i]);
    }
  }

  /** RESUME CAN ALWAYS FINISH. From every sound state, hence from everything that crashes, kills and
      stops can leave behind, some further steps lead to SUCCESS, exactly when no day of the calendar
      has a forecast that fails its CHECK. */
  lemma SuccessStaysReachableExactlyWhen(cfg: Config, s: Sys)
    requires Valid(cfg) && Inv(cfg, s)
    requires forall i :: 0 <= i < |cfg.calendar| ==> DATE_MIN < cfg.calendar[i]
    ensures (exists path :: LeadsToSuccess(cfg, s, path))
       <==> AfterDays(cfg, |cfg.calendar|).Some?
  {
    hide Inv, AfterDays, Next, Valid;
    if AfterDays(cfg, |cfg.calendar|).Some? {
      var path := FindPath(cfg, s);
    }
    forall path | LeadsToSuccess(cfg, s, path)
      ensures AfterDays(cfg, |cfg.calendar|).Some?
    {
      PathKeepsInv(cfg, path, |path| - 1);
      SuccessIsWhole(cfg, path[|path| - 1]);
    }
  }

  lemma SuccessIsWhole(cfg: Config, s: Sys)
    requires Inv(cfg, s) && s.db.status == SUCCESS
    ensures AfterDays(cfg, |cfg.calendar|).Some?
  {
    hide AfterDays;
  }

  // ---------------------------------------------------------------- the counterfactual

  /** The same backtest, run with a risk node that has no price source. */
  function V1Config(cfg: Config): Config {
    cfg.(inputs := (day, symbol) => WithoutVar(cfg.inputs(day, symbol)))
  }

  lemma {:induction false} V1Inputs(cfg: Config, symbol: string, m: nat)
    requires m <= |cfg.calendar|
    ensures InputsOf(V1Config(cfg), symbol, m) == Counterfactual.AllHanded(InputsOf(cfg, symbol, m), false)
  {
    if m > 0 {
      V1Inputs(cfg, symbol, m - 1);
      var before, d := InputsOf(cfg, symbol, m - 1), InputOf(cfg, cfg.calendar[m - 1], symbol);
      assert (before + [d])[..|before|] == before;
    }
  }

  /** THE COUNTERFACTUAL, END TO END. Two backtests with equally many committed days, each with its
      own crashes and resumes, one with the VaR budget and one without a price source: replaying the
      V1 rules over the first one's recorded tape stays coupled to the second one's rows, for every
      symbol, slippage and rounding columns. */
  lemma V1ReplayIsCoupledToTheV1Backtest(cfg: Config, varRun: seq<Sys>, v1Run: seq<Sys>, i: nat, j: nat,
                                         symbol: string, row: real, open: real)
    requires Valid(cfg) && symbol in cfg.symbols
    requires forall d :: 0 <= d < |cfg.calendar| ==> DATE_MIN < cfg.calendar[d]
    requires Behaviour(cfg, varRun) && i < |varRun|
    requires Behaviour(V1Config(cfg), v1Run) && j < |v1Run|
    requires |varRun[i].db.runs| == |v1Run[j].db.runs|
    requires Counterfactual.Columns(cfg.store, cfg.column, row, open)
    ensures
      var replay := Replay.Run(TapeQuery(varRun[i].db.store.decisions, symbol), Replay.V1_RULES, cfg.bps);
      var rows := BookOf(v1Run[j].db.store.outcomes, KeyOf(cfg, symbol));
      Counterfactual.Coupled(rows, replay, Counterfactual.ColumnErrors(row, open, cfg.bps))
  {
    var v1, n := V1Config(cfg), |varRun[i].db.runs|;
    hide Counterfactual.Coupled, Counterfactual.ColumnErrors, Counterfactual.Columns, BookRun;
    CommittedHistory(cfg, varRun, i, symbol);
    CommittedHistory(v1, v1Run, j, symbol);
    V1Inputs(cfg, symbol, n);
    hide Valid, Behaviour, InputsOf;
    Counterfactual.ReplayFollowsRun(InputsOf(cfg, symbol, n), false, cfg.store, cfg.column, row, open, cfg.bps);
  }

  /** What any reachable database holds of a symbol: its own run, and the tape of that run. */
  lemma CommittedHistory(cfg: Config, states: seq<Sys>, i: nat, symbol: string)
    requires Valid(cfg) && Behaviour(cfg, states) && i < |states| && symbol in cfg.symbols
    requires forall j :: 0 <= j < |cfg.calendar| ==> DATE_MIN < cfg.calendar[j]
    ensures
      var db := states[i].db;
      && |db.runs| <= |cfg.calendar|
      && (db.status == SUCCESS ==> |db.runs| == |cfg.calendar|)
      && var days := InputsOf(cfg, symbol, |db.runs|);
         && BookRun(days, cfg.bps, cfg.store) == Some(BookOf(db.store.outcomes, KeyOf(cfg, symbol)))
         && TapeQuery(db.store.decisions, symbol) == TapeOf(days, cfg.column)
  {
    ReachableStatesAreSound(cfg, states, i);
    var store, n := states[i].db.store, |states[i].db.runs|;
    StoreIsHistory(cfg, n);
    assert SymbolHistory(cfg, store, n, symbol);
    hide AfterDays, BookRun, TapeQuery, InputsOf;
  }

  /** With columns that keep every value, two finished backtests agree exactly: the V1 replay ends with
      the lots, realized P&L and CLOSED rows of the V1 backtest. */
  lemma V1ReplayMatchesTheV1Backtest(cfg: Config, varRun: seq<Sys>, v1Run: seq<Sys>, i: nat, j: nat, symbol: string)
    requires Valid(cfg) && symbol in cfg.symbols
    requires forall d :: 0 <= d < |cfg.calendar| ==> DATE_MIN < cfg.calendar[d]
    requires Behaviour(cfg, varRun) && i < |varRun| && varRun[i].db.status == SUCCESS
    requires Behaviour(V1Config(cfg), v1Run) && j < |v1Run| && v1Run[j].db.status == SUCCESS
    requires Counterfactual.ExactColumns(cfg.store, cfg.column)
    ensures
      var replay := Replay.Run(TapeQuery(varRun[i].db.store.decisions, symbol), Replay.V1_RULES, cfg.bps);
      var rows := BookOf(v1Run[j].db.store.outcomes, KeyOf(cfg, symbol));
      replay.lots == rows.lots && replay.realized == rows.realized && replay.closed == rows.closed
  {
    CommittedHistory(cfg, varRun, i, symbol);
    CommittedHistory(V1Config(cfg), v1Run, j, symbol);
    hide Behaviour, Valid, BookRun, Counterfactual.Coupled, Counterfactual.ColumnErrors;
    V1ReplayIsCoupledToTheV1Backtest(cfg, varRun, v1Run, i, j, symbol, 0.0, 0.0);
    Counterfactual.ErrorsOfExactOpens(0.0, cfg.bps);
    Counterfactual.NoErrorsAgree(BookOf(v1Run[j].db.store.outcomes, KeyOf(cfg, symbol)),
                                 Replay.Run(TapeQuery(varRun[i].db.store.decisions, symbol), Replay.V1_RULES, cfg.bps));
  }
}
