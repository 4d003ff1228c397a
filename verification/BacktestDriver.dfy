/** The driver of one backtest, as the program runs it: the day loop checks the spending cap, writes
    each day to a working copy and publishes it at the end, the status and the recorded usage are
    updated in place, and a resume reads back which days are done. Every process leaves the
    committed prefix that the protocol's invariant describes. */
module BacktestDriver {
  import opened Trading
  import opened DayTransaction
  import opened RunProtocol
  import Spending

  type Usage = seq<Spending.Entry>

  /** One process: its spending cap, the exceptions that will end a symbol's decision, and the usage
      that a day's calls will report. */
  datatype Session = Session(cap: Option<real>, fails: (int, string) -> bool, usage: int -> Usage)

  /** A resume that is refused, a run that finished, or one that raised and was marked FAILED. */
  datatype Outcome = Refused | Finished | Stopped

  predicate DayFails(cfg: Config, s: Session, day: int) {
    exists i :: 0 <= i < |cfg.symbols| && s.fails(day, cfg.symbols[i])
  }

  /** The usage of the n days from the given position of the calendar on. */
  function DayUsages(s: Session, calendar: seq<int>, first: nat, n: nat): seq<Usage>
    requires first + n <= |calendar|
  {
    if n == 0 then [] else DayUsages(s, calendar, first, n - 1) + [s.usage(calendar[first + n - 1])]
  }

  lemma {:induction false} OneUsagePerDay(s: Session, calendar: seq<int>, first: nat, n: nat)
    requires first + n <= |calendar|
    ensures |DayUsages(s, calendar, first, n)| == n
  {
    if n > 0 {
      OneUsagePerDay(s, calendar, first, n - 1);
    }
  }

  /** What the check sees after n days of a process. */
  function CheckBefore(s: Session, calendar: seq<int>, first: nat, n: nat): Spending.Verdict
    requires first + n <= |calendar|
  {
    Spending.CheckAfter(DayUsages(s, calendar, first, n), s.cap)
  }

  /** Every day that a process of `begun` days started had passed the check, and so its priced usage
      stays within the cap but for the last day's excess over the mean. */
  ghost predicate ObeysCap(s: Session, calendar: seq<int>, first: nat, begun: nat)
    requires first + begun <= |calendar|
  {
    && (forall n :: 0 <= n < begun ==> CheckBefore(s, calendar, first, n) == Spending.GoOn)
    && (s.cap.Some? && |DayUsages(s, calendar, first, begun)| >= 2 ==>
          Spending.WithinCap(DayUsages(s, calendar, first, begun), s.cap.value))
  }

  lemma AnotherDayObeysCap(s: Session, calendar: seq<int>, first: nat, begun: nat)
    requires first + begun < |calendar| && ObeysCap(s, calendar, first, begun)
    requires CheckBefore(s, calendar, first, begun) == Spending.GoOn
    ensures ObeysCap(s, calendar, first, begun + 1)
  {
    hide Spending.CheckAfter, Spending.WithinCap;
    var before, last := DayUsages(s, calendar, first, begun), s.usage(calendar[first + begun]);
    assert DayUsages(s, calendar, first, begun + 1) == before + [last];
    if s.cap.Some? {
      LastDayWithinCap(before, last, s.cap.value);
    }
    hide DayUsages;
  }

  lemma LastDayWithinCap(before: seq<Usage>, last: Usage, cap: real)
    requires Spending.CheckAfter(before, Some(cap)) == Spending.GoOn
    ensures |before + [last]| >= 2 ==> Spending.WithinCap(before + [last], cap)
  {
    hide Spending.CheckAfter, Spending.WithinCap;
    assert (before + [last])[..|before|] == before;
    if |before| >= 1 {
      Spending.CapBoundsSpending(before + [last], cap);
    }
  }

  lemma NoDayObeysCap(s: Session, calendar: seq<int>, first: nat)
    requires first <= |calendar|
    ensures ObeysCap(s, calendar, first, 0)
  {
  }

  // ---------------------------------------------------------------- what a resume must share

  /** The settings of a stored run that a resume must repeat. */
  const RESUME_MUST_MATCH := [
    "symbols", "llm", "models", "sentiment_mode", "no_sentiment_ablation",
    "risk_node", "slippage_bps", "fill", "calendar", "explainer"]

  type Settings = map<string, string>

  function Get(settings: Settings, key: string): Option<string> {
    if key in settings then Some(settings[key]) else None
  }

  /** Same window, and equal or equally absent values of those settings; any other may differ. */
  datatype Request = Request(window: (int, int), settings: Settings)

  predicate MayContinue(stored: Request, asked: Request) {
    && asked.window == stored.window
    && forall key :: key in RESUME_MUST_MATCH ==> Get(stored.settings, key) == Get(asked.settings, key)
  }

  /** What a configuration fixes for all processes of one backtest. */
  datatype Fixed = Fixed(
    symbols: Option<string>, llm: Option<string>, models: Option<string>, sentimentMode: Option<string>,
    noSentimentAblation: Option<string>, riskNode: Option<string>, slippageBps: Option<string>,
    fill: Option<string>, calendar: Option<string>, explainer: Option<string>)

  function FixedBy(s: Settings): Fixed {
    Fixed(Get(s, "symbols"), Get(s, "llm"), Get(s, "models"), Get(s, "sentiment_mode"), Get(s, "no_sentiment_ablation"),
          Get(s, "risk_node"), Get(s, "slippage_bps"), Get(s, "fill"), Get(s, "calendar"), Get(s, "explainer"))
  }

  /** A resume is let through exactly when window and fixed settings agree, so whatever configuration is
      derived from these is the same for both processes. */
  lemma ResumeHasTheSameConfig(stored: Request, asked: Request, derive: ((int, int), Fixed) -> Config)
    ensures MayContinue(stored, asked) <==>
              stored.window == asked.window && FixedBy(stored.settings) == FixedBy(asked.settings)
    ensures MayContinue(stored, asked) ==>
              derive(stored.window, FixedBy(stored.settings)) == derive(asked.window, FixedBy(asked.settings))
  {
    hide Get;
    var keys := RESUME_MUST_MATCH;
    TenKeys(keys, stored.settings, asked.settings);
  }

  predicate SameAt(keys: seq<string>, i: nat, a: Settings, b: Settings)
    requires i < |keys|
  {
    Get(a, keys[i]) == Get(b, keys[i])
  }

  lemma TenKeys(keys: seq<string>, a: Settings, b: Settings)
    requires |keys| == 10
    ensures (forall key :: key in keys ==> Get(a, key) == Get(b, key)) <==>
            && SameAt(keys, 0, a, b) && SameAt(keys, 1, a, b) && SameAt(keys, 2, a, b) && SameAt(keys, 3, a, b)
            && SameAt(keys, 4, a, b) && SameAt(keys, 5, a, b) && SameAt(keys, 6, a, b) && SameAt(keys, 7, a, b)
            && SameAt(keys, 8, a, b) && SameAt(keys, 9, a, b)
  {
    hide Get;
    assert forall i {:trigger keys[i]} :: 0 <= i < 10 ==> keys[i] in keys;
  }

  method Mismatched(stored: Settings, asked: Settings) returns (keys: seq<string>)
    ensures keys == [] <==> forall key :: key in RESUME_MUST_MATCH ==> Get(stored, key) == Get(asked, key)
    ensures forall key :: key in keys <==> key in RESUME_MUST_MATCH && Get(stored, key) != Get(asked, key)
  {
    keys := [];
    var all := RESUME_MUST_MATCH;
    for i := 0 to |all|
      invariant forall key :: key in keys <==> key in all[..i] && Get(stored, key) != Get(asked, key)
    {
      assert all[..i + 1] == all[..i] + [all[i]];
      if Get(stored, all[i]) != Get(asked, all[i]) {
        keys := keys + [all[i]];
      }
    }
    assert all[..|all|] == all;
    assert keys == [] || keys[0] in keys;
  }

  // ---------------------------------------------------------------- the day and the prefix

  /** Once a symbol's trade is refused, the day as a whole is. */
  lemma {:induction false} RefusalEndsTheDay(cfg: Config, committed: Store, day: int, n: nat, m: nat)
    requires n <= m <= |cfg.symbols| && DayWrites(cfg, committed, day, n).None?
    ensures DayWrites(cfg, committed, day, m).None?
  {
    if n < m {
      RefusalEndsTheDay(cfg, committed, day, n, m - 1);
    }
  }

  /** The next day of a committed prefix is refused only by the CHECK on a forecast, and committing it
      extends the prefix. */
  lemma NextDayExtendsThePrefix(cfg: Config, db: Db)
    requires Valid(cfg) && CommittedPrefix(cfg, db) && |db.runs| < |cfg.calendar|
    ensures
      var day := cfg.calendar[|db.runs|];
      var written := DayWrites(cfg, db.store, day, |cfg.symbols|);
      && (written.Some? <==> DayFits(cfg, db.store, day, |cfg.symbols|))
      && (written.Some? ==> CommittedPrefix(cfg, Db(RUNNING, db.usage, db.runs + [RunRow(day, true)], written.value)))
  {
    hide Valid, AfterDays, DayWrites, DayFits;
    NextDayExactlyWhen(cfg, |db.runs|);
  }

  lemma RunningKeepsPrefix(cfg: Config, db: Db)
    requires CommittedPrefix(cfg, db)
    ensures CommittedPrefix(cfg, db.(status := RUNNING))
  {
    hide AfterDays;
  }

  lemma FinishedIsWhole(cfg: Config, db: Db)
    requires CommittedPrefix(cfg, db)
    ensures db.status == SUCCESS ==> AfterDays(cfg, |cfg.calendar|) == Some(db.store)
  {
    hide AfterDays;
  }

  class Backtest {
    const cfg: Config
    const request: Request
    var status: Status
    var llmUsage: Option<Usage>
    var runs: seq<RunRow>
    var store: Store

    /** The committed database as the protocol sees it, which counts tokens only. */
    function State(): Db
      reads this
    {
      Db(status, if llmUsage.Some? then Some(Spending.TokensOf(llmUsage.value)) else None, runs, store)
    }

    function RecordedUsage(): Usage
      reads this
    {
      if llmUsage.Some? then llmUsage.value else []
    }

    /** The inserted backtests row. */
    constructor (cfg: Config, request: Request)
      ensures this.cfg == cfg && this.request == request && llmUsage == None
      ensures State() == Db(RUNNING, None, [], NOTHING_STORED) && CommittedPrefix(cfg, State())
    {
      this.cfg, this.request := cfg, request;
      status, llmUsage, runs, store := RUNNING, None, [], NOTHING_STORED;
    }

    /** One day in one transaction: every symbol written and committed, or nothing. */
    method RunDay(day: int, s: Session) returns (ok: bool)
      modifies this`runs, this`store
      ensures ok <==> !DayFails(cfg, s, day) && DayWrites(cfg, old(store), day, |cfg.symbols|).Some?
      ensures ok ==> runs == old(runs) + [RunRow(day, true)]
      ensures ok ==> DayWrites(cfg, old(store), day, |cfg.symbols|) == Some(store)
      ensures !ok ==> runs == old(runs) && store == old(store)
    {
      hide WriteSymbol;
      var working, n := store, 0;
      while n < |cfg.symbols|
        invariant 0 <= n <= |cfg.symbols|
        invariant DayWrites(cfg, store, day, n) == Some(working)
        invariant forall i :: 0 <= i < n ==> !s.fails(day, cfg.symbols[i])
      {
        if s.fails(day, cfg.symbols[n]) {
          return false;
        }
        var next := WriteSymbol(cfg, store, working, day, cfg.symbols[n]);
        if next.None? {
          RefusalEndsTheDay(cfg, store, day, n + 1, |cfg.symbols|);
          return false;
        }
        working := next.value;
        n := n + 1;
      }
      runs := runs + [RunRow(day, true)];
      store := working;
      return true;
    }

    /** Sets the final status and merges this process's usage into what is recorded, only while the
        row says RUNNING. */
    method Finish(final: Status, added: Usage)
      modifies this`status, this`llmUsage
      ensures State() == Ended(old(State()), final, Spending.TokensOf(added))
      ensures llmUsage == if old(status) != RUNNING then old(llmUsage)
                          else Some(Spending.Merge(old(RecordedUsage()), added))
    {
      if status == RUNNING {
        Spending.MergeAddsTokens(RecordedUsage(), added);
        hide Spending.Merge;
        var total := Spending.AddUsage(llmUsage, added);
        status, llmUsage := final, Some(total);
      }
    }

    /** The days that are left, if this backtest may be resumed with these settings at all. */
    method StartResume(asked: Request) returns (todo: Option<seq<int>>)
      modifies this`status
      ensures todo.Some? <==> old(status) != SUCCESS && MayContinue(request, asked) && AllSucceeded(runs)
      ensures status == if todo.Some? then RUNNING else old(status)
      ensures todo.Some? ==> todo.value == After(cfg.calendar, LastDay(runs))
    {
      if status == SUCCESS || asked.window != request.window {
        return None;
      }
      var mismatched := Mismatched(request.settings, asked.settings);
      if mismatched != [] {
        return None;
      }
      var last := LastCompleted();
      if last.None? {
        return None;
      }
      status := RUNNING;
      var days := [];
      for i := 0 to |cfg.calendar|
        invariant days == After(cfg.calendar[..i], last.value)
      {
        assert cfg.calendar[..i + 1][..i] == cfg.calendar[..i];
        if cfg.calendar[i] > last.value {
          days := days + [cfg.calendar[i]];
        }
      }
      assert cfg.calendar[..|cfg.calendar|] == cfg.calendar;
      return Some(days);
    }

    /** The last day of the run rows, or None if one of them is unfinished. */
    method LastCompleted() returns (last: Option<int>)
      ensures last.Some? <==> AllSucceeded(runs)
      ensures last.Some? ==> last.value == LastDay(runs)
    {
      var latest := DATE_MIN;
      for i := 0 to |runs|
        invariant latest == LastDay(runs[..i]) && AllSucceeded(runs[..i])
      {
        if !runs[i].success {
          return None;
        }
        assert runs[..i + 1][..i] == runs[..i];
        latest := if runs[i].day > latest then runs[i].day else latest;
      }
      assert runs[..|runs|] == runs;
      return Some(latest);
    }

    /** The next day of the calendar either fails as a whole, by an exception or by the CHECK on a
        forecast, or extends the committed prefix: the ledger itself never refuses it. */
    method NextDay(day: int, s: Session) returns (ok: bool)
      requires Valid(cfg) && CommittedPrefix(cfg, State()) && status == RUNNING
      requires |runs| < |cfg.calendar| && day == cfg.calendar[|runs|]
      modifies this`runs, this`store
      ensures CommittedPrefix(cfg, State())
      ensures ok <==> !DayFails(cfg, s, day) && DayFits(cfg, old(store), day, |cfg.symbols|)
      ensures !ok ==> store == old(store)
      ensures |runs| == |old(runs)| + if ok then 1 else 0
    {
      NextDayExtendsThePrefix(cfg, State());
      hide CommittedPrefix, Valid, DayFails, DayWrites, DayFits;
      ok := RunDay(day, s);
    }

    method EndWith(final: Status, added: Usage)
      requires CommittedPrefix(cfg, State()) && status == RUNNING
      requires final == SUCCESS ==> |runs| == |cfg.calendar|
      modifies this`status, this`llmUsage
      ensures CommittedPrefix(cfg, State()) && status == final
      ensures llmUsage == Some(Spending.Merge(old(RecordedUsage()), added))
    {
      hide AfterDays, Spending.Merge;
      Finish(final, added);
    }

    /** Why a process ended where it did: at the end of the calendar, before a day that the cap or an
        unpriced model ruled out, or in a day that raised or whose forecasts fail their CHECK. */
    ghost predicate EndedFor(s: Session, first: nat, begun: nat)
      reads this
    {
      && first + begun <= |cfg.calendar|
      && if status == SUCCESS then |runs| == first + begun == |cfg.calendar|
         else
           && status == FAILED && |runs| < |cfg.calendar|
           && ((|runs| == first + begun && CheckBefore(s, cfg.calendar, first, begun) != Spending.GoOn)
               || (|runs| + 1 == first + begun
                   && (DayFails(cfg, s, cfg.calendar[|runs|])
                       || !DayFits(cfg, store, cfg.calendar[|runs|], |cfg.symbols|))))
    }

    /** How a process that began `begun` days leaves the database: a committed prefix no shorter than
        before, a reason to have ended, days within the cap, and its usage merged into `recorded`. */
    ghost predicate Left(s: Session, first: nat, begun: nat, recorded: Usage)
      reads this
    {
      && CommittedPrefix(cfg, State())
      && first <= |runs| && EndedFor(s, first, begun)
      && ObeysCap(s, cfg.calendar, first, begun)
      && llmUsage == Some(Spending.Merge(recorded, Spending.MergedUsage(DayUsages(s, cfg.calendar, first, begun))))
    }

    /** Nothing stands in the way of the days to do: no cap, no exception, no failing forecast. */
    ghost predicate NothingStands(s: Session, todo: seq<int>) {
      && s.cap == None
      && AfterDays(cfg, |cfg.calendar|).Some?
      && forall i :: 0 <= i < |todo| ==> !DayFails(cfg, s, todo[i])
    }

    /** A process that had days to do began one, and if nothing stood in the way it did them all. */
    lemma LeftMeans(s: Session, first: nat, begun: nat, recorded: Usage, todo: seq<int>)
      requires Valid(cfg) && Left(s, first, begun, recorded)
      requires first <= |cfg.calendar| && todo == cfg.calendar[first..]
      ensures todo != [] ==> begun >= 1
      ensures NothingStands(s, todo) ==> status == SUCCESS
    {
      hide Spending.CheckAfter, CommittedPrefix, ObeysCap, Valid, DayFails, DayFits, AfterDays;
      Spending.NoCheckWithoutDaysOrCap(DayUsages(s, cfg.calendar, first, begun), s.cap);
      assert DayUsages(s, cfg.calendar, first, 0) == [];
      hide DayUsages, Spending.MergedUsage, Spending.Merge;
      if |runs| < |cfg.calendar| {
        assert todo[|runs| - first] == cfg.calendar[|runs|];
        if AfterDays(cfg, |cfg.calendar|).Some? {
          FitsOnWay();
        }
      }
    }

    /** The next day's forecasts fit if the whole calendar's do. */
    lemma FitsOnWay()
      requires Valid(cfg) && CommittedPrefix(cfg, State())
      requires |runs| < |cfg.calendar| && AfterDays(cfg, |cfg.calendar|).Some?
      ensures DayFits(cfg, store, cfg.calendar[|runs|], |cfg.symbols|)
    {
      hide Valid, DayFits, AfterDays, DayWrites;
      EarlierDaysWentThrough(cfg, |runs| + 1, |cfg.calendar|);
      NextDayExactlyWhen(cfg, |runs|);
    }

    /** Between two days of a process that found `recorded` in the database. */
    ghost predicate Underway(s: Session, first: nat, begun: nat, usage: Usage, recorded: Usage)
      reads this
    {
      && status == RUNNING && CommittedPrefix(cfg, State()) && RecordedUsage() == recorded
      && |runs| == first + begun <= |cfg.calendar|
      && ObeysCap(s, cfg.calendar, first, begun)
      && usage == Spending.MergedUsage(DayUsages(s, cfg.calendar, first, begun))
    }

    lemma UnderwayAtFirst(s: Session)
      requires CommittedPrefix(cfg, State()) && status == RUNNING
      ensures |runs| <= |cfg.calendar| && Underway(s, |runs|, 0, [], RecordedUsage())
    {
      hide AfterDays;
      NoDayObeysCap(s, cfg.calendar, |runs|);
    }

    /** The day loop and its exception handler. */
    method Drive(todo: seq<int>, s: Session) returns (outcome: Outcome, begun: nat)
      requires Valid(cfg) && CommittedPrefix(cfg, State()) && status == RUNNING
      requires todo == cfg.calendar[|runs|..]
      modifies this
      ensures outcome == (if status == SUCCESS then Finished else Stopped)
      ensures Left(s, |old(runs)|, begun, old(RecordedUsage()))
      ensures todo != [] ==> begun >= 1
      ensures NothingStands(s, todo) ==> outcome == Finished
    {
      hide *;
      UnderwayAtFirst(s);
      ghost var first, recorded := |runs|, RecordedUsage();
      var usage: Usage := [];
      begun := 0;
      while begun < |todo|
        invariant 0 <= begun <= |todo| && first + |todo| == |cfg.calendar|
        invariant Underway(s, first, begun, usage, recorded)
      {
        var verdict := MayBegin(usage, begun, s, first, recorded);
        if verdict != Spending.GoOn {
          EndBetweenDays(FAILED, usage, s, first, begun, recorded);
          LeftMeans(s, first, begun, recorded, todo);
          return Stopped, begun;
        }
        var ok;
        ok, usage := TakeDay(todo[begun], usage, s, first, begun, recorded);
        begun := begun + 1;
        if !ok {
          LeftMeans(s, first, begun, recorded, todo);
          return Stopped, begun;
        }
      }
      EndBetweenDays(SUCCESS, usage, s, first, begun, recorded);
      LeftMeans(s, first, begun, recorded, todo);
      return Finished, begun;
    }

    /** Runs the next day, and marks the backtest FAILED if it raises. */
    method TakeDay(day: int, usage: Usage, s: Session, ghost first: nat, ghost begun: nat, ghost recorded: Usage)
      returns (ok: bool, total: Usage)
      requires Valid(cfg) && Underway(s, first, begun, usage, recorded)
      requires first + begun < |cfg.calendar| && day == cfg.calendar[first + begun]
      requires CheckBefore(s, cfg.calendar, first, begun) == Spending.GoOn
      modifies this
      ensures ok ==> Underway(s, first, begun + 1, total, recorded)
      ensures !ok ==> status == FAILED && Left(s, first, begun + 1, recorded)
    {
      hide Valid, CommittedPrefix, DayFails, DayFits, ObeysCap, CheckBefore, DayUsages;
      hide Spending.Merge, Spending.MergedUsage;
      AnotherDayObeysCap(s, cfg.calendar, first, begun);
      total := AddDay(usage, day, s, first, begun);
      ok := NextDay(day, s);
      if !ok {
        EndWith(FAILED, total);
      }
    }

    method EndBetweenDays(final: Status, usage: Usage, s: Session, ghost first: nat, ghost begun: nat,
                          ghost recorded: Usage)
      requires Underway(s, first, begun, usage, recorded)
      requires match final
               case SUCCESS => first + begun == |cfg.calendar|
               case FAILED =>
                 first + begun < |cfg.calendar| && CheckBefore(s, cfg.calendar, first, begun) != Spending.GoOn
               case RUNNING => false
      modifies this
      ensures status == final && Left(s, first, begun, recorded)
    {
      hide CommittedPrefix, DayFails, ObeysCap, CheckBefore, Spending.Merge, Spending.MergedUsage, DayUsages;
      EndWith(final, usage);
    }

    method MayBegin(usage: Usage, begun: nat, s: Session, ghost first: nat, ghost recorded: Usage)
      returns (verdict: Spending.Verdict)
      requires Underway(s, first, begun, usage, recorded)
      ensures first + begun <= |cfg.calendar|
      ensures verdict == CheckBefore(s, cfg.calendar, first, begun)
    {
      OneUsagePerDay(s, cfg.calendar, first, begun);
      hide CommittedPrefix, ObeysCap, Spending.Check, Spending.MergedUsage;
      verdict := Spending.CheckCap(usage, begun, s.cap);
    }

    /** The callback handler takes in what a day's calls report. */
    method AddDay(usage: Usage, day: int, s: Session, ghost first: nat, ghost begun: nat) returns (total: Usage)
      requires first + begun < |cfg.calendar| && day == cfg.calendar[first + begun]
      requires usage == Spending.MergedUsage(DayUsages(s, cfg.calendar, first, begun))
      ensures total == Spending.MergedUsage(DayUsages(s, cfg.calendar, first, begun + 1))
    {
      Spending.MergedUsageAppend(DayUsages(s, cfg.calendar, first, begun), s.usage(day));
      hide Spending.Merge, Spending.MergedUsage;
      total := Spending.AddUsage(Some(usage), s.usage(day));
    }

    /** Continues an interrupted backtest: refused exactly when it has already succeeded or is asked
        for with another window or other settings, and otherwise left with a longer or equal
        committed prefix. */
    method Resume(asked: Request, s: Session) returns (outcome: Outcome, begun: nat)
      requires Valid(cfg) && CommittedPrefix(cfg, State())
      requires forall i :: 0 <= i < |cfg.calendar| ==> DATE_MIN < cfg.calendar[i]
      modifies this
      ensures outcome == Refused <==> old(status) == SUCCESS || !MayContinue(request, asked)
      ensures outcome == Refused ==> State() == old(State()) && llmUsage == old(llmUsage)
      ensures outcome != Refused ==> Left(s, |old(runs)|, begun, old(RecordedUsage()))
      ensures outcome == Stopped ==> status == FAILED
      ensures outcome != Refused && |old(runs)| < |cfg.calendar| ==> begun >= 1
      ensures outcome != Refused && |old(runs)| <= |cfg.calendar| && NothingStands(s, cfg.calendar[|old(runs)|..]) ==>
                outcome == Finished
      ensures outcome == Finished ==> status == SUCCESS && AfterDays(cfg, |cfg.calendar|) == Some(store)
    {
      ResumeContinues(cfg, State());
      assert AllSucceeded(runs);
      RunningKeepsPrefix(cfg, State());
      hide CommittedPrefix, Valid, AllSucceeded, After, LastDay, MayContinue, EndedFor, ObeysCap, NothingStands;
      var todo := StartResume(asked);
      if todo.None? {
        return Refused, 0;
      }
      outcome, begun := Drive(todo.value, s);
      assert EndedFor(s, |old(runs)|, begun);
      FinishedIsWhole(cfg, State());
    }
  }
}
