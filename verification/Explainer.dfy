/** The explainer's citation check. */
module Explainer {
  import opened SortedText

  /** The model's account of one loss date, and the headlines it cites. */
  datatype Driver = Driver(date: string, ids: seq<int>)

  /** `dates` is a sorted list, as text. */
  datatype Problem = UnknownDate(date: string) | NotRetrieved(id: int, date: string) | NoEntryFor(dates: string)

  type Retrieved = map<string, seq<int>>

  function Allowed(date: string, retrieved: Retrieved): seq<int> {
    if date in retrieved then retrieved[date] else []
  }

  function CitationProblems(ids: seq<int>, date: string, retrieved: Retrieved): seq<Problem> {
    if ids == [] then []
    else
      var last := ids[|ids| - 1];
      CitationProblems(ids[..|ids| - 1], date, retrieved)
        + if last in Allowed(date, retrieved) then [] else [NotRetrieved(last, date)]
  }

  function DriverProblems(d: Driver, retrieved: Retrieved): seq<Problem> {
    (if d.date in retrieved then [] else [UnknownDate(d.date)]) + CitationProblems(d.ids, d.date, retrieved)
  }

  function AllDriverProblems(drivers: seq<Driver>, retrieved: Retrieved): seq<Problem> {
    if drivers == [] then []
    else AllDriverProblems(drivers[..|drivers| - 1], retrieved) + DriverProblems(drivers[|drivers| - 1], retrieved)
  }

  function Cited(drivers: seq<Driver>): seq<int> {
    if drivers == [] then [] else Cited(drivers[..|drivers| - 1]) + drivers[|drivers| - 1].ids
  }

  function Dates(drivers: seq<Driver>): set<string> {
    set i | 0 <= i < |drivers| :: drivers[i].date
  }

  function Missing(drivers: seq<Driver>, retrieved: Retrieved): set<string> {
    retrieved.Keys - Dates(drivers)
  }

  function Problems(drivers: seq<Driver>, retrieved: Retrieved): seq<Problem> {
    AllDriverProblems(drivers, retrieved)
      + if Missing(drivers, retrieved) == {} then [] else [NoEntryFor(Join(Sorted(Missing(drivers, retrieved))))]
  }

  /** One driver entry: everything it cites, and what is wrong with it. */
  method CheckDriver(d: Driver, retrieved: Retrieved) returns (cited: seq<int>, problems: seq<Problem>)
    ensures cited == d.ids && problems == DriverProblems(d, retrieved)
  {
    cited, problems := [], [];
    var allowed := Allowed(d.date, retrieved);
    if d.date !in retrieved {
      problems := problems + [UnknownDate(d.date)];
    }
    ghost var unknown := problems;
    var j := 0;
    while j < |d.ids|
      invariant 0 <= j <= |d.ids|
      invariant cited == d.ids[..j]
      invariant problems == unknown + CitationProblems(d.ids[..j], d.date, retrieved)
    {
      assert d.ids[..j + 1][..j] == d.ids[..j];
      cited := cited + [d.ids[j]];
      if d.ids[j] !in allowed {
        problems := problems + [NotRetrieved(d.ids[j], d.date)];
      }
      j := j + 1;
    }
    assert d.ids[..j] == d.ids;
  }

  method Validate(drivers: seq<Driver>, retrieved: Retrieved) returns (cited: seq<int>, problems: seq<Problem>)
    ensures cited == Cited(drivers)
    ensures problems == Problems(drivers, retrieved)
  {
    hide DriverProblems;
    cited, problems := [], [];
    var i := 0;
    while i < |drivers|
      invariant 0 <= i <= |drivers|
      invariant cited == Cited(drivers[..i])
      invariant problems == AllDriverProblems(drivers[..i], retrieved)
    {
      assert drivers[..i + 1][..i] == drivers[..i];
      var c, p := CheckDriver(drivers[i], retrieved);
      cited, problems := cited + c, problems + p;
      i := i + 1;
    }
    assert drivers[..i] == drivers;
    var missing := Sorted(Missing(drivers, retrieved));
    if missing != [] {
      problems := problems + [NoEntryFor(Join(missing))];
    }
  }

  lemma {:induction false} CitationsSound(ids: seq<int>, date: string, retrieved: Retrieved)
    ensures CitationProblems(ids, date, retrieved) == []
        <==> forall i :: 0 <= i < |ids| ==> ids[i] in Allowed(date, retrieved)
  {
    if ids != [] {
      CitationsSound(ids[..|ids| - 1], date, retrieved);
    }
  }

  ghost predicate Grounded(d: Driver, retrieved: Retrieved) {
    d.date in retrieved && forall i :: 0 <= i < |d.ids| ==> d.ids[i] in retrieved[d.date]
  }

  lemma DriverSound(d: Driver, retrieved: Retrieved)
    ensures DriverProblems(d, retrieved) == [] <==> Grounded(d, retrieved)
  {
    CitationsSound(d.ids, d.date, retrieved);
  }

  lemma {:induction false} DriversSound(drivers: seq<Driver>, retrieved: Retrieved)
    ensures AllDriverProblems(drivers, retrieved) == []
        <==> forall i :: 0 <= i < |drivers| ==> Grounded(drivers[i], retrieved)
  {
    if drivers != [] {
      hide DriverProblems, Grounded;
      var n := |drivers| - 1;
      DriversSound(drivers[..n], retrieved);
      DriverSound(drivers[n], retrieved);
    }
  }

  /** Citations are valid exactly when every entry is for an explained date and cites only headlines
      retrieved for that same date, and every explained date has an entry. */
  lemma ValidExactlyWhenGrounded(drivers: seq<Driver>, retrieved: Retrieved)
    ensures Problems(drivers, retrieved) == [] <==>
            && (forall i :: 0 <= i < |drivers| ==> Grounded(drivers[i], retrieved))
            && (forall date :: date in retrieved ==> exists i :: 0 <= i < |drivers| && drivers[i].date == date)
  {
    DriversSound(drivers, retrieved);
    if Missing(drivers, retrieved) == {} {
      forall date | date in retrieved ensures exists i :: 0 <= i < |drivers| && drivers[i].date == date {
        assert date !in Missing(drivers, retrieved);
        assert date in Dates(drivers);
      }
    } else {
      var date :| date in Missing(drivers, retrieved);
      assert date in retrieved && date !in Dates(drivers);
    }
  }

  /** Citations are listed in the order of the drivers, each driver's in its own order. */
  lemma {:induction false} CitedInOrder(a: seq<Driver>, b: seq<Driver>, d: Driver)
    ensures Cited(a + b) == Cited(a) + Cited(b)
    ensures Cited([]) == [] && Cited([d]) == d.ids
  {
    assert [d][..0] == [];
    if b == [] {
      assert a + b == a;
    } else {
      assert (a + b)[..|a + b| - 1] == a + b[..|b| - 1];
      CitedInOrder(a, b[..|b| - 1], d);
    }
  }

  lemma {:induction false} CitationProblemsSay(ids: seq<int>, date: string, retrieved: Retrieved, p: Problem)
    ensures p in CitationProblems(ids, date, retrieved) <==>
              p.NotRetrieved? && p.date == date && p.id in ids && p.id !in Allowed(date, retrieved)
  {
    if ids != [] {
      var n := |ids| - 1;
      CitationProblemsSay(ids[..n], date, retrieved, p);
      assert ids == ids[..n] + [ids[n]];
    }
  }

  /** What is wrong with one entry. */
  ghost predicate IsWrong(d: Driver, retrieved: Retrieved, p: Problem) {
    match p
    case UnknownDate(date) => date == d.date && date !in retrieved
    case NotRetrieved(id, date) => date == d.date && id in d.ids && !(date in retrieved && id in retrieved[date])
    case NoEntryFor(_) => false
  }

  lemma {:induction false} DriverProblemsSay(drivers: seq<Driver>, retrieved: Retrieved, p: Problem)
    ensures p in AllDriverProblems(drivers, retrieved) <==> exists d :: d in drivers && IsWrong(d, retrieved, p)
  {
    hide DriverProblems, IsWrong;
    if drivers != [] {
      var n := |drivers| - 1;
      DriverProblemsSay(drivers[..n], retrieved, p);
      OneDriverSays(drivers[n], retrieved, p);
      assert drivers == drivers[..n] + [drivers[n]];
    }
  }

  lemma OneDriverSays(d: Driver, retrieved: Retrieved, p: Problem)
    ensures p in DriverProblems(d, retrieved) <==> IsWrong(d, retrieved, p)
  {
    CitationProblemsSay(d.ids, d.date, retrieved, p);
    hide CitationProblems;
  }

  /** Exactly what is wrong is reported: entries for unknown dates, citations not retrieved for their own
      date, and the dates without an entry, sorted, in one problem. */
  lemma ProblemsSayWhatIsWrong(drivers: seq<Driver>, retrieved: Retrieved, p: Problem)
    ensures p in Problems(drivers, retrieved) <==>
            || (exists d :: d in drivers && IsWrong(d, retrieved, p))
            || (&& p.NoEntryFor? && Missing(drivers, retrieved) != {}
                && p.dates == Join(Sorted(Missing(drivers, retrieved))))
  {
    DriverProblemsSay(drivers, retrieved, p);
    hide AllDriverProblems, IsWrong, Missing, Sorted, Join;
  }
}
