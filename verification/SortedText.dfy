/** Strings in their usual order, and a set of them listed in it. */
module SortedText {

  predicate Before(a: string, b: string) {
    b != "" && (a == "" || a[0] < b[0] || (a[0] == b[0] && Before(a[1..], b[1..])))
  }

  lemma {:induction false} BeforeIsStrict(a: string)
    ensures !Before(a, a)
  {
    if a != "" {
      BeforeIsStrict(a[1..]);
    }
  }

  lemma {:induction false} BeforeIsTransitive(a: string, b: string, c: string)
    requires Before(a, b) && Before(b, c)
    ensures Before(a, c)
  {
    if a != "" && b != "" && a[0] == b[0] == c[0] {
      BeforeIsTransitive(a[1..], b[1..], c[1..]);
    }
  }

  lemma {:induction false} BeforeIsTotal(a: string, b: string)
    ensures a == b || Before(a, b) || Before(b, a)
  {
    if a != "" && b != "" && a[0] == b[0] {
      BeforeIsTotal(a[1..], b[1..]);
      assert a == [a[0]] + a[1..] && b == [b[0]] + b[1..];
    }
  }

  predicate IsFirst(x: string, s: set<string>) {
    x in s && forall y :: y in s && y != x ==> Before(x, y)
  }

  lemma {:induction false} FirstExists(s: set<string>)
    requires s != {}
    ensures exists x :: IsFirst(x, s)
  {
    hide Before;
    var y :| y in s;
    if s == {y} {
      assert IsFirst(y, s);
    } else {
      FirstExists(s - {y});
      var x :| IsFirst(x, s - {y});
      BeforeIsTotal(x, y);
      if Before(x, y) {
        assert IsFirst(x, s);
      } else {
        forall z | z in s && z != y ensures Before(y, z) {
          if z != x {
            BeforeIsTransitive(y, x, z);
          }
        }
        assert IsFirst(y, s);
      }
    }
  }

  lemma FirstIsUnique(s: set<string>)
    ensures forall x, y :: IsFirst(x, s) && IsFirst(y, s) ==> x == y
  {
    hide Before;
    forall x, y | IsFirst(x, s) && IsFirst(y, s) ensures x == y {
      if x != y {
        BeforeIsTransitive(x, y, x);
        BeforeIsStrict(x);
      }
    }
  }

  /** The elements of a set in order. */
  function Sorted(s: set<string>): seq<string> {
    if s == {} then []
    else
      FirstExists(s);
      FirstIsUnique(s);
      var x :| IsFirst(x, s);
      [x] + Sorted(s - {x})
  }

  /** The listing has each element once, in increasing order, and nothing else. */
  lemma {:induction false} SortedListsAll(s: set<string>)
    ensures forall x :: x in Sorted(s) <==> x in s
    ensures forall i, j :: 0 <= i < j < |Sorted(s)| ==> Before(Sorted(s)[i], Sorted(s)[j])
  {
    if s != {} {
      var x := Sorted(s)[0];
      FirstExists(s);
      assert IsFirst(x, s) && Sorted(s) == [x] + Sorted(s - {x});
      hide Before, Sorted, IsFirst;
      SortedListsAll(s - {x});
      FirstInFront(x, Sorted(s - {x}), s);
    }
  }

  lemma FirstInFront(x: string, rest: seq<string>, s: set<string>)
    requires IsFirst(x, s) && forall y :: y in rest <==> y in s - {x}
    requires forall i, j :: 0 <= i < j < |rest| ==> Before(rest[i], rest[j])
    ensures forall y :: y in [x] + rest <==> y in s
    ensures forall i, j :: 0 <= i < j < |[x] + rest| ==> Before(([x] + rest)[i], ([x] + rest)[j])
  {
    hide Before;
    forall i | 0 <= i < |rest| ensures Before(x, rest[i]) {
      assert rest[i] in rest;
    }
  }

  /** The parts with a comma and a blank between them. */
  function Join(parts: seq<string>): string {
    if parts == [] then ""
    else if |parts| == 1 then parts[0]
    else parts[0] + ", " + Join(parts[1..])
  }
}
