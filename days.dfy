/** Ordering a finite set of day numbers newest first. */
module Days {

  /** m is the largest day of s. */
  predicate IsMax(m: int, s: set<int>) {
    m in s && forall e :: e in s ==> e <= m
  }

  lemma {:induction false} MaxExists(s: set<int>)
    requires s != {}
    ensures exists m :: IsMax(m, s)
    decreases |s|
  {
    if forall y :: y !in s {
      assert false;
    }
    var x :| x in s;
    if s == {x} {
      assert IsMax(x, s);
    } else {
      var rest := s - {x};
      MaxExists(rest);
      var m :| IsMax(m, rest);
      var top := if x > m then x else m;
      forall e | e in s ensures e <= top {
        if e != x { assert e in rest; }
      }
      assert IsMax(top, s);
    }
  }

  function MaxDay(s: set<int>): (m: int)
    requires s != {}
    ensures m in s && forall e :: e in s ==> e <= m
  {
    MaxExists(s);
    var m :| IsMax(m, s);
    m
  }

  /** r lists exactly the days of s. */
  predicate Enumerates(r: seq<int>, s: set<int>) {
    (forall i :: 0 <= i < |r| ==> r[i] in s) && (forall d :: d in s ==> d in r)
  }

  /** r is strictly decreasing. */
  predicate Descending(r: seq<int>) {
    forall i, j :: 0 <= i < j < |r| ==> r[i] > r[j]
  }

  /** Putting the largest day in front of the others, listed newest first, lists s newest first. */
  lemma PrependMax(s: set<int>, m: int, rest: seq<int>)
    requires m in s && forall e :: e in s ==> e <= m
    requires |rest| == |s - {m}| && Enumerates(rest, s - {m}) && Descending(rest)
    ensures |[m] + rest| == |s| && Enumerates([m] + rest, s) && Descending([m] + rest)
  {
    var r := [m] + rest;
    assert |s - {m}| == |s| - 1;
    forall i | 0 <= i < |r| ensures r[i] in s {
      if i > 0 { assert r[i] == rest[i - 1]; }
    }
    forall d | d in s ensures d in r {
      if d != m { assert d in s - {m}; }
    }
    forall i, j | 0 <= i < j < |r| ensures r[i] > r[j] {
      assert r[j] == rest[j - 1] && r[j] in s - {m};
      if i > 0 { assert r[i] == rest[i - 1]; }
    }
  }

  /** The days of s, newest first. */
  function DaysDesc(s: set<int>): (r: seq<int>)
    ensures |r| == |s| && Enumerates(r, s) && Descending(r)
    decreases |s|
  {
    if s == {} then []
    else
      var m := MaxDay(s);
      var rest := DaysDesc(s - {m});
      PrependMax(s, m, rest);
      [m] + rest
  }
}
