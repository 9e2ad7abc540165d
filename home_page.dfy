/** The home page's college list for the filter bar: the distinct colleges
    of the listed events, sorted ascending. */
module HomePage {
  import opened Types
  import opened Text

  /** No value occurs twice. */
  ghost predicate Distinct(s: seq<string>)
  {
    forall i, j :: 0 <= i < j < |s| ==> s[i] != s[j]
  }

  /** Each value is strictly smaller than every later one. */
  ghost predicate StrictlySorted(s: seq<string>)
  {
    forall i, j :: 0 <= i < j < |s| ==> StrLess(s[i], s[j])
  }

  /** `events.map(event => event.college)`. */
  function CollegesOf(events: seq<Event>): (r: seq<string>)
    ensures |r| == |events|
    ensures forall i :: 0 <= i < |r| ==> r[i] == events[i].college
  {
    if events == [] then [] else [events[0].college] + CollegesOf(events[1..])
  }

  /** `Array.from(new Set(s))`: the values of `s`, each once. (The set keeps
      first occurrences in order; only the values matter here, since the
      list is sorted next.) */
  function Dedup(s: seq<string>): (r: seq<string>)
    ensures forall x :: x in r <==> x in s
    ensures Distinct(r)
  {
    if s == [] then []
    else
      var rest := Dedup(s[..|s| - 1]);
      var last := s[|s| - 1];
      assert s == s[..|s| - 1] + [last];
      if last in rest then rest else rest + [last]
  }

  /** Inserts `x` before the first value it is smaller than. */
  function InsertString(x: string, s: seq<string>): (r: seq<string>)
    ensures forall y :: y in r <==> y == x || y in s
  {
    if s == [] then [x]
    else if StrLess(x, s[0]) then [x] + s
    else [s[0]] + InsertString(x, s[1..])
  }

  /** `.sort()` of strings, by code unit. */
  function SortStrings(s: seq<string>): (r: seq<string>)
    ensures forall y :: y in r <==> y in s
  {
    if s == [] then []
    else
      assert s == s[..|s| - 1] + [s[|s| - 1]];
      InsertString(s[|s| - 1], SortStrings(s[..|s| - 1]))
  }

  lemma {:induction false} InsertStringStrict(x: string, s: seq<string>)
    requires StrictlySorted(s) && x !in s
    ensures StrictlySorted(InsertString(x, s))
  {
    if s != [] {
      var r := InsertString(x, s);
      if StrLess(x, s[0]) {
        forall j | 1 < j < |r| ensures StrLess(x, r[j]) {
          StrLessTransitive(x, s[0], s[j - 1]);
        }
      } else {
        assert x != s[0];
        StrLessTotal(x, s[0]);
        assert StrictlySorted(s[1..]);
        assert x !in s[1..];
        InsertStringStrict(x, s[1..]);
        var rest := InsertString(x, s[1..]);
        forall j | 0 < j < |r| ensures StrLess(s[0], r[j]) {
          assert r[j] == rest[j - 1];
          assert r[j] in rest;
          if r[j] != x {
            var k :| 0 <= k < |s[1..]| && s[1..][k] == r[j];
            assert s[k + 1] == r[j];
          }
        }
      }
    }
  }

  /** Sorting distinct values yields them in strictly ascending order. */
  lemma {:induction false} SortStringsStrict(s: seq<string>)
    requires Distinct(s)
    ensures StrictlySorted(SortStrings(s))
  {
    if s != [] {
      var init := s[..|s| - 1];
      var last := s[|s| - 1];
      assert Distinct(init);
      SortStringsStrict(init);
      assert last !in init;
      InsertStringStrict(last, SortStrings(init));
    }
  }

  /** Two strictly ascending lists with the same values are the same list:
      the order of the result does not depend on how it was sorted. */
  lemma {:induction false} StrictlySortedUnique(a: seq<string>, b: seq<string>)
    requires StrictlySorted(a) && StrictlySorted(b)
    requires forall x :: x in a <==> x in b
    ensures a == b
  {
    if a != [] { assert a[0] in a; }
    if b != [] { assert b[0] in b; }
    if a != [] && b != [] {
      // The smallest value of each list is the smallest value of the other.
      if a[0] != b[0] {
        var ia :| 0 <= ia < |a| && a[ia] == b[0];
        var ib :| 0 <= ib < |b| && b[ib] == a[0];
        assert ia > 0 && ib > 0;
        assert StrLess(a[0], a[ia]) && StrLess(b[0], b[ib]);
        StrLessAsymmetric(a[0], b[0]);
        assert false;
      }
      forall x ensures x in a[1..] <==> x in b[1..] {
        if x in a[1..] {
          var k :| 0 <= k < |a[1..]| && a[1..][k] == x;
          assert a[k + 1] == x;
          StrLessIrreflexive(x);
          assert x != a[0] && x in b;
          var k2 :| 0 <= k2 < |b| && b[k2] == x;
          assert k2 != 0 && b[1..][k2 - 1] == x;
        }
        if x in b[1..] {
          var k :| 0 <= k < |b[1..]| && b[1..][k] == x;
          assert b[k + 1] == x;
          StrLessIrreflexive(x);
          assert x != b[0] && x in a;
          var k2 :| 0 <= k2 < |a| && a[k2] == x;
          assert k2 != 0 && a[1..][k2 - 1] == x;
        }
      }
      StrictlySortedUnique(a[1..], b[1..]);
      assert a == [a[0]] + a[1..] && b == [b[0]] + b[1..];
    }
  }

  /** The college list the filter bar offers. */
  function Colleges(events: seq<Event>): seq<string>
  {
    SortStrings(Dedup(CollegesOf(events)))
  }

  /** The list offers each college of an event exactly once, only colleges
      of events, in strictly ascending order; any strictly ascending list of
      those colleges is this one. */
  lemma CollegesCorrect(events: seq<Event>, c: string)
    ensures c in Colleges(events) <==> exists i :: 0 <= i < |events| && events[i].college == c
    ensures StrictlySorted(Colleges(events))
    ensures Distinct(Colleges(events))
    ensures forall other: seq<string> ::
      StrictlySorted(other) && (forall x :: x in other <==> x in Colleges(events)) ==> other == Colleges(events)
  {
    var names := CollegesOf(events);
    SortStringsStrict(Dedup(names));
    var r := Colleges(events);
    if c in names {
      var i :| 0 <= i < |names| && names[i] == c;
      assert events[i].college == c;
    }
    forall i, j | 0 <= i < j < |r| ensures r[i] != r[j] {
      if r[i] == r[j] {
        StrLessIrreflexive(r[i]);
      }
    }
    forall other: seq<string> | StrictlySorted(other) && (forall x :: x in other <==> x in r)
      ensures other == r
    {
      StrictlySortedUnique(other, r);
    }
  }
}
