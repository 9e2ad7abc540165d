/** Ordering of events by one column. The admin table sorts a copy of its
    list with a three-way comparator on the chosen column and direction;
    the backend orders query results by `event_date` ascending. Both are
    modelled by the stable insertion sort `SortEvents` over that comparator. */
module EventOrder {
  import opened Types
  import opened Text
  import opened Seqs

  /** The columns the admin table can sort by. */
  datatype SortField = NameField | CollegeField | EventDateField | StatusField | CreatedAtField

  datatype Direction = Asc | Desc

  /** The value of a column: strings compare lexicographically, timestamps
      numerically. All keys of one column have the same shape. */
  datatype SortKey = TextKey(s: string) | TimeKey(t: int)

  function Key(f: SortField, e: Event): SortKey
  {
    match f
    case NameField => TextKey(e.name)
    case CollegeField => TextKey(e.college)
    case EventDateField => TimeKey(e.eventDate)
    case StatusField => TextKey(StatusValue(e.status))
    case CreatedAtField => TimeKey(e.createdAt)
  }

  /** `a < b` on column values (a total strict order on keys). */
  predicate KeyLess(a: SortKey, b: SortKey)
  {
    match (a, b)
    case (TimeKey(x), TimeKey(y)) => x < y
    case (TextKey(x), TextKey(y)) => StrLess(x, y)
    case (TimeKey(_), TextKey(_)) => true
    case (TextKey(_), TimeKey(_)) => false
  }

  lemma KeyLessIrreflexive(a: SortKey)
    ensures !KeyLess(a, a)
  {
    if a.TextKey? { StrLessIrreflexive(a.s); }
  }

  lemma KeyLessTransitive(a: SortKey, b: SortKey, c: SortKey)
    requires KeyLess(a, b) && KeyLess(b, c)
    ensures KeyLess(a, c)
  {
    if a.TextKey? && b.TextKey? && c.TextKey? { StrLessTransitive(a.s, b.s, c.s); }
  }

  lemma KeyLessTotal(a: SortKey, b: SortKey)
    ensures a == b || KeyLess(a, b) || KeyLess(b, a)
  {
    if a.TextKey? && b.TextKey? { StrLessTotal(a.s, b.s); }
  }

  lemma KeyLessAsymmetric(a: SortKey, b: SortKey)
    requires KeyLess(a, b)
    ensures !KeyLess(b, a)
  {
    if a.TextKey? && b.TextKey? { StrLessAsymmetric(a.s, b.s); }
  }

  /** The comparator passed to `sort`: negative when `a` goes first,
      positive when `b` goes first, 0 when neither key is smaller. */
  function Compare(f: SortField, d: Direction, a: Event, b: Event): int
  {
    var ka, kb := Key(f, a), Key(f, b);
    if KeyLess(ka, kb) then (if d == Asc then -1 else 1)
    else if KeyLess(kb, ka) then (if d == Asc then 1 else -1)
    else 0
  }

  /** What the comparator means: 0 exactly on equal keys, otherwise the
      smaller key first when ascending and the larger key first when descending. */
  lemma CompareMeaning(f: SortField, d: Direction, a: Event, b: Event)
    ensures Compare(f, d, a, b) == 0 <==> Key(f, a) == Key(f, b)
    ensures Compare(f, d, a, b) < 0 <==>
      (d == Asc && KeyLess(Key(f, a), Key(f, b))) || (d == Desc && KeyLess(Key(f, b), Key(f, a)))
    ensures Compare(f, d, a, b) == -Compare(f, d, b, a)
  {
    KeyLessTotal(Key(f, a), Key(f, b));
    KeyLessIrreflexive(Key(f, a));
    if KeyLess(Key(f, a), Key(f, b)) { KeyLessAsymmetric(Key(f, a), Key(f, b)); }
  }

  /** `a` may stand before `b` in a sorted result. */
  predicate InOrder(f: SortField, d: Direction, a: Event, b: Event)
  {
    Compare(f, d, a, b) <= 0
  }

  lemma InOrderTransitive(f: SortField, d: Direction, a: Event, b: Event, c: Event)
    requires InOrder(f, d, a, b) && InOrder(f, d, b, c)
    ensures InOrder(f, d, a, c)
  {
    var ka, kb, kc := Key(f, a), Key(f, b), Key(f, c);
    KeyLessTotal(ka, kb); KeyLessTotal(kb, kc); KeyLessTotal(ka, kc);
    KeyLessIrreflexive(ka);
    if KeyLess(ka, kb) { KeyLessAsymmetric(ka, kb); }
    if KeyLess(kb, kc) { KeyLessAsymmetric(kb, kc); }
    if KeyLess(ka, kc) { KeyLessAsymmetric(ka, kc); }
    if KeyLess(ka, kb) && KeyLess(kb, kc) { KeyLessTransitive(ka, kb, kc); }
    if KeyLess(kc, kb) && KeyLess(kb, ka) { KeyLessTransitive(kc, kb, ka); }
  }

  lemma InOrderTotal(f: SortField, d: Direction, a: Event, b: Event)
    ensures InOrder(f, d, a, b) || InOrder(f, d, b, a)
  {
    CompareMeaning(f, d, a, b);
  }

  /** Every pair of positions is in comparator order. */
  ghost predicate Sorted(f: SortField, d: Direction, s: seq<Event>)
  {
    forall i, j :: 0 <= i < j < |s| ==> InOrder(f, d, s[i], s[j])
  }

  /** Inserts `x` after every element it does not strictly precede. */
  function Insert(f: SortField, d: Direction, x: Event, s: seq<Event>): (r: seq<Event>)
    ensures |r| == |s| + 1
  {
    if s == [] then [x]
    else if Compare(f, d, x, s[0]) < 0 then [x] + s
    else [s[0]] + Insert(f, d, x, s[1..])
  }

  /** A stable sort of `s` under the comparator. */
  function SortEvents(f: SortField, d: Direction, s: seq<Event>): (r: seq<Event>)
    ensures |r| == |s|
  {
    if s == [] then [] else Insert(f, d, s[|s| - 1], SortEvents(f, d, s[..|s| - 1]))
  }

  lemma {:induction false} InsertPermutes(f: SortField, d: Direction, x: Event, s: seq<Event>)
    ensures multiset(Insert(f, d, x, s)) == multiset(s) + multiset{x}
  {
    if s != [] && Compare(f, d, x, s[0]) >= 0 {
      InsertPermutes(f, d, x, s[1..]);
      assert s == [s[0]] + s[1..];
    }
  }

  lemma {:induction false} InsertSorted(f: SortField, d: Direction, x: Event, s: seq<Event>)
    requires Sorted(f, d, s)
    ensures Sorted(f, d, Insert(f, d, x, s))
  {
    var r := Insert(f, d, x, s);
    if s == [] {
    } else if Compare(f, d, x, s[0]) < 0 {
      forall j | 0 < j < |r| ensures InOrder(f, d, r[0], r[j]) {
        if j > 1 { InOrderTransitive(f, d, x, s[0], s[j - 1]); }
      }
    } else {
      var rest := Insert(f, d, x, s[1..]);
      InsertSorted(f, d, x, s[1..]);
      InsertPermutes(f, d, x, s[1..]);
      InOrderTotal(f, d, x, s[0]);
      forall j | 0 < j < |r| ensures InOrder(f, d, s[0], r[j]) {
        assert r[j] == rest[j - 1];
        assert r[j] in multiset(rest);
        assert r[j] in multiset(s[1..]) + multiset{x};
        if r[j] != x {
          assert r[j] in s[1..];
          var k :| 0 <= k < |s[1..]| && s[1..][k] == r[j];
          assert s[k + 1] == r[j];
        }
      }
    }
  }

  /** The sorted result is a permutation of the input. */
  lemma {:induction false} SortEventsPermutes(f: SortField, d: Direction, s: seq<Event>)
    ensures multiset(SortEvents(f, d, s)) == multiset(s)
  {
    if s != [] {
      var init := s[..|s| - 1];
      SortEventsPermutes(f, d, init);
      InsertPermutes(f, d, s[|s| - 1], SortEvents(f, d, init));
      assert s == init + [s[|s| - 1]];
    }
  }

  /** The sorted result is in comparator order. */
  lemma {:induction false} SortEventsSorted(f: SortField, d: Direction, s: seq<Event>)
    ensures Sorted(f, d, SortEvents(f, d, s))
  {
    if s != [] {
      SortEventsSorted(f, d, s[..|s| - 1]);
      InsertSorted(f, d, s[|s| - 1], SortEvents(f, d, s[..|s| - 1]));
    }
  }

  /** Inserting an element no earlier element follows appends it. */
  lemma {:induction false} InsertAtEnd(f: SortField, d: Direction, x: Event, s: seq<Event>)
    requires forall i :: 0 <= i < |s| ==> InOrder(f, d, s[i], x)
    ensures Insert(f, d, x, s) == s + [x]
  {
    if s != [] {
      CompareMeaning(f, d, s[0], x);
      InsertAtEnd(f, d, x, s[1..]);
      assert s == [s[0]] + s[1..];
    }
  }

  /** Sorting an already sorted list by the same column and direction
      leaves it as it is. */
  lemma {:induction false} SortEventsIdempotent(f: SortField, d: Direction, s: seq<Event>)
    requires Sorted(f, d, s)
    ensures SortEvents(f, d, s) == s
  {
    if s != [] {
      var init := s[..|s| - 1];
      assert Sorted(f, d, init);
      SortEventsIdempotent(f, d, init);
      InsertAtEnd(f, d, s[|s| - 1], init);
      assert init + [s[|s| - 1]] == s;
    }
  }

  /** The events whose key in column `f` is `k`. */
  function HasKey(f: SortField, k: SortKey): Event -> bool
  {
    e => Key(f, e) == k
  }

  /** An event strictly before `b` is strictly before everything `b` may precede. */
  lemma CompareStrictThenInOrder(f: SortField, d: Direction, a: Event, b: Event, c: Event)
    requires Compare(f, d, a, b) < 0 && InOrder(f, d, b, c)
    ensures Compare(f, d, a, c) < 0
  {
    var ka, kb, kc := Key(f, a), Key(f, b), Key(f, c);
    CompareMeaning(f, d, a, b);
    CompareMeaning(f, d, b, c);
    CompareMeaning(f, d, a, c);
    KeyLessTotal(kb, kc);
    KeyLessTotal(ka, kc);
    KeyLessIrreflexive(ka);
    if KeyLess(ka, kb) && KeyLess(kb, kc) { KeyLessTransitive(ka, kb, kc); }
    if KeyLess(kb, ka) && KeyLess(kc, kb) { KeyLessTransitive(kc, kb, ka); }
    if KeyLess(ka, kc) { KeyLessAsymmetric(ka, kc); }
  }

  /** Inserting into a sorted list puts `x` after every element with its key. */
  lemma {:induction false} InsertKeepsTies(f: SortField, d: Direction, x: Event, s: seq<Event>, k: SortKey)
    requires Sorted(f, d, s)
    ensures Keep(Insert(f, d, x, s), HasKey(f, k)) ==
            Keep(s, HasKey(f, k)) + (if Key(f, x) == k then [x] else [])
  {
    var p := HasKey(f, k);
    if s == [] {
    } else if Compare(f, d, x, s[0]) < 0 {
      assert ([x] + s)[1..] == s;
      if Key(f, x) == k {
        forall i | 0 <= i < |s| ensures !p(s[i]) {
          if i > 0 { CompareStrictThenInOrder(f, d, x, s[0], s[i]); }
          CompareMeaning(f, d, x, s[i]);
        }
        KeepNone(s, p);
      }
    } else {
      assert Sorted(f, d, s[1..]);
      InsertKeepsTies(f, d, x, s[1..], k);
      assert ([s[0]] + Insert(f, d, x, s[1..]))[1..] == Insert(f, d, x, s[1..]);
    }
  }

  /** The sort is stable: the events sharing any one key come out in the
      order they went in. */
  lemma {:induction false} SortEventsStable(f: SortField, d: Direction, s: seq<Event>, k: SortKey)
    ensures Keep(SortEvents(f, d, s), HasKey(f, k)) == Keep(s, HasKey(f, k))
  {
    if s != [] {
      var p := HasKey(f, k);
      var init, x := s[..|s| - 1], s[|s| - 1];
      var sortedInit := SortEvents(f, d, init);
      SortEventsSorted(f, d, init);
      calc {
        Keep(SortEvents(f, d, s), p);
        Keep(Insert(f, d, x, sortedInit), p);
        { InsertKeepsTies(f, d, x, sortedInit, k); }
        Keep(sortedInit, p) + (if Key(f, x) == k then [x] else []);
        { SortEventsStable(f, d, init, k); }
        Keep(init, p) + (if p(x) then [x] else []);
        { KeepSnoc(s, p); }
        Keep(s, p);
      }
    }
  }

  /** A sorted list read as keys: non-decreasing when ascending, non-increasing
      when descending. */
  lemma SortedKeys(f: SortField, d: Direction, s: seq<Event>, i: int)
    requires Sorted(f, d, s) && 0 <= i < |s| - 1
    ensures d == Asc ==> Key(f, s[i]) == Key(f, s[i + 1]) || KeyLess(Key(f, s[i]), Key(f, s[i + 1]))
    ensures d == Desc ==> Key(f, s[i]) == Key(f, s[i + 1]) || KeyLess(Key(f, s[i + 1]), Key(f, s[i]))
  {
    assert InOrder(f, d, s[i], s[i + 1]);
    CompareMeaning(f, d, s[i], s[i + 1]);
    KeyLessTotal(Key(f, s[i]), Key(f, s[i + 1]));
  }
}
