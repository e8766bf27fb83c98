/**
 * The panel builder of the pipeline (`clean` in src/data.py): the raw daily
 * stock records are projected onto the four fields the measures need, the
 * opening price is renamed to `price`, and the panel is sorted by ticker name
 * and then by date.
 */
module Panel {

  /** One record as read from a per-stock CSV file: the columns of the
      historical-prices dataset, dates counted as days (chronological order). */
  datatype RawRow = RawRow(date: int, open: real, high: real, low: real, close: real, volume: real, Name: string)

  /** One record of the canonical panel. */
  datatype Row = Row(name: string, date: int, price: real, volume: real)

  // ---------------------------------------------------------------------------
  // Order on the sort key (name, date)
  // ---------------------------------------------------------------------------

  /** Ordering of ticker names as the sort compares strings: lexicographic by
      code point, a proper prefix first. */
  predicate NameLe(a: string, b: string)
  {
    if a == [] then true
    else if b == [] then false
    else if a[0] != b[0] then a[0] < b[0]
    else NameLe(a[1..], b[1..])
  }

  lemma {:induction false} NameLeTotal(a: string, b: string)
    ensures NameLe(a, b) || NameLe(b, a)
  {
    if a != [] && b != [] && a[0] == b[0] {
      NameLeTotal(a[1..], b[1..]);
    }
  }

  lemma {:induction false} NameLeAntisymmetric(a: string, b: string)
    requires NameLe(a, b) && NameLe(b, a)
    ensures a == b
  {
    if a != [] && b != [] {
      NameLeAntisymmetric(a[1..], b[1..]);
      assert a == [a[0]] + a[1..] && b == [b[0]] + b[1..];
    }
  }

  lemma {:induction false} NameLeTransitive(a: string, b: string, c: string)
    requires NameLe(a, b) && NameLe(b, c)
    ensures NameLe(a, c)
  {
    if a != [] && b != [] && c != [] && a[0] == b[0] && b[0] == c[0] {
      NameLeTransitive(a[1..], b[1..], c[1..]);
    }
  }

  /** The order `sort_values(['name', 'date'])` sorts by: name first, then date. */
  predicate KeyLe(r: Row, s: Row)
  {
    if r.name == s.name then r.date <= s.date else NameLe(r.name, s.name)
  }

  lemma KeyLeTotal(r: Row, s: Row)
    ensures KeyLe(r, s) || KeyLe(s, r)
  {
    NameLeTotal(r.name, s.name);
  }

  lemma KeyLeAntisymmetric(r: Row, s: Row)
    requires KeyLe(r, s) && KeyLe(s, r)
    ensures r.name == s.name && r.date == s.date
  {
    if r.name != s.name {
      NameLeAntisymmetric(r.name, s.name);
    }
  }

  lemma KeyLeTransitive(r: Row, s: Row, t: Row)
    requires KeyLe(r, s) && KeyLe(s, t)
    ensures KeyLe(r, t)
  {
    if r.name != s.name && s.name != t.name {
      NameLeTransitive(r.name, s.name, t.name);
      if r.name == t.name {
        NameLeAntisymmetric(r.name, s.name);
      }
    }
  }

  /** Ascending by (name, date). */
  ghost predicate Sorted(s: seq<Row>)
  {
    forall i, j :: 0 <= i < j < |s| ==> KeyLe(s[i], s[j])
  }

  /** At most one record per (name, date) pair. */
  ghost predicate UniqueKeys(s: seq<Row>)
  {
    forall i, j :: 0 <= i < j < |s| ==> s[i].name != s[j].name || s[i].date != s[j].date
  }

  // ---------------------------------------------------------------------------
  // Sorting
  // ---------------------------------------------------------------------------

  /** Inserts `x` before the first element it does not come after. */
  function Insert(x: Row, s: seq<Row>): (r: seq<Row>)
    ensures multiset(r) == multiset(s) + multiset{x}
  {
    if s == [] then [x]
    else if KeyLe(x, s[0]) then [x] + s
    else
      assert s == [s[0]] + s[1..];
      [s[0]] + Insert(x, s[1..])
  }

  lemma {:induction false} InsertSorted(x: Row, s: seq<Row>)
    requires Sorted(s)
    ensures Sorted(Insert(x, s))
  {
    if s == [] {
    } else if KeyLe(x, s[0]) {
      var r := Insert(x, s);
      forall i, j | 0 <= i < j < |r| ensures KeyLe(r[i], r[j]) {
        if i == 0 && j > 1 {
          KeyLeTransitive(x, s[0], s[j - 1]);
        }
      }
    } else {
      KeyLeTotal(x, s[0]);
      var tail := Insert(x, s[1..]);
      InsertSorted(x, s[1..]);
      var r := [s[0]] + tail;
      forall j | 0 <= j < |tail| ensures KeyLe(s[0], tail[j]) {
        assert tail[j] in multiset(tail);
        assert tail[j] == x || tail[j] in multiset(s[1..]);
        if tail[j] != x {
          var k :| 0 <= k < |s[1..]| && s[1..][k] == tail[j];
          assert s[k + 1] == tail[j];
        }
      }
      forall i, j | 0 <= i < j < |r| ensures KeyLe(r[i], r[j]) {
        if i == 0 {
          assert r[j] == tail[j - 1];
        } else {
          assert r[i] == tail[i - 1] && r[j] == tail[j - 1];
        }
      }
    }
  }

  /** Insertion sort by (name, date); stable on equal keys. */
  function SortByKey(s: seq<Row>): (r: seq<Row>)
    ensures multiset(r) == multiset(s)
  {
    if s == [] then []
    else
      assert s == [s[0]] + s[1..];
      Insert(s[0], SortByKey(s[1..]))
  }

  lemma {:induction false} SortByKeySorted(s: seq<Row>)
    ensures Sorted(SortByKey(s))
  {
    if s != [] {
      SortByKeySorted(s[1..]);
      InsertSorted(s[0], SortByKey(s[1..]));
    }
  }

  // ---------------------------------------------------------------------------
  // clean
  // ---------------------------------------------------------------------------

  /** Keeps `name`, `date`, `open` (renamed `price`) and `volume`, unchanged. */
  function Tidy(r: RawRow): Row
  {
    Row(r.Name, r.date, r.open, r.volume)
  }

  function Project(raw: seq<RawRow>): (p: seq<Row>)
    ensures |p| == |raw|
    ensures forall i :: 0 <= i < |raw| ==> p[i] == Tidy(raw[i])
  {
    seq(|raw|, i requires 0 <= i < |raw| => Tidy(raw[i]))
  }

  /** The cleaned panel: every projected record exactly once, in key order. */
  function Clean(raw: seq<RawRow>): (c: seq<Row>)
    ensures |c| == |raw|
    ensures multiset(c) == multiset(Project(raw))
    ensures Sorted(c)
  {
    SortByKeySorted(Project(raw));
    SortByKey(Project(raw))
  }

  /** Every cleaned record is a raw record with its fields carried over
      unchanged, and every raw record appears in the cleaned panel. */
  lemma CleanKeepsValues(raw: seq<RawRow>)
    ensures forall k :: 0 <= k < |Clean(raw)| ==>
      exists i :: 0 <= i < |raw| && Clean(raw)[k] == Row(raw[i].Name, raw[i].date, raw[i].open, raw[i].volume)
    ensures forall i :: 0 <= i < |raw| ==>
      Row(raw[i].Name, raw[i].date, raw[i].open, raw[i].volume) in Clean(raw)
  {
    var c, p := Clean(raw), Project(raw);
    forall k | 0 <= k < |c|
      ensures exists i :: 0 <= i < |raw| && c[k] == Row(raw[i].Name, raw[i].date, raw[i].open, raw[i].volume)
    {
      assert c[k] in multiset(p);
      var i :| 0 <= i < |p| && p[i] == c[k];
    }
    forall i | 0 <= i < |raw| ensures Tidy(raw[i]) in c {
      assert p[i] in multiset(c);
    }
  }

  lemma SortedHeadsAgree(a: seq<Row>, b: seq<Row>)
    requires Sorted(a) && Sorted(b) && UniqueKeys(a)
    requires multiset(a) == multiset(b) && a != []
    ensures b != [] && a[0] == b[0]
  {
    assert a[0] in multiset(b);
    var j :| 0 <= j < |b| && b[j] == a[0];
    assert b[0] in multiset(a);
    var i :| 0 <= i < |a| && a[i] == b[0];
    if i != 0 {
      assert KeyLe(a[0], a[i]);
      if j != 0 {
        assert KeyLe(b[0], b[j]);
      }
      KeyLeAntisymmetric(a[0], a[i]);
      assert false;
    }
  }

  lemma TailsSameMultiset(a: seq<Row>, b: seq<Row>)
    requires a != [] && b != [] && a[0] == b[0]
    requires multiset(a) == multiset(b)
    ensures multiset(a[1..]) == multiset(b[1..])
  {
    assert a == [a[0]] + a[1..];
    assert b == [b[0]] + b[1..];
    var x := a[0];
    assert multiset(a) == multiset{x} + multiset(a[1..]);
    assert multiset(b) == multiset{x} + multiset(b[1..]);
    forall z ensures multiset(a[1..])[z] == multiset(b[1..])[z] {
      assert multiset(a)[z] == multiset{x}[z] + multiset(a[1..])[z];
      assert multiset(b)[z] == multiset{x}[z] + multiset(b[1..])[z];
    }
  }

  /** Two sorted arrangements of the same records coincide when no key
      repeats: the order of the cleaned panel does not depend on the sorting
      algorithm. */
  lemma {:induction false} SortedPermutationUnique(a: seq<Row>, b: seq<Row>)
    requires Sorted(a) && Sorted(b) && UniqueKeys(a)
    requires multiset(a) == multiset(b)
    ensures a == b
  {
    if a == [] {
      assert |b| == 0 by { assert |multiset(b)| == 0; }
    } else {
      SortedHeadsAgree(a, b);
      TailsSameMultiset(a, b);
      SortedPermutationUnique(a[1..], b[1..]);
      assert a == [a[0]] + a[1..] && b == [b[0]] + b[1..];
    }
  }
}
