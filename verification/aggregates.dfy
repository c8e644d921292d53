/**
 * The chart aggregations of pages/1_Acidentes.py: label counts in the order of
 * pandas' `value_counts` (most frequent first, ties in order of first
 * appearance), the top ten streets and crossings, the half-hour histogram, and
 * the colour a severity is drawn in.
 */
module Aggregates {
  import opened Wrappers
  import opened Records

  type Tally<T> = seq<(T, nat)>

  /** The labels of `s`, each once, in order of first appearance (`unique`). */
  function Distinct<T(==)>(s: seq<T>): (d: seq<T>)
    ensures forall i :: 0 <= i < |d| ==> d[i] in s
    ensures forall i :: 0 <= i < |s| ==> s[i] in d
    ensures forall i, j :: 0 <= i < j < |d| ==> d[i] != d[j]
  {
    if s == [] then []
    else
      var d := Distinct(s[..|s| - 1]);
      if s[|s| - 1] in d then d else d + [s[|s| - 1]]
  }

  /** Each distinct label with the number of times it occurs, in order of first appearance. */
  function Occurrences<T(==)>(labels: seq<T>): (t: Tally<T>)
    ensures forall p :: p in t ==> p.0 in labels && p.1 == multiset(labels)[p.0]
    ensures forall x :: x in labels ==> (x, multiset(labels)[x]) in t
    ensures forall i, j :: 0 <= i < j < |t| ==> t[i].0 != t[j].0
  {
    var d := Distinct(labels);
    var t := seq(|d|, i requires 0 <= i < |d| => (d[i], multiset(labels)[d[i]]));
    assert forall x :: x in d ==> (x, multiset(labels)[x]) in t by {
      forall x | x in d ensures (x, multiset(labels)[x]) in t {
        var i :| 0 <= i < |d| && d[i] == x;
        assert t[i] == (x, multiset(labels)[x]);
      }
    }
    t
  }

  predicate NonIncreasing<T>(t: Tally<T>)
  {
    forall i, j :: 0 <= i < j < |t| ==> t[i].1 >= t[j].1
  }

  /** Insert after every entry whose count is at least as large: ties keep their order. */
  function InsertByCount<T>(p: (T, nat), t: Tally<T>): Tally<T>
  {
    if t == [] then [p]
    else if t[0].1 < p.1 then [p] + t
    else [t[0]] + InsertByCount(p, t[1..])
  }

  /** A stable sort by descending count. */
  function SortByCount<T>(t: Tally<T>): Tally<T>
  {
    if t == [] then [] else InsertByCount(t[|t| - 1], SortByCount(t[..|t| - 1]))
  }

  lemma {:induction false} InsertByCountPermutes<T>(p: (T, nat), t: Tally<T>)
    ensures multiset(InsertByCount(p, t)) == multiset(t) + multiset{p}
    decreases |t|
  {
    if t != [] && t[0].1 >= p.1 {
      InsertByCountPermutes(p, t[1..]);
      assert t == [t[0]] + t[1..];
    }
  }

  lemma {:induction false} InsertByCountSorted<T>(p: (T, nat), t: Tally<T>)
    requires NonIncreasing(t)
    ensures NonIncreasing(InsertByCount(p, t))
    ensures multiset(InsertByCount(p, t)) == multiset(t) + multiset{p}
    decreases |t|
  {
    InsertByCountPermutes(p, t);
    if t == [] {
    } else if t[0].1 >= p.1 {
      var tail := t[1..];
      assert NonIncreasing(tail) by {
        forall i, j | 0 <= i < j < |tail| ensures tail[i].1 >= tail[j].1 {
          assert tail[i] == t[i + 1] && tail[j] == t[j + 1];
        }
      }
      var rest := InsertByCount(p, tail);
      InsertByCountSorted(p, tail);
      forall q | q in rest ensures t[0].1 >= q.1 {
        assert q in multiset(rest);
        if q != p {
          assert q in multiset(tail);
          var i :| 0 <= i < |tail| && tail[i] == q;
          assert t[i + 1] == q;
        }
      }
      HeadOverSorted(t[0], rest);
    } else {
      forall q | q in t ensures p.1 >= q.1 {
        var i :| 0 <= i < |t| && t[i] == q;
      }
      HeadOverSorted(p, t);
    }
  }

  /** A count at least every count of a sorted tally can go in front of it. */
  lemma HeadOverSorted<T>(h: (T, nat), rest: Tally<T>)
    requires NonIncreasing(rest)
    requires forall q :: q in rest ==> h.1 >= q.1
    ensures NonIncreasing([h] + rest)
  {
    var s := [h] + rest;
    forall i, j | 0 <= i < j < |s| ensures s[i].1 >= s[j].1 {
      assert s[j] == rest[j - 1];
      if i > 0 {
        assert s[i] == rest[i - 1];
      }
    }
  }

  lemma {:induction false} SortByCountSorted<T>(t: Tally<T>)
    ensures NonIncreasing(SortByCount(t))
    ensures multiset(SortByCount(t)) == multiset(t)
    decreases |t|
  {
    if t != [] {
      SortByCountSorted(t[..|t| - 1]);
      InsertByCountSorted(t[|t| - 1], SortByCount(t[..|t| - 1]));
      assert t == t[..|t| - 1] + [t[|t| - 1]];
    }
  }

  /** `value_counts()`: the labels by descending count. */
  function ValueCounts<T(==)>(labels: seq<T>): Tally<T>
  {
    SortByCount(Occurrences(labels))
  }

  /**
   * Every entry of `value_counts` carries its label's true count, every label
   * occurs in exactly one entry, and the counts never increase along the list.
   */
  lemma ValueCountsCorrect<T>(labels: seq<T>)
    ensures NonIncreasing(ValueCounts(labels))
    ensures forall p :: p in ValueCounts(labels) ==> p.0 in labels && p.1 == multiset(labels)[p.0] && p.1 > 0
    ensures forall x :: x in labels ==> (x, multiset(labels)[x]) in ValueCounts(labels)
    ensures forall i, j :: 0 <= i < j < |ValueCounts(labels)| ==> ValueCounts(labels)[i].0 != ValueCounts(labels)[j].0
    ensures |ValueCounts(labels)| == |Distinct(labels)|
  {
    var t := Occurrences(labels);
    var d := Distinct(labels);
    SortByCountSorted(t);
    var vc := ValueCounts(labels);
    assert |vc| == |t| by {
      assert |multiset(vc)| == |multiset(t)|;
    }
    forall p | p in vc ensures p.0 in labels && p.1 == multiset(labels)[p.0] && p.1 > 0 {
      assert p in multiset(t);
    }
    forall x | x in labels ensures (x, multiset(labels)[x]) in vc {
      assert (x, multiset(labels)[x]) in multiset(t);
    }
    PermutationKeepsLabelsDistinct(t, vc);
    DistinctLength(labels, vc);
  }

  /** Reordering a tally with pairwise different labels keeps them pairwise different. */
  lemma PermutationKeepsLabelsDistinct<T>(t: Tally<T>, vc: Tally<T>)
    requires multiset(vc) == multiset(t)
    requires forall i, j :: 0 <= i < j < |t| ==> t[i].0 != t[j].0
    ensures forall i, j :: 0 <= i < j < |vc| ==> vc[i].0 != vc[j].0
  {
    forall i, j | 0 <= i < j < |vc| ensures vc[i].0 != vc[j].0 {
      if vc[i].0 == vc[j].0 {
        assert vc[i] in multiset(t) && vc[j] in multiset(t);
        var a :| 0 <= a < |t| && t[a] == vc[i];
        var b :| 0 <= b < |t| && t[b] == vc[j];
        assert a == b;
        TwoCopies(vc, i, j);
        AtMostOnce(t, vc[i]);
        assert false;
      }
    }
  }

  /** An element at two positions occurs at least twice. */
  lemma {:induction false} TwoCopies<T>(s: seq<T>, i: int, j: int)
    requires 0 <= i < j < |s| && s[i] == s[j]
    ensures multiset(s)[s[i]] >= 2
  {
    if i > 0 {
      TwoCopies(s[1..], i - 1, j - 1);
      assert s == [s[0]] + s[1..];
    } else {
      assert s[i] in s[1..];
      assert s == [s[0]] + s[1..];
    }
  }

  /** A tally whose labels are pairwise different holds every entry at most once. */
  lemma {:induction false} AtMostOnce<T>(t: Tally<T>, p: (T, nat))
    requires forall i, j :: 0 <= i < j < |t| ==> t[i].0 != t[j].0
    ensures multiset(t)[p] <= 1
  {
    if t != [] {
      AtMostOnce(t[1..], p);
      assert t == [t[0]] + t[1..];
      if t[0] == p {
        assert p !in t[1..];
      }
    }
  }

  /**
   * A list of pairwise different labels, each a label of `labels`, that holds
   * every label of `labels` is as long as `Distinct(labels)`.
   */
  lemma DistinctLength<T>(labels: seq<T>, vc: Tally<T>)
    requires forall p :: p in vc ==> p.0 in labels
    requires forall x :: x in labels ==> exists p :: p in vc && p.0 == x
    requires forall i, j :: 0 <= i < j < |vc| ==> vc[i].0 != vc[j].0
    ensures |vc| == |Distinct(labels)|
  {
    var d := Distinct(labels);
    var keys := seq(|vc|, i requires 0 <= i < |vc| => vc[i].0);
    forall x ensures x in keys <==> x in d {
      if x in keys {
        var i :| 0 <= i < |keys| && keys[i] == x;
        assert vc[i] in vc;
      }
      if x in d {
        var p :| p in vc && p.0 == x;
        var i :| 0 <= i < |vc| && vc[i] == p;
        assert keys[i] == x;
      }
    }
    SameSetSameSize(keys, d);
  }

  /** Two duplicate-free sequences with the same elements have the same length. */
  lemma SameSetSameSize<T>(a: seq<T>, b: seq<T>)
    requires forall i, j :: 0 <= i < j < |a| ==> a[i] != a[j]
    requires forall i, j :: 0 <= i < j < |b| ==> b[i] != b[j]
    requires forall x :: x in a <==> x in b
    ensures |a| == |b|
  {
    SetSize(a);
    SetSize(b);
    assert (set x | x in a) == (set x | x in b);
  }

  /** A duplicate-free sequence has as many elements as its set. */
  lemma {:induction false} SetSize<T>(a: seq<T>)
    requires forall i, j :: 0 <= i < j < |a| ==> a[i] != a[j]
    ensures |set x | x in a| == |a|
  {
    if a != [] {
      var rest := a[1..];
      SetSize(rest);
      assert a[0] !in rest;
      assert (set x | x in a) == (set x | x in rest) + {a[0]};
    }
  }

  /** `value_counts().head(n)`: the `n` most frequent labels. */
  function TopCounts<T(==)>(labels: seq<T>, n: nat): Tally<T>
  {
    var vc := ValueCounts(labels);
    if |vc| <= n then vc else vc[..n]
  }

  /**
   * The top list has `n` entries, or one per label when there are fewer labels;
   * its labels are pairwise different, with true, non-increasing counts, and
   * every label left out of it is no more frequent than any label in it.
   */
  lemma TopCountsCorrect<T>(labels: seq<T>, n: nat)
    ensures |TopCounts(labels, n)| == if |Distinct(labels)| < n then |Distinct(labels)| else n
    ensures forall i, j :: 0 <= i < j < |TopCounts(labels, n)| ==> TopCounts(labels, n)[i].0 != TopCounts(labels, n)[j].0
    ensures NonIncreasing(TopCounts(labels, n))
    ensures forall p :: p in TopCounts(labels, n) ==> p.1 == multiset(labels)[p.0] && p.1 > 0
    ensures forall x, p :: x in labels && p in TopCounts(labels, n) && (x, multiset(labels)[x]) !in TopCounts(labels, n)
              ==> multiset(labels)[x] <= p.1
  {
    ValueCountsCorrect(labels);
    var vc := ValueCounts(labels);
    PrefixOfTally(vc, if |vc| <= n then |vc| else n);
    assert TopCounts(labels, n) == vc[..if |vc| <= n then |vc| else n];
  }

  /**
   * A prefix of a sorted tally with pairwise different labels is sorted, keeps
   * its labels pairwise different, and outranks every entry it leaves out.
   */
  lemma PrefixOfTally<T>(vc: Tally<T>, m: nat)
    requires m <= |vc|
    requires NonIncreasing(vc)
    requires forall i, j :: 0 <= i < j < |vc| ==> vc[i].0 != vc[j].0
    ensures NonIncreasing(vc[..m])
    ensures forall i, j :: 0 <= i < j < m ==> vc[..m][i].0 != vc[..m][j].0
    ensures forall p :: p in vc[..m] ==> p in vc
    ensures forall q, p :: q in vc && q !in vc[..m] && p in vc[..m] ==> q.1 <= p.1
  {
    var top := vc[..m];
    forall q, p | q in vc && q !in top && p in top ensures q.1 <= p.1 {
      var j :| 0 <= j < |vc| && vc[j] == q;
      var i :| 0 <= i < m && top[i] == p;
      assert vc[i] == p;
    }
  }

  // ---------------------------------------------------------------------------
  // Streets and crossings

  /** The values of a column that `value_counts` counts: NaN cells are skipped. */
  function Present(cells: seq<Field>): (values: seq<string>)
    ensures |values| <= |cells|
    ensures forall v :: multiset(values)[v] == multiset(cells)[Some(v)]
  {
    if cells == [] then []
    else
      assert cells == [cells[0]] + cells[1..];
      (if cells[0].Some? then [cells[0].value] else []) + Present(cells[1..])
  }

  /** The column `df['logradouro']`, one cell per row. */
  function Streets(rows: seq<Accident>): seq<Field>
  {
    seq(|rows|, i requires 0 <= i < |rows| => rows[i].logradouro)
  }

  /**
   * `df['logradouro'].value_counts()` skips NaN streets: each street is counted
   * once per row that names it.
   */
  function StreetLabels(rows: seq<Accident>): (labels: seq<string>)
    ensures |labels| <= |rows|
    ensures forall s :: s in labels <==> exists r :: r in rows && r.logradouro == Some(s)
    ensures forall s :: multiset(labels)[s] == multiset(Streets(rows))[Some(s)]
  {
    var labels := Present(Streets(rows));
    assert forall s :: s in labels <==> exists r :: r in rows && r.logradouro == Some(s) by {
      forall s ensures s in labels <==> exists r :: r in rows && r.logradouro == Some(s) {
        assert s in labels <==> multiset(labels)[s] > 0;
        if s in labels {
          assert Some(s) in multiset(Streets(rows));
          var i :| 0 <= i < |rows| && Streets(rows)[i] == Some(s);
          assert rows[i] in rows;
        }
        if exists r :: r in rows && r.logradouro == Some(s) {
          var r :| r in rows && r.logradouro == Some(s);
          var i :| 0 <= i < |rows| && rows[i] == r;
          assert Streets(rows)[i] == Some(s);
          assert Some(s) in multiset(Streets(rows));
        }
      }
    }
    labels
  }

  /** The top ten streets of the "Logradouros com Mais Acidentes" chart. */
  function TopStreets(rows: seq<Accident>): Tally<string>
  {
    TopCounts(StreetLabels(rows), 10)
  }

  /**
   * The street chart: ten pairwise different streets, or one per street when
   * there are fewer, with non-increasing
   * counts, each count the number of rows on that street, and no street left out
   * more frequent than one shown.
   */
  lemma TopStreetsCorrect(rows: seq<Accident>)
    ensures |TopStreets(rows)| ==
              if |Distinct(StreetLabels(rows))| < 10 then |Distinct(StreetLabels(rows))| else 10
    ensures forall i, j :: 0 <= i < j < |TopStreets(rows)| ==> TopStreets(rows)[i].0 != TopStreets(rows)[j].0
    ensures NonIncreasing(TopStreets(rows))
    ensures forall p :: p in TopStreets(rows) ==> p.1 == multiset(Streets(rows))[Some(p.0)] && p.1 > 0
    ensures forall r, p :: r in rows && r.logradouro.Some? && p in TopStreets(rows) &&
                           (r.logradouro.value, multiset(Streets(rows))[r.logradouro]) !in TopStreets(rows)
              ==> multiset(Streets(rows))[r.logradouro] <= p.1
  {
    var labels := StreetLabels(rows);
    TopCountsCorrect(labels, 10);
    forall r | r in rows && r.logradouro.Some? ensures r.logradouro.value in labels {
    }
  }

  /** The crossing key: the street, " x ", then the cross street, in that order. */
  function CrossingKey(logradouro: string, cruzamento: string): (k: string)
    ensures |k| == |logradouro| + 3 + |cruzamento|
    ensures k[..|logradouro|] == logradouro && k[|logradouro| + 3..] == cruzamento
    ensures k[|logradouro|..|logradouro| + 3] == " x "
  {
    logradouro + " x " + cruzamento
  }

  /**
   * The column `df['logradouro'] + ' x ' + df['cruzamento']`: NaN when either
   * part is NaN.
   */
  function CrossingKeys(rows: seq<Accident>): seq<Field>
  {
    seq(|rows|, i requires 0 <= i < |rows| => CrossingCell(rows[i]))
  }

  /** One cell of that column. */
  function CrossingCell(r: Accident): Field
  {
    if r.logradouro.Some? && r.cruzamento.Some?
    then Some(CrossingKey(r.logradouro.value, r.cruzamento.value)) else None
  }

  /**
   * The keys of `dropna(subset=['cruzamento'])` followed by the concatenation;
   * a missing street makes the key NaN, which `value_counts` skips. Each key is
   * counted once per row that produces it.
   */
  function CrossingLabels(rows: seq<Accident>): (labels: seq<string>)
    ensures |labels| <= |rows|
    ensures forall k :: k in labels <==>
              exists r :: r in rows && r.logradouro.Some? && r.cruzamento.Some? &&
                          k == CrossingKey(r.logradouro.value, r.cruzamento.value)
    ensures forall k :: multiset(labels)[k] == multiset(CrossingKeys(rows))[Some(k)]
  {
    var labels := Present(CrossingKeys(rows));
    assert forall k :: k in labels <==> exists r :: r in rows && CrossingCell(r) == Some(k) by {
      forall k ensures k in labels <==> exists r :: r in rows && CrossingCell(r) == Some(k) {
        assert k in labels <==> multiset(labels)[k] > 0;
        if k in labels {
          assert Some(k) in multiset(CrossingKeys(rows));
          var i :| 0 <= i < |rows| && CrossingKeys(rows)[i] == Some(k);
          assert rows[i] in rows;
        }
        if exists r :: r in rows && CrossingCell(r) == Some(k) {
          var r :| r in rows && CrossingCell(r) == Some(k);
          var i :| 0 <= i < |rows| && rows[i] == r;
          assert CrossingKeys(rows)[i] == Some(k);
          assert Some(k) in multiset(CrossingKeys(rows));
        }
      }
    }
    labels
  }

  /** The top ten crossings of the "Cruzamentos com Mais Acidentes" chart. */
  function TopCrossings(rows: seq<Accident>): Tally<string>
  {
    TopCounts(CrossingLabels(rows), 10)
  }

  /**
   * The crossing chart: ten pairwise different keys, or one per key when there
   * are fewer, with non-increasing
   * counts, each count the number of rows giving that key, and no key left out
   * more frequent than one shown.
   */
  lemma TopCrossingsCorrect(rows: seq<Accident>)
    ensures |TopCrossings(rows)| ==
              if |Distinct(CrossingLabels(rows))| < 10 then |Distinct(CrossingLabels(rows))| else 10
    ensures forall i, j :: 0 <= i < j < |TopCrossings(rows)| ==> TopCrossings(rows)[i].0 != TopCrossings(rows)[j].0
    ensures NonIncreasing(TopCrossings(rows))
    ensures forall p :: p in TopCrossings(rows) ==> p.1 == multiset(CrossingKeys(rows))[Some(p.0)] && p.1 > 0
    ensures forall k, p :: Some(k) in CrossingKeys(rows) && p in TopCrossings(rows) &&
                           (k, multiset(CrossingKeys(rows))[Some(k)]) !in TopCrossings(rows)
              ==> multiset(CrossingKeys(rows))[Some(k)] <= p.1
  {
    var labels := CrossingLabels(rows);
    TopCountsCorrect(labels, 10);
  }

  /**
   * The key is order-sensitive: "A x B" and "B x A" are different keys for
   * two different names unless the longer one begins with the shorter one
   * followed by " x" ("x" and "x x" give "x x x x" both ways round).
   */
  lemma CrossingKeyOrderSensitive(a: string, b: string)
    requires a != b && !(a + " x" <= b) && !(b + " x" <= a)
    ensures CrossingKey(a, b) != CrossingKey(b, a)
  {
    if |a| <= |b| {
      KeysDifferWhenShorterFirst(a, b);
    } else {
      KeysDifferWhenShorterFirst(b, a);
    }
  }

  /** The case of `CrossingKeyOrderSensitive` where `a` is no longer than `b`. */
  lemma KeysDifferWhenShorterFirst(a: string, b: string)
    requires a != b && |a| <= |b| && !(a + " x" <= b)
    ensures CrossingKey(a, b) != CrossingKey(b, a)
  {
    var ab, ba := CrossingKey(a, b), CrossingKey(b, a);
    if |a| == |b| {
      assert ab[..|a|] == a && ba[..|b|] == b;
    } else if |b| == |a| + 1 {
      assert ab[|a| + 1] == 'x' && ba[|b|] == ' ';
    } else {
      assert ab[..|a| + 2] == a + " x";
      assert ba[..|a| + 2] == b[..|a| + 2];
      assert b[..|a| + 2] != a + " x";
    }
  }

  // ---------------------------------------------------------------------------
  // The half-hour histogram

  const HalfHour: int := 30

  /** `dt.floor('30T')`: the start of the half hour `t` falls in. */
  function FloorHalfHour(t: int): (b: int)
    ensures b <= t < b + HalfHour && b % HalfHour == 0
  {
    t - t % HalfHour
  }

  /** The floor is the only half-hour boundary with that property. */
  lemma FloorHalfHourUnique(t: int, b: int)
    requires b <= t < b + HalfHour && b % HalfHour == 0
    ensures b == FloorHalfHour(t)
  {
    var f := FloorHalfHour(t);
    assert (b - f) % HalfHour == 0;
    assert -HalfHour < b - f < HalfHour;
  }

  /** `dt.floor('30T').dt.time`: the time of day of the floored instant, in minutes. */
  function Slot(t: int): (m: int)
    ensures 0 <= m < MinutesPerDay && m % HalfHour == 0
    ensures m <= t % MinutesPerDay < m + HalfHour
  {
    var f := FloorHalfHour(t);
    assert t % MinutesPerDay == (t - t / MinutesPerDay * MinutesPerDay);
    assert f % MinutesPerDay == f - t / MinutesPerDay * MinutesPerDay by {
      var d := t / MinutesPerDay;
      assert d * MinutesPerDay <= f;
      assert f < (d + 1) * MinutesPerDay;
    }
    f % MinutesPerDay
  }

  function Slots(rows: seq<Accident>): (s: seq<int>)
    ensures |s| == |rows|
    ensures forall i :: 0 <= i < |s| ==> s[i] == Slot(rows[i].dataHora)
  {
    if rows == [] then [] else [Slot(rows[0].dataHora)] + Slots(rows[1..])
  }

  /** Counts of the slots from `k * 30` on, in ascending order, for the slots that occur. */
  function SlotCountsFrom(slots: seq<int>, k: nat): Tally<int>
    decreases 48 - k
  {
    if k >= 48 then []
    else
      var c := multiset(slots)[k * HalfHour];
      (if c > 0 then [(k * HalfHour, c)] else []) + SlotCountsFrom(slots, k + 1)
  }

  /** `value_counts()` of the slots followed by `sort_values(by='Horário')`. */
  function HourCounts(rows: seq<Accident>): Tally<int>
  {
    SlotCountsFrom(Slots(rows), 0)
  }

  function Total<T>(t: Tally<T>): nat
  {
    if t == [] then 0 else t[0].1 + Total(t[1..])
  }

  /** The number of slots at or after `lo`. */
  function CountFrom(slots: seq<int>, lo: int): nat
  {
    if slots == [] then 0 else (if slots[0] >= lo then 1 else 0) + CountFrom(slots[1..], lo)
  }

  predicate AllSlots(slots: seq<int>)
  {
    forall i :: 0 <= i < |slots| ==> 0 <= slots[i] < MinutesPerDay && slots[i] % HalfHour == 0
  }

  lemma {:induction false} CountFromStep(slots: seq<int>, k: nat)
    requires AllSlots(slots)
    ensures CountFrom(slots, k * HalfHour) == multiset(slots)[k * HalfHour] + CountFrom(slots, (k + 1) * HalfHour)
  {
    if slots != [] {
      CountFromStep(slots[1..], k);
      assert slots == [slots[0]] + slots[1..];
      assert multiset(slots)[k * HalfHour] ==
             multiset([slots[0]])[k * HalfHour] + multiset(slots[1..])[k * HalfHour];
      assert slots[0] == slots[0] / HalfHour * HalfHour;
    }
  }

  lemma {:induction false} CountFromEnd(slots: seq<int>)
    requires AllSlots(slots)
    ensures CountFrom(slots, MinutesPerDay) == 0 && CountFrom(slots, 0) == |slots|
  {
    if slots != [] {
      CountFromEnd(slots[1..]);
    }
  }

  lemma {:induction false} SlotCountsFromTotal(slots: seq<int>, k: nat)
    requires AllSlots(slots) && k <= 48
    ensures Total(SlotCountsFrom(slots, k)) == CountFrom(slots, k * HalfHour)
    decreases 48 - k
  {
    if k == 48 {
      CountFromEnd(slots);
    } else {
      SlotCountsFromTotal(slots, k + 1);
      CountFromStep(slots, k);
      var c := multiset(slots)[k * HalfHour];
      var here := SlotCountsFrom(slots, k);
      if c > 0 {
        assert here[0].1 == c && here[1..] == SlotCountsFrom(slots, k + 1);
      } else {
        assert here == SlotCountsFrom(slots, k + 1);
      }
    }
  }

  lemma {:induction false} SlotCountsFromShape(slots: seq<int>, k: nat)
    ensures forall p :: p in SlotCountsFrom(slots, k) ==>
              k * HalfHour <= p.0 < 48 * HalfHour && p.0 % HalfHour == 0 && p.1 == multiset(slots)[p.0] && p.1 > 0
    ensures forall i, j :: 0 <= i < j < |SlotCountsFrom(slots, k)| ==>
              SlotCountsFrom(slots, k)[i].0 < SlotCountsFrom(slots, k)[j].0
    ensures forall m :: m % HalfHour == 0 && k * HalfHour <= m < 48 * HalfHour && m in slots ==>
              (m, multiset(slots)[m]) in SlotCountsFrom(slots, k)
    decreases 48 - k
  {
    if k < 48 {
      SlotCountsFromShape(slots, k + 1);
      var rest := SlotCountsFrom(slots, k + 1);
      forall m | m % HalfHour == 0 && k * HalfHour <= m < 48 * HalfHour && m in slots
        ensures (m, multiset(slots)[m]) in SlotCountsFrom(slots, k)
      {
        if m != k * HalfHour {
          assert (k + 1) * HalfHour <= m;
        }
      }
    }
  }

  /**
   * The half-hour histogram lists each slot that occurs once, with its number of
   * accidents, in ascending order of slot, and the counts add up to the row count.
   */
  lemma HourCountsCorrect(rows: seq<Accident>)
    ensures Total(HourCounts(rows)) == |rows|
    ensures forall i, j :: 0 <= i < j < |HourCounts(rows)| ==> HourCounts(rows)[i].0 < HourCounts(rows)[j].0
    ensures forall p :: p in HourCounts(rows) ==> p.1 == multiset(Slots(rows))[p.0] && p.1 > 0
    ensures forall r :: r in rows ==> (Slot(r.dataHora), multiset(Slots(rows))[Slot(r.dataHora)]) in HourCounts(rows)
  {
    var slots := Slots(rows);
    SlotsAreSlots(rows);
    SlotCountsFromTotal(slots, 0);
    CountFromEnd(slots);
    SlotCountsFromShape(slots, 0);
    forall r | r in rows
      ensures (Slot(r.dataHora), multiset(slots)[Slot(r.dataHora)]) in HourCounts(rows)
    {
      SlotListed(rows, r);
    }
  }

  /** The slot of a row of the table is listed with its count. */
  lemma SlotListed(rows: seq<Accident>, r: Accident)
    requires r in rows
    ensures (Slot(r.dataHora), multiset(Slots(rows))[Slot(r.dataHora)]) in HourCounts(rows)
  {
    SlotOccurs(rows, r);
    SlotCountsFromShape(Slots(rows), 0);
  }

  lemma SlotOccurs(rows: seq<Accident>, r: Accident)
    requires r in rows
    ensures var m := Slot(r.dataHora); m in Slots(rows) && m % HalfHour == 0 && 0 * HalfHour <= m < 48 * HalfHour
  {
    var i :| 0 <= i < |rows| && rows[i] == r;
    assert Slots(rows)[i] == Slot(r.dataHora);
  }

  lemma SlotsAreSlots(rows: seq<Accident>)
    ensures AllSlots(Slots(rows))
  {
    var slots := Slots(rows);
    forall i | 0 <= i < |slots| ensures 0 <= slots[i] < MinutesPerDay && slots[i] % HalfHour == 0 {
      assert slots[i] == Slot(rows[i].dataHora);
    }
  }

  // ---------------------------------------------------------------------------
  // Severity colours

  /** The colour table `gravidade_colors`. */
  const GravidadeColors: map<string, string> := map[
    "C/ VÍTIMAS LEVES" := "green",
    "C/ VÍTIMAS GRAVES" := "orange",
    "C/ VÍTIMAS FATAIS" := "red",
    "S/ LESÃO" := "blue"]

  /** `gravidade_colors.get(gravidade, 'gray')`; a NaN severity is not a key either. */
  function ColorOf(gravidade: Field): (c: string)
    ensures c in {"green", "orange", "red", "blue", "gray"}
    ensures c == "gray" <==> !(gravidade.Some? && gravidade.value in GravidadeColors)
    ensures gravidade.Some? && gravidade.value in GravidadeColors ==> c == GravidadeColors[gravidade.value]
  {
    match gravidade
    case Some(g) => if g in GravidadeColors then GravidadeColors[g] else "gray"
    case None => "gray"
  }

  /** Distinct severities of the table are drawn in distinct colours. */
  lemma ColorsDistinguishSeverities(g1: string, g2: string)
    requires g1 in GravidadeColors && g2 in GravidadeColors && g1 != g2
    ensures ColorOf(Some(g1)) != ColorOf(Some(g2))
  {
  }
}
