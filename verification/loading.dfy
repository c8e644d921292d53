/**
 * `load_data` of pages/1_Acidentes.py (and the identical one of app.py): sort the
 * frame in place by (data, hora), then derive `data_hora` and `dia_semana`.
 */
module Loading {
  import opened Records

  /** The order of `sort_values(by=['data', 'hora'])`: by date, then by time. */
  predicate KeyLe(a: RawAccident, b: RawAccident)
  {
    a.data < b.data || (a.data == b.data && a.hora <= b.hora)
  }

  predicate SortedByKey(s: seq<RawAccident>)
  {
    forall i, j :: 0 <= i < j < |s| ==> KeyLe(s[i], s[j])
  }

  /** Rows in ascending `data_hora` order, the order `load_data` leaves behind. */
  predicate SortedByTime(s: seq<Accident>)
  {
    forall i, j :: 0 <= i < j < |s| ==> s[i].dataHora <= s[j].dataHora
  }

  /** Comparing raw (data, hora) keys is comparing the derived timestamps. */
  lemma KeyLeIsTimeOrder(a: RawAccident, b: RawAccident)
    ensures KeyLe(a, b) <==> Derive(a).dataHora <= Derive(b).dataHora
  {
    var ta, tb := Derive(a).dataHora, Derive(b).dataHora;
    if a.data < b.data {
      assert ta < (a.data + 1) * MinutesPerDay <= b.data * MinutesPerDay <= tb;
    } else if a.data > b.data {
      assert tb < (b.data + 1) * MinutesPerDay <= a.data * MinutesPerDay <= ta;
    }
  }

  /** `sort_values(by=['data', 'hora'], inplace=True)`: an insertion sort by adjacent swaps. */
  method SortByDateHour(a: array<RawAccident>)
    modifies a
    ensures SortedByKey(a[..])
    ensures multiset(a[..]) == old(multiset(a[..]))
  {
    var i := 0;
    while i < a.Length
      invariant 0 <= i <= a.Length
      invariant forall k, m :: 0 <= k < m < i ==> KeyLe(a[k], a[m])
      invariant multiset(a[..]) == old(multiset(a[..]))
    {
      InsertInPlace(a, i);
      i := i + 1;
    }
  }

  /** One pass of the sort: move `a[i]` down into the sorted prefix `a[..i]`. */
  method InsertInPlace(a: array<RawAccident>, i: int)
    modifies a
    requires 0 <= i < a.Length
    requires forall k, m :: 0 <= k < m < i ==> KeyLe(a[k], a[m])
    ensures forall k, m :: 0 <= k < m <= i ==> KeyLe(a[k], a[m])
    ensures multiset(a[..]) == old(multiset(a[..]))
  {
    var j := i;
    while 0 < j && !KeyLe(a[j - 1], a[j])
      invariant 0 <= j <= i
      invariant forall k, m :: 0 <= k < m <= i && k != j && m != j ==> KeyLe(a[k], a[m])
      invariant forall k, m :: 0 <= k < j < m <= i ==> KeyLe(a[k], a[m])
      invariant forall m :: j < m <= i ==> KeyLe(a[j], a[m])
      invariant multiset(a[..]) == old(multiset(a[..]))
    {
      a[j - 1], a[j] := a[j], a[j - 1];
      j := j - 1;
    }
  }

  /** Deriving the rows of two permutations of one another gives permutations of one another. */
  lemma DerivePermutation(xs: seq<RawAccident>, ys: seq<RawAccident>)
    requires multiset(xs) == multiset(ys)
    ensures multiset(DeriveAll(xs)) == multiset(DeriveAll(ys))
  {
    MapIsDeriveAll(xs);
    MapIsDeriveAll(ys);
    MapPermutation(Derive, xs, ys);
  }

  /** `f` applied to every element, in order. */
  function MapSeq<A, B>(f: A -> B, xs: seq<A>): (ys: seq<B>)
    ensures |ys| == |xs|
    ensures forall i :: 0 <= i < |xs| ==> ys[i] == f(xs[i])
  {
    if xs == [] then [] else [f(xs[0])] + MapSeq(f, xs[1..])
  }

  lemma MapIsDeriveAll(xs: seq<RawAccident>)
    ensures MapSeq(Derive, xs) == DeriveAll(xs)
  {
    assert |MapSeq(Derive, xs)| == |DeriveAll(xs)|;
  }

  /** Mapping two permutations of one another gives permutations of one another. */
  lemma {:induction false} MapPermutation<A, B>(f: A -> B, xs: seq<A>, ys: seq<A>)
    requires multiset(xs) == multiset(ys)
    ensures multiset(MapSeq(f, xs)) == multiset(MapSeq(f, ys))
    decreases |xs|
  {
    if xs != [] {
      var x := xs[0];
      assert x in multiset(ys);
      var k :| 0 <= k < |ys| && ys[k] == x;
      var rest := ys[..k] + ys[k + 1..];
      RemoveAt(ys, k);
      assert xs == [x] + xs[1..];
      assert multiset(xs) == multiset{x} + multiset(xs[1..]);
      Cancel(multiset(xs[1..]), multiset(rest), x);
      MapPermutation(f, xs[1..], rest);
      MapRemoveAt(f, ys, k);
      assert MapSeq(f, xs) == [f(x)] + MapSeq(f, xs[1..]);
      assert multiset(MapSeq(f, xs)) == multiset{f(x)} + multiset(MapSeq(f, xs[1..]));
    }
  }

  lemma RemoveAt<T>(ys: seq<T>, k: nat)
    requires k < |ys|
    ensures multiset(ys) == multiset(ys[..k] + ys[k + 1..]) + multiset{ys[k]}
  {
    assert ys == ys[..k] + [ys[k]] + ys[k + 1..];
  }

  lemma MapRemoveAt<A, B>(f: A -> B, ys: seq<A>, k: nat)
    requires k < |ys|
    ensures multiset(MapSeq(f, ys)) == multiset(MapSeq(f, ys[..k] + ys[k + 1..])) + multiset{f(ys[k])}
  {
    var ds, zs := MapSeq(f, ys), ys[..k] + ys[k + 1..];
    var es := ds[..k] + ds[k + 1..];
    assert |MapSeq(f, zs)| == |es|;
    forall i | 0 <= i < |zs| ensures MapSeq(f, zs)[i] == es[i] {
      if i < k {
        assert zs[i] == ys[i] && es[i] == ds[i];
      } else {
        assert zs[i] == ys[i + 1] && es[i] == ds[i + 1];
      }
    }
    assert MapSeq(f, zs) == es;
    RemoveAt(ds, k);
  }

  lemma Cancel<T>(a: multiset<T>, b: multiset<T>, x: T)
    requires a + multiset{x} == b + multiset{x}
    ensures a == b
  {
    assert a == (a + multiset{x}) - multiset{x};
    assert b == (b + multiset{x}) - multiset{x};
  }

  /**
   * `load_data`: the loaded table holds the derived rows of the source file, each
   * exactly once, in ascending `data_hora` order, each with a consistent `dia_semana`.
   */
  method LoadData(source: seq<RawAccident>) returns (table: seq<Accident>)
    ensures |table| == |source|
    ensures multiset(table) == multiset(DeriveAll(source))
    ensures SortedByTime(table)
    ensures forall r :: r in table ==> WellDerived(r)
  {
    var dados := new RawAccident[|source|](i requires 0 <= i < |source| => source[i]);
    assert dados[..] == source;
    SortByDateHour(dados);
    table := DeriveAll(dados[..]);
    DerivePermutation(dados[..], source);
    ghost var sorted := dados[..];
    forall i, j | 0 <= i < j < |table| ensures table[i].dataHora <= table[j].dataHora {
      KeyLeIsTimeOrder(sorted[i], sorted[j]);
    }
    forall r | r in table ensures WellDerived(r) {
      var i :| 0 <= i < |table| && table[i] == r;
      DeriveSplits(sorted[i]);
    }
  }
}
