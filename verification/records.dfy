/**
 * The accident table: the raw rows of data/acidentes.csv and the rows that
 * `load_data` derives from them (pages/1_Acidentes.py and app.py share the code).
 *
 * Time is counted in whole minutes since 1970-01-01 00:00, a Thursday. A raw
 * row carries its date as a day number and its time as a minute of the day;
 * the derived `data_hora` timestamp is their combination.
 */
module Records {
  import opened Wrappers

  const MinutesPerDay: int := 1440

  /** Minute of the day, the raw `hora` column. */
  type MinuteOfDay = m: int | 0 <= m < 1440

  /** pandas' `dayofweek`: Monday = 0 ... Sunday = 6. */
  type DayOfWeek = d: int | 0 <= d < 7

  /** The page's `dia_semana`: Sunday = 1 ... Saturday = 7. */
  type Weekday = w: int | 1 <= w <= 7
    witness 1

  /** A text cell: the string, or None when pandas reads NaN. */
  type Field = Option<string>

  /** One row of data/acidentes.csv before `load_data` touches it. */
  datatype RawAccident = RawAccident(
    data: int,          // day number of the `data` column
    hora: MinuteOfDay,  // the `hora` column
    lat: string,        // coordinates are kept as their text and never computed on
    lng: string,
    gravidade: Field,
    logradouro: Field,
    numero: Field,
    cruzamento: Field,
    tipoAcidente: Field,
    tempo: Field)

  /** One row after `load_data`: `hora` merged into `data_hora`, `dia_semana` added, `lng` renamed `lon`. */
  datatype Accident = Accident(
    dataHora: int,
    diaSemana: Weekday,
    lat: string,
    lon: string,
    gravidade: Field,
    logradouro: Field,
    numero: Field,
    cruzamento: Field,
    tipoAcidente: Field,
    tempo: Field)

  /** The day a timestamp falls on (floor division, as for instants before 1970). */
  function DayOf(t: int): int
  {
    t / MinutesPerDay
  }

  /** pandas' `dt.dayofweek` of a day number; day 0 (1970-01-01) is a Thursday, 3. */
  function NativeDayOfWeek(day: int): DayOfWeek
  {
    (day + 3) % 7
  }

  /**
   * `NativeDayOfWeek` is the week: 1970-01-01 is a Thursday, each next day is the
   * next weekday, Sunday is followed by Monday, and the cycle repeats every 7 days.
   */
  lemma NativeDayOfWeekSteps(day: int)
    ensures NativeDayOfWeek(0) == 3
    ensures NativeDayOfWeek(day + 1) == if NativeDayOfWeek(day) == 6 then 0 else NativeDayOfWeek(day) + 1
    ensures NativeDayOfWeek(day + 7) == NativeDayOfWeek(day)
  {
  }

  /** The fixed table `dias` of `load_data`. */
  const Dias: map<int, int> := map[0 := 2, 1 := 3, 2 := 4, 3 := 5, 4 := 6, 5 := 7, 6 := 1]

  /**
   * The remap of `dayofweek` through `dias`: counted from Sunday instead of
   * Monday, and from 1 instead of 0.
   */
  function DiaSemana(d: DayOfWeek): (w: Weekday)
    ensures w == (d + 1) % 7 + 1
    ensures w == 1 <==> d == 6
  {
    assert d == 0 || d == 1 || d == 2 || d == 3 || d == 4 || d == 5 || d == 6;
    Dias[d]
  }

  /** The inverse of the remap: the pandas weekday a `dia_semana` came from. */
  function NativeOf(w: Weekday): (d: DayOfWeek)
    ensures DiaSemana(d) == w
  {
    (w + 5) % 7
  }

  /** The remap is a bijection of 0..6 onto 1..7: it has `NativeOf` as a two-sided inverse. */
  lemma DiaSemanaBijective(d: DayOfWeek, w: Weekday)
    ensures DiaSemana(d) == w <==> NativeOf(w) == d
  {
  }

  /** pandas' `dt.year`: the proleptic Gregorian year of the day of `t` (civil-from-days). */
  function YearOf(t: int): int
  {
    YearOfDay(DayOf(t))
  }

  /** The year of a day number, by the days-to-civil conversion of 400-year eras starting on March 1st. */
  function YearOfDay(day: int): int
  {
    var z := day + 719468;
    var era := z / 146097;
    var doe := z - era * 146097;
    var yoe := (doe - doe / 1460 + doe / 36524 - doe / 146096) / 365;
    var doy := doe - (365 * yoe + yoe / 4 - yoe / 100);
    var mp := (5 * doy + 2) / 153;
    var month := if mp < 10 then mp + 3 else mp - 9;
    yoe + era * 400 + (if month <= 2 then 1 else 0)
  }

  /** The Gregorian leap-year rule. */
  predicate IsLeap(y: int)
  {
    y % 4 == 0 && (y % 100 != 0 || y % 400 == 0)
  }

  /** Leap years among 1..n (for n >= 0). */
  function Leaps(n: int): int
  {
    n / 4 - n / 100 + n / 400
  }

  /** Day number of January 1st of year `y`. */
  function YearStart(y: int): (day: int)
    ensures y == 1970 ==> day == 0
  {
    365 * (y - 1970) + Leaps(y - 1) - Leaps(1969)
  }

  /**
   * `YearStart` is the calendar: each year is 365 days long, 366 when it is
   * a leap year.
   */
  lemma YearStartStep(y: int)
    ensures YearStart(y + 1) == YearStart(y) + (if IsLeap(y) then 366 else 365)
  {
    DivStep(y, 4);
    DivStep(y, 100);
    DivStep(y, 400);
    assert y % 400 == 0 ==> y % 100 == 0 by {
      if y % 400 == 0 {
        assert y == 100 * (4 * (y / 400));
      }
    }
    assert y % 100 == 0 ==> y % 4 == 0 by {
      if y % 100 == 0 {
        assert y == 4 * (25 * (y / 100));
      }
    }
  }

  /** Floor division steps up by one exactly at the multiples of `d`. */
  lemma DivStep(n: int, d: int)
    requires d > 0
    ensures n / d - (n - 1) / d == if n % d == 0 then 1 else 0
  {
    var q, m := n / d, n % d;
    assert n == d * q + m;
    if m == 0 {
      assert n - 1 == d * (q - 1) + (d - 1);
      DivUnique(n - 1, d, q - 1, d - 1);
    } else {
      assert n - 1 == d * q + (m - 1);
      DivUnique(n - 1, d, q, m - 1);
    }
  }

  /** The quotient and remainder of `n` by `d` are the only such pair. */
  lemma DivUnique(n: int, d: int, q: int, m: int)
    requires d > 0 && 0 <= m < d && n == d * q + m
    ensures n / d == q
  {
    var q', m' := n / d, n % d;
    assert d * (q - q') == m' - m;
    if q > q' {
      MulAtLeast(d, q - q');
    } else if q < q' {
      assert d * (q' - q) == m - m';
      MulAtLeast(d, q' - q);
    }
  }

  lemma {:induction false} MulAtLeast(d: int, k: int)
    requires d > 0 && k >= 1
    ensures d * k >= d
    decreases k
  {
    if k > 1 {
      MulAtLeast(d, k - 1);
      assert d * k == d * (k - 1) + d;
    }
  }

  /**
   * Inside one 400-year era, day `365 * k + k / 4 + r` of the era that starts on
   * March 1st, 2000 (k < 100, so no century year intervenes) falls in year `k`
   * of the era.
   */
  lemma EraYear(k: int, r: int)
    requires 0 <= k <= 99
    requires 0 <= r < 365 + (if k % 4 == 3 then 1 else 0)
    ensures var doe := 365 * k + k / 4 + r; (doe - doe / 1460) / 365 == k
  {
    var a, b := k / 4, k % 4;
    var doe := 365 * k + k / 4 + r;
    assert doe == 1460 * a + (a + 365 * b + r);
    var c := (a + 365 * b + r) / 1460;
    assert 0 <= c <= 1;
    assert doe / 1460 == a + c;
    assert doe - doe / 1460 == 365 * (4 * a + b) + (r - c);
    assert 0 <= r - c < 365;
  }

  /**
   * `YearOf` on a day given by its place in the March-based years after
   * March 1st, 2000 (day 11017): days from March 1st on belong to year 2000 + k,
   * January and February (306 days later) to the next.
   */
  lemma YearOfCycle(day: int, k: int, r: int)
    requires 0 <= k <= 99 && (k < 99 || r < 306)
    requires 0 <= r < 365 + (if k % 4 == 3 then 1 else 0)
    requires day - 11017 == 365 * k + k / 4 + r
    ensures YearOfDay(day) == 2000 + k + (if r >= 306 then 1 else 0)
  {
    var doe := day - 11017;
    assert k / 4 <= 24;
    assert 0 <= doe < 36524;
    assert doe / 36524 == 0 && doe / 146096 == 0;
    assert (day + 719468) / 146097 == 5;
    EraYear(k, r);
    assert k / 100 == 0;
  }

  /**
   * `YearOf` agrees with the calendar: every day from January 1st of `y` up to
   * the next January 1st has year `y` (for the years 2001 to 2099, which hold
   * every date of the table).
   */
  lemma YearOfInRange(day: int, y: int)
    requires 2001 <= y <= 2099 && YearStart(y) <= day < YearStart(y + 1)
    ensures YearOfDay(day) == y
  {
    assert Leaps(y - 1) == (y - 1) / 4 - 15 && Leaps(y) == y / 4 - 15 && Leaps(1969) == 477;
    var k := y - 2001;
    assert (y - 1) / 4 == k / 4 + 500;
    assert y / 4 == (k + 1) / 4 + 500;
    assert YearStart(y) - 11017 == 365 * k + k / 4 + 306;
    assert YearStart(y + 1) - 11017 == 365 * (k + 1) + (k + 1) / 4 + 306;
    var r := day - 11017 - (365 * k + k / 4);
    if r < 365 + (if k % 4 == 3 then 1 else 0) {
      YearOfCycle(day, k, r);
    } else {
      assert (k + 1) / 4 == k / 4 + (if k % 4 == 3 then 1 else 0);
      YearOfCycle(day, k + 1, r - 365 - (if k % 4 == 3 then 1 else 0));
    }
  }

  /**
   * The timestamp form: any instant of a day of year `y` has year `y`.
   */
  lemma YearOfInstant(t: int, y: int)
    requires 2001 <= y <= 2099 && YearStart(y) <= DayOf(t) < YearStart(y + 1)
    ensures YearOf(t) == y
  {
    YearOfInRange(DayOf(t), y);
  }

  /** `pd.to_datetime(data + ' ' + hora)`, the weekday remap and the column renames of one row. */
  function Derive(raw: RawAccident): Accident
  {
    Accident(raw.data * MinutesPerDay + raw.hora, DiaSemana(NativeDayOfWeek(raw.data)),
             raw.lat, raw.lng, raw.gravidade, raw.logradouro, raw.numero,
             raw.cruzamento, raw.tipoAcidente, raw.tempo)
  }

  /**
   * `Derive` loses nothing: the derived timestamp splits back into the raw date
   * and time, its `dia_semana` is the remapped weekday of that date, and the
   * other columns are carried over.
   */
  lemma DeriveSplits(raw: RawAccident)
    ensures var a := Derive(raw);
            DayOf(a.dataHora) == raw.data && a.dataHora % MinutesPerDay == raw.hora && WellDerived(a)
    ensures var a := Derive(raw);
            a.lat == raw.lat && a.lon == raw.lng && a.gravidade == raw.gravidade &&
            a.logradouro == raw.logradouro && a.numero == raw.numero && a.cruzamento == raw.cruzamento &&
            a.tipoAcidente == raw.tipoAcidente && a.tempo == raw.tempo
  {
    var t := Derive(raw).dataHora;
    assert raw.data * MinutesPerDay <= t < (raw.data + 1) * MinutesPerDay;
  }

  /** A derived row whose `dia_semana` agrees with its `data_hora`. */
  predicate WellDerived(r: Accident)
  {
    r.diaSemana == DiaSemana(NativeDayOfWeek(DayOf(r.dataHora)))
  }

  function DeriveAll(raws: seq<RawAccident>): (rs: seq<Accident>)
    ensures |rs| == |raws|
    ensures forall i :: 0 <= i < |raws| ==> rs[i] == Derive(raws[i])
  {
    if raws == [] then [] else [Derive(raws[0])] + DeriveAll(raws[1..])
  }
}
