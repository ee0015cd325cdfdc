/**
  Series building: the model of `NGram.make_df`. The four per-document lists are
  zipped into rows, each row's timestamp is reduced to its calendar date, and the rows
  are sorted ascending by that date.
*/
module Series {

  /** A calendar date, ordered year first, then month, then day. */
  datatype CalendarDate = CalendarDate(year: int, month: int, day: int)

  predicate DateLe(a: CalendarDate, b: CalendarDate) {
    a.year < b.year
    || (a.year == b.year && a.month < b.month)
    || (a.year == b.year && a.month == b.month && a.day <= b.day)
  }

  /**
    A document's creation timestamp, already parsed: the wall-clock date and time in its
    own UTC offset. Dropping the time zone keeps the wall-clock time, so the date of a
    timestamp is the date it carries.
  */
  datatype Timestamp = Timestamp(date: CalendarDate, secondOfDay: nat, utcOffsetMinutes: int)

  /** `pd.to_datetime(...).dt.tz_localize(None)` followed by `.dt.date`. */
  function DateOf(ts: Timestamp): CalendarDate {
    ts.date
  }

  /** One row of the table: the document title, the two counts and the calendar date. */
  datatype Row = Row(title: string, count1: nat, count2: nat, date: CalendarDate)

  function Min(a: nat, b: nat): nat {
    if a <= b then a else b
  }

  /** The number of rows `zip` produces: that of the shortest list. */
  function ZipLength<A, B, C, D>(a: seq<A>, b: seq<B>, c: seq<C>, d: seq<D>): nat {
    Min(Min(|a|, |b|), Min(|c|, |d|))
  }

  /** `zip(dates, names, s1_counts, s2_counts)` with each date reduced to its day. */
  function Zip(dates: seq<Timestamp>, s1: seq<nat>, s2: seq<nat>, names: seq<string>): (rows: seq<Row>)
    ensures |rows| == ZipLength(dates, s1, s2, names)
    ensures forall i :: 0 <= i < |rows| ==>
      rows[i] == Row(names[i], s1[i], s2[i], DateOf(dates[i]))
  {
    if dates == [] || s1 == [] || s2 == [] || names == [] then []
    else [Row(names[0], s1[0], s2[0], DateOf(dates[0]))] + Zip(dates[1..], s1[1..], s2[1..], names[1..])
  }

  /** Every earlier row's date is on or before every later row's date. */
  predicate SortedByDate(rows: seq<Row>) {
    forall i, j :: 0 <= i < j < |rows| ==> DateLe(rows[i].date, rows[j].date)
  }

  /** A row dated on or before the first row of a sorted table can be put in front of it. */
  lemma SortedCons(x: Row, s: seq<Row>)
    requires SortedByDate(s) && (s != [] ==> DateLe(x.date, s[0].date))
    ensures SortedByDate([x] + s)
  {
    var t := [x] + s;
    forall i, j | 0 <= i < j < |t| ensures DateLe(t[i].date, t[j].date) {
      if i == 0 && j > 1 {
        assert DateLe(s[0].date, s[j - 1].date);
      }
    }
  }

  /** Insert a row into a date-sorted sequence, before the first row dated on or after it. */
  function Insert(r: Row, rows: seq<Row>): (out: seq<Row>)
    requires SortedByDate(rows)
    ensures SortedByDate(out)
    ensures multiset(out) == multiset(rows) + multiset{r}
    ensures |out| > 0 && (out[0] == r || (rows != [] && out[0] == rows[0]))
  {
    if rows == [] || DateLe(r.date, rows[0].date) then
      SortedCons(r, rows);
      [r] + rows
    else
      assert SortedByDate(rows[1..]);
      var rest := Insert(r, rows[1..]);
      assert rows[1..] != [] ==> DateLe(rows[0].date, rows[1].date);
      SortedCons(rows[0], rest);
      assert rows == [rows[0]] + rows[1..];
      [rows[0]] + rest
  }

  /** Sort rows ascending by date. */
  function SortByDate(rows: seq<Row>): (out: seq<Row>)
    ensures SortedByDate(out)
    ensures multiset(out) == multiset(rows)
  {
    if rows == [] then []
    else
      assert rows == [rows[0]] + rows[1..];
      Insert(rows[0], SortByDate(rows[1..]))
  }

  /**
    `make_df`: one row per zipped index, as many as the shortest list, ordered ascending
    by calendar date and holding exactly the zipped rows.
  */
  function MakeDf(dates: seq<Timestamp>, s1: seq<nat>, s2: seq<nat>, names: seq<string>): (df: seq<Row>)
    ensures |df| == ZipLength(dates, s1, s2, names)
    ensures SortedByDate(df)
    ensures multiset(df) == multiset(Zip(dates, s1, s2, names))
  {
    var rows := Zip(dates, s1, s2, names);
    assert |multiset(rows)| == |rows|;
    SortByDate(rows)
  }

  /** The date column of a table. */
  function DateColumn(rows: seq<Row>): (ds: seq<CalendarDate>)
    ensures |ds| == |rows| && forall i :: 0 <= i < |rows| ==> ds[i] == rows[i].date
  {
    seq(|rows|, i requires 0 <= i < |rows| => rows[i].date)
  }

  /** Removing the element at j removes one copy of it from the multiset. */
  lemma MultisetRemove<T>(s: seq<T>, j: nat)
    requires j < |s|
    ensures multiset(s[..j] + s[j + 1..]) == multiset(s) - multiset{s[j]}
  {
    assert s == s[..j] + [s[j]] + s[j + 1..];
  }

  /** Removing row j from a table removes one copy of its date from the date column. */
  lemma DateColumnRemove(b: seq<Row>, j: nat)
    requires j < |b|
    ensures multiset(DateColumn(b)) == multiset(DateColumn(b[..j] + b[j + 1..])) + multiset{b[j].date}
  {
    var d, b' := DateColumn(b), b[..j] + b[j + 1..];
    var d' := DateColumn(b');
    forall k | 0 <= k < |d'| ensures d'[k] == (d[..j] + d[j + 1..])[k] {
      if k < j {
        assert b'[k] == b[k];
      } else {
        assert b'[k] == b[k + 1];
      }
    }
    assert d' == d[..j] + d[j + 1..];
    MultisetRemove(d, j);
  }

  /** Taking the same element out of two equal multisets leaves equal multisets. */
  lemma RemoveSameElement<T>(a: seq<T>, b: seq<T>, j: nat)
    requires a != [] && j < |b| && b[j] == a[0] && multiset(a) == multiset(b)
    ensures multiset(a[1..]) == multiset(b[..j] + b[j + 1..])
  {
    MultisetRemove(a, 0);
    MultisetRemove(b, j);
    assert a[..0] + a[1..] == a[1..];
  }

  /**
    One step of the induction below: if the tables agree on their dates once the row
    a[0] is taken from each, they agree on their dates.
  */
  lemma DateColumnMultisetStep(a: seq<Row>, b: seq<Row>, j: nat)
    requires a != [] && j < |b| && b[j] == a[0]
    requires multiset(DateColumn(a[1..])) == multiset(DateColumn(b[..j] + b[j + 1..]))
    ensures multiset(DateColumn(a)) == multiset(DateColumn(b))
  {
    assert DateColumn(a) == [a[0].date] + DateColumn(a[1..]);
    DateColumnRemove(b, j);
    calc {
      multiset(DateColumn(a));
      multiset(DateColumn(a[1..])) + multiset{a[0].date};
      multiset(DateColumn(b[..j] + b[j + 1..])) + multiset{b[j].date};
      multiset(DateColumn(b));
    }
  }

  /** Two tables holding the same rows have the same dates, counted with multiplicity. */
  lemma {:induction false} DateColumnMultiset(a: seq<Row>, b: seq<Row>)
    requires multiset(a) == multiset(b)
    ensures multiset(DateColumn(a)) == multiset(DateColumn(b))
    decreases |a|
  {
    if a == [] {
      assert |b| == |multiset(b)| == 0;
    } else {
      assert a[0] in multiset(b);
      var j :| 0 <= j < |b| && b[j] == a[0];
      RemoveSameElement(a, b, j);
      DateColumnMultiset(a[1..], b[..j] + b[j + 1..]);
      DateColumnMultisetStep(a, b, j);
    }
  }

  predicate SortedDates(ds: seq<CalendarDate>) {
    forall i, j :: 0 <= i < j < |ds| ==> DateLe(ds[i], ds[j])
  }

  /** The first of a sorted date sequence is on or before every date in it. */
  lemma SortedHeadIsLeast(ds: seq<CalendarDate>, d: CalendarDate)
    requires SortedDates(ds) && d in multiset(ds)
    ensures DateLe(ds[0], d)
  {
    var i :| 0 <= i < |ds| && ds[i] == d;
    if i > 0 {
      assert DateLe(ds[0], ds[i]);
    }
  }

  /** Equal multisets with equal first elements have equal multisets of the rest. */
  lemma TailsSameMultiset<T>(a: seq<T>, b: seq<T>)
    requires a != [] && b != [] && a[0] == b[0] && multiset(a) == multiset(b)
    ensures multiset(a[1..]) == multiset(b[1..])
  {
    assert a == [a[0]] + a[1..];
    assert b == [b[0]] + b[1..];
    assert multiset(a[1..]) == multiset(a) - multiset{a[0]};
    assert multiset(b[1..]) == multiset(b) - multiset{b[0]};
  }

  /** Two sorted date sequences with the same dates are equal. */
  lemma {:induction false} SortedDatesUnique(a: seq<CalendarDate>, b: seq<CalendarDate>)
    requires SortedDates(a) && SortedDates(b) && multiset(a) == multiset(b)
    ensures a == b
    decreases |a|
  {
    if a == [] {
      assert |b| == |multiset(b)| == 0;
    } else {
      assert |b| == |multiset(b)| == |a|;
      SortedHeadIsLeast(a, b[0]);
      SortedHeadIsLeast(b, a[0]);
      TailsSameMultiset(a, b);
      SortedDatesUnique(a[1..], b[1..]);
      assert a == [a[0]] + a[1..];
      assert b == [b[0]] + b[1..];
    }
  }

  /**
    However ties between rows of the same date are broken, every sorting of the same rows
    gives the same date column: the order of the dates in the output is determined.
  */
  lemma DateColumnIsDetermined(a: seq<Row>, b: seq<Row>)
    requires SortedByDate(a) && SortedByDate(b) && multiset(a) == multiset(b)
    ensures DateColumn(a) == DateColumn(b)
  {
    DateColumnMultiset(a, b);
    SortedDatesUnique(DateColumn(a), DateColumn(b));
  }

  /**
    Two documents dated 2021-03-01 and 2021-01-15 with term counts 3 and 0: the table
    lists the January document first, so the first count column reads 0, 3.
  */
  lemma EarlierDocumentFirst()
    ensures var df := MakeDf(
        [Timestamp(CalendarDate(2021, 3, 1), 0, 0), Timestamp(CalendarDate(2021, 1, 15), 0, 0)],
        [3, 0], [0, 0], ["march", "january"]);
      df == [Row("january", 0, 0, CalendarDate(2021, 1, 15)), Row("march", 3, 0, CalendarDate(2021, 3, 1))]
  {
    var rows := Zip(
        [Timestamp(CalendarDate(2021, 3, 1), 0, 0), Timestamp(CalendarDate(2021, 1, 15), 0, 0)],
        [3, 0], [0, 0], ["march", "january"]);
    assert rows == [Row("march", 3, 0, CalendarDate(2021, 3, 1)), Row("january", 0, 0, CalendarDate(2021, 1, 15))];
  }
}
