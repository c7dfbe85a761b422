/** The hourly temperature and humidity trends of the data analyzer
    (data_analyzer.py:99-179): a `$match` on the window and on the metric's
    presence, a `$group` by calendar hour with `$avg`, `$min`, `$max` and a
    count, and a `$sort` by hour. The grouping is modelled as a fold that
    keeps one bucket per hour in ascending hour order. */
module Trends {
  import opened Common
  import opened Documents
  import opened Stats
  import opened Queries

  /** The UTC calendar hour a timestamp falls in, numbered from the epoch; the
      `{year, month, day, hour}` group key orders exactly like this number. */
  function HourKey(t: int): int
  {
    t / SecondsPerHour
  }

  lemma HourKeyBounds(t: int)
    ensures HourKey(t) * SecondsPerHour <= t < (HourKey(t) + 1) * SecondsPerHour
  {
  }

  /** One metric value with the hour of its document. */
  datatype Reading = Reading(hour: int, value: real)

  /** The `$match` stage: in the window and carrying the metric. */
  function Selected(m: Metric, start: int, end: int): Doc -> bool
  {
    d => InWindow(start, end, d) && MetricValue(d, m).Some?
  }

  /** The selected documents of one hour. */
  function SelectedInHour(m: Metric, start: int, end: int, h: int): Doc -> bool
  {
    d => InWindow(start, end, d) && MetricValue(d, m).Some? && HourKey(d.timestamp) == h
  }

  /** The readings the `$match` stage passes on, in document order. */
  function ReadingsOf(docs: seq<Doc>, m: Metric, start: int, end: int): (rs: seq<Reading>)
    ensures |rs| == Count(docs, Selected(m, start, end))
  {
    if docs == [] then []
    else
      var d := docs[0];
      (if Selected(m, start, end)(d) then [Reading(HourKey(d.timestamp), MetricValue(d, m).value)] else [])
      + ReadingsOf(docs[1..], m, start, end)
  }

  /** The values of the readings of hour `h`, in reading order. */
  function ValuesAt(rs: seq<Reading>, h: int): (vs: seq<real>)
    ensures |vs| <= |rs|
  {
    if rs == [] then []
    else (if rs[0].hour == h then [rs[0].value] else []) + ValuesAt(rs[1..], h)
  }

  /** The number of values of an hour is the number of selected documents of
      that hour. */
  lemma {:induction false} ReadingsPerHour(docs: seq<Doc>, m: Metric, start: int, end: int, h: int)
    ensures |ValuesAt(ReadingsOf(docs, m, start, end), h)| == Count(docs, SelectedInHour(m, start, end, h))
  {
    if docs != [] {
      var rs := ReadingsOf(docs, m, start, end);
      var rest := ReadingsOf(docs[1..], m, start, end);
      ReadingsPerHour(docs[1..], m, start, end, h);
      if Selected(m, start, end)(docs[0]) {
        assert rs == [Reading(HourKey(docs[0].timestamp), MetricValue(docs[0], m).value)] + rest;
        assert rs[1..] == rest;
      } else {
        assert rs == rest;
        ValuesAtNone(docs, m, start, end, h);
      }
    }
  }

  lemma ValuesAtNone(docs: seq<Doc>, m: Metric, start: int, end: int, h: int)
    requires docs != [] && !Selected(m, start, end)(docs[0])
    ensures Count(docs, SelectedInHour(m, start, end, h)) == Count(docs[1..], SelectedInHour(m, start, end, h))
  {
  }

  /** The accumulators of one group. */
  datatype Bucket = Bucket(hour: int, count: nat, total: real, low: real, high: real)

  /** What a bucket must hold for the values `vs` of its hour. */
  predicate Summarizes(b: Bucket, vs: seq<real>)
  {
    |vs| > 0 && b.count == |vs| && b.total == Sum(vs) && b.low == Min(vs) && b.high == Max(vs)
  }

  function Single(r: Reading): (b: Bucket)
    ensures b.hour == r.hour && Summarizes(b, [r.value])
  {
    Bucket(r.hour, 1, r.value, r.value, r.value)
  }

  /** Folds one more value into a bucket. */
  function Absorb(b: Bucket, v: real): (c: Bucket)
    ensures forall vs :: Summarizes(b, vs) ==> Summarizes(c, [v] + vs)
  {
    forall vs | Summarizes(b, vs) ensures Summarizes(Bucket(b.hour, b.count + 1, v + b.total,
                                                           if v <= b.low then v else b.low,
                                                           if v >= b.high then v else b.high), [v] + vs) {
      ConsValues(v, vs);
    }
    Bucket(b.hour, b.count + 1, v + b.total,
           if v <= b.low then v else b.low,
           if v >= b.high then v else b.high)
  }

  predicate StrictlyAscending(bs: seq<Bucket>)
  {
    forall i, j :: 0 <= i < j < |bs| ==> bs[i].hour < bs[j].hour
  }

  function Hours(bs: seq<Bucket>): set<int>
  {
    set i | 0 <= i < |bs| :: bs[i].hour
  }

  /** Routes a reading to the bucket of its hour, opening a bucket in hour
      order when there is none yet. */
  function Add(bs: seq<Bucket>, r: Reading): (cs: seq<Bucket>)
    ensures Hours(cs) == Hours(bs) + {r.hour}
  {
    if bs == [] then HoursCons(Single(r), []); [Single(r)]
    else if r.hour < bs[0].hour then HoursCons(Single(r), bs); [Single(r)] + bs
    else if r.hour == bs[0].hour then
      HoursCons(bs[0], bs[1..]);
      HoursCons(Absorb(bs[0], r.value), bs[1..]);
      [Absorb(bs[0], r.value)] + bs[1..]
    else
      var rest := Add(bs[1..], r);
      HoursCons(bs[0], bs[1..]);
      HoursCons(bs[0], rest);
      [bs[0]] + rest
  }

  lemma HoursCons(b: Bucket, bs: seq<Bucket>)
    ensures Hours([b] + bs) == {b.hour} + Hours(bs)
  {
    var cs := [b] + bs;
    forall h | h in Hours(cs) ensures h in {b.hour} + Hours(bs) {
      var i :| 0 <= i < |cs| && cs[i].hour == h;
      if i > 0 {
        assert cs[i] == bs[i - 1];
      }
    }
    forall h | h in Hours(bs) ensures h in Hours(cs) {
      var i :| 0 <= i < |bs| && bs[i].hour == h;
      assert cs[i + 1] == bs[i];
    }
    assert cs[0] == b;
  }

  lemma {:induction false} AddAscending(bs: seq<Bucket>, r: Reading)
    requires StrictlyAscending(bs)
    ensures StrictlyAscending(Add(bs, r))
  {
    if bs != [] && r.hour > bs[0].hour {
      AddAscending(bs[1..], r);
      var rest := Add(bs[1..], r);
      forall j | 0 <= j < |rest| ensures bs[0].hour < rest[j].hour {
        assert rest[j].hour in Hours(rest);
        if rest[j].hour != r.hour {
          var k :| 0 <= k < |bs[1..]| && bs[1..][k].hour == rest[j].hour;
          assert bs[1..][k] == bs[k + 1];
        }
      }
    }
  }

  /** The bucket of hour `h`, if any. */
  function Lookup(bs: seq<Bucket>, h: int): (r: Option<Bucket>)
    ensures r.Some? ==> r.value.hour == h && r.value in bs
    ensures r.None? <==> h !in Hours(bs)
  {
    if bs == [] then None
    else if bs[0].hour == h then Some(bs[0])
    else
      HoursCons(bs[0], bs[1..]);
      Lookup(bs[1..], h)
  }

  /** In an ascending bucket list each bucket is the one found for its hour. */
  lemma {:induction false} LookupIndex(bs: seq<Bucket>, i: int)
    requires StrictlyAscending(bs) && 0 <= i < |bs|
    ensures Lookup(bs, bs[i].hour) == Some(bs[i])
  {
    if i > 0 {
      LookupIndex(bs[1..], i - 1);
    }
  }

  /** Adding a reading changes only the bucket of its hour: it absorbs the
      value into that bucket, or opens it. */
  lemma {:induction false} LookupAfterAdd(bs: seq<Bucket>, r: Reading, h: int)
    requires StrictlyAscending(bs)
    ensures Lookup(Add(bs, r), h) ==
      if h != r.hour then Lookup(bs, h)
      else match Lookup(bs, h)
        case None => Some(Single(r))
        case Some(b) => Some(Absorb(b, r.value))
  {
    if bs != [] {
      if r.hour < bs[0].hour {
        if h == r.hour {
          assert h !in Hours(bs);
        }
      } else if r.hour == bs[0].hour {
        if h != r.hour {
          assert Add(bs, r)[1..] == bs[1..];
        }
      } else {
        LookupAfterAdd(bs[1..], r, h);
        if h == bs[0].hour {
          assert h !in Hours(bs[1..]) by {
            forall k | 0 <= k < |bs[1..]| ensures bs[1..][k].hour != h {
              assert bs[1..][k] == bs[k + 1];
            }
          }
        }
        assert Add(bs, r)[1..] == Add(bs[1..], r);
      }
    }
  }

  /** The `$group` stage, folding readings from the last to the first. */
  function GroupByHour(rs: seq<Reading>): (bs: seq<Bucket>)
    ensures StrictlyAscending(bs)
  {
    if rs == [] then []
    else
      AddAscending(GroupByHour(rs[1..]), rs[0]);
      Add(GroupByHour(rs[1..]), rs[0])
  }

  /** The bucket of every hour summarizes exactly the values of that hour, and
      there is a bucket exactly for the hours that have values. */
  lemma {:induction false} GroupLookup(rs: seq<Reading>, h: int)
    ensures var b := Lookup(GroupByHour(rs), h);
      && (b.None? <==> ValuesAt(rs, h) == [])
      && (b.Some? ==> Summarizes(b.value, ValuesAt(rs, h)))
  {
    if rs != [] {
      var r, rest := rs[0], rs[1..];
      GroupLookup(rest, h);
      assert GroupByHour(rs) == Add(GroupByHour(rest), r);
      assert ValuesAt(rs, h) == (if r.hour == h then [r.value] else []) + ValuesAt(rest, h);
      GroupLookupStep(GroupByHour(rest), r, h, ValuesAt(rest, h));
    }
  }

  /** One step of the fold: a bucket list right for `vs` is right for the
      values with one more reading in front. */
  lemma GroupLookupStep(g: seq<Bucket>, r: Reading, h: int, vs: seq<real>)
    requires StrictlyAscending(g)
    requires Lookup(g, h).None? <==> vs == []
    requires Lookup(g, h).Some? ==> Summarizes(Lookup(g, h).value, vs)
    ensures var ws := (if r.hour == h then [r.value] else []) + vs;
      var b := Lookup(Add(g, r), h);
      && (b.None? <==> ws == [])
      && (b.Some? ==> Summarizes(b.value, ws))
  {
    LookupAfterAdd(g, r, h);
    if h == r.hour {
      if vs == [] {
        assert [r.value] + vs == [r.value];
      }
    } else {
      assert [] + vs == vs;
    }
  }

  /** One output row: the hour and the `$avg`, `$min`, `$max` and count of its
      values. */
  datatype TrendRow = TrendRow(hour: int, avg: real, min: real, max: real, readingsCount: nat)

  function RowOf(b: Bucket): TrendRow
    requires b.count > 0
  {
    TrendRow(b.hour, b.total / (b.count as real), b.low, b.high, b.count)
  }

  /** The rows of one metric over the window `[start, end]`, in ascending hour
      order. */
  function HourlyTrends(docs: seq<Doc>, m: Metric, start: int, end: int): (rows: seq<TrendRow>)
    ensures forall i, j :: 0 <= i < j < |rows| ==> rows[i].hour < rows[j].hour
    ensures forall i :: 0 <= i < |rows| ==>
      var vs := ValuesAt(ReadingsOf(docs, m, start, end), rows[i].hour);
      && rows[i].readingsCount == |vs| > 0
      && rows[i].avg == Mean(vs) && rows[i].min == Min(vs) && rows[i].max == Max(vs)
  {
    var rs := ReadingsOf(docs, m, start, end);
    var bs := GroupByHour(rs);
    forall i | 0 <= i < |bs| ensures Summarizes(bs[i], ValuesAt(rs, bs[i].hour)) {
      LookupIndex(bs, i);
      GroupLookup(rs, bs[i].hour);
    }
    seq(|bs|, i requires 0 <= i < |bs| => RowOf(bs[i]))
  }

  /** Every hour that has a selected document has a row, and every row's
      average lies between its minimum and maximum. */
  lemma TrendsCover(docs: seq<Doc>, m: Metric, start: int, end: int, h: int)
    ensures var rows := HourlyTrends(docs, m, start, end);
      (exists i :: 0 <= i < |rows| && rows[i].hour == h) <==> Count(docs, SelectedInHour(m, start, end, h)) > 0
    ensures forall i :: 0 <= i < |HourlyTrends(docs, m, start, end)| ==>
      HourlyTrends(docs, m, start, end)[i].min <= HourlyTrends(docs, m, start, end)[i].avg <= HourlyTrends(docs, m, start, end)[i].max
  {
    var rs := ReadingsOf(docs, m, start, end);
    var bs := GroupByHour(rs);
    var rows := HourlyTrends(docs, m, start, end);
    ReadingsPerHour(docs, m, start, end, h);
    GroupLookup(rs, h);
    assert |rows| == |bs|;
    if Lookup(bs, h).Some? {
      var k :| 0 <= k < |bs| && bs[k].hour == h;
      assert rows[k].hour == h;
    }
    TrendsOrdered(docs, m, start, end);
  }

  /** Every row's average lies between its minimum and maximum. */
  lemma TrendsOrdered(docs: seq<Doc>, m: Metric, start: int, end: int)
    ensures forall i :: 0 <= i < |HourlyTrends(docs, m, start, end)| ==>
      HourlyTrends(docs, m, start, end)[i].min <= HourlyTrends(docs, m, start, end)[i].avg <= HourlyTrends(docs, m, start, end)[i].max
  {
    var rs := ReadingsOf(docs, m, start, end);
    var rows := HourlyTrends(docs, m, start, end);
    forall i | 0 <= i < |rows| ensures rows[i].min <= rows[i].avg <= rows[i].max {
      MeanBetween(ValuesAt(rs, rows[i].hour));
    }
  }

  function TotalCount(rows: seq<TrendRow>): nat
  {
    if rows == [] then 0 else rows[0].readingsCount + TotalCount(rows[1..])
  }

  function BucketTotal(bs: seq<Bucket>): nat
  {
    if bs == [] then 0 else bs[0].count + BucketTotal(bs[1..])
  }

  /** Each reading adds one to the bucket counts. */
  lemma {:induction false} AddTotal(bs: seq<Bucket>, r: Reading)
    ensures BucketTotal(Add(bs, r)) == BucketTotal(bs) + 1
  {
    if bs != [] && r.hour > bs[0].hour {
      AddTotal(bs[1..], r);
      assert Add(bs, r)[1..] == Add(bs[1..], r);
    } else if bs != [] && r.hour == bs[0].hour {
      assert Add(bs, r)[1..] == bs[1..];
    } else if bs != [] {
      assert Add(bs, r)[1..] == bs;
    }
  }

  lemma {:induction false} GroupTotal(rs: seq<Reading>)
    ensures BucketTotal(GroupByHour(rs)) == |rs|
  {
    if rs != [] {
      GroupTotal(rs[1..]);
      AddTotal(GroupByHour(rs[1..]), rs[0]);
    }
  }

  lemma {:induction false} RowsTotal(bs: seq<Bucket>, rows: seq<TrendRow>)
    requires |rows| == |bs|
    requires forall i :: 0 <= i < |bs| ==> rows[i].readingsCount == bs[i].count
    ensures TotalCount(rows) == BucketTotal(bs)
  {
    if bs != [] {
      RowsTotal(bs[1..], rows[1..]);
    }
  }

  /** The row counts add up to the number of selected documents. */
  lemma TrendsTotal(docs: seq<Doc>, m: Metric, start: int, end: int)
    ensures TotalCount(HourlyTrends(docs, m, start, end)) == Count(docs, Selected(m, start, end))
  {
    var rs := ReadingsOf(docs, m, start, end);
    var bs := GroupByHour(rs);
    GroupTotal(rs);
    RowsTotal(bs, HourlyTrends(docs, m, start, end));
  }

  /** `get_temperature_trends` and `get_humidity_trends`: the rows of the
      last `days` days, in ascending hour order, each with at least one
      reading and its average between its minimum and maximum. */
  function TemperatureTrends(docs: seq<Doc>, now: int, days: int): (rows: seq<TrendRow>)
    ensures forall i, j :: 0 <= i < j < |rows| ==> rows[i].hour < rows[j].hour
    ensures forall i :: 0 <= i < |rows| ==> rows[i].readingsCount > 0 && rows[i].min <= rows[i].avg <= rows[i].max
  {
    TrendsOrdered(docs, Temperature, now - days * SecondsPerDay, now);
    HourlyTrends(docs, Temperature, now - days * SecondsPerDay, now)
  }

  function HumidityTrends(docs: seq<Doc>, now: int, days: int): (rows: seq<TrendRow>)
    ensures forall i, j :: 0 <= i < j < |rows| ==> rows[i].hour < rows[j].hour
    ensures forall i :: 0 <= i < |rows| ==> rows[i].readingsCount > 0 && rows[i].min <= rows[i].avg <= rows[i].max
  {
    TrendsOrdered(docs, Humidity, now - days * SecondsPerDay, now);
    HourlyTrends(docs, Humidity, now - days * SecondsPerDay, now)
  }
}
