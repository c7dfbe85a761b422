/** The alert summary of the data analyzer (data_analyzer.py:43-97): a
    `$match` on the window and on a non-null `alert_type`, a `$group` by the
    stored `alert_type` value that counts documents and pushes their
    `severity` values, and a `$project` that counts the pushed values equal to
    "CRITICAL" and to "WARNING". The stored value is grouped on as it is: an
    alerted reading's whole list of alert types is one key. */
module AlertSummary {
  import opened Common
  import opened Documents
  import opened Queries

  /** The accumulators of one `$group` key. */
  datatype Group = Group(key: Field, count: nat, severities: seq<Field>)

  function Keys(gs: seq<Group>): set<Field>
  {
    set i | 0 <= i < |gs| :: gs[i].key
  }

  predicate DistinctKeys(gs: seq<Group>)
  {
    forall i, j :: 0 <= i < j < |gs| ==> gs[i].key != gs[j].key
  }

  lemma KeysCons(g: Group, gs: seq<Group>)
    ensures Keys([g] + gs) == {g.key} + Keys(gs)
  {
    var cs := [g] + gs;
    forall k | k in Keys(cs) ensures k in {g.key} + Keys(gs) {
      var i :| 0 <= i < |cs| && cs[i].key == k;
      if i > 0 {
        assert cs[i] == gs[i - 1];
      }
    }
    forall k | k in Keys(gs) ensures k in Keys(cs) {
      var i :| 0 <= i < |gs| && gs[i].key == k;
      assert cs[i + 1] == gs[i];
    }
    assert cs[0] == g;
  }

  /** The group of `key` after one more document with `severity`. */
  function Bump(g: Option<Group>, key: Field, severity: Field): (h: Group)
    ensures h.key == key
  {
    match g
    case None => Group(key, 1, [severity])
    case Some(g) => Group(key, g.count + 1, g.severities + [severity])
  }

  /** Routes one document to the group of its key, opening a group at the
      end when the key is new. */
  function Push(gs: seq<Group>, key: Field, severity: Field): (hs: seq<Group>)
    ensures Keys(hs) == Keys(gs) + {key}
    ensures |hs| == |gs| || |hs| == |gs| + 1
  {
    if gs == [] then KeysCons(Bump(None, key, severity), []); [Bump(None, key, severity)]
    else if gs[0].key == key then
      KeysCons(gs[0], gs[1..]);
      KeysCons(Bump(Some(gs[0]), key, severity), gs[1..]);
      [Bump(Some(gs[0]), key, severity)] + gs[1..]
    else
      var rest := Push(gs[1..], key, severity);
      KeysCons(gs[0], gs[1..]);
      KeysCons(gs[0], rest);
      [gs[0]] + rest
  }

  lemma {:induction false} PushDistinct(gs: seq<Group>, key: Field, severity: Field)
    requires DistinctKeys(gs)
    ensures DistinctKeys(Push(gs, key, severity))
  {
    if gs != [] && gs[0].key != key {
      PushDistinct(gs[1..], key, severity);
      var rest := Push(gs[1..], key, severity);
      forall j | 0 <= j < |rest| ensures gs[0].key != rest[j].key {
        assert rest[j].key in Keys(rest);
        if rest[j].key != key {
          var k :| 0 <= k < |gs[1..]| && gs[1..][k].key == rest[j].key;
          assert gs[1..][k] == gs[k + 1];
        }
      }
    }
  }

  /** The group of `key`, if any. */
  function Find(gs: seq<Group>, key: Field): (r: Option<Group>)
    ensures r.Some? ==> r.value.key == key && r.value in gs
    ensures r.None? <==> key !in Keys(gs)
  {
    if gs == [] then None
    else if gs[0].key == key then Some(gs[0])
    else
      KeysCons(gs[0], gs[1..]);
      Find(gs[1..], key)
  }

  lemma {:induction false} FindIndex(gs: seq<Group>, i: int)
    requires DistinctKeys(gs) && 0 <= i < |gs|
    ensures Find(gs, gs[i].key) == Some(gs[i])
  {
    if i > 0 {
      FindIndex(gs[1..], i - 1);
    }
  }

  /** Pushing changes only the group of the pushed key. */
  lemma {:induction false} FindAfterPush(gs: seq<Group>, key: Field, severity: Field, k: Field)
    requires DistinctKeys(gs)
    ensures Find(Push(gs, key, severity), k) ==
      if k != key then Find(gs, k) else Some(Bump(Find(gs, key), key, severity))
  {
    if gs != [] {
      var hs := Push(gs, key, severity);
      if gs[0].key == key {
        assert hs == [Bump(Some(gs[0]), key, severity)] + gs[1..];
        if k != key {
          assert hs[1..] == gs[1..];
        }
      } else {
        var rest := Push(gs[1..], key, severity);
        assert hs == [gs[0]] + rest;
        FindAfterPush(gs[1..], key, severity, k);
        if k == gs[0].key {
          assert Find(hs, k) == Some(gs[0]);
        } else {
          assert hs[1..] == rest;
          assert Find(hs, k) == Find(rest, k);
          assert Find(gs, k) == Find(gs[1..], k);
        }
      }
    }
  }

  /** The `$group` stage over the matched documents, in document order. */
  function GroupAll(docs: seq<Doc>): (gs: seq<Group>)
    ensures DistinctKeys(gs)
    ensures |gs| <= |docs|
  {
    if docs == [] then []
    else
      var prefix := GroupAll(docs[..|docs| - 1]);
      var d := docs[|docs| - 1];
      PushDistinct(prefix, d.alertType, d.severity);
      Push(prefix, d.alertType, d.severity)
  }

  function HasKey(key: Field): Doc -> bool
  {
    (d: Doc) => d.alertType == key
  }

  /** The `severity` values of the documents, in document order. */
  function SeveritiesOf(docs: seq<Doc>): (s: seq<Field>)
    ensures |s| == |docs|
    ensures forall i :: 0 <= i < |docs| ==> s[i] == docs[i].severity
  {
    seq(|docs|, i requires 0 <= i < |docs| => docs[i].severity)
  }

  /** Each group holds exactly the documents with its key: their number and
      their severities in document order; there is a group for every key that
      occurs and for no other. */
  lemma {:induction false} GroupFind(docs: seq<Doc>, k: Field)
    ensures var g := Find(GroupAll(docs), k);
      var members := Filter(docs, HasKey(k));
      && (g.None? <==> members == [])
      && (g.Some? ==> g.value.count == |members| && g.value.severities == SeveritiesOf(members))
  {
    if docs != [] {
      var prefix, d := docs[..|docs| - 1], docs[|docs| - 1];
      assert docs == prefix + [d];
      GroupFind(prefix, k);
      FilterAppend(prefix, [d], HasKey(k));
      FilterSingleton(d, HasKey(k));
      GroupFindStep(GroupAll(prefix), Filter(prefix, HasKey(k)), d, k);
    }
  }

  /** One step of the fold: groups right for the members `before` of key `k`
      are right for the members after one more document `d`. */
  lemma GroupFindStep(gs: seq<Group>, before: seq<Doc>, d: Doc, k: Field)
    requires DistinctKeys(gs)
    requires Find(gs, k).None? <==> before == []
    requires Find(gs, k).Some? ==> Find(gs, k).value.count == |before| && Find(gs, k).value.severities == SeveritiesOf(before)
    ensures var g := Find(Push(gs, d.alertType, d.severity), k);
      var members := before + (if HasKey(k)(d) then [d] else []);
      && (g.None? <==> members == [])
      && (g.Some? ==> g.value.count == |members| && g.value.severities == SeveritiesOf(members))
  {
    FindAfterPush(gs, d.alertType, d.severity, k);
    if d.alertType == k {
      assert SeveritiesOf(before + [d]) == SeveritiesOf(before) + [d.severity];
    } else {
      assert before + [] == before;
    }
  }

  function TotalCount(gs: seq<Group>): nat
  {
    if gs == [] then 0 else gs[0].count + TotalCount(gs[1..])
  }

  lemma {:induction false} PushTotal(gs: seq<Group>, key: Field, severity: Field)
    ensures TotalCount(Push(gs, key, severity)) == TotalCount(gs) + 1
  {
    if gs != [] && gs[0].key != key {
      PushTotal(gs[1..], key, severity);
      assert Push(gs, key, severity)[1..] == Push(gs[1..], key, severity);
    } else if gs != [] {
      assert Push(gs, key, severity)[1..] == gs[1..];
    }
  }

  /** The group counts add up to the number of matched documents. */
  lemma {:induction false} GroupTotal(docs: seq<Doc>)
    ensures TotalCount(GroupAll(docs)) == |docs|
  {
    if docs != [] {
      GroupTotal(docs[..|docs| - 1]);
      var d := docs[|docs| - 1];
      PushTotal(GroupAll(docs[..|docs| - 1]), d.alertType, d.severity);
    }
  }

  /** The `$match` stage. */
  function Alerting(start: int, end: int): Doc -> bool
  {
    d => InWindow(start, end, d) && !d.alertType.Null?
  }

  /** One row of the result. */
  datatype SummaryRow = SummaryRow(alertType: Field, count: nat, severityCounts: seq<Field>, criticalCount: nat, warningCount: nat)

  predicate IsCritical(f: Field) { f == Str("CRITICAL") }

  predicate IsWarning(f: Field) { f == Str("WARNING") }

  /** The `$project` stage as written: a pushed value counts when it equals
      the string itself. */
  function Project(g: Group): (r: SummaryRow)
    requires g.count == |g.severities|
    ensures r.alertType == g.key && r.count == g.count && r.severityCounts == g.severities
    ensures r.criticalCount == Count(g.severities, IsCritical) && r.warningCount == Count(g.severities, IsWarning)
    ensures r.criticalCount + r.warningCount <= r.count
  {
    DisjointCounts(g.severities, IsCritical, IsWarning);
    SummaryRow(g.key, g.count, g.severities, Count(g.severities, IsCritical), Count(g.severities, IsWarning))
  }

  lemma {:induction false} DisjointCounts<T>(s: seq<T>, p: T -> bool, q: T -> bool)
    requires forall x :: !(p(x) && q(x))
    ensures Count(s, p) + Count(s, q) <= |s|
  {
    if s != [] {
      DisjointCounts(s[1..], p, q);
    }
  }

  /** `get_alert_summary` over the window `[start, end]`. */
  function GetAlertSummary(docs: seq<Doc>, start: int, end: int): (rows: seq<SummaryRow>)
    ensures forall i :: 0 <= i < |rows| ==> !rows[i].alertType.Null?
    ensures forall i, j :: 0 <= i < j < |rows| ==> rows[i].alertType != rows[j].alertType
    ensures forall i :: 0 <= i < |rows| ==>
      && rows[i].count == Count(Filter(docs, Alerting(start, end)), HasKey(rows[i].alertType)) > 0
      && rows[i].severityCounts == SeveritiesOf(Filter(Filter(docs, Alerting(start, end)), HasKey(rows[i].alertType)))
      && rows[i].criticalCount == Count(rows[i].severityCounts, IsCritical)
      && rows[i].warningCount == Count(rows[i].severityCounts, IsWarning)
      && rows[i].criticalCount + rows[i].warningCount <= rows[i].count
  {
    var matched := Filter(docs, Alerting(start, end));
    var gs := GroupAll(matched);
    forall i | 0 <= i < |gs|
      ensures var members := Filter(matched, HasKey(gs[i].key));
        members != [] && gs[i].count == |members| && gs[i].severities == SeveritiesOf(members)
    {
      FindIndex(gs, i);
      GroupFind(matched, gs[i].key);
    }
    forall i | 0 <= i < |gs| ensures !gs[i].key.Null? {
      var members := Filter(matched, HasKey(gs[i].key));
      FilterMembership(matched, HasKey(gs[i].key), members[0]);
      FilterMembership(docs, Alerting(start, end), members[0]);
    }
    seq(|gs|, i requires 0 <= i < |gs| => Project(gs[i]))
  }

  /** A non-null alert type of a document in the window has a row; the row
      counts add up to the number of matched documents. */
  lemma AlertSummaryCovers(docs: seq<Doc>, start: int, end: int, d: Doc)
    requires d in docs && start <= d.timestamp <= end && !d.alertType.Null?
    ensures exists i :: 0 <= i < |GetAlertSummary(docs, start, end)| && GetAlertSummary(docs, start, end)[i].alertType == d.alertType
  {
    var matched := Filter(docs, Alerting(start, end));
    var gs := GroupAll(matched);
    FilterMembership(docs, Alerting(start, end), d);
    FilterMembership(matched, HasKey(d.alertType), d);
    GroupFind(matched, d.alertType);
    var k :| 0 <= k < |gs| && gs[k].key == d.alertType;
    assert GetAlertSummary(docs, start, end)[k].alertType == d.alertType;
  }

  function RowTotal(rows: seq<SummaryRow>): nat
  {
    if rows == [] then 0 else rows[0].count + RowTotal(rows[1..])
  }

  lemma {:induction false} RowsMatchGroups(gs: seq<Group>, rows: seq<SummaryRow>)
    requires |rows| == |gs|
    requires forall i :: 0 <= i < |gs| ==> rows[i].count == gs[i].count
    ensures RowTotal(rows) == TotalCount(gs)
  {
    if gs != [] {
      RowsMatchGroups(gs[1..], rows[1..]);
    }
  }

  lemma AlertSummaryTotal(docs: seq<Doc>, start: int, end: int)
    ensures RowTotal(GetAlertSummary(docs, start, end)) == Count(docs, Alerting(start, end))
  {
    var matched := Filter(docs, Alerting(start, end));
    GroupTotal(matched);
    RowsMatchGroups(GroupAll(matched), GetAlertSummary(docs, start, end));
  }

  /** An alerted reading stores its severities as a list, so the as-written
      counts never see it: one critical temperature alert in the window gives
      a critical count of 0. */
  lemma SeverityCountCounterexample(d: Doc, start: int, end: int)
    requires start <= d.timestamp <= end
    requires d.alertType == List(["TEMPERATURE_HIGH"]) && d.severity == List(["CRITICAL"])
    ensures GetAlertSummary([d], start, end) == [SummaryRow(d.alertType, 1, [d.severity], 0, 0)]
    ensures GetAlertSummaryIntended([d], start, end) == [SummaryRow(d.alertType, 1, [d.severity], 1, 0)]
  {
    FilterSingleton(d, Alerting(start, end));
    assert GroupAll([d]) == [Group(d.alertType, 1, [d.severity])] by {
      assert [d][..0] == [];
    }
    FilterSingleton(d.severity, IsCritical);
    FilterSingleton(d.severity, IsWarning);
    assert Entries([d.severity]) == ["CRITICAL"] by {
      assert Entries([]) == [];
    }
    FilterSingleton("CRITICAL", IsCriticalEntry);
    FilterSingleton("CRITICAL", IsWarningEntry);
  }

  /** The system writes a severity as a list (an alerted reading), as the
      single string INFO (a health-status document) or not at all. Over such
      documents every as-written row counts no critical and no warning
      severity, whatever the alerts were. */
  lemma AsWrittenCountsZero(docs: seq<Doc>, start: int, end: int)
    requires forall d :: d in docs ==> d.severity.List? || d.severity.Null? || d.severity == Str("INFO")
    ensures forall i :: 0 <= i < |GetAlertSummary(docs, start, end)| ==>
      GetAlertSummary(docs, start, end)[i].criticalCount == 0 && GetAlertSummary(docs, start, end)[i].warningCount == 0
  {
    var rows := GetAlertSummary(docs, start, end);
    var matched := Filter(docs, Alerting(start, end));
    forall i | 0 <= i < |rows| ensures rows[i].criticalCount == 0 && rows[i].warningCount == 0 {
      var members := Filter(matched, HasKey(rows[i].alertType));
      var s := rows[i].severityCounts;
      forall j | 0 <= j < |s| ensures !IsCritical(s[j]) && !IsWarning(s[j]) {
        FilterMembership(matched, HasKey(rows[i].alertType), members[j]);
        FilterMembership(docs, Alerting(start, end), members[j]);
      }
      FilterNone(s, IsCritical);
      FilterNone(s, IsWarning);
    }
  }

  /** The strings a pushed severity stands for: a list's entries, a single
      string, or nothing for null. */
  function Entries(fs: seq<Field>): (es: seq<string>)
    ensures |es| >= |fs| || exists i :: 0 <= i < |fs| && !fs[i].Str?
  {
    if fs == [] then []
    else
      (match fs[0] case Null => [] case Str(s) => [s] case List(xs) => xs) + Entries(fs[1..])
  }

  predicate IsCriticalEntry(s: string) { s == "CRITICAL" }

  predicate IsWarningEntry(s: string) { s == "WARNING" }

  /** The evidently intended `$project`: count the severity entries of every
      alert, whether stored in a list or as one string. */
  function ProjectIntended(g: Group): (r: SummaryRow)
    ensures r.alertType == g.key && r.count == g.count && r.severityCounts == g.severities
    ensures r.criticalCount == Count(Entries(g.severities), IsCriticalEntry)
    ensures r.warningCount == Count(Entries(g.severities), IsWarningEntry)
    ensures r.criticalCount + r.warningCount <= |Entries(g.severities)|
  {
    var es := Entries(g.severities);
    DisjointCounts(es, IsCriticalEntry, IsWarningEntry);
    SummaryRow(g.key, g.count, g.severities, Count(es, IsCriticalEntry), Count(es, IsWarningEntry))
  }

  /** The alert summary with the intended severity counts. */
  function GetAlertSummaryIntended(docs: seq<Doc>, start: int, end: int): (rows: seq<SummaryRow>)
    ensures |rows| == |GetAlertSummary(docs, start, end)|
    ensures forall i :: 0 <= i < |rows| ==>
      && rows[i].alertType == GetAlertSummary(docs, start, end)[i].alertType
      && rows[i].count == GetAlertSummary(docs, start, end)[i].count
      && rows[i].severityCounts == GetAlertSummary(docs, start, end)[i].severityCounts
      && rows[i].criticalCount == Count(Entries(rows[i].severityCounts), IsCriticalEntry)
      && rows[i].warningCount == Count(Entries(rows[i].severityCounts), IsWarningEntry)
      && rows[i].criticalCount + rows[i].warningCount <= |Entries(rows[i].severityCounts)|
  {
    var gs := GroupAll(Filter(docs, Alerting(start, end)));
    seq(|gs|, i requires 0 <= i < |gs| => ProjectIntended(gs[i]))
  }

  /** Where every stored severity is a single string, as on health-status
      documents, the intended counts agree with the as-written ones. */
  lemma {:induction false} EntriesOfStrings(fs: seq<Field>)
    requires forall i :: 0 <= i < |fs| ==> fs[i].Str?
    ensures Count(Entries(fs), IsCriticalEntry) == Count(fs, IsCritical)
    ensures Count(Entries(fs), IsWarningEntry) == Count(fs, IsWarning)
  {
    if fs != [] {
      EntriesOfStrings(fs[1..]);
      FilterAppend([fs[0].text], Entries(fs[1..]), IsCriticalEntry);
      FilterAppend([fs[0].text], Entries(fs[1..]), IsWarningEntry);
      FilterSingleton(fs[0].text, IsCriticalEntry);
      FilterSingleton(fs[0].text, IsWarningEntry);
    }
  }
}
