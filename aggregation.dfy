/**
 * The statistics of `rank_distribution` (fundcat.py:62-66): all snapshot rows
 * concatenated, grouped by fund id, and the 50 ids with the most rows and the
 * 50 with the highest mean growth ratio. Equal metrics are ordered by
 * ascending id, the order in which `groupby` lists its groups and in which
 * `nlargest(keep='first')` keeps tied ones.
 */
module Aggregation {
  import opened Strings
  import opened Snapshots

  /** How many groups each `nlargest` keeps. */
  const TopCount: nat := 50

  /** `pd.concat(..., ignore_index=True)`: every row of every snapshot, in order. */
  function Concat(snaps: seq<seq<Row>>): seq<Row> {
    if snaps == [] then [] else snaps[0] + Concat(snaps[1..])
  }

  /** The number of rows over all snapshots. */
  function TotalSize(snaps: seq<seq<Row>>): nat {
    if snaps == [] then 0 else |snaps[0]| + TotalSize(snaps[1..])
  }

  /** The rows carrying `id`: the size of its group. */
  function CountOf(rows: seq<Row>, id: string): (n: nat)
    ensures n > 0 <==> exists k :: 0 <= k < |rows| && rows[k].id == id
  {
    if rows == [] then 0
    else (if rows[0].id == id then 1 else 0) + CountOf(rows[1..], id)
  }

  /** The sum of the growth ratios of the rows carrying `id`. */
  function SumOf(rows: seq<Row>, id: string): real {
    if rows == [] then 0.0
    else (if rows[0].id == id then rows[0].growth else 0.0) + SumOf(rows[1..], id)
  }

  /** The group of `id`'s mean growth ratio. */
  function Mean(rows: seq<Row>, id: string): real
    requires CountOf(rows, id) > 0
  {
    SumOf(rows, id) / CountOf(rows, id) as real
  }

  /** `x` added `n` times. */
  function Repeated(x: real, n: nat): real {
    if n == 0 then 0.0 else x + Repeated(x, n - 1)
  }

  lemma {:induction false} RepeatedIsProduct(x: real, n: nat)
    ensures Repeated(x, n) == x * n as real
  {
    if n > 0 {
      RepeatedIsProduct(x, n - 1);
      assert x * n as real == x * (n - 1) as real + x;
    }
  }

  /** The group's sum lies between its size times the least and the greatest ratio. */
  lemma {:induction false} SumWithinGroup(rows: seq<Row>, id: string, lo: real, hi: real)
    requires forall k :: 0 <= k < |rows| && rows[k].id == id ==> lo <= rows[k].growth <= hi
    ensures Repeated(lo, CountOf(rows, id)) <= SumOf(rows, id) <= Repeated(hi, CountOf(rows, id))
  {
    if rows != [] {
      assert forall k :: 0 <= k < |rows[1..]| ==> rows[1..][k] == rows[k + 1];
      SumWithinGroup(rows[1..], id, lo, hi);
    }
  }

  lemma DivideWithin(lo: real, hi: real, s: real, n: real)
    requires n > 0.0 && lo * n <= s <= hi * n
    ensures lo <= s / n <= hi
  {
    var m := s / n;
    assert m * n == s;
    assert lo * n - m * n == (lo - m) * n;
    assert m * n - hi * n == (m - hi) * n;
  }

  /** A group's mean lies between the least and the greatest growth ratio of its rows. */
  lemma MeanWithinGroup(rows: seq<Row>, id: string, lo: real, hi: real)
    requires CountOf(rows, id) > 0
    requires forall k :: 0 <= k < |rows| && rows[k].id == id ==> lo <= rows[k].growth <= hi
    ensures lo <= Mean(rows, id) <= hi
  {
    SumWithinGroup(rows, id, lo, hi);
    RepeatedIsProduct(lo, CountOf(rows, id));
    RepeatedIsProduct(hi, CountOf(rows, id));
    DivideWithin(lo, hi, SumOf(rows, id), CountOf(rows, id) as real);
  }

  /** The set of ids that occur: the groups. */
  function IdSet(rows: seq<Row>): set<string> {
    set k | 0 <= k < |rows| :: rows[k].id
  }

  predicate Distinct(ids: seq<string>) {
    forall i, j :: 0 <= i < j < |ids| ==> ids[i] != ids[j]
  }

  /** The groups' ids, each once. */
  function Ids(rows: seq<Row>): (ids: seq<string>)
    ensures Distinct(ids)
    ensures forall x :: x in ids <==> x in IdSet(rows)
  {
    if rows == [] then []
    else
      var rest := Ids(rows[1..]);
      assert forall x :: x in IdSet(rows) <==> x == rows[0].id || x in IdSet(rows[1..]) by {
        forall x ensures x in IdSet(rows) <==> x == rows[0].id || x in IdSet(rows[1..]) {
          if x in IdSet(rows[1..]) {
            var k :| 0 <= k < |rows[1..]| && rows[1..][k].id == x;
            assert rows[k + 1].id == x;
          }
          if x in IdSet(rows) && x != rows[0].id {
            var k :| 0 <= k < |rows| && rows[k].id == x;
            assert rows[1..][k - 1].id == x;
          }
        }
      }
      if rows[0].id in rest then rest else [rows[0].id] + rest
  }

  /** One group with its metric. */
  datatype Entry = Entry(id: string, score: real)

  /** The ranking order: larger metric first, then smaller id. */
  predicate Before(a: Entry, b: Entry) {
    a.score > b.score || (a.score == b.score && Less(a.id, b.id))
  }

  lemma BeforeTransitive(a: Entry, b: Entry, c: Entry)
    requires Before(a, b) && Before(b, c)
    ensures Before(a, c)
  {
    if a.score == b.score == c.score { LessTransitive(a.id, b.id, c.id); }
  }

  lemma BeforeTotal(a: Entry, b: Entry)
    requires a.id != b.id
    ensures Before(a, b) || Before(b, a)
  {
    LessTotal(a.id, b.id);
  }

  predicate DistinctIds(es: seq<Entry>) {
    forall i, j :: 0 <= i < j < |es| ==> es[i].id != es[j].id
  }

  /** The entry that ranks first. */
  function Best(es: seq<Entry>): (b: Entry)
    requires |es| > 0 && DistinctIds(es)
    ensures b in es
    ensures forall e :: e in es && e != b ==> Before(b, e)
  {
    if |es| == 1 then es[0]
    else
      var rest := Best(es[1..]);
      if Before(es[0], rest) then
        assert forall e :: e in es[1..] && e != rest ==> Before(es[0], e) by {
          forall e | e in es[1..] && e != rest ensures Before(es[0], e) {
            BeforeTransitive(es[0], rest, e);
          }
        }
        es[0]
      else
        assert rest.id != es[0].id;
        BeforeTotal(es[0], rest);
        rest
  }

  /** The entries other than the one with `id`. */
  function Without(es: seq<Entry>, id: string): (r: seq<Entry>)
    requires DistinctIds(es)
    ensures forall e :: e in r <==> e in es && e.id != id
    ensures DistinctIds(r)
    ensures |r| == |es| - (if exists i :: 0 <= i < |es| && es[i].id == id then 1 else 0)
  {
    if es == [] then []
    else
      var rest := Without(es[1..], id);
      if es[0].id == id then
        assert forall i :: 0 <= i < |es[1..]| ==> es[1..][i].id != id by {
          forall i | 0 <= i < |es[1..]| ensures es[1..][i].id != id {
            assert es[1..][i] == es[i + 1];
          }
        }
        rest
      else
        assert (exists i :: 0 <= i < |es| && es[i].id == id) <==>
               (exists i :: 0 <= i < |es[1..]| && es[1..][i].id == id) by {
          if exists i :: 0 <= i < |es| && es[i].id == id {
            var i :| 0 <= i < |es| && es[i].id == id;
            assert es[1..][i - 1].id == id;
          }
        }
        [es[0]] + rest
  }

  /** Every entry of `r` is one of `es`. */
  predicate Within(r: seq<Entry>, es: seq<Entry>) {
    forall e :: e in r ==> e in es
  }

  /** `r` lists its entries in ranking order. */
  predicate Ordered(r: seq<Entry>) {
    forall i, j :: 0 <= i < j < |r| ==> Before(r[i], r[j])
  }

  /** Every entry kept in `r` ranks before every entry of `es` left out of it. */
  predicate KeepsBest(r: seq<Entry>, es: seq<Entry>) {
    forall e, x :: e in es && e !in r && x in r ==> Before(x, e)
  }

  /**
   * `nlargest(k)`: the `k` entries that come first in the ranking order, in
   * that order.
   */
  function TopN(es: seq<Entry>, k: nat): (r: seq<Entry>)
    requires DistinctIds(es)
    ensures |r| == if k < |es| then k else |es|
    ensures Within(r, es) && DistinctIds(r) && Ordered(r) && KeepsBest(r, es)
    decreases k
  {
    if k == 0 || es == [] then []
    else
      var b := Best(es);
      var rest := Without(es, b.id);
      assert exists i :: 0 <= i < |es| && es[i].id == b.id;
      var tail := TopN(rest, k - 1);
      ExtendRanking(es, b, rest, tail);
      [b] + tail
  }

  /** Putting the best entry in front of the ranking of the others ranks them all. */
  lemma ExtendRanking(es: seq<Entry>, b: Entry, rest: seq<Entry>, tail: seq<Entry>)
    requires DistinctIds(es) && b in es
    requires forall e :: e in es && e != b ==> Before(b, e)
    requires forall e :: e in rest <==> e in es && e.id != b.id
    requires Within(tail, rest) && DistinctIds(tail) && Ordered(tail) && KeepsBest(tail, rest)
    ensures Within([b] + tail, es) && DistinctIds([b] + tail) && Ordered([b] + tail) && KeepsBest([b] + tail, es)
  {
    var r := [b] + tail;
    assert forall e :: e in es && e.id == b.id ==> e == b;
    forall i, j | 0 <= i < j < |r| ensures r[i].id != r[j].id && Before(r[i], r[j]) {
      assert r[j] == tail[j - 1] && r[j] in tail;
      if i > 0 { assert r[i] == tail[i - 1]; }
    }
    forall e, x | e in es && e !in r && x in r ensures Before(x, e) {
      if x != b { assert x in tail; }
    }
  }

  /** The groups with their sizes. */
  function CountEntries(rows: seq<Row>, ids: seq<string>): (es: seq<Entry>)
    requires Distinct(ids)
    ensures |es| == |ids|
    ensures forall i :: 0 <= i < |es| ==> es[i] == Entry(ids[i], CountOf(rows, ids[i]) as real)
    ensures DistinctIds(es)
  {
    seq(|ids|, i requires 0 <= i < |ids| => Entry(ids[i], CountOf(rows, ids[i]) as real))
  }

  /** The groups with their mean growth ratios. */
  function GrowthEntries(rows: seq<Row>, ids: seq<string>): (es: seq<Entry>)
    requires Distinct(ids)
    requires forall i :: 0 <= i < |ids| ==> CountOf(rows, ids[i]) > 0
    ensures |es| == |ids|
    ensures forall i :: 0 <= i < |es| ==> es[i] == Entry(ids[i], Mean(rows, ids[i]))
    ensures DistinctIds(es)
  {
    seq(|ids|, i requires 0 <= i < |ids| => Entry(ids[i], Mean(rows, ids[i])))
  }


  /** Concatenation keeps every row: its length is the sum of the snapshot sizes. */
  lemma {:induction false} ConcatSize(snaps: seq<seq<Row>>)
    ensures |Concat(snaps)| == TotalSize(snaps)
  {
    if snaps != [] { ConcatSize(snaps[1..]); }
  }

  lemma {:induction false} CountOfAppend(a: seq<Row>, b: seq<Row>, id: string)
    ensures CountOf(a + b, id) == CountOf(a, id) + CountOf(b, id)
  {
    if a != [] {
      assert (a + b)[1..] == a[1..] + b;
      CountOfAppend(a[1..], b, id);
    } else {
      assert a + b == b;
    }
  }

  /** The number of rows carrying `id`, summed over the snapshots. */
  function CountOver(snaps: seq<seq<Row>>, id: string): nat {
    if snaps == [] then 0 else CountOf(snaps[0], id) + CountOver(snaps[1..], id)
  }

  /** A fund's group in the concatenation holds its rows of every day. */
  lemma {:induction false} ConcatCounts(snaps: seq<seq<Row>>, id: string)
    ensures CountOf(Concat(snaps), id) == CountOver(snaps, id)
  {
    if snaps != [] {
      ConcatCounts(snaps[1..], id);
      CountOfAppend(snaps[0], Concat(snaps[1..]), id);
    }
  }

  /** The group sizes of the listed ids, added up. */
  function CountSum(rows: seq<Row>, ids: seq<string>): nat {
    if ids == [] then 0 else CountOf(rows, ids[0]) + CountSum(rows, ids[1..])
  }

  /** How often `x` is listed. */
  function Occurrences(ids: seq<string>, x: string): nat {
    if ids == [] then 0 else (if ids[0] == x then 1 else 0) + Occurrences(ids[1..], x)
  }

  lemma {:induction false} CountSumCons(r: Row, rows: seq<Row>, ids: seq<string>)
    ensures CountSum([r] + rows, ids) == Occurrences(ids, r.id) + CountSum(rows, ids)
  {
    if ids != [] {
      CountSumCons(r, rows, ids[1..]);
      assert ([r] + rows)[1..] == rows;
    }
  }

  lemma {:induction false} OccurrencesOfDistinct(ids: seq<string>, x: string)
    requires Distinct(ids)
    ensures Occurrences(ids, x) == if x in ids then 1 else 0
  {
    if ids != [] {
      OccurrencesOfDistinct(ids[1..], x);
      if ids[0] == x {
        assert x !in ids[1..] by {
          forall j | 0 <= j < |ids[1..]| ensures ids[1..][j] != x { assert ids[1..][j] == ids[j + 1]; }
        }
      }
    }
  }

  lemma {:induction false} CountSumCovers(rows: seq<Row>, ids: seq<string>)
    requires Distinct(ids)
    requires forall k :: 0 <= k < |rows| ==> rows[k].id in ids
    ensures CountSum(rows, ids) == |rows|
  {
    if rows == [] {
      CountSumEmpty(ids);
    } else {
      CountSumCovers(rows[1..], ids);
      CountSumCons(rows[0], rows[1..], ids);
      OccurrencesOfDistinct(ids, rows[0].id);
      assert [rows[0]] + rows[1..] == rows;
    }
  }

  lemma {:induction false} CountSumEmpty(ids: seq<string>)
    ensures CountSum([], ids) == 0
  {
    if ids != [] { CountSumEmpty(ids[1..]); }
  }

  /** The group sizes add up to the number of rows. */
  lemma CountsSumToTotal(rows: seq<Row>)
    ensures CountSum(rows, Ids(rows)) == |rows|
  {
    CountSumCovers(rows, Ids(rows));
  }

  lemma {:induction false} DistinctLength(ids: seq<string>)
    requires Distinct(ids)
    ensures |set x | x in ids| == |ids|
  {
    if ids != [] {
      DistinctLength(ids[1..]);
      var s := set x | x in ids;
      var t := set x | x in ids[1..];
      assert ids[0] !in t by {
        forall j | 0 <= j < |ids[1..]| ensures ids[1..][j] != ids[0] { assert ids[1..][j] == ids[j + 1]; }
      }
      assert s == t + {ids[0]};
    }
  }

  /** There are as many groups as distinct ids. */
  lemma GroupCount(rows: seq<Row>)
    ensures |Ids(rows)| == |IdSet(rows)|
  {
    DistinctLength(Ids(rows));
    assert (set x | x in Ids(rows)) == IdSet(rows);
  }

  /**
   * A ranking of the groups of `rows` keeps the first min(50, groups) of
   * `es`, one entry per group.
   */
  lemma RankingOfGroups(rows: seq<Row>, es: seq<Entry>, top: seq<Entry>)
    requires DistinctIds(es) && |es| == |Ids(rows)|
    requires forall i :: 0 <= i < |es| ==> es[i].id == Ids(rows)[i]
    requires top == TopN(es, TopCount)
    ensures |top| == if TopCount < |IdSet(rows)| then TopCount else |IdSet(rows)|
    ensures forall i :: 0 <= i < |top| ==> top[i] in es && top[i].id in IdSet(rows)
  {
    var ids := Ids(rows);
    GroupCount(rows);
    forall i | 0 <= i < |top| ensures top[i] in es && top[i].id in IdSet(rows) {
      assert top[i] in top;
      var k :| 0 <= k < |es| && es[k] == top[i];
      assert ids[k] in ids;
    }
  }

  /** A group missing from a ranking has its entry among those left out. */
  lemma OmittedGroup(rows: seq<Row>, es: seq<Entry>, top: seq<Entry>, id: string) returns (k: nat)
    requires |es| == |Ids(rows)|
    requires forall i :: 0 <= i < |es| ==> es[i].id == Ids(rows)[i]
    requires id in IdSet(rows) && forall i :: 0 <= i < |top| ==> top[i].id != id
    ensures k < |es| && es[k].id == id && es[k] !in top
  {
    var ids := Ids(rows);
    k :| 0 <= k < |ids| && ids[k] == id;
  }

  /** The group sizes of `rows` ranked. */
  function CountRanking(rows: seq<Row>): seq<Entry> {
    TopN(CountEntries(rows, Ids(rows)), TopCount)
  }

  /** The mean growth ratios of `rows` ranked. */
  function GrowthRanking(rows: seq<Row>): seq<Entry> {
    GroupsAreNonEmpty(rows);
    TopN(GrowthEntries(rows, Ids(rows)), TopCount)
  }

  /** Every group has at least one row, so its mean is defined. */
  lemma GroupsAreNonEmpty(rows: seq<Row>)
    ensures forall i :: 0 <= i < |Ids(rows)| ==> CountOf(rows, Ids(rows)[i]) > 0
  {
    var ids := Ids(rows);
    forall i | 0 <= i < |ids| ensures CountOf(rows, ids[i]) > 0 {
      assert ids[i] in IdSet(rows);
    }
  }

  /** Both rankings of one analysis. */
  datatype Ranking = Ranking(byCount: seq<Entry>, byGrowth: seq<Entry>)

  /** The statistics of the concatenated snapshots. */
  function Aggregate(snaps: seq<seq<Row>>): Ranking {
    var rows := Concat(snaps);
    Ranking(CountRanking(rows), GrowthRanking(rows))
  }

  /**
   * The frequency ranking: min(50, groups) entries with distinct ids, each
   * the size of its group, non-increasing with equal sizes in ascending id
   * order, and no group left out has more rows than any group kept.
   */
  lemma TopByCount(rows: seq<Row>)
    ensures |CountRanking(rows)| == if TopCount < |IdSet(rows)| then TopCount else |IdSet(rows)|
    ensures DistinctIds(CountRanking(rows))
    ensures forall e :: e in CountRanking(rows) ==> e.id in IdSet(rows) && e.score == CountOf(rows, e.id) as real
    ensures forall i, j :: 0 <= i < j < |CountRanking(rows)| ==>
      CountRanking(rows)[i].score >= CountRanking(rows)[j].score
    ensures forall i, j :: 0 <= i < j < |CountRanking(rows)| && CountRanking(rows)[i].score == CountRanking(rows)[j].score ==>
      Less(CountRanking(rows)[i].id, CountRanking(rows)[j].id)
    ensures forall id, e ::
      (id in IdSet(rows) && e in CountRanking(rows) &&
       forall i :: 0 <= i < |CountRanking(rows)| ==> CountRanking(rows)[i].id != id) ==>
      e.score >= CountOf(rows, id) as real
  {
    var es := CountEntries(rows, Ids(rows));
    var top := CountRanking(rows);
    RankingOfGroups(rows, es, top);
    forall e | e in top ensures e.id in IdSet(rows) && e.score == CountOf(rows, e.id) as real {
      var i :| 0 <= i < |top| && top[i] == e;
      var k :| 0 <= k < |es| && es[k] == e;
    }
    forall i, j | 0 <= i < j < |top|
      ensures top[i].score >= top[j].score
      ensures top[i].score == top[j].score ==> Less(top[i].id, top[j].id)
    {
      assert Before(top[i], top[j]);
    }
    forall id, e | id in IdSet(rows) && e in top && (forall i :: 0 <= i < |top| ==> top[i].id != id)
      ensures e.score >= CountOf(rows, id) as real
    {
      var k := OmittedGroup(rows, es, top, id);
      assert Before(e, es[k]);
    }
  }

  /**
   * The growth ranking: min(50, groups) entries with distinct ids, each the
   * sum of the group's growth ratios over its size, non-increasing with equal
   * means in ascending id order, and no
   * group left out has a higher mean than any group kept.
   */
  lemma TopByGrowth(rows: seq<Row>)
    ensures |GrowthRanking(rows)| == if TopCount < |IdSet(rows)| then TopCount else |IdSet(rows)|
    ensures DistinctIds(GrowthRanking(rows))
    ensures forall e :: e in GrowthRanking(rows) ==>
      e.id in IdSet(rows) && CountOf(rows, e.id) > 0 && e.score == Mean(rows, e.id)
    ensures forall i, j :: 0 <= i < j < |GrowthRanking(rows)| ==>
      GrowthRanking(rows)[i].score >= GrowthRanking(rows)[j].score
    ensures forall i, j :: 0 <= i < j < |GrowthRanking(rows)| && GrowthRanking(rows)[i].score == GrowthRanking(rows)[j].score ==>
      Less(GrowthRanking(rows)[i].id, GrowthRanking(rows)[j].id)
    ensures forall id, e ::
      (id in IdSet(rows) && e in GrowthRanking(rows) &&
       forall i :: 0 <= i < |GrowthRanking(rows)| ==> GrowthRanking(rows)[i].id != id) ==>
      CountOf(rows, id) > 0 && e.score >= Mean(rows, id)
  {
    var ids := Ids(rows);
    GroupsAreNonEmpty(rows);
    var es := GrowthEntries(rows, ids);
    var top := GrowthRanking(rows);
    RankingOfGroups(rows, es, top);
    forall e | e in top
      ensures e.id in IdSet(rows) && CountOf(rows, e.id) > 0 && e.score == Mean(rows, e.id)
    {
      var i :| 0 <= i < |top| && top[i] == e;
      var k :| 0 <= k < |es| && es[k] == e;
    }
    forall i, j | 0 <= i < j < |top|
      ensures top[i].score >= top[j].score
      ensures top[i].score == top[j].score ==> Less(top[i].id, top[j].id)
    {
      assert Before(top[i], top[j]);
    }
    forall id, e | id in IdSet(rows) && e in top && (forall i :: 0 <= i < |top| ==> top[i].id != id)
      ensures CountOf(rows, id) > 0 && e.score >= Mean(rows, id)
    {
      var k := OmittedGroup(rows, es, top, id);
      assert Before(e, es[k]);
    }
  }

  /** With at least 50 groups, both rankings hold exactly 50 entries. */
  lemma TopCap(rows: seq<Row>)
    requires |IdSet(rows)| >= TopCount
    ensures |CountRanking(rows)| == TopCount && |GrowthRanking(rows)| == TopCount
  {
    TopByCount(rows);
    TopByGrowth(rows);
  }

  /**
   * Three daily snapshots each holding fund 000001, with growth ratios 1, 2
   * and 3: its group has three rows and mean 2, and it is the only entry of
   * both rankings.
   */
  lemma ThreeDayExample()
    ensures var snaps := [[Row("000001", 1.0)], [Row("000001", 2.0)], [Row("000001", 3.0)]];
      && CountOf(Concat(snaps), "000001") == 3
      && Mean(Concat(snaps), "000001") == 2.0
      && Aggregate(snaps) == Ranking([Entry("000001", 3.0)], [Entry("000001", 2.0)])
  {
    var snaps := [[Row("000001", 1.0)], [Row("000001", 2.0)], [Row("000001", 3.0)]];
    var a, b, c := Row("000001", 1.0), Row("000001", 2.0), Row("000001", 3.0);
    assert snaps[1..] == [[b], [c]] && snaps[1..][1..] == [[c]];
    var rows := Concat(snaps);
    assert rows == [a, b, c];
    assert rows[1..] == [b, c] && rows[1..][1..] == [c] && [c][1..] == [];
    assert CountOf([c], "000001") == 1 && SumOf([c], "000001") == 3.0 && Ids([c]) == ["000001"];
    assert CountOf([b, c], "000001") == 2 && SumOf([b, c], "000001") == 5.0 && Ids([b, c]) == ["000001"];
    assert CountOf(rows, "000001") == 3 && SumOf(rows, "000001") == 6.0 && Ids(rows) == ["000001"];
  }
}
