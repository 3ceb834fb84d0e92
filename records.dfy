/**
 * Field mapping of one raw fund record and the layout of one day's snapshot
 * file (fundcat.py:33-44, 91-92): a header line, then one tab-separated row
 * per fund, each line followed by the line separator.
 */
module Records {
  import opened Wrappers
  import opened Strings

  /** One fund of a snapshot, its fields kept as the text the endpoint sent. */
  datatype FundRecord = FundRecord(id: string, name: string, startPrice: string, endPrice: string, growthRatio: string)

  const Comma: char := ','
  const Tab: char := '\t'
  /** `os.linesep` on a POSIX host. */
  const LineSep: string := "\n"

  const HeaderNames: seq<string> := ["ID", "NAME", "START_PRICE", "END_PRICE", "GROWTH_RATIO"]

  /** `_get_dataset_header()`: the five names, tab-separated. */
  const Header: string := TabRow(HeaderNames)

  /** The string `"{}\t{}\t{}\t{}\t{}".format(...)` of five columns. */
  function TabRow(c: seq<string>): string
    requires |c| == 5
  {
    c[0] + [Tab] + c[1] + [Tab] + c[2] + [Tab] + c[3] + [Tab] + c[4]
  }

  /** The five columns of a row, in file order. */
  function Columns(r: FundRecord): seq<string> {
    [r.id, r.name, r.startPrice, r.endPrice, r.growthRatio]
  }

  /** No column of the record contains a tab or a line break. */
  predicate PlainColumns(r: FundRecord) {
    forall k :: 0 <= k < 5 ==> Tab !in Columns(r)[k] && '\n' !in Columns(r)[k]
  }

  /** The row `"{}\t{}\t{}\t{}\t{}".format(id, name, start_price, end_price, growth_ratio)`. */
  function FormatRow(r: FundRecord): string {
    TabRow(Columns(r))
  }

  /**
   * Positions 0, 1, 7, 10 and 3 of the comma split become id, name,
   * start price, end price and growth ratio; fewer than 11 fields is the
   * IndexError of `fund.split(",")[10]`.
   */
  function Normalise(raw: string): Option<FundRecord> {
    var fields := Split(raw, [Comma]);
    if |fields| < 11 then None
    else Some(FundRecord(fields[0], fields[1], fields[7], fields[10], fields[3]))
  }

  /** Every fund from position `i` on normalised, or the position of the first that is not. */
  function NormaliseFrom(funds: seq<string>, i: nat): (r: Result<seq<FundRecord>, Error>)
    requires i <= |funds|
    ensures r.Success? <==> forall k :: i <= k < |funds| ==> Normalise(funds[k]).Some?
    ensures r.Success? ==> |r.value| == |funds| - i
    ensures r.Success? ==> forall k :: 0 <= k < |r.value| ==> Normalise(funds[i + k]) == Some(r.value[k])
    ensures r.Failure? ==> r.error.FieldMapping? && i <= r.error.fund < |funds|
    ensures r.Failure? ==> Normalise(funds[r.error.fund]).None?
    ensures r.Failure? ==> forall k :: i <= k < r.error.fund ==> Normalise(funds[k]).Some?
    decreases |funds| - i
  {
    if i == |funds| then Success([])
    else match Normalise(funds[i])
      case None => Failure(FieldMapping(i))
      case Some(rec) =>
        match NormaliseFrom(funds, i + 1)
        case Failure(e) => Failure(e)
        case Success(recs) => Success([rec] + recs)
  }

  /** The records of a whole `datas` array, failing at the first short record. */
  function NormaliseAll(funds: seq<string>): Result<seq<FundRecord>, Error> {
    NormaliseFrom(funds, 0)
  }

  /** The data lines: each row followed by the line separator. */
  function RowLines(recs: seq<FundRecord>): seq<string> {
    if recs == [] then [] else [FormatRow(recs[0]), LineSep] + RowLines(recs[1..])
  }

  /** The list handed to `writelines`: the header line, then the rows. */
  function FileLines(recs: seq<FundRecord>): seq<string> {
    [Header, LineSep] + RowLines(recs)
  }

  /** The lines written for a `datas` array, or the error that stops the loop. */
  function LinesFor(funds: seq<string>): Result<seq<string>, Error> {
    match NormaliseAll(funds)
    case Success(recs) => Success(FileLines(recs))
    case Failure(e) => Failure(e)
  }

  /** A five-column row splits on tabs back into its columns when none contains a tab. */
  lemma TabRowRoundTrip(c: seq<string>)
    requires |c| == 5
    requires forall k :: 0 <= k < 5 ==> Tab !in c[k]
    ensures Split(TabRow(c), [Tab]) == c
  {
    var t := [Tab];
    assert Join(c[4..], t) == c[4];
    assert c[3..][1..] == c[4..];
    assert Join(c[3..], t) == c[3] + t + c[4];
    assert c[2..][1..] == c[3..];
    assert Join(c[2..], t) == c[2] + t + c[3] + t + c[4];
    assert c[1..][1..] == c[2..];
    assert Join(c[1..], t) == c[1] + t + c[2] + t + c[3] + t + c[4];
    assert Join(c, t) == TabRow(c);
    SplitJoinRoundTrip(c, Tab);
  }

  /** The header names the five columns in row order. */
  lemma HeaderColumns()
    ensures Split(Header, [Tab]) == HeaderNames
  {
    TabRowRoundTrip(HeaderNames);
  }

  /** A row splits on tabs back into exactly its five columns, in header order. */
  lemma RowRoundTrip(r: FundRecord)
    requires forall k :: 0 <= k < 5 ==> Tab !in Columns(r)[k]
    ensures Split(FormatRow(r), [Tab]) == Columns(r)
    ensures |Split(FormatRow(r), [Tab])| == |HeaderNames|
  {
    TabRowRoundTrip(Columns(r));
  }

  /**
   * Field positions: for a record that is literally the comma join of its
   * fields, normalisation picks fields 0, 1, 7, 10 and 3, and fails exactly
   * when there are fewer than 11.
   */
  lemma NormaliseFields(fields: seq<string>)
    requires |fields| >= 1
    requires forall k :: 0 <= k < |fields| ==> Comma !in fields[k]
    ensures |fields| >= 11 ==>
      Normalise(Join(fields, [Comma])) == Some(FundRecord(fields[0], fields[1], fields[7], fields[10], fields[3]))
    ensures |fields| < 11 <==> Normalise(Join(fields, [Comma])).None?
  {
    SplitJoinRoundTrip(fields, Comma);
  }

  /** Shape of the file: header, separator, then each fund's row and a separator, in order. */
  lemma {:induction false} RowLinesShape(recs: seq<FundRecord>)
    ensures |RowLines(recs)| == 2 * |recs|
    ensures forall k :: 0 <= k < |recs| ==>
      RowLines(recs)[2 * k] == FormatRow(recs[k]) && RowLines(recs)[2 * k + 1] == LineSep
  {
    if recs != [] {
      RowLinesShape(recs[1..]);
      var rest := RowLines(recs[1..]);
      var all := RowLines(recs);
      assert all == [FormatRow(recs[0]), LineSep] + rest;
      forall k | 0 <= k < |recs|
        ensures all[2 * k] == FormatRow(recs[k]) && all[2 * k + 1] == LineSep
      {
        if k > 0 {
          assert all[2 * k] == rest[2 * (k - 1)];
          assert all[2 * k + 1] == rest[2 * (k - 1) + 1];
          assert recs[1..][k - 1] == recs[k];
        }
      }
    }
  }

  /** The file line list has 2 + 2n lines for n funds. */
  lemma FileLinesShape(recs: seq<FundRecord>)
    ensures |FileLines(recs)| == 2 + 2 * |recs|
    ensures FileLines(recs)[0] == Header && FileLines(recs)[1] == LineSep
    ensures forall k :: 0 <= k < |recs| ==>
      FileLines(recs)[2 + 2 * k] == FormatRow(recs[k]) && FileLines(recs)[3 + 2 * k] == LineSep
  {
    RowLinesShape(recs);
  }

  /** A line list of the loop's shape is the file of the normalised funds. */
  lemma LinesOfNormalised(funds: seq<string>, lines: seq<string>)
    requires |lines| == 2 + 2 * |funds| && lines[0] == Header && lines[1] == LineSep
    requires forall k :: 0 <= k < |funds| ==>
      |Split(funds[k], [Comma])| >= 11 &&
      lines[2 + 2 * k] == FormatRow(Normalise(funds[k]).value) && lines[3 + 2 * k] == LineSep
    ensures LinesFor(funds) == Success(lines)
  {
    var recs := NormaliseAll(funds).value;
    FileLinesShape(recs);
    forall j | 0 <= j < |lines| ensures lines[j] == FileLines(recs)[j] {
      if j >= 2 {
        var k := (j - 2) / 2;
        if j % 2 == 0 {
          assert j == 2 + 2 * k;
        } else {
          assert j == 3 + 2 * k;
        }
      }
    }
    assert lines == FileLines(recs);
  }

  /**
   * The loop of `query_top_rank` that builds the line list: header and
   * separator first, then for each fund in order its row and a separator.
   */
  method SnapshotLines(funds: seq<string>) returns (r: Result<seq<string>, Error>)
    ensures r.Failure? <==> exists k :: 0 <= k < |funds| && |Split(funds[k], [Comma])| < 11
    ensures r.Failure? ==> r.error.FieldMapping? && r.error.fund < |funds|
    ensures r.Failure? ==> |Split(funds[r.error.fund], [Comma])| < 11
    ensures r.Failure? ==> forall k :: 0 <= k < r.error.fund ==> |Split(funds[k], [Comma])| >= 11
    ensures r.Success? ==> |r.value| == 2 + 2 * |funds| && r.value[0] == Header && r.value[1] == LineSep
    ensures r.Success? ==> forall k :: 0 <= k < |funds| ==>
      Normalise(funds[k]).Some? &&
      r.value[2 + 2 * k] == FormatRow(Normalise(funds[k]).value) && r.value[3 + 2 * k] == LineSep
    ensures r == LinesFor(funds)
  {
    var lines := [Header, LineSep];
    for i := 0 to |funds|
      invariant |lines| == 2 + 2 * i && lines[0] == Header && lines[1] == LineSep
      invariant forall k :: 0 <= k < i ==>
        |Split(funds[k], [Comma])| >= 11 &&
        lines[2 + 2 * k] == FormatRow(Normalise(funds[k]).value) && lines[3 + 2 * k] == LineSep
    {
      var fields := Split(funds[i], [Comma]);
      if |fields| < 11 {
        return Failure(FieldMapping(i));
      }
      var rec := FundRecord(fields[0], fields[1], fields[7], fields[10], fields[3]);
      lines := lines + [FormatRow(rec)];
      lines := lines + [LineSep];
    }
    LinesOfNormalised(funds, lines);
    r := Success(lines);
  }
}
