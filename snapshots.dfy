/**
 * Reading one day's snapshot file back (the `pd.read_csv(f, sep="\t",
 * dtype={"ID": object})` of fundcat.py:62), keeping the two columns the
 * aggregation uses: the fund id as text and the growth ratio as a number.
 */
module Snapshots {
  import opened Wrappers
  import opened Strings
  import opened Records

  /** The file `data/<interval>/<date>.csv`, the date as a day number. */
  datatype Key = Key(interval: int, day: int)

  /** One data row as the aggregation sees it. */
  datatype Row = Row(id: string, growth: real)

  /** The file's text after `writelines`: the lines concatenated. */
  function Text(lines: seq<string>): string {
    if lines == [] then "" else lines[0] + Text(lines[1..])
  }

  /** The physical lines with blank ones dropped, as the reader skips them. */
  function NonBlank(ls: seq<string>): seq<string> {
    if ls == [] then [] else (if ls[0] == "" then [] else [ls[0]]) + NonBlank(ls[1..])
  }

  predicate IsDigit(c: char) {
    '0' <= c <= '9'
  }

  function DigitsValue(d: string): nat
    requires forall i :: 0 <= i < |d| ==> IsDigit(d[i])
  {
    if d == [] then 0
    else
      assert IsDigit(d[|d| - 1]);
      10 * DigitsValue(d[..|d| - 1]) + (d[|d| - 1] as int - '0' as int)
  }

  function Pow10(n: nat): (r: nat)
    ensures r >= 1
  {
    if n == 0 then 1 else 10 * Pow10(n - 1)
  }

  /** An unsigned decimal `ddd`, `ddd.ddd`, `ddd.` or `.ddd`. */
  function ParseUnsigned(t: string): Option<real> {
    var parts := Split(t, ".");
    if |parts| > 2 then None
    else
      var whole := parts[0];
      var frac := if |parts| == 2 then parts[1] else "";
      if |whole| + |frac| == 0 then None
      else if exists i :: 0 <= i < |whole| && !IsDigit(whole[i]) then None
      else if exists i :: 0 <= i < |frac| && !IsDigit(frac[i]) then None
      else Some(DigitsValue(whole) as real + DigitsValue(frac) as real / Pow10(|frac|) as real)
  }

  /** A decimal number with an optional sign, read exactly as a real. */
  function ParseDecimal(t: string): Option<real> {
    if |t| > 0 && t[0] == '-' then
      match ParseUnsigned(t[1..])
      case Some(v) => Some(-v)
      case None => None
    else if |t| > 0 && t[0] == '+' then ParseUnsigned(t[1..])
    else ParseUnsigned(t)
  }

  /** The data rows: five tab-separated columns each, the fifth a number. */
  function ParseRows(rows: seq<string>): Option<seq<Row>> {
    if rows == [] then Some([])
    else
      var cols := Split(rows[0], [Tab]);
      if |cols| != 5 then None
      else match (ParseDecimal(cols[4]), ParseRows(rows[1..]))
        case (Some(g), Some(rest)) => Some([Row(cols[0], g)] + rest)
        case _ => None
  }

  /**
   * Reading the file stored under `key`: an empty file or one whose header
   * or rows do not have the written shape cannot be read.
   */
  function ReadSnapshot(key: Key, lines: seq<string>): (r: Result<seq<Row>, Error>)
    ensures r.Failure? ==> r.error == MalformedSnapshot(key.interval, key.day)
    ensures lines == [] ==> r == Failure(MalformedSnapshot(key.interval, key.day))
  {
    var physical := NonBlank(Split(Text(lines), LineSep));
    assert lines == [] ==> Split(Text(lines), LineSep) == [""] && [""][1..] == [] && physical == [];
    if physical == [] || Split(physical[0], [Tab]) != HeaderNames then
      Failure(MalformedSnapshot(key.interval, key.day))
    else match ParseRows(physical[1..])
      case None => Failure(MalformedSnapshot(key.interval, key.day))
      case Some(rows) => Success(rows)
  }

  /** The rows of the data lines, one per record. */
  function RowStrings(recs: seq<FundRecord>): seq<string> {
    if recs == [] then [] else [FormatRow(recs[0])] + RowStrings(recs[1..])
  }

  /** Every record can be written and read back: plain columns and a numeric growth ratio. */
  predicate Readable(recs: seq<FundRecord>) {
    forall k :: 0 <= k < |recs| ==> PlainColumns(recs[k]) && ParseDecimal(recs[k].growthRatio).Some?
  }

  lemma FormatRowHasNoLineBreak(r: FundRecord)
    requires PlainColumns(r)
    ensures FormatRow(r) != "" && '\n' !in FormatRow(r)
  {
    var c := Columns(r);
    assert '\n' !in c[0] && '\n' !in c[1] && '\n' !in c[2] && '\n' !in c[3] && '\n' !in c[4];
    assert FormatRow(r) == c[0] + [Tab] + c[1] + [Tab] + c[2] + [Tab] + c[3] + [Tab] + c[4];
    assert FormatRow(r)[|c[0]|] == Tab;
  }

  /** The data part of the file reads back, line by line, as the rows written. */
  lemma {:induction false} RowLinesReadBack(recs: seq<FundRecord>)
    requires Readable(recs)
    ensures NonBlank(Split(Text(RowLines(recs)), LineSep)) == RowStrings(recs)
  {
    if recs == [] {
      assert Split("", LineSep) == [""];
    } else {
      var row := FormatRow(recs[0]);
      assert Readable(recs[1..]) by {
        forall k | 0 <= k < |recs[1..]| ensures PlainColumns(recs[1..][k]) && ParseDecimal(recs[1..][k].growthRatio).Some? {
          assert recs[1..][k] == recs[k + 1];
        }
      }
      RowLinesReadBack(recs[1..]);
      FormatRowHasNoLineBreak(recs[0]);
      var tail := Text(RowLines(recs[1..]));
      assert RowLines(recs) == [row, LineSep] + RowLines(recs[1..]);
      assert ([row, LineSep] + RowLines(recs[1..]))[1..] == [LineSep] + RowLines(recs[1..]);
      assert Text(RowLines(recs)) == row + LineSep + tail;
      SplitAfterPiece(row, '\n', tail);
      var parts := Split(tail, LineSep);
      assert ([row] + parts)[1..] == parts;
    }
  }

  /** Each written row reads back as the record's id and its parsed growth ratio. */
  lemma {:induction false} RowStringsParse(recs: seq<FundRecord>)
    requires Readable(recs)
    ensures ParseRows(RowStrings(recs)).Some?
    ensures |ParseRows(RowStrings(recs)).value| == |recs|
    ensures forall k :: 0 <= k < |recs| ==>
      ParseRows(RowStrings(recs)).value[k] == Row(recs[k].id, ParseDecimal(recs[k].growthRatio).value)
  {
    if recs != [] {
      assert Readable(recs[1..]) by {
        forall k | 0 <= k < |recs[1..]| ensures PlainColumns(recs[1..][k]) && ParseDecimal(recs[1..][k].growthRatio).Some? {
          assert recs[1..][k] == recs[k + 1];
        }
      }
      RowStringsParse(recs[1..]);
      RowRoundTrip(recs[0]);
      var rows := RowStrings(recs);
      assert rows[0] == FormatRow(recs[0]) && rows[1..] == RowStrings(recs[1..]);
      var rest := ParseRows(RowStrings(recs[1..])).value;
      assert ParseRows(rows) == Some([Row(recs[0].id, ParseDecimal(recs[0].growthRatio).value)] + rest);
      forall k | 1 <= k < |recs|
        ensures ParseRows(rows).value[k] == Row(recs[k].id, ParseDecimal(recs[k].growthRatio).value)
      {
        assert ParseRows(rows).value[k] == rest[k - 1];
        assert recs[1..][k - 1] == recs[k];
      }
    }
  }

  /**
   * Round trip through the file: what `query_top_rank` writes for readable
   * records is read back as one row per record, in order, with the same id
   * and the growth ratio the text denotes.
   */
  lemma ReadAfterWrite(key: Key, recs: seq<FundRecord>)
    requires Readable(recs)
    ensures ReadSnapshot(key, FileLines(recs)).Success?
    ensures |ReadSnapshot(key, FileLines(recs)).value| == |recs|
    ensures forall k :: 0 <= k < |recs| ==>
      ReadSnapshot(key, FileLines(recs)).value[k] == Row(recs[k].id, ParseDecimal(recs[k].growthRatio).value)
  {
    var lines := FileLines(recs);
    var tail := Text(RowLines(recs));
    assert lines[1..] == [LineSep] + RowLines(recs);
    assert ([LineSep] + RowLines(recs))[1..] == RowLines(recs);
    assert Text(lines) == Header + LineSep + tail;
    assert '\n' !in Header;
    SplitAfterPiece(Header, '\n', tail);
    RowLinesReadBack(recs);
    assert Header != "";
    var parts := Split(tail, LineSep);
    assert ([Header] + parts)[1..] == parts;
    assert NonBlank(Split(Text(lines), LineSep)) == [Header] + RowStrings(recs);
    HeaderColumns();
    RowStringsParse(recs);
  }
}
