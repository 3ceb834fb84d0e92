/**
 * The two entry points of fundcat.py: `query_top_rank` (lines 8-44), which
 * cleans one day's response, normalises its funds and writes the day's file,
 * and `rank_distribution` (lines 47-66), which reads a window of days back
 * and ranks the funds. The file system is a map from (interval, day) to the
 * lines last written there.
 */
module Pipeline {
  import opened Wrappers
  import opened Payload
  import opened Records
  import opened Snapshots
  import opened Aggregation

  /** The snapshot keys of an analysis window, one per day offset `0..period-1`. */
  function Window(queryDay: int, interval: int, period: int): (keys: seq<Key>)
    ensures |keys| == if period > 0 then period else 0
    ensures forall k :: 0 <= k < |keys| ==> keys[k] == Key(interval, queryDay + k)
  {
    if period <= 0 then [] else Window(queryDay, interval, period - 1) + [Key(interval, queryDay + period - 1)]
  }

  /** The window's keys all name the same interval and go up one day at a time. */
  lemma WindowIsConsecutive(queryDay: int, interval: int, period: int)
    ensures var keys := Window(queryDay, interval, period);
      && (forall k :: 0 <= k < |keys| ==> keys[k].interval == interval)
      && (|keys| > 0 ==> keys[0].day == queryDay)
      && (forall k :: 0 < k < |keys| ==> keys[k].day == keys[k - 1].day + 1)
      && (forall i, j :: 0 <= i < j < |keys| ==> keys[i].day < keys[j].day)
  {
  }

  /** The loop of `rank_distribution` that lists the data files of the window. */
  method WindowKeys(queryDay: int, interval: int, period: int) returns (keys: seq<Key>)
    ensures |keys| == if period > 0 then period else 0
    ensures forall k :: 0 <= k < |keys| ==> keys[k] == Key(interval, queryDay + k)
    ensures keys == Window(queryDay, interval, period)
  {
    keys := [];
    var x := 0;
    while x < period
      invariant 0 <= x && (period > 0 ==> x <= period) && (period <= 0 ==> x == 0)
      invariant |keys| == x
      invariant forall k :: 0 <= k < x ==> keys[k] == Key(interval, queryDay + k)
    {
      keys := keys + [Key(interval, queryDay + x)];
      x := x + 1;
    }
  }

  /** The file of `key` can be read as a snapshot. */
  predicate Loads(files: map<Key, seq<string>>, key: Key) {
    key in files && ReadSnapshot(key, files[key]).Success?
  }

  /**
   * Loading `keys` stops at position `k` with error `e`: every earlier file
   * loads, and the file at `k` is missing (`e` names it) or cannot be read
   * (`e` is the reader's error).
   */
  predicate StopsAt(files: map<Key, seq<string>>, keys: seq<Key>, k: int, e: Error) {
    && 0 <= k < |keys|
    && (forall j :: 0 <= j < k ==> Loads(files, keys[j]))
    && ((keys[k] !in files && e == MissingSnapshot(keys[k].interval, keys[k].day)) ||
        (keys[k] in files && ReadSnapshot(keys[k], files[keys[k]]) == Failure(e)))
  }

  /** A stop in the keys after a file that loads is a stop in the whole list, one later. */
  lemma StopsLater(files: map<Key, seq<string>>, keys: seq<Key>, k: int, e: Error)
    requires |keys| > 0 && Loads(files, keys[0])
    requires StopsAt(files, keys[1..], k, e)
    ensures StopsAt(files, keys, k + 1, e)
  {
    forall j | 0 <= j < k + 1 ensures Loads(files, keys[j]) {
      if j > 0 { assert keys[j] == keys[1..][j - 1]; }
    }
    assert keys[k + 1] == keys[1..][k];
  }

  /**
   * `[pd.read_csv(f, ...) for f in data_files]`: every file of the window
   * read in order, stopping at the first one that is missing or unreadable.
   */
  function LoadWindow(files: map<Key, seq<string>>, keys: seq<Key>): (r: Result<seq<seq<Row>>, Error>)
    ensures r.Success? <==> forall k :: 0 <= k < |keys| ==>
      keys[k] in files && ReadSnapshot(keys[k], files[keys[k]]).Success?
    ensures r.Success? ==> |r.value| == |keys|
    ensures r.Success? ==> forall k :: 0 <= k < |keys| ==>
      keys[k] in files && r.value[k] == ReadSnapshot(keys[k], files[keys[k]]).value
    ensures r.Failure? ==> exists k :: StopsAt(files, keys, k, r.error)
  {
    if keys == [] then Success([])
    else
      var key := keys[0];
      if key !in files then
        assert StopsAt(files, keys, 0, MissingSnapshot(key.interval, key.day));
        Failure(MissingSnapshot(key.interval, key.day))
      else match ReadSnapshot(key, files[key])
        case Failure(e) =>
          assert StopsAt(files, keys, 0, e);
          Failure(e)
        case Success(rows) =>
          match LoadWindow(files, keys[1..])
          case Failure(e) =>
            assert forall k :: 0 < k < |keys| ==> keys[k] == keys[1..][k - 1];
            var k :| StopsAt(files, keys[1..], k, e);
            StopsLater(files, keys, k, e);
            Failure(e)
          case Success(rest) =>
            assert forall k :: 0 < k < |keys| ==> keys[k] == keys[1..][k - 1];
            Success([rows] + rest)
  }

  /**
   * The error of a failed load is decided by the first file that does not
   * load: its key when the file is missing, the reader's error otherwise.
   */
  lemma LoadWindowFirstFailure(files: map<Key, seq<string>>, keys: seq<Key>, k: int)
    requires 0 <= k < |keys| && !Loads(files, keys[k])
    requires forall j :: 0 <= j < k ==> Loads(files, keys[j])
    ensures keys[k] !in files ==>
      LoadWindow(files, keys) == Failure(MissingSnapshot(keys[k].interval, keys[k].day))
    ensures keys[k] in files ==>
      LoadWindow(files, keys) == Failure(MalformedSnapshot(keys[k].interval, keys[k].day))
  {
    var r := LoadWindow(files, keys);
    assert !Loads(files, keys[k]);
    var s :| StopsAt(files, keys, s, r.error);
    ghost var stopLoads := Loads(files, keys[s]);
    assert s == k;
  }

  /**
   * A window whose first unreadable day has no file fails naming that day;
   * one whose first unreadable day has a file fails as malformed on that day.
   */
  lemma WindowFirstBadDay(files: map<Key, seq<string>>, queryDay: int, interval: int, period: int, d: int)
    requires 0 <= d < period
    requires forall day :: queryDay <= day < queryDay + d ==> Loads(files, Key(interval, day))
    requires !Loads(files, Key(interval, queryDay + d))
    ensures LoadWindow(files, Window(queryDay, interval, period)) ==
      if Key(interval, queryDay + d) in files then Failure(MalformedSnapshot(interval, queryDay + d))
      else Failure(MissingSnapshot(interval, queryDay + d))
  {
    var keys := Window(queryDay, interval, period);
    WindowPrefixLoads(files, queryDay, interval, period, d);
    LoadWindowFirstFailure(files, keys, d);
    assert keys[d] == Key(interval, queryDay + d);
  }

  /** The window's keys before day `d` are the days before it in the interval. */
  lemma WindowPrefixLoads(files: map<Key, seq<string>>, queryDay: int, interval: int, period: int, d: int)
    requires 0 <= d < period
    requires forall day :: queryDay <= day < queryDay + d ==> Loads(files, Key(interval, day))
    ensures Window(queryDay, interval, period)[d] == Key(interval, queryDay + d)
    ensures forall j :: 0 <= j < d ==> Loads(files, Window(queryDay, interval, period)[j])
  {
    var keys := Window(queryDay, interval, period);
    forall j | 0 <= j < d ensures Loads(files, keys[j]) {
      assert keys[j] == Key(interval, queryDay + j);
      assert Loads(files, Key(interval, queryDay + j));
    }
  }

  /** The data directory: for each (interval, day) the lines last written there. */
  class FileStore {
    var files: map<Key, seq<string>>

    constructor ()
      ensures files == map[]
    {
      files := map[];
    }

    /**
     * `query_top_rank(rank_date, interval_days)` given the endpoint's
     * response text and the JSON decoder's answer for a text. Cleaning and
     * decoding happen before the file is opened; the file is opened for
     * writing (and so emptied) before the funds are normalised, and written
     * only after all of them were.
     */
    method QueryTopRank(rankDay: int, interval: int, responseText: string,
                        decode: string -> Option<seq<string>>)
      returns (outcome: Result<(), Error>)
      modifies this
      ensures Cleaned(responseText).Failure? ==>
        outcome == Failure(PayloadFormat) && files == old(files)
      ensures Cleaned(responseText).Success? && decode(Cleaned(responseText).value).None? ==>
        outcome == Failure(Decode) && files == old(files)
      ensures Cleaned(responseText).Success? && decode(Cleaned(responseText).value).Some? ==>
        var funds := decode(Cleaned(responseText).value).value;
        match LinesFor(funds)
        case Failure(e) =>
          outcome == Failure(e) && files == old(files)[Key(interval, rankDay) := []]
        case Success(lines) =>
          outcome == Success(()) && files == old(files)[Key(interval, rankDay) := lines]
    {
      var cleaned := CleanPayload(responseText);
      if cleaned.Failure? {
        return Failure(cleaned.error);
      }
      var decoded := decode(cleaned.value);
      if decoded.None? {
        return Failure(Decode);
      }
      var key := Key(interval, rankDay);
      files := files[key := []];
      var lines := SnapshotLines(decoded.value);
      if lines.Failure? {
        return Failure(lines.error);
      }
      files := files[key := lines.value];
      outcome := Success(());
    }

    /**
     * `rank_distribution(query_date, interval_days, period)`: all or nothing
     * over the window; an empty window is the error `pd.concat` raises for
     * an empty list.
     */
    method RankDistribution(queryDay: int, interval: int, period: int) returns (r: Result<Ranking, Error>)
      ensures period <= 0 ==> r == Failure(NoSnapshots)
      ensures r.Success? <==> period > 0 && forall key :: key in Window(queryDay, interval, period) ==>
        key in files && ReadSnapshot(key, files[key]).Success?
      ensures r.Success? ==>
        LoadWindow(files, Window(queryDay, interval, period)).Success? &&
        r.value == Aggregate(LoadWindow(files, Window(queryDay, interval, period)).value)
    ensures period > 0 && r.Failure? ==>
        LoadWindow(files, Window(queryDay, interval, period)).Failure? &&
        r.error == LoadWindow(files, Window(queryDay, interval, period)).error
    {
      var keys := WindowKeys(queryDay, interval, period);
      if |keys| == 0 {
        return Failure(NoSnapshots);
      }
      var loaded := LoadWindow(files, keys);
      if loaded.Failure? {
        return Failure(loaded.error);
      }
      r := Success(Aggregate(loaded.value));
    }
  }
}
