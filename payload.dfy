/**
 * Repair of the ranking endpoint's response (fundcat.py:24-27). The endpoint
 * answers with a JavaScript assignment `var rankData = {datas:[...],allRecords:...}`
 * whose keys are unquoted; the repair drops the assignment prefix, cuts the
 * object just before the `allRecords` field, closes it with `}` and quotes the
 * `datas` key so that the text decodes as JSON.
 */
module Payload {
  import opened Wrappers
  import opened Strings

  const Prefix: string := "var rankData = "
  const Marker: string := "allRecords"
  const DataKey: string := "datas"
  const QuotedKey: string := "\"datas\""

  /** Python's `s[:stop]`: a negative stop counts back from the end. */
  function PyPrefix(s: string, stop: int): (r: string)
    ensures stop >= 0 ==> |r| == if stop <= |s| then stop else |s|
    ensures stop < 0 ==> |r| == if |s| + stop >= 0 then |s| + stop else 0
    ensures r == s[..|r|]
  {
    if stop >= 0 then (if stop <= |s| then s[..stop] else s)
    else (if |s| + stop >= 0 then s[..|s| + stop] else [])
  }

  /** Step 1: every `var rankData = ` removed. */
  function Stripped(text: string): string {
    ReplaceAll(text, Prefix, "")
  }

  /** Step 3: the text before the separator that precedes the marker at `pos`, closed by `}`. */
  function Truncated(s: string, pos: nat): string {
    PyPrefix(s, pos - 1) + "}"
  }

  /** Step 4: every `datas` replaced by `"datas"`. */
  function QuoteKeys(t: string): string {
    ReplaceAll(t, DataKey, QuotedKey)
  }

  /** The cleaned payload, or the error `str.index` raises when the marker is absent. */
  function Cleaned(text: string): Result<string, Error> {
    var s := Stripped(text);
    match FindFirst(s, Marker)
    case None => Failure(PayloadFormat)
    case Some(pos) => Success(QuoteKeys(Truncated(s, pos)))
  }

  /** The cleaning steps in the order the source performs them, reassigning one text. */
  method CleanPayload(text: string) returns (r: Result<string, Error>)
    ensures r == Cleaned(text)
    ensures r.Failure? <==> Free(Stripped(text), Marker)
    ensures r.Failure? ==> r.error == PayloadFormat
    ensures r.Success? ==> |r.value| > 0 && r.value[|r.value| - 1] == '}'
  {
    var raw := ReplaceAll(text, Prefix, "");
    var found := FindFirst(raw, Marker);
    if found.None? {
      return Failure(PayloadFormat);
    }
    var endPos: int := found.value;
    raw := PyPrefix(raw, endPos - 1) + "}";
    ghost var truncated := raw;
    raw := ReplaceAll(raw, DataKey, QuotedKey);
    ReplaceAllKeepsLast(truncated, DataKey, QuotedKey);
    r := Success(raw);
  }

  /**
   * The marker decides success: the cleaning fails exactly when no
   * `allRecords` is left after the prefix is removed.
   */
  lemma CleanedFailsIffNoMarker(text: string)
    ensures Cleaned(text).Failure? <==> Free(Stripped(text), Marker)
    ensures Cleaned(text).Failure? ==> Cleaned(text).error == PayloadFormat
  {
  }

  /**
   * Truncation at the FIRST marker: with the marker first at `pos`, the result
   * is the stripped text up to but excluding the character before `pos`, then
   * `}`, then quoted. At `pos == 0` the Python slice `[:-1]` instead keeps all
   * but the last character of the whole text.
   */
  lemma CleanedTruncation(text: string, pos: nat)
    requires IsAt(Stripped(text), Marker, pos)
    requires forall j: nat :: j < pos ==> !IsAt(Stripped(text), Marker, j)
    ensures pos >= 1 ==> Cleaned(text) == Success(QuoteKeys(Stripped(text)[..pos - 1] + "}"))
    ensures pos == 0 ==> Cleaned(text) == Success(QuoteKeys(Stripped(text)[..|Stripped(text)| - 1] + "}"))
  {
    var s := Stripped(text);
    var found := FindFirst(s, Marker);
    assert found.Some? by { assert !Free(s, Marker) by { assert pos < |s| + 1; } }
  }

  /** The cleaned text, when there is one, ends with the closing brace. */
  lemma CleanedEndsWithBrace(text: string)
    requires Cleaned(text).Success?
    ensures |Cleaned(text).value| > 0
    ensures Cleaned(text).value[|Cleaned(text).value| - 1] == '}'
  {
    var s := Stripped(text);
    var pos := FindFirst(s, Marker).value;
    ReplaceAllKeepsLast(Truncated(s, pos), DataKey, QuotedKey);
  }

  /**
   * Quoting keeps the text between occurrences of `datas`, none of which
   * contains `datas` itself, and puts `"datas"` at each occurrence.
   */
  lemma QuoteKeysReplacesEveryKey(t: string)
    ensures QuoteKeys(t) == Join(Split(t, DataKey), QuotedKey)
    ensures Join(Split(t, DataKey), DataKey) == t
    ensures forall k :: 0 <= k < |Split(t, DataKey)| ==> Free(Split(t, DataKey)[k], DataKey)
  {
    ReplaceAllIsJoinSplit(t, DataKey, QuotedKey);
    SplitJoinIdentity(t, DataKey);
    SplitPiecesFree(t, DataKey);
  }

  /**
   * As long as the replaced text shows no quote character, it is a verbatim
   * copy of the original: no replacement has started yet.
   */
  lemma {:induction false} QuoteKeysCopiesUntilQuote(s: string, k: nat)
    requires k <= |QuoteKeys(s)|
    requires forall j :: 0 <= j < k ==> QuoteKeys(s)[j] != '"'
    ensures k <= |s| && QuoteKeys(s)[..k] == s[..k]
    decreases |s|
  {
    assert k > 0 ==> QuoteKeys(s)[0] != '"';
    if |s| < |DataKey| {
    } else if s[..|DataKey|] == DataKey {
    } else if k > 0 {
      assert QuoteKeys(s) == [s[0]] + QuoteKeys(s[1..]);
      forall j | 0 <= j < k - 1 ensures QuoteKeys(s[1..])[j] != '"' {
        assert QuoteKeys(s)[j + 1] == QuoteKeys(s[1..])[j];
      }
      QuoteKeysCopiesUntilQuote(s[1..], k - 1);
      assert QuoteKeys(s)[..k] == [s[0]] + QuoteKeys(s[1..])[..k - 1];
      assert s[..k] == [s[0]] + s[1..][..k - 1];
    }
  }

  lemma KeyHasNoQuote(q: string, i: nat)
    requires IsAt(q, DataKey, i)
    ensures forall j :: i <= j < i + |DataKey| ==> q[j] != '"'
  {
    forall j | i <= j < i + |DataKey| ensures q[j] != '"' {
      assert q[j] == q[i..i + |DataKey|][j - i];
    }
  }

  /** No unquoted key is left: every `datas` in the quoted text stands between two quotes. */
  lemma {:induction false} QuoteKeysLeavesNoBareKey(s: string)
    ensures forall i: nat :: IsAt(QuoteKeys(s), DataKey, i) ==>
      1 <= i && i + |DataKey| < |QuoteKeys(s)| &&
      QuoteKeys(s)[i - 1] == '"' && QuoteKeys(s)[i + |DataKey|] == '"'
    decreases |s|
  {
    var q := QuoteKeys(s);
    if |s| < |DataKey| {
      forall i: nat | IsAt(q, DataKey, i) ensures false { }
    } else if s[..|DataKey|] == DataKey {
      var rest := QuoteKeys(s[|DataKey|..]);
      QuoteKeysLeavesNoBareKey(s[|DataKey|..]);
      assert q == QuotedKey + rest;
      assert q[0] == '"' && q[6] == '"';
      forall i: nat | IsAt(q, DataKey, i)
        ensures 1 <= i && i + |DataKey| < |q| && q[i - 1] == '"' && q[i + |DataKey|] == '"'
      {
        KeyHasNoQuote(q, i);
        if i >= 7 {
          assert q[i..i + 5] == rest[i - 7..i - 2];
          assert IsAt(rest, DataKey, i - 7);
          assert q[i - 1] == rest[i - 8];
          assert q[i + 5] == rest[i - 2];
        }
      }
    } else {
      var rest := QuoteKeys(s[1..]);
      QuoteKeysLeavesNoBareKey(s[1..]);
      assert q == [s[0]] + rest;
      forall i: nat | IsAt(q, DataKey, i)
        ensures 1 <= i && i + |DataKey| < |q| && q[i - 1] == '"' && q[i + |DataKey|] == '"'
      {
        if i == 0 {
          assert q[..5] == DataKey;
          forall j | 0 <= j < 4 ensures rest[j] != '"' {
            assert rest[j] == q[j + 1] == DataKey[j + 1];
          }
          QuoteKeysCopiesUntilQuote(s[1..], 4);
          assert false;
        } else {
          assert q[i..i + 5] == rest[i - 1..i + 4];
          assert IsAt(rest, DataKey, i - 1);
          assert q[i + 5] == rest[i + 4];
          assert q[i - 1] == rest[i - 2];
        }
      }
    }
  }

  /** The cleaned text has no unquoted `datas` key. */
  lemma CleanedHasNoBareKey(text: string)
    requires Cleaned(text).Success?
    ensures forall i: nat :: IsAt(Cleaned(text).value, DataKey, i) ==>
      1 <= i && i + |DataKey| < |Cleaned(text).value| &&
      Cleaned(text).value[i - 1] == '"' && Cleaned(text).value[i + |DataKey|] == '"'
  {
    var s := Stripped(text);
    QuoteKeysLeavesNoBareKey(Truncated(s, FindFirst(s, Marker).value));
  }
}
