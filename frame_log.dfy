/** The frame-time log: a header line, then one row per recorded frame
    (`id,\tmicroseconds`), rows separated by `,\n`. The log is written in
    batches of 499 rows each time the recording window fills. */
module FrameLog {

  /** What the log receives: the column header, one row, or the `,\n`
      that ends a row. */
  datatype LogToken = Header | Record(frameId: int, micros: int) | RowEnd

  /** Token `k` of a flushed batch: rows at even positions, row ends at
      odd ones. */
  function BatchToken(ids: seq<int>, times: seq<int>, k: nat): LogToken
    requires k / 2 < |ids| && k / 2 < |times|
  {
    if k % 2 == 0 then Record(ids[k / 2], times[k / 2]) else RowEnd
  }

  /** The tokens of a flush of the first `n` entries: every row but the
      last is followed by `,\n`. */
  function Batch(ids: seq<int>, times: seq<int>, n: nat): seq<LogToken>
    requires 1 <= n <= |ids| && n <= |times|
  {
    seq(2 * n - 1, k requires 0 <= k < 2 * n - 1 => BatchToken(ids, times, k))
  }

  /** The rows of a stretch of log, in order. */
  function Records(tokens: seq<LogToken>): (r: seq<(int, int)>)
    ensures |r| <= |tokens|
  {
    if tokens == [] then []
    else if tokens[0].Record? then [(tokens[0].frameId, tokens[0].micros)] + Records(tokens[1..])
    else Records(tokens[1..])
  }

  lemma {:induction false} RecordsAppend(a: seq<LogToken>, b: seq<LogToken>)
    ensures Records(a + b) == Records(a) + Records(b)
  {
    if a == [] {
      assert a + b == b;
    } else {
      assert (a + b)[1..] == a[1..] + b;
      RecordsAppend(a[1..], b);
    }
  }

  /** A flush writes exactly the first `n` entries, in order, one row
      each. */
  lemma {:induction false} RecordsOfBatch(ids: seq<int>, times: seq<int>, n: nat)
    requires 1 <= n <= |ids| && n <= |times|
    ensures Records(Batch(ids, times, n)) == seq(n, i requires 0 <= i < n => (ids[i], times[i]))
  {
    if n == 1 {
      assert Batch(ids, times, 1) == [Record(ids[0], times[0])];
    } else {
      assert Batch(ids, times, n) == Batch(ids, times, n - 1) + [RowEnd, Record(ids[n - 1], times[n - 1])];
      RecordsOfBatch(ids, times, n - 1);
      RecordsAppend(Batch(ids, times, n - 1), [RowEnd, Record(ids[n - 1], times[n - 1])]);
    }
  }

  /** The body of a well-formed log: rows and row ends alternate, starting
      and ending with a row, so every row sits on a line of its own. */
  predicate WellFormedRows(body: seq<LogToken>)
  {
    (|body| == 0 || |body| % 2 == 1)
    && forall k :: 0 <= k < |body| ==> (body[k].Record? <==> k % 2 == 0) && !body[k].Header?
  }

  /** The `,\n` the program writes before a flush whenever earlier rows
      exist. */
  function Separator(body: seq<LogToken>): seq<LogToken>
  {
    if |body| == 0 then [] else [RowEnd]
  }

  /** Appending a flush keeps the rows well formed exactly when the
      separator is written before it if and only if rows came before:
      without it the last old row and the first new one share a line;
      with it on an empty log the first line is blank. */
  lemma AppendBatch(body: seq<LogToken>, sep: seq<LogToken>, ids: seq<int>, times: seq<int>, n: nat)
    requires WellFormedRows(body) && (sep == [] || sep == [RowEnd])
    requires 1 <= n <= |ids| && n <= |times|
    ensures WellFormedRows(body + sep + Batch(ids, times, n)) <==> sep == Separator(body)
  {
    var all := body + sep + Batch(ids, times, n);
    if sep == Separator(body) {
      forall k | 0 <= k < |all|
        ensures (all[k].Record? <==> k % 2 == 0) && !all[k].Header?
      {
        if k >= |body| + |sep| {
          var b := k - |body| - |sep|;
          assert all[k] == BatchToken(ids, times, b);
        }
      }
    } else if |body| == 0 {
      assert all[0] == RowEnd;
    } else {
      assert all[|body|] == Record(ids[0], times[0]);
    }
  }
}
