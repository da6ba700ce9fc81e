/** `calculate_fps`: once per frame it reads the clock, keeps a window of
    per-frame times that it flushes to the log when full, and recomputes
    the frame rate once more than a second has passed since the last
    recomputation. Its function-local statics are the fields of a
    `FrameTimer`; the clock readings are parameters. */
module FrameTiming {
  import opened FrameLog

  /** Everything `calculate_fps` keeps between calls. The two buffers hold
      `FRAME_TIME_RECORDING_WINDOW_SIZE` (500) unsigned 32-bit values. */
  datatype Timer = Timer(
    record: bool,      // g_recordMetrics, fixed once the parameter file is read
    fps: real,
    times: seq<int>,   // frametimes
    ids: seq<int>,     // frameids
    index: int,        // frametime_window_index
    frameId: nat,      // global_frameid
    prevStamp: int,    // prev_frame_timestamp
    prev: int,         // start of the current frame-rate interval
    ready: bool,       // frametimes != NULL
    log: seq<LogToken>)

  /** The window's `frames` counter (frames drawn since the interval began)
      and its `benchmark_time`. */
  datatype Counters = Counters(frames: int, benchmarkTime: int)

  /** The timer before the first frame. */
  function Initial(record: bool): (t: Timer)
    ensures Inv(t)
  {
    Timer(record, 0.0, seq(500, _ => 0), seq(500, _ => 0), 0, 0, 0, 0, false, [])
  }

  /** The frame rate of `frames` frames drawn in `delta` microseconds. */
  function FramesPerSecond(frames: int, delta: int): real
    requires delta > 0
  {
    (frames as real) / ((delta as real) / 1000000.0)
  }

  /** The buffers have their 500 slots and the write index is inside them. */
  predicate Shape(t: Timer)
  {
    |t.times| == 500 && |t.ids| == 500 && 0 <= t.index <= 499
  }

  /** The state every call leaves behind:
      - without recording nothing is allocated, indexed or logged;
      - with recording the buffers exist from the first frame on, and the
        log is the header followed by well-formed rows;
      - before the first flush every frame so far is in the buffer, after
        it at least one full batch came before the buffered frames;
      - the buffered ids are the last `index` frame ids, modulo 2^32. */
  predicate Inv(t: Timer)
  {
    && Shape(t)
    && (!t.record ==> !t.ready && t.index == 0 && t.log == [])
    && (t.record ==> (t.ready <==> t.frameId > 0))
    && (!t.ready ==> t.index == 0 && t.log == [])
    && (t.ready ==>
          && |t.log| >= 1 && t.log[0] == Header && WellFormedRows(t.log[1..])
          && ((|t.log| == 1 && t.frameId == t.index) || (|t.log| > 1 && t.frameId >= 499 + t.index))
          && forall i :: 0 <= i < t.index ==> t.ids[i] == (t.frameId - t.index + i) % 0x1_0000_0000)
  }

  /** First recorded frame: allocate the buffers, restart the index, take
      a second clock reading as the previous frame's time and write the
      header. */
  function Allocate(t: Timer, again: int): (r: Timer)
    ensures r.ready == (t.ready || t.record)
    ensures r.log == t.log || (t.log == [] ==> r.log == [Header])
    ensures r.times == t.times && r.ids == t.ids && r.frameId == t.frameId && r.record == t.record
    ensures r.index == 0 || r == t
    ensures t.ready || !t.record ==> r == t
    ensures !t.ready && t.record ==> r.log == t.log + [Header] && r.index == 0 && r.prevStamp == again
  {
    if !t.ready && t.record then
      t.(ready := true, index := 0, prevStamp := again, log := t.log + [Header])
    else
      t
  }

  /** A full window: the separator when more than 500 frames have passed,
      the first 499 entries, and the index back to 0. */
  function Flush(t: Timer): (r: Timer)
    requires |t.times| == 500 && |t.ids| == 500
    ensures |t.log| <= |r.log| && r.log[..|t.log|] == t.log
    ensures r.times == t.times && r.ids == t.ids && r.frameId == t.frameId && r.record == t.record
    ensures r != t ==> t.record && t.index >= 499 && r.index == 0 && |r.log| > |t.log|
  {
    if t.index >= 499 && t.record then
      t.(log := t.log + (if 500 < t.frameId then [RowEnd] else []) + Batch(t.ids, t.times, 499), index := 0)
    else
      t
  }

  /** Record the time since the previous frame and the frame id, both cut
      to 32 bits, at the write index. */
  function Store(t: Timer, stamp: int): (r: Timer)
    requires |t.times| == 500 && |t.ids| == 500
    requires t.record ==> 0 <= t.index < 500
    ensures r.log == t.log && r.frameId == t.frameId && r.record == t.record && r.ready == t.ready
    ensures |r.times| == 500 && |r.ids| == 500
    ensures !t.record ==> r == t
    ensures t.record ==>
      && r.index == t.index + 1 && r.prevStamp == stamp
      && r.ids[t.index] == t.frameId % 0x1_0000_0000
      && 0 <= r.times[t.index] < 0x1_0000_0000
      && forall i :: 0 <= i < 500 && i != t.index ==> r.times[i] == t.times[i] && r.ids[i] == t.ids[i]
  {
    if t.record then
      t.(times := t.times[t.index := (stamp - t.prevStamp) % 0x1_0000_0000],
         ids := t.ids[t.index := t.frameId % 0x1_0000_0000],
         prevStamp := stamp,
         index := t.index + 1)
    else
      t
  }

  /** More than a second (on the unsigned 64-bit clock difference) since
      the interval began: the new rate, the interval restarted now, the
      window's frame counter reset and its `uint32_t` start time set to the
      low 32 bits of the reading. */
  function Rate(t: Timer, w: Counters, now: nat): (r: (Timer, Counters))
    ensures r.0.(fps := t.fps, prev := t.prev) == t
    ensures r == (t, w) || (r.0.prev == now && r.1.frames == 0 && 0 <= r.1.benchmarkTime < 0x1_0000_0000)
    ensures r != (t, w) ==> r.0.prev == now && r.1 == Counters(0, now % 0x1_0000_0000)
  {
    var delta := (now - t.prev) % 0x1_0000_0000_0000_0000;
    if delta > 1000000 then
      (t.(fps := FramesPerSecond(w.frames, delta), prev := now), Counters(0, now % 0x1_0000_0000))
    else
      (t, w)
  }

  /** One call of `calculate_fps` at clock reading `now`; `again` is the
      second reading taken when the buffers are allocated. */
  function TickSpec(t: Timer, w: Counters, now: nat, again: nat): (r: (Timer, Counters))
    requires Shape(t)
    ensures r.0.frameId == t.frameId + 1 && r.0.record == t.record
    ensures |t.log| <= |r.0.log| && r.0.log[..|t.log|] == t.log
  {
    var anchored := t.(prev := if t.frameId == 0 then now else t.prev);
    var stamp := if !t.ready && t.record then again else now;
    var flushed := Flush(Allocate(anchored, again));
    var stored := Store(flushed, stamp);
    var (rated, counters) := Rate(stored, w, now);
    (rated.(frameId := t.frameId + 1), counters)
  }

  /** The separator rule writes `,\n` before a flush exactly when earlier
      rows exist: the first flush comes at frame 499, every later one at
      frame 998 or beyond. */
  lemma SeparatorMatchesRows(t: Timer)
    requires Inv(t) && t.ready && t.index == 499
    ensures (if 500 < t.frameId then [RowEnd] else []) == Separator(t.log[1..])
  {
  }

  /** The recording part of a call (allocation, flush and store) keeps
      the invariant once the frame id has moved on. */
  lemma RecordingKeepsInv(t: Timer, now: nat, again: nat)
    requires Inv(t)
    ensures var anchored := t.(prev := if t.frameId == 0 then now else t.prev);
      var stamp := if !t.ready && t.record then again else now;
      Inv(Store(Flush(Allocate(anchored, again)), stamp).(frameId := t.frameId + 1))
  {
    var anchored := t.(prev := if t.frameId == 0 then now else t.prev);
    var stamp := if !t.ready && t.record then again else now;
    var started := Allocate(anchored, again);
    var flushed := Flush(started);
    var r := Store(flushed, stamp).(frameId := t.frameId + 1);
    if !t.record {
      assert r == anchored.(frameId := t.frameId + 1);
    } else if !t.ready {
      assert flushed == started;
      assert started.log == [Header] && started.index == 0;
      StoreKeepsIds(flushed, stamp);
      assert r.log == [Header] && r.index == 1 && r.frameId == 1;
    } else if t.index < 499 {
      assert flushed == anchored;
      StoreKeepsIds(flushed, stamp);
      assert r.log == t.log && r.index == t.index + 1;
    } else {
      assert started == anchored;
      SeparatorMatchesRows(started);
      AppendBatch(started.log[1..], Separator(started.log[1..]), started.ids, started.times, 499);
      assert flushed.log[1..] == started.log[1..] + Separator(started.log[1..]) + Batch(started.ids, started.times, 499);
      StoreKeepsIds(flushed, stamp);
      assert r.log == flushed.log && r.index == 1 && |r.log| > 1;
    }
  }

  /** A store continues the run of consecutive frame ids in the buffer. */
  lemma StoreKeepsIds(f: Timer, stamp: int)
    requires |f.times| == 500 && |f.ids| == 500 && f.record && 0 <= f.index < 500
    requires forall i :: 0 <= i < f.index ==> f.ids[i] == (f.frameId - f.index + i) % 0x1_0000_0000
    ensures var r := Store(f, stamp);
      forall i :: 0 <= i < r.index ==> r.ids[i] == (f.frameId + 1 - r.index + i) % 0x1_0000_0000
  {
  }

  /** Every call keeps the invariant. */
  lemma TickKeepsInv(t: Timer, w: Counters, now: nat, again: nat)
    requires Inv(t)
    ensures Inv(TickSpec(t, w, now, again).0)
  {
    var anchored := t.(prev := if t.frameId == 0 then now else t.prev);
    var stamp := if !t.ready && t.record then again else now;
    var stored := Store(Flush(Allocate(anchored, again)), stamp);
    RecordingKeepsInv(t, now, again);
    var rated := Rate(stored, w, now).0;
    assert TickSpec(t, w, now, again).0 == rated.(frameId := t.frameId + 1);
    assert rated.(frameId := t.frameId + 1) == stored.(frameId := t.frameId + 1).(fps := rated.fps, prev := rated.prev);
  }

  /** Stores never leave the buffers: with recording on, the frame is
      stored at slot `index - 1` of the new state, at most 498, and that
      slot holds its id and the time since the previous recorded frame,
      cut to 32 bits (0 for the first recorded frame). */
  lemma StoreInBounds(t: Timer, w: Counters, now: nat, again: nat)
    requires Inv(t) && t.record
    ensures var r := TickSpec(t, w, now, again).0;
      && 1 <= r.index <= 499
      && r.ids[r.index - 1] == t.frameId % 0x1_0000_0000
      && r.times[r.index - 1] == (if t.ready then (now - t.prevStamp) % 0x1_0000_0000 else 0)
      && r.frameId == t.frameId + 1
  {
  }

  /** The first recorded frame takes both its timestamps from the same
      reading, so its recorded time is 0. */
  lemma FirstRecordedTimeIsZero(t: Timer, w: Counters, now: nat, again: nat)
    requires Inv(t) && t.record && t.frameId == 0
    ensures var r := TickSpec(t, w, now, again).0;
      r.index == 1 && r.times[0] == 0 && r.ids[0] == 0 && r.log == [Header]
  {
  }

  /** A flush happens exactly when the window is full, and writes the
      separator the rows need and the 499 buffered entries in order, whose
      ids are consecutive frame ids. */
  lemma FlushWritesWindow(t: Timer, w: Counters, now: nat, again: nat)
    requires Inv(t) && t.ready
    ensures var r := TickSpec(t, w, now, again).0;
      if t.index == 499 then
        && r.log == t.log + Separator(t.log[1..]) + Batch(t.ids, t.times, 499)
        && Records(r.log[|t.log|..]) == seq(499, i requires 0 <= i < 499 => (t.ids[i], t.times[i]))
        && (forall i :: 0 <= i < 499 ==> t.ids[i] == (t.frameId - 499 + i) % 0x1_0000_0000)
      else
        r.log == t.log
  {
    var r := TickSpec(t, w, now, again).0;
    if t.index == 499 {
      SeparatorMatchesRows(t);
      assert r.log[|t.log|..] == Separator(t.log[1..]) + Batch(t.ids, t.times, 499);
      RecordsAppend(Separator(t.log[1..]), Batch(t.ids, t.times, 499));
      RecordsOfBatch(t.ids, t.times, 499);
    }
  }

  /** Without recording the buffers and the log are never touched. */
  lemma NoRecordingNoLog(t: Timer, w: Counters, now: nat, again: nat)
    requires Inv(t) && !t.record
    ensures var r := TickSpec(t, w, now, again).0;
      r.log == [] && r.times == t.times && r.ids == t.ids && r.index == 0
  {
  }

  /** The frame rate, the interval start and the window counters change
      exactly when more than a second has passed since the interval began;
      then the rate is the frames over the elapsed time, the counter is
      reset and the interval restarts now. */
  lemma RateWindow(t: Timer, w: Counters, now: nat, again: nat)
    requires Inv(t)
    ensures var (r, c) := TickSpec(t, w, now, again);
      var start := if t.frameId == 0 then now else t.prev;
      var delta := (now - start) % 0x1_0000_0000_0000_0000;
      if delta > 1000000 then
        r.fps == FramesPerSecond(w.frames, delta) && r.prev == now && c == Counters(0, now % 0x1_0000_0000)
      else
        r.fps == t.fps && r.prev == start && c == w
  {
  }

  /** The first call anchors the interval at its own reading, so it never
      recomputes the rate. */
  lemma FirstCallKeepsRate(t: Timer, w: Counters, now: nat, again: nat)
    requires Inv(t) && t.frameId == 0
    ensures var (r, c) := TickSpec(t, w, now, again);
      r.fps == t.fps && r.prev == now && c == w
  {
    RateWindow(t, w, now, again);
  }

  /** The caller's window: the frames drawn since the interval began and
      the time the interval began. */
  class Window {
    var frames: int
    var benchmarkTime: int

    function Snapshot(): Counters
      reads this
    {
      Counters(frames, benchmarkTime)
    }

    constructor ()
      ensures frames == 0 && benchmarkTime == 0
    {
      frames, benchmarkTime := 0, 0;
    }
  }

  class FrameTimer {
    const record: bool
    var fps: real
    const frametimes: array<int>
    const frameids: array<int>
    var index: int
    var frameId: nat
    var prevStamp: int
    var prev: int
    var ready: bool
    var log: seq<LogToken>

    function State(): Timer
      reads this, frametimes, frameids
    {
      Timer(record, fps, frametimes[..], frameids[..], index, frameId, prevStamp, prev, ready, log)
    }

    ghost predicate Valid()
      reads this, frametimes, frameids
    {
      frametimes != frameids && Inv(State())
    }

    /** The statics before the first call; `record` is the recording flag
        of the parameter file. */
    constructor (record: bool)
      ensures Valid() && State() == Initial(record)
      ensures fresh(frametimes) && fresh(frameids)
    {
      this.record := record;
      fps := 0.0;
      frametimes := new int[500](_ => 0);
      frameids := new int[500](_ => 0);
      index, frameId, prevStamp, prev := 0, 0, 0, 0;
      ready := false;
      log := [];
      new;
      assert frametimes[..] == seq(500, _ => 0);
      assert frameids[..] == seq(500, _ => 0);
    }

    /** The flush loop: the separator when more than 500 frames have
        passed, then entries 0 to 497 each ending its row, then entry 498. */
    method FlushLog()
      requires frametimes.Length == 500 && frameids.Length == 500
      modifies this`log
      ensures log == old(log) + (if 500 < frameId then [RowEnd] else []) + Batch(frameids[..], frametimes[..], 499)
    {
      if 500 < frameId {
        log := log + [RowEnd];
      }
      ghost var base := log;
      var i := 0;
      while i < 498
        invariant 0 <= i <= 498
        invariant |log| == |base| + 2 * i && log[..|base|] == base
        invariant forall k :: 0 <= k < 2 * i ==> log[|base| + k] == BatchToken(frameids[..], frametimes[..], k)
      {
        log := log + [Record(frameids[i], frametimes[i]), RowEnd];
        i := i + 1;
      }
      log := log + [Record(frameids[498], frametimes[498])];
      assert log[|base|..] == Batch(frameids[..], frametimes[..], 499);
      assert log == base + log[|base|..];
    }

    /** The allocation block of `calculate_fps`. */
    method StartRecording(again: nat)
      requires frametimes.Length == 500 && frameids.Length == 500
      modifies this`ready, this`index, this`prevStamp, this`log
      ensures State() == Allocate(old(State()), again)
    {
      if !ready && record {
        ready := true;
        index := 0;
        prevStamp := again;
        log := log + [Header];
      }
    }

    /** The flush block of `calculate_fps`. */
    method FlushWindow()
      requires frametimes.Length == 500 && frameids.Length == 500
      modifies this`log, this`index
      ensures State() == Flush(old(State()))
    {
      if index >= 499 && record {
        FlushLog();
        index := 0;
      }
    }

    /** The store block of `calculate_fps`. */
    method StoreFrame(stamp: int)
      requires frametimes.Length == 500 && frameids.Length == 500 && frametimes != frameids
      requires record ==> 0 <= index < 500
      modifies this`prevStamp, this`index, frametimes, frameids
      ensures State() == Store(old(State()), stamp)
    {
      if record {
        frametimes[index] := (stamp - prevStamp) % 0x1_0000_0000;
        frameids[index] := frameId % 0x1_0000_0000;
        prevStamp := stamp;
        index := index + 1;
      }
    }

    /** The frame-rate block of `calculate_fps`. */
    method UpdateRate(now: nat, win: Window)
      modifies this`fps, this`prev, win
      ensures (State(), win.Snapshot()) == Rate(old(State()), old(win.Snapshot()), now)
    {
      var delta := (now - prev) % 0x1_0000_0000_0000_0000;
      if delta > 1000000 {
        fps := FramesPerSecond(win.frames, delta);
        prev := now;
        win.frames := 0;
        win.benchmarkTime := now % 0x1_0000_0000;
      }
    }

    /** One call of `calculate_fps` at clock reading `now` (`again` is the
        second reading taken on allocation); returns the frame rate and the
        reading in milliseconds. */
    method Tick(now: nat, again: nat, win: Window) returns (rate: real, timeNow: int)
      requires Valid()
      modifies this, frametimes, frameids, win
      ensures Valid()
      ensures (State(), win.Snapshot()) == TickSpec(old(State()), old(win.Snapshot()), now, again)
      ensures rate == fps && timeNow == now / 1000
    {
      ghost var t := State();
      ghost var w := win.Snapshot();
      if frameId == 0 {
        prev := now;
      }
      ghost var anchored := State();
      assert anchored == t.(prev := if t.frameId == 0 then now else t.prev);
      var stamp := if !ready && record then again else now;
      StartRecording(again);
      FlushWindow();
      StoreFrame(stamp);
      ghost var stored := State();
      assert stored == Store(Flush(Allocate(anchored, again)), stamp);
      UpdateRate(now, win);
      assert (State(), win.Snapshot()) == Rate(stored, w, now);
      timeNow := now / 1000;
      frameId := frameId + 1;
      rate := fps;
      assert State() == TickSpec(t, w, now, again).0;
      TickKeepsInv(t, w, now, again);
    }
  }
}
