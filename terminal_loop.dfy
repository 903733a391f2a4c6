/**
 * The render loop of src/TerminalLoop.cpp. Each iteration reads one byte of
 * standard input, quits when it is 'Q' or 'q', otherwise runs the content
 * producer's update and then render (resample, clear, print), and sleeps for
 * what is left of the frame if the iteration ran short.
 *
 * The loop is modelled on its inputs and its visible calls: one `Tick` per
 * iteration carries that iteration's poll result and the time the update
 * and render took; the calls it makes form an event trace. The resampling
 * step (setUpScaledGrid) is an opaque event.
 */
module Loop {
  import opened Colors
  import opened Symbols
  import opened Terminal

  /** The outcome of a one-byte `read`: no byte (end of input or an error), or the byte read. */
  datatype Poll = NoInput | Key(ch: char)

  /** One iteration's inputs: the poll result and the milliseconds update and render took. */
  datatype Tick = Tick(poll: Poll, elapsed: real)

  /** The calls the loop makes, in order. */
  datatype Event =
    | Update
    | Resample(keepRatio: bool)
    | Clear
    | Print
    | Sleep(ms: int)

  /** A read that returned a byte, and the byte is the cancel key. */
  predicate IsCancel(p: Poll) {
    p.Key? && (p.ch == 'Q' || p.ch == 'q')
  }

  /** render(): setUpScaledGrid(scaleRatio), then clearTerminal, then printTerminal. */
  function RenderEvents(keepRatio: bool): seq<Event> {
    [Resample(keepRatio), Clear, Print]
  }

  /** The sleep after a frame: only when it ran short, for the remainder truncated to whole milliseconds. */
  function SleepAfter(frameDuration: real, elapsed: real): (e: seq<Event>)
    ensures |e| <= 1
    ensures |e| == 1 <==> elapsed < frameDuration
    ensures |e| == 1 ==> e[0].Sleep? && 0 <= e[0].ms &&
                           e[0].ms as real <= frameDuration - elapsed < e[0].ms as real + 1.0
  {
    if elapsed < frameDuration then [Sleep(Trunc(frameDuration - elapsed))] else []
  }

  /** One full iteration after a non-cancelling poll. */
  function FrameEvents(frameDuration: real, keepRatio: bool, elapsed: real): seq<Event> {
    [Update] + RenderEvents(keepRatio) + SleepAfter(frameDuration, elapsed)
  }

  /**
   * The trace of run() over the given iterations, and whether it returned
   * (true) or was still looping when the inputs ran out (false).
   */
  function RunTrace(ticks: seq<Tick>, frameDuration: real, keepRatio: bool): (seq<Event>, bool) {
    if |ticks| == 0 then ([], false)
    else if IsCancel(ticks[0].poll) then ([], true)
    else
      var rest := RunTrace(ticks[1..], frameDuration, keepRatio);
      (FrameEvents(frameDuration, keepRatio, ticks[0].elapsed) + rest.0, rest.1)
  }

  /** Index of the first cancelling poll, or the number of ticks if there is none. */
  function FirstCancel(ticks: seq<Tick>): (k: nat)
    ensures k <= |ticks|
    ensures forall m :: 0 <= m < k ==> !IsCancel(ticks[m].poll)
    ensures k < |ticks| ==> IsCancel(ticks[k].poll)
  {
    if |ticks| == 0 || IsCancel(ticks[0].poll) then 0 else 1 + FirstCancel(ticks[1..])
  }

  function CountUpdates(trace: seq<Event>): nat {
    if |trace| == 0 then 0 else (if trace[0] == Update then 1 else 0) + CountUpdates(trace[1..])
  }

  function CountResamples(trace: seq<Event>): nat {
    if |trace| == 0 then 0 else (if trace[0].Resample? then 1 else 0) + CountResamples(trace[1..])
  }

  lemma {:induction false} CountsAppend(a: seq<Event>, b: seq<Event>)
    ensures CountUpdates(a + b) == CountUpdates(a) + CountUpdates(b)
    ensures CountResamples(a + b) == CountResamples(a) + CountResamples(b)
  {
    if |a| > 0 {
      assert (a + b)[1..] == a[1..] + b;
      CountsAppend(a[1..], b);
    } else {
      assert a + b == b;
    }
  }

  lemma FrameCounts(frameDuration: real, keepRatio: bool, elapsed: real)
    ensures CountUpdates(FrameEvents(frameDuration, keepRatio, elapsed)) == 1
    ensures CountResamples(FrameEvents(frameDuration, keepRatio, elapsed)) == 1
  {
    var head: seq<Event> := [Update, Resample(keepRatio), Clear, Print];
    var tail := SleepAfter(frameDuration, elapsed);
    assert FrameEvents(frameDuration, keepRatio, elapsed) == head + tail;
    var h1: seq<Event> := [Resample(keepRatio), Clear, Print];
    var h2: seq<Event> := [Clear, Print];
    var h3: seq<Event> := [Print];
    assert h3[1..] == [] && h2[1..] == h3 && h1[1..] == h2 && head[1..] == h1;
    assert CountUpdates(h3) == 0 && CountResamples(h3) == 0;
    assert CountUpdates(h2) == 0 && CountResamples(h2) == 0;
    assert CountUpdates(h1) == 0 && CountResamples(h1) == 1;
    assert CountUpdates(head) == 1 && CountResamples(head) == 1;
    CountsAppend(head, tail);
    if |tail| == 1 {
      assert tail[1..] == [];
    }
    assert CountUpdates(tail) == 0 && CountResamples(tail) == 0;
  }

  /** One non-cancelling iteration at the front of the remaining ticks. */
  lemma RunStep(ticks: seq<Tick>, n: nat, frameDuration: real, keepRatio: bool)
    requires n < |ticks| && !IsCancel(ticks[n].poll)
    ensures RunTrace(ticks[n..], frameDuration, keepRatio) ==
              (FrameEvents(frameDuration, keepRatio, ticks[n].elapsed) + RunTrace(ticks[n + 1..], frameDuration, keepRatio).0,
               RunTrace(ticks[n + 1..], frameDuration, keepRatio).1)
  {
    assert ticks[n..][1..] == ticks[n + 1..];
  }



  /**
   * The loop returns exactly when some poll reads the cancel key; nothing
   * else ends it.
   */
  lemma {:induction false} ReturnsOnlyOnCancel(ticks: seq<Tick>, frameDuration: real, keepRatio: bool)
    ensures RunTrace(ticks, frameDuration, keepRatio).1 <==> exists k :: 0 <= k < |ticks| && IsCancel(ticks[k].poll)
  {
    if |ticks| > 0 && !IsCancel(ticks[0].poll) {
      ReturnsOnlyOnCancel(ticks[1..], frameDuration, keepRatio);
      if exists k :: 0 <= k < |ticks| && IsCancel(ticks[k].poll) {
        var k :| 0 <= k < |ticks| && IsCancel(ticks[k].poll);
        assert IsCancel(ticks[1..][k - 1].poll);
      }
      if exists k :: 0 <= k < |ticks[1..]| && IsCancel(ticks[1..][k].poll) {
        var k :| 0 <= k < |ticks[1..]| && IsCancel(ticks[1..][k].poll);
        assert IsCancel(ticks[k + 1].poll);
      }
    }
  }

  /**
   * Nothing after the first cancelling poll contributes to the trace: the
   * trace equals that of the iterations before it.
   */
  lemma {:induction false} CancelStopsImmediately(ticks: seq<Tick>, frameDuration: real, keepRatio: bool)
    ensures RunTrace(ticks, frameDuration, keepRatio).0 ==
              RunTrace(ticks[..FirstCancel(ticks)], frameDuration, keepRatio).0
  {
    if |ticks| > 0 && !IsCancel(ticks[0].poll) {
      CancelStopsImmediately(ticks[1..], frameDuration, keepRatio);
      var k := FirstCancel(ticks);
      assert ticks[..k][1..] == ticks[1..][..k - 1];
    }
  }

  /** There are exactly as many update/render pairs as polls before the first cancel. */
  lemma {:induction false} UpdatesBeforeCancel(ticks: seq<Tick>, frameDuration: real, keepRatio: bool)
    ensures CountUpdates(RunTrace(ticks, frameDuration, keepRatio).0) == FirstCancel(ticks)
    ensures CountResamples(RunTrace(ticks, frameDuration, keepRatio).0) == FirstCancel(ticks)
  {
    if |ticks| > 0 && !IsCancel(ticks[0].poll) {
      UpdatesBeforeCancel(ticks[1..], frameDuration, keepRatio);
      var f := FrameEvents(frameDuration, keepRatio, ticks[0].elapsed);
      FrameCounts(frameDuration, keepRatio, ticks[0].elapsed);
      CountsAppend(f, RunTrace(ticks[1..], frameDuration, keepRatio).0);
    }
  }

  /**
   * Every sleep in the trace belongs to an iteration that ran shorter than
   * the frame duration, and lasts the remainder truncated to whole
   * milliseconds.
   */
  lemma {:induction false} SleepsOnlyWhenShort(ticks: seq<Tick>, frameDuration: real, keepRatio: bool, p: nat)
    requires p < |RunTrace(ticks, frameDuration, keepRatio).0|
    requires RunTrace(ticks, frameDuration, keepRatio).0[p].Sleep?
    ensures exists k :: 0 <= k < |ticks| && ticks[k].elapsed < frameDuration &&
              RunTrace(ticks, frameDuration, keepRatio).0[p] == Sleep(Trunc(frameDuration - ticks[k].elapsed))
  {
    var t := RunTrace(ticks, frameDuration, keepRatio).0;
    assert |ticks| > 0 && !IsCancel(ticks[0].poll);
    var f := FrameEvents(frameDuration, keepRatio, ticks[0].elapsed);
    var rest := RunTrace(ticks[1..], frameDuration, keepRatio).0;
    assert t == f + rest;
    if p < |f| {
      assert p == 4 && ticks[0].elapsed < frameDuration;
      assert t[p] == Sleep(Trunc(frameDuration - ticks[0].elapsed));
    } else {
      assert t[p] == rest[p - |f|];
      SleepsOnlyWhenShort(ticks[1..], frameDuration, keepRatio, p - |f|);
      var k :| 0 <= k < |ticks[1..]| && ticks[1..][k].elapsed < frameDuration &&
               rest[p - |f|] == Sleep(Trunc(frameDuration - ticks[1..][k].elapsed));
      assert ticks[k + 1] == ticks[1..][k];
    }
  }

  /** `TerminalLoop`: the terminal surface, the frame duration and the aspect flag. */
  class TerminalLoop {
    const terminal: TerminalControl
    /** Target length of one iteration, in milliseconds. */
    var frameDuration: real
    /** Whether resampling keeps the aspect ratio. */
    const scaleRatio: bool

    /** Builds the terminal surface and sets frameDuration = 1000 / FrameRate milliseconds. */
    constructor (Height: nat, Width: nat, FrameRate: real, ScaleRatio: bool, blank: OneSymbol, dev: Device)
      requires FrameRate != 0.0
      modifies dev
      ensures fresh(terminal)
      ensures terminal.dev == dev && terminal.blank == blank
      ensures |terminal.activeGrid| == Height
      ensures forall i :: 0 <= i < Height ==> |terminal.activeGrid[i]| == Width
      ensures forall i, j :: 0 <= i < Height && 0 <= j < Width ==> terminal.activeGrid[i][j] == blank
      ensures terminal.scaledGrid == []
      ensures dev.output == old(dev.output) + CursorHide
      ensures dev.lflag == WithoutEcho(old(dev.lflag))
      ensures scaleRatio == ScaleRatio
      ensures frameDuration * FrameRate == 1000.0
    {
      terminal := new TerminalControl(Height, Width, blank, dev);
      scaleRatio := ScaleRatio;
      frameDuration := 1000.0 / FrameRate;
    }

    /** render(): the three calls, in order. */
    method Render() returns (events: seq<Event>)
      ensures events == RenderEvents(scaleRatio)
    {
      events := [Resample(scaleRatio)];
      events := events + [Clear];
      events := events + [Print];
    }

    /** run(): iterates over the given ticks and stops at the first cancel key. */
    method Run(ticks: seq<Tick>) returns (trace: seq<Event>, cancelled: bool)
      ensures (trace, cancelled) == RunTrace(ticks, frameDuration, scaleRatio)
    {
      trace := [];
      var n := 0;
      while n < |ticks|
        invariant 0 <= n <= |ticks|
        invariant trace + RunTrace(ticks[n..], frameDuration, scaleRatio).0 ==
                    RunTrace(ticks, frameDuration, scaleRatio).0
        invariant RunTrace(ticks[n..], frameDuration, scaleRatio).1 == RunTrace(ticks, frameDuration, scaleRatio).1
      {
        var tick := ticks[n];
        if IsCancel(tick.poll) {
          cancelled := true;
          assert RunTrace(ticks[n..], frameDuration, scaleRatio) == ([], true);
          assert trace + [] == trace;
          return;
        }
        var frame := [Update];
        var rendered := Render();
        frame := frame + rendered;
        if tick.elapsed < frameDuration {
          frame := frame + [Sleep(Trunc(frameDuration - tick.elapsed))];
        }
        assert frame == FrameEvents(frameDuration, scaleRatio, tick.elapsed);
        RunStep(ticks, n, frameDuration, scaleRatio);
        Associative(trace, frame, RunTrace(ticks[n + 1..], frameDuration, scaleRatio).0);
        trace := trace + frame;
        n := n + 1;
      }
      cancelled := false;
      assert ticks[n..] == [];
      assert trace + [] == trace;
    }
  }
}
