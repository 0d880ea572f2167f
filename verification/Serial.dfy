// The generic serial connector's framing (connectors/serial/connector.go): bytes arrive in reads of any size, frames are
// cut at a delimiter byte or wherever the line falls idle, empty frames are not published, and a buffer that grows past
// max_frame without a boundary is thrown away.
module Serial {

  type Bytes = seq<nat>

  // What readFrames holds between reads. `dropped` counts the bytes thrown away for exceeding max_frame.
  datatype Framer = Framer(frames: seq<Bytes>, buf: Bytes, dropped: nat)

  const START := Framer([], [], 0)

  // ----- the byte-at-a-time reading of a stream -----------------------------------------------------------

  function Emit(frames: seq<Bytes>, frame: Bytes): seq<Bytes> {
    if frame == [] then frames else frames + [frame]
  }

  // The non-empty delimiter-separated segments of a stream, in order.
  function Segments(s: Bytes, delim: nat): seq<Bytes> {
    if s == [] then []
    else if s[|s| - 1] == delim then Emit(Segments(s[..|s| - 1], delim), Tail(s[..|s| - 1], delim))
    else Segments(s[..|s| - 1], delim)
  }

  // The unfinished tail: everything after the last delimiter.
  function Tail(s: Bytes, delim: nat): Bytes {
    if s == [] || s[|s| - 1] == delim then [] else Tail(s[..|s| - 1], delim) + [s[|s| - 1]]
  }

  // The same reading continued from frames and a tail already at hand.
  function SplitOn(f: Framer, s: Bytes, delim: nat): Framer {
    if s == [] then f
    else
      var g := SplitOn(f, s[..|s| - 1], delim);
      if s[|s| - 1] == delim then Framer(Emit(g.frames, g.buf), [], g.dropped)
      else g.(buf := g.buf + [s[|s| - 1]])
  }

  // One read of the connector: append, split, then enforce max_frame on what is left.
  function Read(f: Framer, chunk: Bytes, delim: nat, maxFrame: nat): Framer {
    var g := SplitOn(f, chunk, delim);
    if chunk != [] && |g.buf| > maxFrame then Framer(g.frames, [], g.dropped + |g.buf|) else g
  }

  function ReadAll(chunks: seq<Bytes>, delim: nat, maxFrame: nat): Framer {
    if chunks == [] then START
    else Read(ReadAll(chunks[..|chunks| - 1], delim, maxFrame), chunks[|chunks| - 1], delim, maxFrame)
  }

  function Flat(chunks: seq<Bytes>): Bytes {
    if chunks == [] then [] else Flat(chunks[..|chunks| - 1]) + chunks[|chunks| - 1]
  }

  // ----- readFrames: the splitting loop over the buffer ---------------------------------------------------

  method IndexOf(buf: Bytes, delim: nat) returns (idx: int)
    ensures idx < 0 ==> delim !in buf
    ensures idx >= 0 ==> idx < |buf| && buf[idx] == delim && delim !in buf[..idx]
  {
    for i := 0 to |buf|
      invariant delim !in buf[..i]
    {
      if buf[i] == delim { return i; }
      assert buf[..i + 1] == buf[..i] + [buf[i]];
    }
    assert buf[..|buf|] == buf;
    idx := -1;
  }

  lemma {:induction false} SplitConcat(f: Framer, a: Bytes, b: Bytes, delim: nat)
    ensures SplitOn(f, a + b, delim) == SplitOn(SplitOn(f, a, delim), b, delim)
  {
    if b == [] {
      assert a + b == a;
    } else {
      assert (a + b)[..|a + b| - 1] == a + b[..|b| - 1];
      SplitConcat(f, a, b[..|b| - 1], delim);
    }
  }

  // A delimiter-free string only lengthens the buffer.
  lemma {:induction false} SplitQuiet(f: Framer, s: Bytes, delim: nat)
    requires delim !in s
    ensures SplitOn(f, s, delim) == f.(buf := f.buf + s)
  {
    if s == [] {
      assert f.buf + s == f.buf;
    } else {
      SplitQuiet(f, s[..|s| - 1], delim);
      assert f.buf + s == f.buf + s[..|s| - 1] + [s[|s| - 1]];
    }
  }

  lemma SplitOne(f: Framer, delim: nat)
    ensures SplitOn(f, [delim], delim) == Framer(Emit(f.frames, f.buf), [], f.dropped)
  {
    assert SplitOn(f, [delim][..0], delim) == f;
  }

  lemma CutFirst(frames: seq<Bytes>, buf: Bytes, dropped: nat, idx: nat, delim: nat)
    requires idx < |buf| && buf[idx] == delim && delim !in buf[..idx]
    ensures SplitOn(Framer(frames, [], dropped), buf, delim)
         == SplitOn(Framer(Emit(frames, buf[..idx]), [], dropped), buf[idx + 1..], delim)
  {
    hide SplitOn;
    var cur := Framer(frames, [], dropped);
    var frame, rest := buf[..idx], buf[idx + 1..];
    assert buf == frame + ([delim] + rest);
    SplitConcat(cur, frame, [delim] + rest, delim);
    SplitQuiet(cur, frame, delim);
    assert [] + frame == frame;
    SplitConcat(cur.(buf := frame), [delim], rest, delim);
    SplitOne(cur.(buf := frame), delim);
  }

  lemma {:induction false} SplitGrows(f: Framer, s: Bytes, delim: nat)
    ensures f.frames <= SplitOn(f, s, delim).frames
  {
    if s != [] { SplitGrows(f, s[..|s| - 1], delim); }
  }

  lemma {:induction false} ReadsGrow(chunks: seq<Bytes>, i: nat, delim: nat, maxFrame: nat)
    requires i <= |chunks|
    ensures ReadAll(chunks[..i], delim, maxFrame).frames <= ReadAll(chunks, delim, maxFrame).frames
    decreases |chunks|
  {
    if i < |chunks| {
      var front := chunks[..|chunks| - 1];
      ReadsGrow(front, i, delim, maxFrame);
      assert front[..i] == chunks[..i];
      SplitGrows(ReadAll(front, delim, maxFrame), chunks[|chunks| - 1], delim);
    } else {
      assert chunks[..i] == chunks;
    }
  }

  // The handler took every frame from the first to the second count.
  ghost predicate Took(accepts: nat -> bool, from: nat, to: nat) { forall i: nat :: from <= i < to ==> accepts(i) }

  // Splitting the buffer from the front, as the code does, gives what reading the new bytes one at a time
  // gives; a frame the handler refuses ends it, and the frames handed on are those before it.
  method SplitBuffer(f: Framer, chunk: Bytes, delim: nat, accepts: nat -> bool) returns (g: Framer, ok: bool)
    requires delim !in f.buf
    ensures ok ==> g == SplitOn(f, chunk, delim) && delim !in g.buf
    ensures !ok ==> g.frames < SplitOn(f, chunk, delim).frames && !accepts(|g.frames|)
    ensures |f.frames| <= |g.frames| && Took(accepts, |f.frames|, |g.frames|)
  {
    hide SplitOn;
    var buf, frames := f.buf + chunk, f.frames;
    SplitConcat(Framer(frames, [], f.dropped), f.buf, chunk, delim);
    SplitQuiet(Framer(frames, [], f.dropped), f.buf, delim);
    assert [] + f.buf == f.buf;
    var idx := IndexOf(buf, delim);
    while idx >= 0
      invariant SplitOn(Framer(frames, [], f.dropped), buf, delim) == SplitOn(f, chunk, delim)
      invariant idx < 0 ==> delim !in buf
      invariant idx >= 0 ==> idx < |buf| && buf[idx] == delim && delim !in buf[..idx]
      invariant |f.frames| <= |frames| && Took(accepts, |f.frames|, |frames|)
      decreases |buf|, idx
    {
      CutFirst(frames, buf, f.dropped, idx, delim);
      var frame := buf[..idx];
      buf := buf[idx + 1..];
      if |frame| != 0 {
        if !accepts(|frames|) {
          SplitGrows(Framer(frames + [frame], [], f.dropped), buf, delim);
          return Framer(frames, [], f.dropped), false;
        }
        frames := frames + [frame];
      }
      idx := IndexOf(buf, delim);
    }
    SplitQuiet(Framer(frames, [], f.dropped), buf, delim);
    assert [] + buf == buf;
    return Framer(frames, buf, f.dropped), true;
  }

  method OnRead(f: Framer, chunk: Bytes, delim: nat, maxFrame: nat, accepts: nat -> bool) returns (g: Framer, ok: bool)
    requires delim !in f.buf
    ensures ok ==> g == Read(f, chunk, delim, maxFrame) && delim !in g.buf
    ensures !ok ==> g.frames < Read(f, chunk, delim, maxFrame).frames && !accepts(|g.frames|)
    ensures |f.frames| <= |g.frames| && Took(accepts, |f.frames|, |g.frames|)
  {
    g, ok := f, true;
    if |chunk| > 0 {
      g, ok := SplitBuffer(f, chunk, delim, accepts);
      if ok && |g.buf| > maxFrame { g := Framer(g.frames, [], g.dropped + |g.buf|); }
    }
  }

  // The read loop over everything the port delivers, up to the first frame the handler refuses.
  method ReadFrames(chunks: seq<Bytes>, delim: nat, maxFrame: nat, accepts: nat -> bool) returns (f: Framer, ok: bool)
    ensures ok ==> f == ReadAll(chunks, delim, maxFrame) && delim !in f.buf
    ensures !ok ==> f.frames < ReadAll(chunks, delim, maxFrame).frames && !accepts(|f.frames|)
    ensures Took(accepts, 0, |f.frames|)
  {
    hide Read;
    f := START;
    for i := 0 to |chunks|
      invariant f == ReadAll(chunks[..i], delim, maxFrame) && delim !in f.buf
      invariant Took(accepts, 0, |f.frames|)
    {
      assert chunks[..i + 1][..i] == chunks[..i];
      f, ok := OnRead(f, chunks[i], delim, maxFrame, accepts);
      if !ok {
        ReadsGrow(chunks, i + 1, delim, maxFrame);
        return;
      }
    }
    assert chunks[..|chunks|] == chunks;
    ok := true;
  }

  // ----- chunking does not matter -----------------------------------------------------------------------

  lemma {:induction false} SplitIsSegments(s: Bytes, delim: nat)
    ensures SplitOn(START, s, delim) == Framer(Segments(s, delim), Tail(s, delim), 0)
  {
    if s != [] { SplitIsSegments(s[..|s| - 1], delim); }
  }

  // Every read leaves an unfinished tail that fits.
  predicate TailsFit(chunks: seq<Bytes>, delim: nat, maxFrame: nat) {
    chunks == [] ||
    (TailsFit(chunks[..|chunks| - 1], delim, maxFrame)
     && (chunks[|chunks| - 1] != [] ==> |Tail(Flat(chunks), delim)| <= maxFrame))
  }

  predicate Exact(f: Framer, s: Bytes, delim: nat) {
    f.frames == Segments(s, delim) && f.buf == Tail(s, delim)
  }

  lemma {:induction false} FitIsExact(chunks: seq<Bytes>, delim: nat, maxFrame: nat)
    requires TailsFit(chunks, delim, maxFrame)
    ensures Exact(ReadAll(chunks, delim, maxFrame), Flat(chunks), delim)
    ensures ReadAll(chunks, delim, maxFrame).dropped == 0
  {
    if chunks != [] {
      var front, last := chunks[..|chunks| - 1], chunks[|chunks| - 1];
      FitIsExact(front, delim, maxFrame);
      SplitIsSegments(Flat(front), delim);
      SplitConcat(START, Flat(front), last, delim);
      SplitIsSegments(Flat(chunks), delim);
    }
  }

  // Conservation: every byte that is not a delimiter is in a frame, in the buffer, or was dropped.
  function Size(frames: seq<Bytes>): nat {
    if frames == [] then 0 else Size(frames[..|frames| - 1]) + |frames[|frames| - 1]|
  }

  function Payload(s: Bytes, delim: nat): nat {
    if s == [] then 0 else Payload(s[..|s| - 1], delim) + (if s[|s| - 1] == delim then 0 else 1)
  }

  function Held(f: Framer): nat { Size(f.frames) + |f.buf| + f.dropped }

  lemma EmitSize(frames: seq<Bytes>, frame: Bytes)
    ensures Size(Emit(frames, frame)) == Size(frames) + |frame|
  {
    assert (frames + [frame])[..|frames|] == frames;
  }

  lemma {:induction false} SplitConserves(f: Framer, s: Bytes, delim: nat)
    ensures Held(SplitOn(f, s, delim)) == Held(f) + Payload(s, delim)
    ensures SplitOn(f, s, delim).dropped == f.dropped
  {
    if s != [] {
      var g := SplitOn(f, s[..|s| - 1], delim);
      SplitConserves(f, s[..|s| - 1], delim);
      EmitSize(g.frames, g.buf);
    }
  }

  lemma {:induction false} PayloadConcat(a: Bytes, b: Bytes, delim: nat)
    ensures Payload(a + b, delim) == Payload(a, delim) + Payload(b, delim)
  {
    if b == [] {
      assert a + b == a;
    } else {
      assert (a + b)[..|a + b| - 1] == a + b[..|b| - 1];
      PayloadConcat(a, b[..|b| - 1], delim);
    }
  }

  lemma {:induction false} Conservation(chunks: seq<Bytes>, delim: nat, maxFrame: nat)
    ensures Held(ReadAll(chunks, delim, maxFrame)) == Payload(Flat(chunks), delim)
  {
    if chunks != [] {
      var front, last := chunks[..|chunks| - 1], chunks[|chunks| - 1];
      Conservation(front, delim, maxFrame);
      SplitConserves(ReadAll(front, delim, maxFrame), last, delim);
      PayloadConcat(Flat(front), last, delim);
    }
  }

  lemma {:induction false} NothingDroppedFits(chunks: seq<Bytes>, delim: nat, maxFrame: nat)
    requires ReadAll(chunks, delim, maxFrame).dropped == 0
    ensures TailsFit(chunks, delim, maxFrame)
  {
    if chunks != [] {
      var front, last := chunks[..|chunks| - 1], chunks[|chunks| - 1];
      SplitConserves(ReadAll(front, delim, maxFrame), last, delim);
      NothingDroppedFits(front, delim, maxFrame);
      FitIsExact(front, delim, maxFrame);
      SplitIsSegments(Flat(front), delim);
      SplitConcat(START, Flat(front), last, delim);
      SplitIsSegments(Flat(chunks), delim);
    }
  }

  // Main theorem: for a given cutting of the stream into reads, the frames and the buffer are exactly the
  // stream's segments and tail if and only if no read leaves a tail longer than max_frame.
  lemma ExactIff(chunks: seq<Bytes>, delim: nat, maxFrame: nat)
    ensures Exact(ReadAll(chunks, delim, maxFrame), Flat(chunks), delim) <==> TailsFit(chunks, delim, maxFrame)
  {
    var f := ReadAll(chunks, delim, maxFrame);
    if TailsFit(chunks, delim, maxFrame) { FitIsExact(chunks, delim, maxFrame); }
    if Exact(f, Flat(chunks), delim) {
      Conservation(chunks, delim, maxFrame);
      SplitConserves(START, Flat(chunks), delim);
      SplitIsSegments(Flat(chunks), delim);
      NothingDroppedFits(chunks, delim, maxFrame);
    }
  }

  // Every delimiter-free run of the stream is at most maxFrame long: a run ends at some position, and is
  // then the tail of the stream cut there.
  predicate RunsFit(s: Bytes, delim: nat, maxFrame: nat) {
    forall i :: 0 <= i <= |s| ==> |Tail(s[..i], delim)| <= maxFrame
  }

  lemma {:induction false} RunsFitAnyCut(chunks: seq<Bytes>, delim: nat, maxFrame: nat)
    requires RunsFit(Flat(chunks), delim, maxFrame)
    ensures TailsFit(chunks, delim, maxFrame)
  {
    if chunks != [] {
      var front, s := chunks[..|chunks| - 1], Flat(chunks);
      var p := Flat(front);
      forall i | 0 <= i <= |p| ensures |Tail(p[..i], delim)| <= maxFrame { assert p[..i] == s[..i]; }
      RunsFitAnyCut(front, delim, maxFrame);
      assert s[..|s|] == s;
    }
  }

  function Singles(s: Bytes): seq<Bytes> {
    if s == [] then [] else Singles(s[..|s| - 1]) + [[s[|s| - 1]]]
  }

  lemma {:induction false} FlatSingles(s: Bytes)
    ensures Flat(Singles(s)) == s
  {
    if s != [] {
      FlatSingles(s[..|s| - 1]);
      assert Singles(s)[..|Singles(s)| - 1] == Singles(s[..|s| - 1]);
    }
  }

  lemma {:induction false} SinglesFit(s: Bytes, delim: nat, maxFrame: nat)
    requires TailsFit(Singles(s), delim, maxFrame)
    ensures RunsFit(s, delim, maxFrame)
  {
    if s != [] {
      var front := s[..|s| - 1];
      FlatSingles(s);
      assert Singles(s)[..|Singles(s)| - 1] == Singles(front);
      SinglesFit(front, delim, maxFrame);
      forall i | 0 <= i <= |s| ensures |Tail(s[..i], delim)| <= maxFrame {
        if i < |s| { assert s[..i] == front[..i]; } else { assert s[..i] == s; }
      }
    }
  }

  // A stream is framed correctly under every cutting into reads exactly when its delimiter-free runs fit.
  lemma EveryCutExactIff(s: Bytes, delim: nat, maxFrame: nat)
    ensures RunsFit(s, delim, maxFrame) <==>
              forall chunks :: Flat(chunks) == s ==> Exact(ReadAll(chunks, delim, maxFrame), s, delim)
  {
    if RunsFit(s, delim, maxFrame) {
      forall chunks | Flat(chunks) == s ensures Exact(ReadAll(chunks, delim, maxFrame), s, delim) {
        RunsFitAnyCut(chunks, delim, maxFrame);
        ExactIff(chunks, delim, maxFrame);
      }
    } else {
      FlatSingles(s);
      ExactIff(Singles(s), delim, maxFrame);
      if TailsFit(Singles(s), delim, maxFrame) { SinglesFit(s, delim, maxFrame); }
    }
  }

  // No segment is empty or holds a delimiter.
  lemma {:induction false} SegmentsClean(s: Bytes, delim: nat)
    ensures delim !in Tail(s, delim)
    ensures forall i :: 0 <= i < |Segments(s, delim)| ==> Segments(s, delim)[i] != [] && delim !in Segments(s, delim)[i]
  {
    if s != [] { SegmentsClean(s[..|s| - 1], delim); }
  }

  // A finished frame comes out whole: after any stream, a delimiter-free run and a delimiter add that run,
  // glued to the pending tail, as the next frame.
  lemma SegmentsAppend(s: Bytes, run: Bytes, delim: nat)
    requires delim !in run
    ensures Segments(s + run + [delim], delim) == Emit(Segments(s, delim), Tail(s, delim) + run)
    ensures Tail(s + run + [delim], delim) == [] && Tail(s + run, delim) == Tail(s, delim) + run
  {
    SplitIsSegments(s, delim);
    SplitIsSegments(s + run, delim);
    SplitIsSegments(s + run + [delim], delim);
    SplitConcat(START, s, run, delim);
    SplitQuiet(SplitOn(START, s, delim), run, delim);
    SplitConcat(START, s + run, [delim], delim);
    SplitOne(SplitOn(START, s + run, delim), delim);
  }

  // The stream without its delimiters.
  function Undelimited(s: Bytes, delim: nat): Bytes {
    if s == [] then [] else Undelimited(s[..|s| - 1], delim) + (if s[|s| - 1] == delim then [] else [s[|s| - 1]])
  }

  lemma FlatEmit(frames: seq<Bytes>, frame: Bytes)
    ensures Flat(Emit(frames, frame)) == Flat(frames) + frame
  {
    assert (frames + [frame])[..|frames|] == frames;
    assert Flat(frames) + [] == Flat(frames);
  }

  // Frames and tail together are the stream without its delimiters, byte for byte and in order.
  lemma {:induction false} SegmentsWhole(s: Bytes, delim: nat)
    ensures Flat(Segments(s, delim)) + Tail(s, delim) == Undelimited(s, delim)
  {
    if s != [] {
      var front := s[..|s| - 1];
      SegmentsWhole(front, delim);
      FlatEmit(Segments(front, delim), Tail(front, delim));
    }
  }

  // ----- framing by idle gaps -------------------------------------------------------------------------------

  // One turn of the loop: what the port delivered, and whether the line has been idle for long enough since.
  datatype Turn = Turn(data: Bytes, idle: bool)

  function IdleTurn(f: Framer, t: Turn, maxFrame: nat): Framer {
    var g := if t.data != [] && |f.buf + t.data| > maxFrame then Framer(f.frames, [], f.dropped + |f.buf + t.data|)
             else f.(buf := f.buf + t.data);
    if t.idle then Framer(Emit(g.frames, g.buf), [], g.dropped) else g
  }

  function IdleAll(turns: seq<Turn>, maxFrame: nat): Framer {
    if turns == [] then START else IdleTurn(IdleAll(turns[..|turns| - 1], maxFrame), turns[|turns| - 1], maxFrame)
  }

  // The bytes since the last gap, and the non-empty stretches between gaps.
  function Pending(turns: seq<Turn>): Bytes
    decreases |turns|, 1
  {
    if turns == [] || turns[|turns| - 1].idle then [] else Gathered(turns)
  }

  // The bytes since the gap before the latest turn.
  function Gathered(turns: seq<Turn>): Bytes
    requires turns != []
    decreases |turns|, 0
  {
    Pending(turns[..|turns| - 1]) + turns[|turns| - 1].data
  }

  function Stretches(turns: seq<Turn>): seq<Bytes> {
    if turns == [] then []
    else if turns[|turns| - 1].idle then Emit(Stretches(turns[..|turns| - 1]), Gathered(turns))
    else Stretches(turns[..|turns| - 1])
  }

  predicate StretchesFit(turns: seq<Turn>, maxFrame: nat) {
    turns == [] ||
    (StretchesFit(turns[..|turns| - 1], maxFrame) && (turns[|turns| - 1].data != [] ==> |Gathered(turns)| <= maxFrame))
  }

  function Total(turns: seq<Turn>): nat {
    if turns == [] then 0 else Total(turns[..|turns| - 1]) + |turns[|turns| - 1].data|
  }

  function DataOf(turns: seq<Turn>): Bytes {
    if turns == [] then [] else DataOf(turns[..|turns| - 1]) + turns[|turns| - 1].data
  }

  lemma EmitClean(frames: seq<Bytes>, frame: Bytes)
    requires forall i :: 0 <= i < |frames| ==> frames[i] != []
    ensures forall i :: 0 <= i < |Emit(frames, frame)| ==> Emit(frames, frame)[i] != []
  {
  }

  // Stretches and pending bytes together are everything the port delivered, in order, and no stretch is empty.
  lemma {:induction false} StretchesWhole(turns: seq<Turn>)
    ensures Flat(Stretches(turns)) + Pending(turns) == DataOf(turns)
    ensures forall i :: 0 <= i < |Stretches(turns)| ==> Stretches(turns)[i] != []
  {
    if turns != [] {
      var front := turns[..|turns| - 1];
      hide Flat, Emit;
      StretchesWhole(front);
      var done, held, data := Flat(Stretches(front)), Pending(front), turns[|turns| - 1].data;
      FlatEmit(Stretches(front), held + data);
      EmitClean(Stretches(front), held + data);
      assert done + (held + data) == (done + held) + data;
      assert turns[|turns| - 1].idle ==> DataOf(turns) + [] == DataOf(turns);
    }
  }

  // Turns without a gap only lengthen what is pending ...
  lemma {:induction false} QuietTurns(turns: seq<Turn>, run: seq<Turn>)
    requires forall i :: 0 <= i < |run| ==> !run[i].idle
    ensures Stretches(turns + run) == Stretches(turns) && Pending(turns + run) == Pending(turns) + DataOf(run)
  {
    if run == [] {
      assert turns + run == turns;
    } else {
      var front, t := run[..|run| - 1], run[|run| - 1];
      QuietTurns(turns, front);
      assert (turns + run)[..|turns + run| - 1] == turns + front;
      assert Pending(turns) + DataOf(front) + t.data == Pending(turns) + DataOf(run);
    }
  }

  // ... and a gap makes it the next frame.
  lemma GapEndsFrame(turns: seq<Turn>, run: seq<Turn>, t: Turn)
    requires t.idle && forall i :: 0 <= i < |run| ==> !run[i].idle
    ensures Stretches(turns + run + [t]) == Emit(Stretches(turns), Pending(turns) + DataOf(run) + t.data)
    ensures Pending(turns + run + [t]) == []
  {
    QuietTurns(turns, run);
    assert (turns + run + [t])[..|turns + run|] == turns + run;
  }

  lemma {:induction false} FitIsExactIdle(turns: seq<Turn>, maxFrame: nat)
    requires StretchesFit(turns, maxFrame)
    ensures IdleAll(turns, maxFrame) == Framer(Stretches(turns), Pending(turns), 0)
  {
    if turns != [] { FitIsExactIdle(turns[..|turns| - 1], maxFrame); }
  }

  lemma {:induction false} ConservationIdle(turns: seq<Turn>, maxFrame: nat)
    ensures Held(IdleAll(turns, maxFrame)) == Total(turns)
    ensures Size(Stretches(turns)) + |Pending(turns)| == Total(turns)
  {
    if turns != [] {
      var front, t := turns[..|turns| - 1], turns[|turns| - 1];
      ConservationIdle(front, maxFrame);
      EmitSize(Stretches(front), Gathered(turns));
      var f := IdleAll(front, maxFrame);
      EmitSize(f.frames, f.buf + t.data);
      EmitSize(f.frames, []);
    }
  }

  lemma {:induction false} NothingDroppedIdle(turns: seq<Turn>, maxFrame: nat)
    requires IdleAll(turns, maxFrame).dropped == 0
    ensures StretchesFit(turns, maxFrame)
  {
    if turns != [] {
      NothingDroppedIdle(turns[..|turns| - 1], maxFrame);
      FitIsExactIdle(turns[..|turns| - 1], maxFrame);
    }
  }

  // The frames are exactly the stretches between gaps, and the buffer what came since, if and only if no stretch grows
  // past max_frame.
  lemma IdleExactIff(turns: seq<Turn>, maxFrame: nat)
    ensures var f := IdleAll(turns, maxFrame);
            f.frames == Stretches(turns) && f.buf == Pending(turns) <==> StretchesFit(turns, maxFrame)
  {
    if StretchesFit(turns, maxFrame) { FitIsExactIdle(turns, maxFrame); }
    var f := IdleAll(turns, maxFrame);
    if f.frames == Stretches(turns) && f.buf == Pending(turns) {
      ConservationIdle(turns, maxFrame);
      NothingDroppedIdle(turns, maxFrame);
    }
  }

  lemma {:induction false} TurnsGrow(turns: seq<Turn>, i: nat, maxFrame: nat)
    requires i <= |turns|
    ensures IdleAll(turns[..i], maxFrame).frames <= IdleAll(turns, maxFrame).frames
    decreases |turns|
  {
    if i < |turns| {
      TurnsGrow(turns[..|turns| - 1], i, maxFrame);
      assert turns[..|turns| - 1][..i] == turns[..i];
    } else {
      assert turns[..i] == turns;
    }
  }

  method OnTurn(f: Framer, t: Turn, maxFrame: nat, accepts: nat -> bool) returns (g: Framer, ok: bool)
    ensures ok ==> g == IdleTurn(f, t, maxFrame)
    ensures !ok ==> g.frames < IdleTurn(f, t, maxFrame).frames && !accepts(|g.frames|)
    ensures |f.frames| <= |g.frames| && Took(accepts, |f.frames|, |g.frames|)
  {
    g := f;
    assert f.buf + [] == f.buf;
    if |t.data| > 0 {
      g := g.(buf := g.buf + t.data);
      if |g.buf| > maxFrame { g := Framer(g.frames, [], g.dropped + |g.buf|); }
    }
    if t.idle && |g.buf| > 0 {
      var frame := g.buf;
      g := g.(buf := []);
      if !accepts(|g.frames|) { return g, false; }
      g := g.(frames := g.frames + [frame]);
    }
    ok := true;
  }

  // The read loop in idle mode, up to the first frame the handler refuses.
  method ReadIdle(turns: seq<Turn>, maxFrame: nat, accepts: nat -> bool) returns (f: Framer, ok: bool)
    ensures ok ==> f == IdleAll(turns, maxFrame)
    ensures !ok ==> f.frames < IdleAll(turns, maxFrame).frames && !accepts(|f.frames|)
    ensures Took(accepts, 0, |f.frames|)
  {
    hide IdleTurn;
    f := START;
    for i := 0 to |turns|
      invariant f == IdleAll(turns[..i], maxFrame) && Took(accepts, 0, |f.frames|)
    {
      assert turns[..i + 1][..i] == turns[..i];
      f, ok := OnTurn(f, turns[i], maxFrame, accepts);
      if !ok {
        TurnsGrow(turns, i + 1, maxFrame);
        return;
      }
    }
    assert turns[..|turns|] == turns;
    ok := true;
  }
}
