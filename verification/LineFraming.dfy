/** Newline framing that survives cancellation (crates/wx-agent/src/ipc.rs:87-90, 1087-1150). Lines are bytes;
    decoding them is not modelled. */
module LineFraming {
  import opened Wrappers
  import opened Fnv

  const NEWLINE: byte := 10
  const MAX_LINE_LEN := 1024 * 1024

  function FirstNewline(s: seq<byte>): (r: Option<nat>)
    ensures r.Some? ==> r.value < |s| && s[r.value] == NEWLINE && NEWLINE !in s[..r.value]
    ensures r.None? <==> NEWLINE !in s
  {
    if s == [] then None
    else if s[0] == NEWLINE then Some(0)
    else
      var rest := FirstNewline(s[1..]);
      assert rest.Some? ==> s[..rest.value + 1] == [s[0]] + s[1..][..rest.value];
      if rest.None? then None else Some(rest.value + 1)
  }

  /** The complete lines of a stream, in order; a trailing fragment is not one. */
  function Lines(s: seq<byte>): seq<seq<byte>>
    decreases |s|
  {
    var i := FirstNewline(s);
    if i.None? then [] else [s[..i.value]] + Lines(s[i.value + 1..])
  }

  function Joined(chunks: seq<seq<byte>>): seq<byte> {
    if chunks == [] then [] else chunks[0] + Joined(chunks[1..])
  }

  datatype Outcome =
    | Line(line: seq<byte>)
    | EndOfInput
    | TooLong
    | Cancelled // dropped while waiting for bytes

  /** The partial line kept between calls, and the reads still to come; an empty read is the end. */
  datatype Framer = Framer(pending: seq<byte>, chunks: seq<seq<byte>>)
  {
    function Unread(): seq<byte> { pending + Joined(chunks) }

    predicate Valid() { forall i :: 0 <= i < |chunks| ==> chunks[i] != [] }
  }

  /** One call, dropped at its await once `patience` reads have completed. */
  function Next(f: Framer, patience: nat): (Outcome, Framer)
    decreases patience
  {
    var i := FirstNewline(f.pending);
    if i.Some? then (Line(f.pending[..i.value]), f.(pending := f.pending[i.value + 1..]))
    else if |f.pending| > MAX_LINE_LEN then (TooLong, f)
    else if patience == 0 then (Cancelled, f)
    else if f.chunks == [] then (EndOfInput, f)
    else Next(Framer(f.pending + f.chunks[0], f.chunks[1..]), patience - 1)
  }

  function Larger(a: nat, b: nat): nat {
    if a < b then b else a
  }

  /** The most the buffer holds at any point of a call. */
  function Peak(f: Framer, patience: nat): nat
    decreases patience
  {
    if FirstNewline(f.pending).Some? || |f.pending| > MAX_LINE_LEN || patience == 0 || f.chunks == [] then |f.pending|
    else Larger(|f.pending|, Peak(Framer(f.pending + f.chunks[0], f.chunks[1..]), patience - 1))
  }

  /** A buffered stream: each read hands over the next chunk, and consuming it removes it. */
  class ByteReader {
    var chunks: seq<seq<byte>>

    constructor (chunks: seq<seq<byte>>)
      ensures this.chunks == chunks
    {
      this.chunks := chunks;
    }

    function FillBuf(): seq<byte>
      reads this
    {
      if chunks == [] then [] else chunks[0]
    }

    method Consume()
      requires chunks != []
      modifies this
      ensures chunks == old(chunks)[1..]
    {
      chunks := chunks[1..];
    }
  }

  class LineReader {
    var pending: seq<byte>

    constructor ()
      ensures pending == []
    {
      pending := [];
    }

    /** `peak` is the most the buffer held, measured each time round. */
    method NextLine(reader: ByteReader, patience: nat) returns (r: Outcome, ghost peak: nat)
      requires Framer(pending, reader.chunks).Valid()
      modifies this, reader
      ensures (r, Framer(pending, reader.chunks)) == Next(old(Framer(pending, reader.chunks)), patience)
      ensures peak == Peak(old(Framer(pending, reader.chunks)), patience)
    {
      var left := patience;
      peak := 0;
      while true
        invariant Framer(pending, reader.chunks).Valid()
        invariant Next(Framer(pending, reader.chunks), left) == Next(old(Framer(pending, reader.chunks)), patience)
        invariant Larger(peak, Peak(Framer(pending, reader.chunks), left)) == Peak(old(Framer(pending, reader.chunks)), patience)
        decreases left
      {
        peak := Larger(peak, |pending|);
        var i := FirstNewline(pending);
        if i.Some? {
          r := Line(pending[..i.value]);
          pending := pending[i.value + 1..];
          return;
        }
        if |pending| > MAX_LINE_LEN {
          return TooLong, peak;
        }
        if left == 0 {
          return Cancelled, peak;
        }
        var available := reader.FillBuf();
        if available == [] {
          return EndOfInput, peak;
        }
        pending := pending + available;
        reader.Consume();
        left := left - 1;
        assert Framer(pending, reader.chunks).Valid();
      }
    }
  }

  // --- One call ------------------------------------------------------------

  /** No call loses or invents a byte, wherever it is dropped: a line takes itself and its newline off the
      front of what is unread, and every other outcome leaves all of it. */
  lemma {:induction false} Conserves(f: Framer, patience: nat)
    ensures var (r, g) := Next(f, patience);
            && (r.Line? ==> f.Unread() == r.line + [NEWLINE] + g.Unread() && NEWLINE !in r.line)
            && (!r.Line? ==> f.Unread() == g.Unread())
            && (r.EndOfInput? ==> g.chunks == [] && NEWLINE !in f.Unread())
            && (f.Valid() ==> g.Valid())
    decreases patience
  {
    var i := FirstNewline(f.pending);
    if i.Some? {
      assert f.pending == f.pending[..i.value] + [NEWLINE] + f.pending[i.value + 1..];
    } else if |f.pending| <= MAX_LINE_LEN && patience > 0 && f.chunks != [] {
      var next := Framer(f.pending + f.chunks[0], f.chunks[1..]);
      assert f.Unread() == next.Unread();
      Conserves(next, patience - 1);
    }
  }

  /** No stretch of the stream longer than the limit without a newline. */
  ghost predicate ShortStretches(s: seq<byte>) {
    forall i: nat :: i < |s| - MAX_LINE_LEN ==> NEWLINE in Stretch(s, i)
  }

  function Stretch(s: seq<byte>, i: nat): seq<byte>
    requires i < |s| - MAX_LINE_LEN
  {
    s[i..i + MAX_LINE_LEN + 1]
  }

  /** A reader that is refused has more than the longest line unterminated in front of it. */
  lemma {:induction false} RefusedOnlyWhenTooLong(f: Framer, patience: nat)
    requires Next(f, patience).0.TooLong?
    ensures |f.Unread()| > 1_048_576 && NEWLINE !in f.Unread()[..MAX_LINE_LEN + 1]
    ensures !ShortStretches(f.Unread())
    decreases patience
  {
    if |f.pending| > MAX_LINE_LEN {
      assert f.Unread()[..MAX_LINE_LEN + 1] == f.pending[..MAX_LINE_LEN + 1] == Stretch(f.Unread(), 0);
    } else {
      var next := Framer(f.pending + f.chunks[0], f.chunks[1..]);
      assert f.Unread() == next.Unread();
      RefusedOnlyWhenTooLong(next, patience - 1);
    }
  }

  ghost predicate ChunksWithin(chunks: seq<seq<byte>>, limit: nat) {
    forall c <- chunks :: |c| <= limit
  }

  /** At no point of a call does the buffer hold more than the longest line and one read. */
  lemma {:induction false} BufferBounded(f: Framer, patience: nat, limit: nat)
    requires ChunksWithin(f.chunks, limit) && |f.pending| <= MAX_LINE_LEN + limit
    ensures var (r, g) := Next(f, patience);
            && Peak(f, patience) <= MAX_LINE_LEN + limit
            && |g.pending| <= MAX_LINE_LEN + limit && ChunksWithin(g.chunks, limit)
            && (r.Line? ==> |r.line| < MAX_LINE_LEN + limit)
    decreases patience
  {
    if FirstNewline(f.pending).None? && |f.pending| <= MAX_LINE_LEN && patience > 0 && f.chunks != [] {
      assert f.chunks[0] in f.chunks;
      BufferBounded(Framer(f.pending + f.chunks[0], f.chunks[1..]), patience - 1, limit);
    }
  }

  /** A call allowed to wait for every read, and for the end, is not dropped. */
  lemma {:induction false} PatientCallFinishes(f: Framer, patience: nat)
    requires patience > |f.chunks|
    ensures !Next(f, patience).0.Cancelled?
    decreases patience
  {
    if FirstNewline(f.pending).None? && |f.pending| <= MAX_LINE_LEN && f.chunks != [] {
      PatientCallFinishes(Framer(f.pending + f.chunks[0], f.chunks[1..]), patience - 1);
    }
  }

  // --- Runs of calls -------------------------------------------------------

  /** Calls made one after another, each dropped wherever its patience runs out. */
  ghost predicate Run(f: Framer, patience: seq<nat>, outcomes: seq<Outcome>, g: Framer)
    decreases patience
  {
    if patience == [] then outcomes == [] && f == g
    else
      var (r, next) := Next(f, patience[0]);
      outcomes != [] && outcomes[0] == r && Run(next, patience[1..], outcomes[1..], g)
  }

  /** The peak is at least what the buffer starts with, what it ends with, and a line and its newline taken off. */
  lemma {:induction false} PeakCovers(f: Framer, patience: nat)
    ensures var (r, g) := Next(f, patience);
            |f.pending| <= Peak(f, patience) && |g.pending| + (if r.Line? then |r.line| + 1 else 0) <= Peak(f, patience)
    decreases patience
  {
    if FirstNewline(f.pending).None? && |f.pending| <= MAX_LINE_LEN && patience > 0 && f.chunks != [] {
      PeakCovers(Framer(f.pending + f.chunks[0], f.chunks[1..]), patience - 1);
    }
  }

  function PeakOver(f: Framer, patience: seq<nat>): nat
    decreases patience
  {
    if patience == [] then |f.pending|
    else Larger(Peak(f, patience[0]), PeakOver(Next(f, patience[0]).1, patience[1..]))
  }

  /** And so at every point of every run of calls. */
  lemma {:induction false} BufferBoundedOnRuns(f: Framer, patience: seq<nat>, limit: nat)
    requires ChunksWithin(f.chunks, limit) && |f.pending| <= MAX_LINE_LEN + limit
    ensures PeakOver(f, patience) <= MAX_LINE_LEN + limit
    decreases patience
  {
    hide Next, Peak, ChunksWithin;
    if patience != [] {
      BufferBounded(f, patience[0], limit);
      BufferBoundedOnRuns(Next(f, patience[0]).1, patience[1..], limit);
    }
  }

  function LinesAmong(outcomes: seq<Outcome>): seq<seq<byte>> {
    if outcomes == [] then []
    else (if outcomes[0].Line? then [outcomes[0].line] else []) + LinesAmong(outcomes[1..])
  }

  lemma FirstLine(line: seq<byte>, rest: seq<byte>)
    requires NEWLINE !in line
    ensures Lines(line + [NEWLINE] + rest) == [line] + Lines(rest)
  {
    var s := line + [NEWLINE] + rest;
    FirstNewlineAfter(line, rest);
    assert s[..|line|] == line && s[|line| + 1..] == rest;
    hide FirstNewline;
  }

  lemma {:induction false} FirstNewlineAfter(line: seq<byte>, rest: seq<byte>)
    requires NEWLINE !in line
    ensures FirstNewline(line + [NEWLINE] + rest) == Some(|line|)
  {
    var s := line + [NEWLINE] + rest;
    if line != [] {
      FirstNewlineAfter(line[1..], rest);
      assert s[1..] == line[1..] + [NEWLINE] + rest;
      assert s[0] == line[0] && line[0] in line;
    }
  }

  lemma NoLines(s: seq<byte>)
    requires NEWLINE !in s
    ensures Lines(s) == []
  {
  }

  lemma SplitStep(f: Framer, patience: nat)
    ensures var (r, g) := Next(f, patience);
            && Lines(f.Unread()) == (if r.Line? then [r.line] else []) + Lines(g.Unread())
            && (r.EndOfInput? ==> Lines(g.Unread()) == [])
  {
    hide Next, Lines;
    Conserves(f, patience);
    var (r, g) := Next(f, patience);
    if r.EndOfInput? {
      NoLines(g.Unread());
    }
    if r.Line? {
      FirstLine(r.line, g.Unread());
    } else {
      assert [] + Lines(g.Unread()) == Lines(g.Unread());
    }
  }

  /** Whatever the chunks and wherever the calls are dropped, the lines returned are the complete lines of the
      stream, in order, and the rest of them are still to come; at the end of the input there are none left. */
  lemma {:induction false} RunIsSplit(f: Framer, patience: seq<nat>, outcomes: seq<Outcome>, g: Framer)
    requires Run(f, patience, outcomes, g)
    ensures Lines(f.Unread()) == LinesAmong(outcomes) + Lines(g.Unread())
    ensures outcomes != [] && outcomes[|outcomes| - 1].EndOfInput? ==> Lines(g.Unread()) == []
    decreases patience
  {
    hide Next, Lines;
    if patience != [] {
      SplitStep(f, patience[0]);
      RunIsSplit(Next(f, patience[0]).1, patience[1..], outcomes[1..], g);
    }
  }

  /** A stream without an overlong stretch is never refused, however it is cut up. */
  lemma {:induction false} NeverRefused(f: Framer, patience: seq<nat>, outcomes: seq<Outcome>, g: Framer)
    requires Run(f, patience, outcomes, g) && ShortStretches(f.Unread())
    ensures forall r <- outcomes :: !r.TooLong?
    decreases patience
  {
    hide Next, ShortStretches, Framer.Unread;
    if patience != [] {
      var (r, next) := Next(f, patience[0]);
      var s, t := f.Unread(), next.Unread();
      Conserves(f, patience[0]);
      if r.TooLong? {
        RefusedOnlyWhenTooLong(f, patience[0]);
      }
      assert s == s[..|s| - |t|] + t;
      ShortStretchesRest(s[..|s| - |t|], t);
      NeverRefused(next, patience[1..], outcomes[1..], g);
    }
  }

  lemma ShortStretchesRest(front: seq<byte>, t: seq<byte>)
    requires ShortStretches(front + t)
    ensures ShortStretches(t)
  {
    forall i: nat | i < |t| - MAX_LINE_LEN
      ensures NEWLINE in Stretch(t, i)
    {
      assert Stretch(front + t, |front| + i) == Stretch(t, i);
    }
  }

  // --- Writing, then reading -----------------------------------------------

  /** What the writer puts on the stream for each message. */
  function Framed(messages: seq<seq<byte>>): seq<byte> {
    if messages == [] then [] else messages[0] + [NEWLINE] + Framed(messages[1..])
  }

  lemma {:induction false} LinesOfFramed(messages: seq<seq<byte>>)
    requires forall m <- messages :: NEWLINE !in m
    ensures Lines(Framed(messages)) == messages
  {
    if messages != [] {
      LinesOfFramed(messages[1..]);
      FirstLine(messages[0], Framed(messages[1..]));
    }
  }

  /** Newline-free messages written and read back to the end of the stream come back as they were, through
      any chunking and any cancellations. */
  lemma WrittenThenRead(messages: seq<seq<byte>>, chunks: seq<seq<byte>>, patience: seq<nat>, outcomes: seq<Outcome>, g: Framer)
    requires forall m <- messages :: NEWLINE !in m
    requires Joined(chunks) == Framed(messages) && Run(Framer([], chunks), patience, outcomes, g)
    requires outcomes != [] && outcomes[|outcomes| - 1].EndOfInput?
    ensures LinesAmong(outcomes) == messages
  {
    LinesOfFramed(messages);
    assert Framer([], chunks).Unread() == Framed(messages);
    RunIsSplit(Framer([], chunks), patience, outcomes, g);
  }
}
