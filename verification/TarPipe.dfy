/** Copying a volume through a pipe: a source goroutine whose exec writes a byte stream into a
    synchronous pipe, a destination goroutine whose exec reads it, two result channels, and a
    collector that receives from the source's channel first.  One step is one action of one party. */
module TarPipe {
  import opened Common

  type Byte = n: int | 0 <= n < 256

  /** The bytes the source command will produce, the capacity of the result channels, and whether
      the source exec reports a failed write into the pipe as an error. */
  datatype Config = Config(stream: seq<Byte>, capacity: nat, strict: bool)

  /** A deferred close runs after the send, so each goroutine ends Reporting, Closing, Finished. */
  datatype Source = Producing | Writing(pending: seq<Byte>) | Broken | Reporting(ok: bool) | Closing | Finished

  datatype Dest = Consuming | Reading | AtEof | DestReporting(ok: bool) | DestClosing | DestFinished

  datatype Collector = AwaitSource | AwaitDest(source: bool) | Returned(ok: bool)

  /** `srcExit` and `dstExit` are history variables: how each exec returned, if it did. */
  datatype State = State(
    remaining: seq<Byte>, consumed: seq<Byte>, src: Source, dst: Dest,
    writerClosed: bool, readerClosed: bool,
    srcChan: Option<bool>, dstChan: Option<bool>, col: Collector,
    srcExit: Option<bool>, dstExit: Option<bool>)

  datatype Step =
    | SrcWrite(n: nat)     // the exec hands the next n bytes to the pipe
    | SrcExit              // the exec returns by itself, all bytes written
    | SrcAbort             // the exec gives up at any time
    | SrcFail              // a pending write fails because the reader is closed
    | SrcBreak(ok: bool)   // the exec returns after a failed write
    | SrcSend | SrcClose
    | DstRead              // the exec asks the pipe for bytes
    | Transfer(n: nat)     // n bytes go from the pending write to the pending read
    | DstEof               // a pending read ends because the writer is closed
    | DstExit(ok: bool)    // the exec returns after reading everything
    | DstAbort(ok: bool)   // the exec returns at any time, with any result
    | DstSend | DstClose
    | RecvSource | RecvDest

  function Init(cfg: Config): State {
    State(cfg.stream, [], Producing, Consuming, false, false, None, None, AwaitSource, None, None)
  }

  predicate Enabled(cfg: Config, s: State, t: Step) {
    match t
    case SrcWrite(n) => s.src.Producing? && 1 <= n <= |s.remaining|
    case SrcExit => s.src.Producing? && s.remaining == []
    case SrcAbort => s.src.Producing? || s.src.Writing?
    case SrcFail => s.src.Writing? && s.readerClosed
    case SrcBreak(ok) => s.src.Broken? && (ok ==> !cfg.strict)
    case SrcSend => s.src.Reporting? && if cfg.capacity > 0 then s.srcChan.None? else s.col.AwaitSource?
    case SrcClose => s.src.Closing?
    case DstRead => s.dst.Consuming?
    case Transfer(n) => s.src.Writing? && s.dst.Reading? && 1 <= n <= |s.src.pending|
    case DstEof => s.dst.Reading? && s.writerClosed
    case DstExit(_) => s.dst.AtEof?
    case DstAbort(_) => s.dst.Consuming? || s.dst.Reading?
    case DstSend => s.dst.DestReporting? && if cfg.capacity > 0 then s.dstChan.None? else s.col.AwaitDest?
    case DstClose => s.dst.DestClosing?
    case RecvSource => s.col.AwaitSource? && s.srcChan.Some?
    case RecvDest => s.col.AwaitDest? && s.dstChan.Some?
  }

  function Apply(cfg: Config, s: State, t: Step): State
    requires Enabled(cfg, s, t)
  {
    match t
    case SrcWrite(n) => s.(src := Writing(s.remaining[..n]), remaining := s.remaining[n..])
    case SrcExit => s.(src := Reporting(true), srcExit := Some(true))
    case SrcAbort => s.(src := Reporting(false), srcExit := Some(false))
    case SrcFail => s.(src := Broken)
    case SrcBreak(ok) => s.(src := Reporting(ok), srcExit := Some(ok))
    case SrcSend =>
      if cfg.capacity > 0 then s.(src := Closing, srcChan := Some(s.src.ok))
      else s.(src := Closing, col := AwaitDest(s.src.ok))
    case SrcClose => s.(src := Finished, writerClosed := true)
    case DstRead => s.(dst := Reading)
    case Transfer(n) =>
      var rest := s.src.pending[n..];
      s.(src := if rest == [] then Producing else Writing(rest), dst := Consuming,
         consumed := s.consumed + s.src.pending[..n])
    case DstEof => s.(dst := AtEof)
    case DstExit(ok) => s.(dst := DestReporting(ok), dstExit := Some(ok))
    case DstAbort(ok) => s.(dst := DestReporting(ok), dstExit := Some(ok))
    case DstSend =>
      if cfg.capacity > 0 then s.(dst := DestClosing, dstChan := Some(s.dst.ok))
      else s.(dst := DestClosing, col := Returned(s.col.source && s.dst.ok))
    case DstClose => s.(dst := DestFinished, readerClosed := true)
    case RecvSource => s.(col := AwaitDest(s.srcChan.value), srcChan := None)
    case RecvDest => s.(col := Returned(s.col.source && s.dstChan.value), dstChan := None)
  }

  /** The state after a run, or None if some step of it was not enabled. */
  function Exec(cfg: Config, run: seq<Step>): Option<State> {
    if run == [] then Some(Init(cfg)) else
      var s := Exec(cfg, run[..|run| - 1]);
      var t := run[|run| - 1];
      if s.Some? && Enabled(cfg, s.value, t) then Some(Apply(cfg, s.value, t)) else None
  }

  predicate Final(s: State) {
    s.src.Finished? && s.dst.DestFinished? && s.col.Returned?
  }

  /** Steps nobody may count on: an exec giving up or ending early of its own accord. */
  predicate Spontaneous(t: Step) {
    t.SrcAbort? || t.DstAbort?
  }

  /** Nothing can happen any more unless an exec gives up by itself. */
  ghost predicate Deadlocked(cfg: Config, s: State) {
    !Final(s) && forall t :: Enabled(cfg, s, t) ==> Spontaneous(t)
  }

  // ---------------------------------------------------------------- invariant

  predicate ChannelsFit(cfg: Config, s: State) {
    var srcSent, dstSent := s.src.Closing? || s.src.Finished?, s.dst.DestClosing? || s.dst.DestFinished?;
    && (s.srcChan.Some? <==> cfg.capacity > 0 && srcSent && s.col.AwaitSource?)
    && (s.dstChan.Some? <==> cfg.capacity > 0 && dstSent && !s.col.Returned?)
    && (!s.col.AwaitSource? ==> srcSent)
    && (s.col.Returned? ==> dstSent)
    && (cfg.capacity == 0 && srcSent ==> !s.col.AwaitSource?)
    && (cfg.capacity == 0 && dstSent ==> s.col.Returned?)
    && (s.writerClosed <==> s.src.Finished?)
    && (s.readerClosed <==> s.dst.DestFinished?)
  }

  /** Verdicts travel unchanged from the execs to the caller. */
  predicate VerdictsFit(s: State) {
    && (s.srcExit.Some? <==> s.src.Reporting? || s.src.Closing? || s.src.Finished?)
    && (s.dstExit.Some? <==> s.dst.DestReporting? || s.dst.DestClosing? || s.dst.DestFinished?)
    && (s.src.Reporting? ==> s.srcExit == Some(s.src.ok))
    && (s.dst.DestReporting? ==> s.dstExit == Some(s.dst.ok))
    && (s.srcChan.Some? ==> s.srcExit == s.srcChan)
    && (s.dstChan.Some? ==> s.dstExit == s.dstChan)
    && (s.col.AwaitDest? ==> s.srcExit == Some(s.col.source))
    && (s.col.Returned? ==> (s.col.ok <==> s.srcExit == Some(true) && s.dstExit == Some(true)))
  }

  function Pending(s: State): seq<Byte> {
    if s.src.Writing? then s.src.pending else []
  }

  /** Nothing is lost, duplicated or reordered while the source is at work. */
  predicate BytesFit(cfg: Config, s: State) {
    && (s.src.Producing? || s.src.Writing? ==> s.consumed + Pending(s) + s.remaining == cfg.stream)
    && (s.src.Writing? ==> s.src.pending != [])
    && s.consumed <= cfg.stream
    && (cfg.strict && s.srcExit == Some(true) ==> s.consumed == cfg.stream)
  }

  predicate Inv(cfg: Config, s: State) {
    ChannelsFit(cfg, s) && VerdictsFit(s) && BytesFit(cfg, s)
  }

  lemma StepKeepsChannels(cfg: Config, s: State, t: Step)
    requires ChannelsFit(cfg, s) && Enabled(cfg, s, t)
    ensures ChannelsFit(cfg, Apply(cfg, s, t))
  {
  }

  lemma SourceKeepsVerdicts(cfg: Config, s: State, t: Step)
    requires ChannelsFit(cfg, s) && VerdictsFit(s) && Enabled(cfg, s, t) && FromSource(t)
    ensures VerdictsFit(Apply(cfg, s, t))
  {
  }

  lemma OthersKeepVerdicts(cfg: Config, s: State, t: Step)
    requires ChannelsFit(cfg, s) && VerdictsFit(s) && Enabled(cfg, s, t) && !FromSource(t)
    ensures VerdictsFit(Apply(cfg, s, t))
  {
  }

  lemma StepKeepsVerdicts(cfg: Config, s: State, t: Step)
    requires ChannelsFit(cfg, s) && VerdictsFit(s) && Enabled(cfg, s, t)
    ensures VerdictsFit(Apply(cfg, s, t))
  {
    hide ChannelsFit, VerdictsFit, Enabled, Apply;
    if FromSource(t) {
      SourceKeepsVerdicts(cfg, s, t);
    } else {
      OthersKeepVerdicts(cfg, s, t);
    }
  }

  lemma StepKeepsBytes(cfg: Config, s: State, t: Step)
    requires Inv(cfg, s) && Enabled(cfg, s, t)
    ensures BytesFit(cfg, Apply(cfg, s, t))
  {
    match t
    case SrcWrite(n) => assert s.remaining == s.remaining[..n] + s.remaining[n..];
    case Transfer(n) =>
      var p := s.src.pending;
      assert p == p[..n] + p[n..];
      assert s.consumed + p + s.remaining == s.consumed + p[..n] + p[n..] + s.remaining;
    case _ =>
  }

  lemma {:induction false} RunKeepsInv(cfg: Config, run: seq<Step>)
    requires Exec(cfg, run).Some?
    ensures Inv(cfg, Exec(cfg, run).value)
  {
    if run != [] {
      var u, t := run[..|run| - 1], run[|run| - 1];
      RunKeepsInv(cfg, u);
      StepKeepsChannels(cfg, Exec(cfg, u).value, t);
      StepKeepsVerdicts(cfg, Exec(cfg, u).value, t);
      StepKeepsBytes(cfg, Exec(cfg, u).value, t);
    }
  }

  // ---------------------------------------------------------------- results

  /** The call returns without error exactly when both execs did; and then, if the source exec
      reports failed writes, the destination has read exactly the source's stream. */
  lemma NilMeansCopied(cfg: Config, run: seq<Step>)
    requires Exec(cfg, run).Some? && Exec(cfg, run).value.col.Returned?
    ensures var s := Exec(cfg, run).value;
            && (s.col.ok <==> s.srcExit == Some(true) && s.dstExit == Some(true))
            && (s.col.ok && cfg.strict ==> s.consumed == cfg.stream)
  {
    RunKeepsInv(cfg, run);
  }

  /** In every run the destination has read a prefix of the stream. */
  lemma OnlyPrefixesAreRead(cfg: Config, run: seq<Step>)
    requires Exec(cfg, run).Some?
    ensures Exec(cfg, run).value.consumed <= cfg.stream
  {
    RunKeepsInv(cfg, run);
  }

  /** A nil result means a complete copy in every run, for exactly these configurations: the source
      exec reports failed writes, or there is nothing to copy. */
  lemma CopyCompleteIff(cfg: Config)
    requires cfg.capacity > 0
    ensures (forall run | Exec(cfg, run).Some? && Exec(cfg, run).value.col == Returned(true) ::
               Exec(cfg, run).value.consumed == cfg.stream)
            <==> cfg.strict || cfg.stream == []
  {
    hide Enabled, Apply;
    if cfg.strict || cfg.stream == [] {
      forall run | Exec(cfg, run).Some? && Exec(cfg, run).value.col == Returned(true)
        ensures Exec(cfg, run).value.consumed == cfg.stream
      {
        NilMeansCopied(cfg, run);
        OnlyPrefixesAreRead(cfg, run);
      }
    } else {
      var run := HiddenWriteErrorTruncates(cfg, 0);
      assert Exec(cfg, run).value.consumed != cfg.stream;
    }
  }

  /** A source exec that hides failed writes breaks it at every place: for every proper prefix of the
      stream there is a run that returns without error after exactly that prefix was read. */
  lemma HiddenWriteErrorTruncates(cfg: Config, n: nat) returns (run: seq<Step>)
    requires !cfg.strict && cfg.capacity > 0 && n < |cfg.stream|
    ensures Exec(cfg, run).Some? && Exec(cfg, run).value.col == Returned(true)
    ensures Exec(cfg, run).value.consumed == cfg.stream[..n]
  {
    hide Enabled, Apply;
    run := PrefixRead(cfg, n);
    DestLeaves(cfg, run, Exec(cfg, run).value);
    run := run + [DstAbort(true), DstSend, DstClose];
    SourceHidesFailure(cfg, run, Exec(cfg, run).value);
    run := run + [SrcFail, SrcBreak(true), SrcSend];
    CallerAnswered(cfg, run, Exec(cfg, run).value);
    run := run + [RecvSource] + [RecvDest];
  }

  /** The source has offered one byte more than the destination has read. */
  function Offering(cfg: Config, n: nat): State
    requires n < |cfg.stream|
  {
    Init(cfg).(remaining := cfg.stream[n + 1..], consumed := cfg.stream[..n], src := Writing(cfg.stream[n..n + 1]))
  }

  lemma {:induction false} PrefixRead(cfg: Config, n: nat) returns (run: seq<Step>)
    requires n < |cfg.stream|
    ensures Exec(cfg, run) == Some(Offering(cfg, n))
  {
    if n == 0 {
      run := [] + [SrcWrite(1)];
      OneStep(cfg, [], SrcWrite(1));
      assert Apply(cfg, Init(cfg), SrcWrite(1)) == Offering(cfg, 0);
    } else {
      var u := PrefixRead(cfg, n - 1);
      ByteRead(cfg, n - 1);
      ThreeSteps(cfg, u, [DstRead, Transfer(1), SrcWrite(1)]);
      run := u + [DstRead, Transfer(1), SrcWrite(1)];
    }
  }

  lemma ByteRead(cfg: Config, n: nat)
    requires n + 1 < |cfg.stream|
    ensures var s := Offering(cfg, n); var s1 := s.(dst := Reading);
            var s2 := s.(consumed := cfg.stream[..n + 1], src := Producing);
            && Enabled(cfg, s, DstRead) && Apply(cfg, s, DstRead) == s1
            && Enabled(cfg, s1, Transfer(1)) && Apply(cfg, s1, Transfer(1)) == s2
            && Enabled(cfg, s2, SrcWrite(1)) && Apply(cfg, s2, SrcWrite(1)) == Offering(cfg, n + 1)
  {
    var c := cfg.stream;
    assert c[n..n + 1][1..] == [] && c[..n] + c[n..n + 1][..1] == c[..n + 1];
    assert c[n + 1..][..1] == c[n + 1..n + 2] && c[n + 1..][1..] == c[n + 2..];
  }

  /** Copies can succeed: for every stream there is a run that returns without error after the destination
      has read the whole stream. */
  lemma CopyCanSucceed(cfg: Config) returns (run: seq<Step>)
    requires cfg.capacity > 0
    ensures Exec(cfg, run).Some? && Exec(cfg, run).value.col == Returned(true)
    ensures Exec(cfg, run).value.consumed == cfg.stream && Exec(cfg, run).value.remaining == []
  {
    hide Enabled, Apply;
    run := AllRead(cfg);
    SourceEnds(cfg, run, Exec(cfg, run).value);
    run := run + [SrcExit, SrcSend, SrcClose];
    DestSeesEof(cfg, run, Exec(cfg, run).value);
    run := run + [DstRead, DstEof, DstExit(true)];
    DestSends(cfg, run, Exec(cfg, run).value);
    run := run + [DstSend];
    CallerAnswered(cfg, run, Exec(cfg, run).value);
    run := run + [RecvSource] + [RecvDest];
  }

  lemma AllRead(cfg: Config) returns (run: seq<Step>)
    ensures Exec(cfg, run) == Some(Init(cfg).(remaining := [], consumed := cfg.stream))
  {
    if cfg.stream == [] {
      run := [];
    } else {
      var n := |cfg.stream| - 1;
      var u := PrefixRead(cfg, n);
      LastByteRead(cfg);
      OneStep(cfg, u, DstRead);
      OneStep(cfg, u + [DstRead], Transfer(1));
      run := u + [DstRead] + [Transfer(1)];
    }
  }

  lemma LastByteRead(cfg: Config)
    requires cfg.stream != []
    ensures var s := Offering(cfg, |cfg.stream| - 1); var s1 := s.(dst := Reading);
            && Enabled(cfg, s, DstRead) && Apply(cfg, s, DstRead) == s1 && Enabled(cfg, s1, Transfer(1))
            && Apply(cfg, s1, Transfer(1)) == Init(cfg).(remaining := [], consumed := cfg.stream)
  {
    var c, n := cfg.stream, |cfg.stream| - 1;
    assert c[n..n + 1][1..] == [] && c[..n] + c[n..n + 1][..1] == c && c[n + 1..] == [];
  }

  lemma SourceEnds(cfg: Config, u: seq<Step>, s: State)
    requires Exec(cfg, u) == Some(s) && s.src.Producing? && s.remaining == [] && s.srcChan.None? && cfg.capacity > 0
    ensures Exec(cfg, u + [SrcExit, SrcSend, SrcClose])
            == Some(s.(src := Finished, srcExit := Some(true), srcChan := Some(true), writerClosed := true))
  {
    ThreeSteps(cfg, u, [SrcExit, SrcSend, SrcClose]);
  }

  lemma DestSeesEof(cfg: Config, u: seq<Step>, s: State)
    requires Exec(cfg, u) == Some(s) && s.dst.Consuming? && s.writerClosed
    ensures Exec(cfg, u + [DstRead, DstEof, DstExit(true)])
            == Some(s.(dst := DestReporting(true), dstExit := Some(true)))
  {
    ThreeSteps(cfg, u, [DstRead, DstEof, DstExit(true)]);
  }

  lemma DestSends(cfg: Config, u: seq<Step>, s: State)
    requires Exec(cfg, u) == Some(s) && s.dst == DestReporting(true) && s.dstChan.None? && cfg.capacity > 0
    ensures Exec(cfg, u + [DstSend]) == Some(s.(dst := DestClosing, dstChan := Some(true)))
  {
    OneStep(cfg, u, DstSend);
  }

  lemma DestLeaves(cfg: Config, u: seq<Step>, s: State)
    requires Exec(cfg, u) == Some(s) && s.dst.Consuming? && s.dstChan.None? && cfg.capacity > 0
    ensures Exec(cfg, u + [DstAbort(true), DstSend, DstClose])
            == Some(s.(dst := DestFinished, readerClosed := true, dstChan := Some(true), dstExit := Some(true)))
  {
    ThreeSteps(cfg, u, [DstAbort(true), DstSend, DstClose]);
  }

  lemma SourceHidesFailure(cfg: Config, u: seq<Step>, s: State)
    requires Exec(cfg, u) == Some(s) && s.src.Writing? && s.readerClosed && s.srcChan.None?
    requires cfg.capacity > 0 && !cfg.strict
    ensures Exec(cfg, u + [SrcFail, SrcBreak(true), SrcSend])
            == Some(s.(src := Closing, srcChan := Some(true), srcExit := Some(true)))
  {
    ThreeSteps(cfg, u, [SrcFail, SrcBreak(true), SrcSend]);
  }

  lemma CallerAnswered(cfg: Config, u: seq<Step>, s: State)
    requires Exec(cfg, u) == Some(s) && s.col.AwaitSource? && s.srcChan == Some(true) && s.dstChan == Some(true)
    ensures Exec(cfg, u + [RecvSource] + [RecvDest])
            == Some(s.(col := Returned(true), srcChan := None, dstChan := None))
  {
    OneStep(cfg, u, RecvSource);
    OneStep(cfg, u + [RecvSource], RecvDest);
  }

  lemma OneStep(cfg: Config, u: seq<Step>, t: Step)
    requires Exec(cfg, u).Some? && Enabled(cfg, Exec(cfg, u).value, t)
    ensures Exec(cfg, u + [t]) == Some(Apply(cfg, Exec(cfg, u).value, t))
  {
    assert (u + [t])[..|u|] == u;
  }

  lemma ThreeSteps(cfg: Config, u: seq<Step>, v: seq<Step>)
    requires |v| == 3 && Exec(cfg, u).Some?
    requires Enabled(cfg, Exec(cfg, u).value, v[0])
    requires Enabled(cfg, Apply(cfg, Exec(cfg, u).value, v[0]), v[1])
    requires Enabled(cfg, Apply(cfg, Apply(cfg, Exec(cfg, u).value, v[0]), v[1]), v[2])
    ensures Exec(cfg, u + v) == Some(Apply(cfg, Apply(cfg, Apply(cfg, Exec(cfg, u).value, v[0]), v[1]), v[2]))
  {
    hide Enabled, Apply;
    OneStep(cfg, u, v[0]);
    OneStep(cfg, u + [v[0]], v[1]);
    OneStep(cfg, u + [v[0]] + [v[1]], v[2]);
    assert u + [v[0]] + [v[1]] + [v[2]] == u + v;
  }

  // ---------------------------------------------------------------- progress

  function SourceRank(p: Source): nat {
    match p
    case Producing => 4 case Writing(_) => 4 case Broken => 3
    case Reporting(_) => 2 case Closing => 1 case Finished => 0
  }

  function DestRank(p: Dest): nat {
    match p
    case Consuming => 5 case Reading => 4 case AtEof => 3
    case DestReporting(_) => 2 case DestClosing => 1 case DestFinished => 0
  }

  function CollectorRank(c: Collector): nat {
    match c case AwaitSource => 2 case AwaitDest(_) => 1 case Returned(_) => 0
  }

  function Measure(s: State): nat {
    3 * |s.remaining| + 2 * |Pending(s)| + SourceRank(s.src) + DestRank(s.dst) + CollectorRank(s.col)
  }

  lemma StepDecreases(cfg: Config, s: State, t: Step)
    requires Enabled(cfg, s, t)
    ensures Measure(Apply(cfg, s, t)) < Measure(s)
  {
    hide Enabled, Apply, Measure;
    if FromSource(t) {
      SourceDecreases(cfg, s, t);
    } else {
      OthersDecrease(cfg, s, t);
    }
  }

  /** Steps of the source goroutine alone. */
  predicate FromSource(t: Step) {
    t.SrcWrite? || t.SrcExit? || t.SrcAbort? || t.SrcFail? || t.SrcBreak? || t.SrcSend? || t.SrcClose?
  }

  lemma SourceDecreases(cfg: Config, s: State, t: Step)
    requires Enabled(cfg, s, t) && FromSource(t)
    ensures Measure(Apply(cfg, s, t)) < Measure(s)
  {
  }

  lemma OthersDecrease(cfg: Config, s: State, t: Step)
    requires Enabled(cfg, s, t) && !FromSource(t)
    ensures Measure(Apply(cfg, s, t)) < Measure(s)
  {
  }

  /** Every run is finite, with a bound linear in the stream, whatever the capacity. */
  lemma {:induction false} RunsAreBounded(cfg: Config, run: seq<Step>)
    requires Exec(cfg, run).Some?
    ensures |run| + Measure(Exec(cfg, run).value) <= 3 * |cfg.stream| + 11
  {
    if run != [] {
      RunsAreBounded(cfg, run[..|run| - 1]);
      StepDecreases(cfg, Exec(cfg, run[..|run| - 1]).value, run[|run| - 1]);
    }
  }

  /** The step that must be possible in a state that is not final. */
  function Forced(s: State): Step {
    if s.src.Closing? then SrcClose
    else if s.src.Reporting? then SrcSend
    else if s.src.Broken? then SrcBreak(false)
    else if s.src.Producing? then (if s.remaining == [] then SrcExit else SrcWrite(1))
    else if s.dst.DestClosing? then DstClose
    else if s.dst.DestReporting? then DstSend
    else if s.dst.AtEof? then DstExit(true)
    else if s.dst.Consuming? then DstRead
    else if s.src.Writing? && s.dst.Reading? then Transfer(1)
    else if s.src.Writing? then SrcFail
    else if s.dst.Reading? then DstEof
    else if s.col.AwaitSource? then RecvSource
    else RecvDest
  }

  /** With channels of capacity one or more, no reachable state is deadlocked; since runs are
      bounded, every run that goes on as long as it can ends with both goroutines finished and the
      caller answered. */
  lemma NoDeadlock(cfg: Config, run: seq<Step>)
    requires Exec(cfg, run).Some? && cfg.capacity > 0
    ensures !Deadlocked(cfg, Exec(cfg, run).value)
  {
    RunKeepsInv(cfg, run);
    var s := Exec(cfg, run).value;
    if !Final(s) {
      assert Enabled(cfg, s, Forced(s)) && !Spontaneous(Forced(s));
    }
  }

  /** Unbuffered channels deadlock for exactly the non-empty streams: the destination ends early and
      waits for the collector, which waits for the source, which waits for the pipe. */
  lemma UnbufferedDeadlockIff(cfg: Config)
    requires cfg.capacity == 0
    ensures (exists run :: Exec(cfg, run).Some? && Deadlocked(cfg, Exec(cfg, run).value)) <==> cfg.stream != []
  {
    if cfg.stream != [] {
      EarlyExitDeadlocks(cfg);
    } else {
      forall run | Exec(cfg, run).Some?
        ensures !Deadlocked(cfg, Exec(cfg, run).value)
      {
        RunKeepsInv(cfg, run);
        NothingWritten(cfg, run);
        UnbufferedProgress(cfg, Exec(cfg, run).value);
      }
    }
  }

  lemma EarlyExitDeadlocks(cfg: Config)
    requires cfg.capacity == 0 && cfg.stream != []
    ensures exists run :: Exec(cfg, run).Some? && Deadlocked(cfg, Exec(cfg, run).value)
  {
    var run := [SrcWrite(1), DstAbort(false)];
    OneStep(cfg, [], run[0]);
    OneStep(cfg, [] + [run[0]], run[1]);
    assert [] + [run[0]] + [run[1]] == run;
    StuckState(cfg, Exec(cfg, run).value);
  }

  lemma StuckState(cfg: Config, s: State)
    requires cfg.capacity == 0 && s.srcChan.None? && s.dstChan.None?
    requires s.src.Writing? && s.dst.DestReporting? && s.col.AwaitSource? && !s.readerClosed
    ensures Deadlocked(cfg, s)
  {
  }

  lemma UnbufferedProgress(cfg: Config, s: State)
    requires cfg.capacity == 0 && Inv(cfg, s) && s.remaining == [] && !s.src.Writing?
    ensures !Deadlocked(cfg, s)
  {
    if !Final(s) {
      assert Enabled(cfg, s, Forced(s)) && !Spontaneous(Forced(s));
    }
  }

  /** With an empty stream the source never waits for the pipe. */
  lemma {:induction false} NothingWritten(cfg: Config, run: seq<Step>)
    requires Exec(cfg, run).Some? && cfg.stream == []
    ensures Exec(cfg, run).value.remaining == [] && !Exec(cfg, run).value.src.Writing?
  {
    if run != [] {
      NothingWritten(cfg, run[..|run| - 1]);
    }
  }
}
