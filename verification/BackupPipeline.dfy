/** A channel of capacity one that carries an error or nil. */
module ErrorSlot {
  datatype Slot = Empty | Full(failed: bool)
}

/**
 The streaming backup of runFullBackup: a dump process, a compressor
 goroutine, a synchronous io.Pipe, a one-slot error channel and an uploader,
 as steps of concurrent processes. Every interleaving is a run.
 */
module BackupPipeline {
  import opened Bytes
  import opened Aead
  import opened FrameFormat
  import opened ErrorSlot

  /**
   The gzip writer: the writes it issues for the next chunk, given the chunks
   before it, and the writes of its Close.
   */
  datatype Gzip = Gzip(
    emit: (seq<Bytes>, Bytes) -> seq<Bytes>,
    finish: seq<Bytes> -> seq<Bytes>,
    gunzip: Bytes -> Option<Bytes>)
  {
    /** The writes issued for these chunks, the footer excluded. */
    function Emitted(chunks: seq<Bytes>): seq<Bytes>
      decreases |chunks|
    {
      if chunks == [] then []
      else
        var before := chunks[..|chunks| - 1];
        Emitted(before) + emit(before, chunks[|chunks| - 1])
    }

    function AllWrites(chunks: seq<Bytes>): seq<Bytes> {
      Emitted(chunks) + finish(chunks)
    }

    /** RFC 1952, however the input was chunked; and every single write is small. */
    ghost predicate Sound() {
      forall chunks {:trigger AllWrites(chunks)} ::
        && gunzip(Flat(AllWrites(chunks))) == Some(Flat(chunks))
        && AllFit(AllWrites(chunks))
    }
  }

  function Singletons(b: Bytes): seq<Bytes> {
    if b == [] then [] else [[b[0]]] + Singletons(b[1..])
  }

  lemma {:induction false} FlatSingletons(b: Bytes)
    ensures Flat(Singletons(b)) == b && AllFit(Singletons(b))
  {
    if b != [] {
      FlatSingletons(b[1..]);
      FlatCons([b[0]], Singletons(b[1..]));
    }
  }

  /** A writer that stores everything at Close, byte by byte: the laws are consistent. */
  const STORING: Gzip := Gzip((before, chunk) => [], chunks => Singletons(Flat(chunks)), b => Some(b))

  lemma {:induction false} NothingEmitted(chunks: seq<Bytes>)
    ensures STORING.Emitted(chunks) == []
    decreases |chunks|
  {
    if chunks != [] {
      NothingEmitted(chunks[..|chunks| - 1]);
    }
  }

  lemma StoringLaw(chunks: seq<Bytes>)
    ensures STORING.AllWrites(chunks) == Singletons(Flat(chunks))
    ensures Flat(STORING.AllWrites(chunks)) == Flat(chunks)
    ensures AllFit(STORING.AllWrites(chunks))
  {
    NothingEmitted(chunks);
    assert [] + Singletons(Flat(chunks)) == Singletons(Flat(chunks));
    FlatSingletons(Flat(chunks));
  }

  lemma GzipLawsAreConsistent()
    ensures STORING.Sound()
  {
    forall chunks: seq<Bytes> {
      StoringLaw(chunks);
    }
  }

  datatype Config = Config(
    derive: Option<KeyDerivation>,  // None: no encryption service
    salt: Bytes,                    // the random salt EncryptStream draws
    gzip: Gzip,
    hash: Bytes -> string,          // hex SHA-256
    dump: Bytes,                    // what the dump process writes if it runs to the end
    capacity: nat)                  // of the operating system's stdout pipe
  {
    ghost predicate Sound() {
      && (derive.Some? ==> AllSound(derive.value))
      && |salt| == SALT_SIZE && gzip.Sound() && capacity > 0
    }

    function Cipher(): Cipher
      requires derive.Some?
    {
      derive.value(salt)
    }
  }

  // ------------------------------------------------------- the processes

  datatype Process = Alive | Exited(ok: bool)

  /** The dump process and its stdout pipe. */
  datatype Dump = Dump(left: Bytes, stdout: Bytes, process: Process, killed: bool)

  datatype CompressorPc =
    | Opening | Salting | Copying | Finishing | Reporting | Remarking | ClosingChan | ClosingPipe | Stopped

  /**
   The compressor goroutine: `todo` are the gzip writes of the operation in
   progress, `hashed` those already passed to the hash, `marks` the markers
   written by Close.
   */
  datatype Compressor = Compressor(
    pc: CompressorPc, encOpen: bool, failed: bool, chunks: seq<Bytes>, count: nat,
    todo: seq<Bytes>, hashed: seq<Bytes>, salted: bool, marks: nat)

  /** io.Pipe: the unread rest of the write in progress, and whether a write was ever cut. */
  datatype Pipe = Pipe(offered: Bytes, writerClosed: bool, readerClosed: bool, cut: bool)

  /** errChan, with a count of the sends. */
  datatype ErrChan = ErrChan(slot: Slot, sends: nat, closed: bool)

  datatype Outcome = Success(size: nat, checksum: string) | Failure

  datatype MainPc =
    | Uploading | ClosingReader | AwaitAborted | AwaitCompressor | Killing | WaitKilled | WaitDump
    | Finished(outcome: Outcome)

  /** The goroutine of runFullBackup and what its upload has read. */
  datatype Main = Main(pc: MainPc, got: Bytes, uploadFailed: bool)

  datatype State = State(dump: Dump, comp: Compressor, pipe: Pipe, chan: ErrChan, main: Main)

  function Init(cfg: Config): State {
    State(Dump(cfg.dump, [], Alive, false),
          Compressor(Opening, false, false, [], 0, [], [], false, 0),
          Pipe([], false, false, false),
          ErrChan(Empty, 0, false),
          Main(Uploading, [], false))
  }

  datatype DumpStep = Write(n: nat) | Exit(ok: bool) | DieKilled

  datatype CompressorStep =
    | OpenStream(ok: bool) | SaltWritten | EmitWrite | ReadChunk(n: nat) | ReadEof | ReadError
    | CloseEncoder | Report | SecondClose | CloseChan | ClosePipe | WriteCut

  datatype MainStep = UploadRead(n: nat) | UploadEof | UploadError | CloseReader | Receive | Kill | Reap | WaitForDump

  datatype Step = OfDump(d: DumpStep) | OfCompressor(c: CompressorStep) | OfMain(m: MainStep)

  // --- the dump process: it writes while there is room, and may fail at any time

  predicate DumpEnabled(cfg: Config, d: Dump, step: DumpStep) {
    && d.process.Alive?
    && match step
       case Write(n) => 0 < n <= |d.left| && |d.stdout| + n <= cfg.capacity
       case Exit(ok) => ok ==> d.left == []
       case DieKilled => d.killed
  }

  function DumpApply(cfg: Config, d: Dump, step: DumpStep): Dump
    requires DumpEnabled(cfg, d, step)
  {
    match step
    case Write(n) => d.(stdout := d.stdout + d.left[..n], left := d.left[n..])
    case Exit(ok) => d.(process := Exited(ok))
    case DieKilled => d.(process := Exited(false))
  }

  // --- the compressor

  /** The compressor is not blocked inside a pipe write. */
  predicate Idle(p: Pipe) {
    p.offered == []
  }

  predicate CompressorEnabled(cfg: Config, s: State, step: CompressorStep) {
    var c := s.comp;
    match step
    case OpenStream(ok) => c.pc.Opening? && (cfg.derive.None? ==> ok)
    case SaltWritten => c.pc.Salting? && Idle(s.pipe)
    case EmitWrite => (c.pc.Copying? || c.pc.Finishing?) && Idle(s.pipe) && c.todo != []
    case ReadChunk(n) => c.pc.Copying? && Idle(s.pipe) && c.todo == [] && 0 < n <= |s.dump.stdout|
    case ReadEof => c.pc.Copying? && Idle(s.pipe) && c.todo == [] && s.dump.stdout == [] && s.dump.process.Exited?
    case ReadError => c.pc.Copying? && Idle(s.pipe) && c.todo == []
    case CloseEncoder => c.pc.Finishing? && Idle(s.pipe) && c.todo == []
    case Report => c.pc.Reporting? && Idle(s.pipe) && s.chan.slot.Empty?
    case SecondClose => c.pc.Remarking? && Idle(s.pipe)
    case CloseChan => c.pc.ClosingChan? && Idle(s.pipe)
    case ClosePipe => c.pc.ClosingPipe?
    case WriteCut => !Idle(s.pipe) && s.pipe.readerClosed
  }

  /** The bytes one gzip write puts on the pipe: itself, or its frame. */
  function Encoded(cfg: Config, c: Compressor, w: Bytes): Bytes {
    if cfg.derive.None? then w else Frame(cfg.Cipher(), CounterAt(1, |c.hashed|), w)
  }

  function CompressorApply(cfg: Config, s: State, step: CompressorStep): State
    requires CompressorEnabled(cfg, s, step)
  {
    var c := s.comp;
    match step
    case OpenStream(ok) =>
      if cfg.derive.None? then s.(comp := c.(pc := Copying))
      else if ok then s.(comp := c.(pc := Salting, salted := true), pipe := s.pipe.(offered := cfg.salt))
      else s.(comp := c.(pc := Reporting, failed := true))
    case SaltWritten => s.(comp := c.(pc := Copying, encOpen := true))
    // io.MultiWriter: the hash first, then the encryption writer or the pipe
    case EmitWrite =>
      s.(comp := c.(todo := c.todo[1..], hashed := c.hashed + [c.todo[0]]),
         pipe := s.pipe.(offered := Encoded(cfg, c, c.todo[0])))
    // io.TeeReader counts the chunk before gzip sees it
    case ReadChunk(n) =>
      var chunk := s.dump.stdout[..n];
      s.(dump := s.dump.(stdout := s.dump.stdout[n..]),
         comp := c.(count := c.count + n, chunks := c.chunks + [chunk], todo := cfg.gzip.emit(c.chunks, chunk)))
    case ReadEof => s.(comp := c.(pc := Finishing, todo := cfg.gzip.finish(c.chunks)))
    case ReadError => s.(comp := c.(pc := Finishing, todo := cfg.gzip.finish(c.chunks), failed := true))
    case CloseEncoder =>
      if cfg.derive.None? then s.(comp := c.(pc := Reporting))
      else s.(comp := c.(pc := Reporting, marks := c.marks + 1), pipe := s.pipe.(offered := EOF_MARKER))
    case Report =>
      s.(comp := c.(pc := if c.encOpen then Remarking else ClosingChan),
         chan := s.chan.(slot := Full(c.failed), sends := s.chan.sends + 1))
    case SecondClose =>
      s.(comp := c.(pc := ClosingChan, marks := c.marks + 1), pipe := s.pipe.(offered := EOF_MARKER))
    case CloseChan => s.(comp := c.(pc := ClosingPipe), chan := s.chan.(closed := true))
    case ClosePipe => s.(comp := c.(pc := Stopped), pipe := s.pipe.(writerClosed := true))
    // a write met a closed reader: io.Copy and EncryptStream report it, the Close calls ignore it
    case WriteCut =>
      var next := if c.pc.Salting? then Reporting else if c.pc.Copying? then Finishing else c.pc;
      s.(comp := c.(pc := next, todo := [], failed := c.failed || c.pc.Salting? || c.pc.Copying?),
         pipe := s.pipe.(offered := [], cut := true))
  }

  // --- runFullBackup itself

  predicate MainEnabled(s: State, step: MainStep) {
    var m := s.main;
    match step
    case UploadRead(n) => m.pc.Uploading? && 0 < n <= |s.pipe.offered|
    case UploadEof => m.pc.Uploading? && Idle(s.pipe) && s.pipe.writerClosed
    case UploadError => m.pc.Uploading?
    case CloseReader => m.pc.ClosingReader?
    case Receive => (m.pc.AwaitAborted? || m.pc.AwaitCompressor?) && (s.chan.slot.Full? || s.chan.closed)
    case Kill => m.pc.Killing?
    case Reap => m.pc.WaitKilled? && s.dump.process.Exited?
    case WaitForDump => m.pc.WaitDump? && s.dump.process.Exited?
  }

  /** The record of a finished backup: the size before compression, the hash before encryption. */
  function Completed(cfg: Config, c: Compressor): Outcome {
    Success(c.count, if cfg.derive.Some? then cfg.hash(Flat(c.hashed)) else "")
  }

  function MainApply(cfg: Config, s: State, step: MainStep): State
    requires MainEnabled(s, step)
  {
    var m := s.main;
    match step
    case UploadRead(n) =>
      s.(main := m.(got := m.got + s.pipe.offered[..n]), pipe := s.pipe.(offered := s.pipe.offered[n..]))
    case UploadEof => s.(main := m.(pc := AwaitCompressor))
    case UploadError => s.(main := m.(pc := ClosingReader, uploadFailed := true))
    case CloseReader => s.(main := m.(pc := AwaitAborted), pipe := s.pipe.(readerClosed := true))
    // receiving from a closed empty channel would yield nil
    case Receive =>
      var failed := s.chan.slot.Full? && s.chan.slot.failed;
      var next := if m.pc.AwaitAborted? || failed then Killing else WaitDump;
      s.(chan := s.chan.(slot := Empty), main := m.(pc := next))
    case Kill => s.(main := m.(pc := WaitKilled), dump := s.dump.(killed := true))
    case Reap => s.(main := m.(pc := Finished(Failure)))
    case WaitForDump =>
      s.(main := m.(pc := Finished(if s.dump.process.ok then Completed(cfg, s.comp) else Failure)))
  }

  predicate Enabled(cfg: Config, s: State, step: Step) {
    match step
    case OfDump(d) => DumpEnabled(cfg, s.dump, d)
    case OfCompressor(c) => CompressorEnabled(cfg, s, c)
    case OfMain(m) => MainEnabled(s, m)
  }

  function Apply(cfg: Config, s: State, step: Step): State
    requires Enabled(cfg, s, step)
  {
    match step
    case OfDump(d) => s.(dump := DumpApply(cfg, s.dump, d))
    case OfCompressor(c) => CompressorApply(cfg, s, c)
    case OfMain(m) => MainApply(cfg, s, m)
  }

  /** A run: each state follows from the one before by an enabled step. */
  ghost predicate IsRun(cfg: Config, states: seq<State>, steps: seq<Step>) {
    && |states| == |steps| + 1
    && states[0] == Init(cfg)
    && forall i :: 0 <= i < |steps| ==>
         Enabled(cfg, states[i], steps[i]) && states[i + 1] == Apply(cfg, states[i], steps[i])
  }

  // ------------------------------------------------------------ invariant

  function Marks(n: nat): Bytes {
    if n == 0 then [] else EOF_MARKER + Marks(n - 1)
  }

  /** Everything the compressor has put on the pipe, cut writes aside. */
  function Wire(cfg: Config, c: Compressor): Bytes {
    if cfg.derive.None? then Flat(c.hashed)
    else (if c.salted then cfg.salt else []) + (Frames(cfg.Cipher(), 1, c.hashed) + Marks(c.marks))
  }

  /** The gzip writes the compressor must have issued or still hold. */
  function Due(cfg: Config, c: Compressor): seq<Bytes> {
    if c.pc.Opening? || c.pc.Salting? || c.pc.Copying? then cfg.gzip.Emitted(c.chunks)
    else if cfg.derive.Some? && !c.encOpen then []
    else cfg.gzip.AllWrites(c.chunks)
  }

  function MarksAt(c: Compressor): nat {
    if !c.encOpen then 0
    else match c.pc
      case Opening | Salting | Copying | Finishing => 0
      case Reporting | Remarking => 1
      case ClosingChan | ClosingPipe | Stopped => 2
  }

  predicate Reported(c: Compressor) {
    c.pc.Remarking? || c.pc.ClosingChan? || c.pc.ClosingPipe? || c.pc.Stopped?
  }

  predicate Waiting(m: Main) {
    m.pc.Uploading? || m.pc.ClosingReader? || m.pc.AwaitAborted? || m.pc.AwaitCompressor?
  }

  /** The dump's bytes are conserved: compressed, in the stdout pipe, or not yet written. */
  ghost predicate DumpInv(cfg: Config, d: Dump, c: Compressor) {
    && Flat(c.chunks) + (d.stdout + d.left) == cfg.dump
    && c.count == |Flat(c.chunks)|
    && (d.process == Exited(true) ==> d.left == [])
  }

  ghost predicate CompressorInv(cfg: Config, c: Compressor) {
    && (cfg.derive.None? ==> !c.salted && !c.encOpen && c.marks == 0 && !c.pc.Salting? && !c.pc.Remarking?)
    && (c.encOpen ==> c.salted)
    && (c.pc.Opening? ==> !c.salted)
    && (c.pc.Salting? ==> c.salted)
    && (c.pc.Opening? || c.pc.Salting? ==> c.chunks == [] && c.hashed == [] && c.todo == [] && !c.encOpen)
    && (c.pc.Opening? || c.pc.Salting? || c.pc.Copying? ==> !c.failed)
    && ((c.pc.Copying? || c.pc.Finishing?) && cfg.derive.Some? ==> c.encOpen)
    && (c.pc.Remarking? ==> c.encOpen)
    && (c.todo != [] ==> c.pc.Copying? || c.pc.Finishing?)
    && (cfg.derive.Some? && !c.encOpen && !c.pc.Opening? && !c.pc.Salting? ==> c.failed && c.hashed == [])
    && c.marks == MarksAt(c)
  }

  /** A write is in progress only where the compressor writes, and is cut only by a closed reader. */
  ghost predicate PipeInv(c: Compressor, p: Pipe) {
    && (c.pc.Opening? || c.pc.Remarking? || c.pc.ClosingPipe? || c.pc.Stopped? ==> Idle(p))
    && (p.writerClosed <==> c.pc.Stopped?)
    && (p.cut ==> p.readerClosed)
  }

  /** As long as no write was cut, the pipe carries the encoding of what gzip was given. */
  ghost predicate WireInv(cfg: Config, c: Compressor, p: Pipe, got: Bytes) {
    !p.cut ==> got + p.offered == Wire(cfg, c) && c.hashed + c.todo == Due(cfg, c)
  }

  ghost predicate ChanInv(c: Compressor, ch: ErrChan, m: Main) {
    && ch.sends == (if Reported(c) then 1 else 0)
    && ch.slot == (if Reported(c) && Waiting(m) then Full(c.failed) else Empty)
    && (ch.closed <==> c.pc.ClosingPipe? || c.pc.Stopped?)
  }

  /** Once the copy ended without error, the dump had exited and its output was drained. */
  ghost predicate DrainInv(d: Dump, c: Compressor) {
    !c.failed && !c.pc.Opening? && !c.pc.Salting? && !c.pc.Copying? ==> d.stdout == [] && d.process.Exited?
  }

  ghost predicate MainInv(cfg: Config, d: Dump, c: Compressor, p: Pipe, m: Main) {
    && (p.readerClosed <==> m.uploadFailed && !m.pc.ClosingReader?)
    && (m.pc.Uploading? || m.pc.AwaitCompressor? || m.pc.WaitDump? ==> !m.uploadFailed)
    && (m.pc.ClosingReader? || m.pc.AwaitAborted? ==> m.uploadFailed)
    && (m.pc.Killing? || m.pc.WaitKilled? ==> m.uploadFailed || c.failed)
    && (!Waiting(m) ==> Reported(c))
    && (!m.uploadFailed && !m.pc.Uploading? ==> c.pc.Stopped?)
    && (m.pc.WaitDump? ==> !c.failed)
    && (d.killed <==> m.pc.WaitKilled? || (m.pc.Finished? && (m.uploadFailed || c.failed)))
    && (m.pc.Finished? ==>
          && d.process.Exited?
          && (m.pc.outcome.Success? <==> !m.uploadFailed && !c.failed && d.process.ok)
          && (m.pc.outcome.Success? ==> m.pc.outcome == Completed(cfg, c)))
  }

  ghost predicate Inv(cfg: Config, s: State) {
    && DumpInv(cfg, s.dump, s.comp)
    && CompressorInv(cfg, s.comp)
    && PipeInv(s.comp, s.pipe)
    && WireInv(cfg, s.comp, s.pipe, s.main.got)
    && ChanInv(s.comp, s.chan, s.main)
    && DrainInv(s.dump, s.comp)
    && MainInv(cfg, s.dump, s.comp, s.pipe, s.main)
  }

  lemma ChunkMoves(before: seq<Bytes>, stdout: Bytes, left: Bytes, n: nat)
    requires n <= |stdout|
    ensures Flat(before + [stdout[..n]]) + (stdout[n..] + left) == Flat(before) + (stdout + left)
    ensures |Flat(before + [stdout[..n]])| == |Flat(before)| + n
  {
    FlatSnoc(before, stdout[..n]);
    assert stdout == stdout[..n] + stdout[n..];
    Regroup(Flat(before), stdout[..n], stdout[n..] + left);
    Regroup(stdout[..n], stdout[n..], left);
  }

  lemma OutputMoves(stdout: Bytes, left: Bytes, n: nat)
    requires n <= |left|
    ensures (stdout + left[..n]) + left[n..] == stdout + left
  {
    Regroup(stdout, left[..n], left[n..]);
    assert left == left[..n] + left[n..];
  }

  lemma DumpStepKeeps(cfg: Config, s: State, step: DumpStep)
    requires Inv(cfg, s) && DumpEnabled(cfg, s.dump, step)
    ensures Inv(cfg, Apply(cfg, s, OfDump(step)))
  {
    if step.Write? {
      OutputMoves(s.dump.stdout, s.dump.left, step.n);
    }
  }

  lemma MainStepKeepsMain(cfg: Config, s: State, step: MainStep)
    requires Inv(cfg, s) && MainEnabled(s, step)
    ensures var t := MainApply(cfg, s, step); MainInv(cfg, t.dump, t.comp, t.pipe, t.main)
  {
  }

  lemma ReadMoves(got: Bytes, offered: Bytes, n: nat)
    requires n <= |offered|
    ensures (got + offered[..n]) + offered[n..] == got + offered
  {
    OutputMoves(got, offered, n);
  }

  lemma MainStepKeeps(cfg: Config, s: State, step: MainStep)
    requires Inv(cfg, s) && MainEnabled(s, step)
    ensures Inv(cfg, Apply(cfg, s, OfMain(step)))
  {
    MainStepKeepsMain(cfg, s, step);
    if step.UploadRead? {
      ReadMoves(s.main.got, s.pipe.offered, step.n);
    }
  }

  lemma CompressorStepKeepsControl(cfg: Config, s: State, step: CompressorStep)
    requires CompressorInv(cfg, s.comp) && CompressorEnabled(cfg, s, step)
    ensures CompressorInv(cfg, CompressorApply(cfg, s, step).comp)
  {
  }

  lemma CompressorStepKeepsPipe(cfg: Config, s: State, step: CompressorStep)
    requires Inv(cfg, s) && CompressorEnabled(cfg, s, step)
    ensures var t := CompressorApply(cfg, s, step); PipeInv(t.comp, t.pipe)
  {
  }

  lemma CompressorStepKeepsChan(cfg: Config, s: State, step: CompressorStep)
    requires ChanInv(s.comp, s.chan, s.main) && (!Waiting(s.main) ==> Reported(s.comp))
    requires CompressorInv(cfg, s.comp) && PipeInv(s.comp, s.pipe) && CompressorEnabled(cfg, s, step)
    ensures var t := CompressorApply(cfg, s, step); ChanInv(t.comp, t.chan, t.main)
  {
  }

  lemma CompressorStepKeepsDrain(cfg: Config, s: State, step: CompressorStep)
    requires DrainInv(s.dump, s.comp) && CompressorInv(cfg, s.comp) && CompressorEnabled(cfg, s, step)
    ensures var t := CompressorApply(cfg, s, step); DrainInv(t.dump, t.comp)
  {
  }

  lemma CompressorStepKeepsMain(cfg: Config, s: State, step: CompressorStep)
    requires Inv(cfg, s) && CompressorEnabled(cfg, s, step)
    ensures var t := CompressorApply(cfg, s, step); MainInv(cfg, t.dump, t.comp, t.pipe, t.main)
  {
  }

  lemma CompressorStepKeepsDump(cfg: Config, s: State, step: CompressorStep)
    requires Inv(cfg, s) && CompressorEnabled(cfg, s, step)
    ensures var t := CompressorApply(cfg, s, step); DumpInv(cfg, t.dump, t.comp)
  {
    if step.ReadChunk? {
      ChunkMoves(s.comp.chunks, s.dump.stdout, s.dump.left, step.n);
    }
  }

  // --- what the pipe carries

  /** One more gzip write appends its encoding to the wire. */
  lemma WireGrows(cfg: Config, c: Compressor, w: Bytes)
    requires cfg.derive.Some? ==> c.marks == 0
    ensures Wire(cfg, c.(hashed := c.hashed + [w])) == Wire(cfg, c) + Encoded(cfg, c, w)
  {
    if cfg.derive.None? {
      FlatSnoc(c.hashed, w);
    } else {
      var start := if c.salted then cfg.salt else [];
      var frames := Frames(cfg.Cipher(), 1, c.hashed);
      FramesSnoc(cfg.Cipher(), 1, c.hashed, w);
      assert frames + Marks(0) == frames;
      assert (frames + Encoded(cfg, c, w)) + Marks(0) == frames + Encoded(cfg, c, w);
      Regroup(start, frames, Encoded(cfg, c, w));
    }
  }

  /** One more Close appends a marker. */
  lemma {:induction false} MarksGrow(n: nat)
    ensures Marks(n + 1) == Marks(n) + EOF_MARKER
  {
    if n > 0 {
      MarksGrow(n - 1);
      Regroup(EOF_MARKER, Marks(n - 1), EOF_MARKER);
    }
  }

  lemma WireMarked(cfg: Config, c: Compressor)
    requires cfg.derive.Some?
    ensures Wire(cfg, c.(marks := c.marks + 1)) == Wire(cfg, c) + EOF_MARKER
  {
    var start := if c.salted then cfg.salt else [];
    var frames := Frames(cfg.Cipher(), 1, c.hashed);
    MarksGrow(c.marks);
    Regroup(frames, Marks(c.marks), EOF_MARKER);
    Regroup(start, frames + Marks(c.marks), EOF_MARKER);
  }

  lemma WireDependsOn(cfg: Config, c: Compressor, d: Compressor)
    requires c.hashed == d.hashed && c.salted == d.salted && c.marks == d.marks
    ensures Wire(cfg, c) == Wire(cfg, d)
  {
  }

  lemma WireAtOpen(cfg: Config, c: Compressor)
    requires cfg.derive.Some? && c.hashed == [] && c.marks == 0 && !c.salted
    ensures Wire(cfg, c) == [] && Wire(cfg, c.(salted := true)) == cfg.salt
  {
  }

  lemma EmitKeepsWire(cfg: Config, s: State)
    requires CompressorInv(cfg, s.comp) && CompressorEnabled(cfg, s, EmitWrite)
    requires s.main.got == Wire(cfg, s.comp)
    ensures var t := CompressorApply(cfg, s, EmitWrite); t.main.got + t.pipe.offered == Wire(cfg, t.comp)
  {
    var c := s.comp;
    WireGrows(cfg, c, c.todo[0]);
    WireDependsOn(cfg, c.(hashed := c.hashed + [c.todo[0]]), CompressorApply(cfg, s, EmitWrite).comp);
  }

  lemma MarkKeepsWire(cfg: Config, s: State, step: CompressorStep)
    requires CompressorInv(cfg, s.comp) && CompressorEnabled(cfg, s, step)
    requires step.SecondClose? || (step.CloseEncoder? && cfg.derive.Some?)
    requires s.main.got == Wire(cfg, s.comp)
    ensures var t := CompressorApply(cfg, s, step); t.main.got + t.pipe.offered == Wire(cfg, t.comp)
  {
    var c := s.comp;
    WireMarked(cfg, c);
    WireDependsOn(cfg, c.(marks := c.marks + 1), CompressorApply(cfg, s, step).comp);
  }

  lemma OpenKeepsWire(cfg: Config, s: State, ok: bool)
    requires CompressorInv(cfg, s.comp) && CompressorEnabled(cfg, s, OpenStream(ok)) && cfg.derive.Some?
    requires s.main.got + s.pipe.offered == Wire(cfg, s.comp)
    ensures var t := CompressorApply(cfg, s, OpenStream(ok)); t.main.got + t.pipe.offered == Wire(cfg, t.comp)
  {
    WireAtOpen(cfg, s.comp);
    WireDependsOn(cfg, if ok then s.comp.(salted := true) else s.comp, CompressorApply(cfg, s, OpenStream(ok)).comp);
  }

  lemma CompressorStepKeepsWire(cfg: Config, s: State, step: CompressorStep)
    requires CompressorInv(cfg, s.comp) && PipeInv(s.comp, s.pipe) && CompressorEnabled(cfg, s, step)
    requires !s.pipe.cut ==> s.main.got + s.pipe.offered == Wire(cfg, s.comp)
    ensures var t := CompressorApply(cfg, s, step); !t.pipe.cut ==> t.main.got + t.pipe.offered == Wire(cfg, t.comp)
  {
    if s.pipe.cut {
      return;
    }
    match step
    case EmitWrite => EmitKeepsWire(cfg, s);
    case SecondClose => MarkKeepsWire(cfg, s, step);
    case CloseEncoder =>
      if cfg.derive.Some? {
        MarkKeepsWire(cfg, s, step);
      }
    case OpenStream(ok) =>
      if cfg.derive.Some? {
        OpenKeepsWire(cfg, s, ok);
      }
    case _ => WireDependsOn(cfg, s.comp, CompressorApply(cfg, s, step).comp);
  }

  /** What was issued plus what is still held is always what gzip owes. */
  lemma CompressorStepKeepsDue(cfg: Config, s: State, step: CompressorStep)
    requires CompressorInv(cfg, s.comp) && CompressorEnabled(cfg, s, step)
    requires !s.pipe.cut ==> s.comp.hashed + s.comp.todo == Due(cfg, s.comp)
    ensures var t := CompressorApply(cfg, s, step); !t.pipe.cut ==> t.comp.hashed + t.comp.todo == Due(cfg, t.comp)
  {
    match step
    case EmitWrite => EmitKeepsDue(cfg, s);
    case ReadChunk(n) => ReadKeepsDue(cfg, s, n);
    case _ =>
  }

  lemma EmitKeepsDue(cfg: Config, s: State)
    requires CompressorInv(cfg, s.comp) && CompressorEnabled(cfg, s, EmitWrite)
    ensures var c := CompressorApply(cfg, s, EmitWrite).comp;
            c.hashed + c.todo == s.comp.hashed + s.comp.todo && Due(cfg, c) == Due(cfg, s.comp)
  {
    var c := s.comp;
    assert c.hashed + c.todo == (c.hashed + [c.todo[0]]) + c.todo[1..];
  }

  lemma ReadKeepsDue(cfg: Config, s: State, n: nat)
    requires CompressorInv(cfg, s.comp) && CompressorEnabled(cfg, s, ReadChunk(n))
    requires s.comp.hashed + s.comp.todo == Due(cfg, s.comp) || s.pipe.cut
    ensures var t := CompressorApply(cfg, s, ReadChunk(n));
            t.comp.hashed + t.comp.todo == Due(cfg, t.comp) || t.pipe.cut
  {
    var after := s.comp.chunks + [s.dump.stdout[..n]];
    assert after[..|after| - 1] == s.comp.chunks;
  }

  lemma StepKeepsInv(cfg: Config, s: State, step: Step)
    requires cfg.Sound() && Inv(cfg, s) && Enabled(cfg, s, step)
    ensures Inv(cfg, Apply(cfg, s, step))
  {
    match step
    case OfDump(d) => DumpStepKeeps(cfg, s, d);
    case OfMain(m) => MainStepKeeps(cfg, s, m);
    case OfCompressor(c) =>
      CompressorStepKeepsControl(cfg, s, c);
      CompressorStepKeepsPipe(cfg, s, c);
      CompressorStepKeepsChan(cfg, s, c);
      CompressorStepKeepsDrain(cfg, s, c);
      CompressorStepKeepsMain(cfg, s, c);
      CompressorStepKeepsDump(cfg, s, c);
      CompressorStepKeepsWire(cfg, s, c);
      CompressorStepKeepsDue(cfg, s, c);
  }

  lemma InitInv(cfg: Config)
    requires cfg.Sound()
    ensures Inv(cfg, Init(cfg))
  {
    assert Flat([]) + ([] + cfg.dump) == cfg.dump;
  }

  lemma {:induction false} RunsKeepInv(cfg: Config, states: seq<State>, steps: seq<Step>)
    requires cfg.Sound() && IsRun(cfg, states, steps)
    ensures Inv(cfg, states[|steps|])
  {
    InitInv(cfg);
    for i := 0 to |steps|
      invariant Inv(cfg, states[i])
    {
      StepKeepsInv(cfg, states[i], steps[i]);
    }
  }

  // ---------------------------------------------------------- main results

  /** An object from which the dump can be read back, and the checksum that goes with it. */
  ghost predicate CompleteBackup(cfg: Config, stored: Bytes, size: nat, checksum: string) {
    && size == |cfg.dump|
    && (cfg.derive.None? ==> checksum == "" && cfg.gzip.gunzip(stored) == Some(cfg.dump))
    && (cfg.derive.Some? ==>
          var decoded := DecodeStream(cfg.derive.value, stored);
          && decoded.end == CleanEof(EOF_MARKER)
          && checksum == cfg.hash(decoded.text)
          && cfg.gzip.gunzip(decoded.text) == Some(cfg.dump))
  }

  /**
   In every interleaving, "success" means that the stored object is the
   complete encoding of the whole dump, with its size and checksum.
   */
  lemma SuccessIsComplete(cfg: Config, states: seq<State>, steps: seq<Step>)
    requires cfg.Sound() && IsRun(cfg, states, steps)
    requires states[|steps|].main.pc.Finished? && states[|steps|].main.pc.outcome.Success?
    ensures var s := states[|steps|];
            && s.dump.process == Exited(true)
            && CompleteBackup(cfg, s.main.got, s.main.pc.outcome.size, s.main.pc.outcome.checksum)
  {
    RunsKeepInv(cfg, states, steps);
    var s := states[|steps|];
    var c := s.comp;
    assert s.dump.stdout + s.dump.left == [];
    assert Flat(c.chunks) == cfg.dump;
    assert c.hashed == cfg.gzip.AllWrites(c.chunks);
    assert s.main.got == Wire(cfg, c);
    if cfg.derive.Some? {
      SuccessIsStream(cfg, states, steps);
      StreamRoundTrip(cfg.derive.value, cfg.salt, c.hashed, EOF_MARKER);
    }
  }

  /** With encryption, the stored object is one stream of the gzip writes, and a second marker. */
  lemma SuccessIsStream(cfg: Config, states: seq<State>, steps: seq<Step>)
    requires cfg.Sound() && cfg.derive.Some? && IsRun(cfg, states, steps)
    requires states[|steps|].main.pc.Finished? && states[|steps|].main.pc.outcome.Success?
    ensures var s := states[|steps|];
            && s.main.got == Stream(cfg.derive.value, cfg.salt, s.comp.hashed) + EOF_MARKER
            && s.comp.hashed == cfg.gzip.AllWrites(s.comp.chunks)
            && AllFit(s.comp.hashed)
  {
    RunsKeepInv(cfg, states, steps);
    WireIsStream(cfg, states[|steps|].comp);
  }

  lemma WireIsStream(cfg: Config, c: Compressor)
    requires cfg.derive.Some? && c.salted && c.marks == 2
    ensures Wire(cfg, c) == Stream(cfg.derive.value, cfg.salt, c.hashed) + EOF_MARKER
  {
    var frames := Frames(cfg.Cipher(), 1, c.hashed);
    assert Marks(2) == EOF_MARKER + Marks(1) && Marks(1) == EOF_MARKER + Marks(0);
    Regroup(frames, EOF_MARKER, EOF_MARKER);
    Regroup(cfg.salt, frames + EOF_MARKER, EOF_MARKER);
  }

  /** A step that is not a failure of the environment: no error from dump, source or upload. */
  predicate Healthy(step: Step) {
    step != OfDump(Exit(false)) && step != OfCompressor(OpenStream(false))
    && step != OfCompressor(ReadError) && step != OfMain(UploadError)
  }

  predicate AllHealthy(steps: seq<Step>) {
    forall i :: 0 <= i < |steps| ==> Healthy(steps[i])
  }

  lemma OneMoreHealthy(steps: seq<Step>, step: Step)
    ensures AllHealthy(steps + [step]) <==> AllHealthy(steps) && Healthy(step)
  {
    assert forall i :: 0 <= i < |steps| ==> (steps + [step])[i] == steps[i];
    assert (steps + [step])[|steps|] == step;
  }

  /** Some process has seen a failure. */
  predicate Broken(s: State) {
    s.dump.process == Exited(false) || s.comp.failed || s.main.uploadFailed
  }

  /** Failures are never forgotten, and none appears by itself: writes are only cut, dumps only killed, after one. */
  lemma CompressorBreaksIff(cfg: Config, s: State, step: CompressorStep)
    requires CompressorEnabled(cfg, s, step) && (s.pipe.readerClosed ==> s.main.uploadFailed)
    ensures Broken(CompressorApply(cfg, s, step)) <==> Broken(s) || !Healthy(OfCompressor(step))
  {
  }

  lemma DumpBreaksIff(cfg: Config, s: State, step: DumpStep)
    requires DumpEnabled(cfg, s.dump, step) && (s.dump.killed ==> s.main.uploadFailed || s.comp.failed)
    ensures Broken(s.(dump := DumpApply(cfg, s.dump, step))) <==> Broken(s) || !Healthy(OfDump(step))
  {
  }

  lemma StepBreaksIff(cfg: Config, s: State, step: Step)
    requires MainInv(cfg, s.dump, s.comp, s.pipe, s.main) && Enabled(cfg, s, step)
    ensures Broken(Apply(cfg, s, step)) <==> Broken(s) || !Healthy(step)
  {
    match step
    case OfDump(d) => DumpBreaksIff(cfg, s, d);
    case OfCompressor(c) => CompressorBreaksIff(cfg, s, c);
    case OfMain(m) =>
  }

  lemma {:induction false} BrokenIff(cfg: Config, states: seq<State>, steps: seq<Step>)
    requires cfg.Sound() && IsRun(cfg, states, steps)
    ensures Broken(states[|steps|]) <==> !AllHealthy(steps)
  {
    if steps != [] {
      var n := |steps| - 1;
      BrokenIff(cfg, states[..n + 1], steps[..n]);
      RunsKeepInv(cfg, states[..n + 1], steps[..n]);
      StepBreaksIff(cfg, states[n], steps[n]);
      assert steps == steps[..n] + [steps[n]];
      OneMoreHealthy(steps[..n], steps[n]);
    }
  }

  /**
   The record ends "success" exactly when nothing failed in the whole run: the
   dump exited 0, and neither the opening of the stream, the reading of its
   output nor the upload reported an error. A compressor error leaves the
   uploader with a clean end of file, and still the record ends "failed".
   */
  lemma OutcomeIff(cfg: Config, states: seq<State>, steps: seq<Step>)
    requires cfg.Sound() && IsRun(cfg, states, steps)
    requires states[|steps|].main.pc.Finished?
    ensures states[|steps|].main.pc.outcome.Success? <==> AllHealthy(steps)
  {
    RunsKeepInv(cfg, states, steps);
    BrokenIff(cfg, states, steps);
  }

  /** errChan is sent to exactly once before it is closed, and a receive always finds that value. */
  lemma OneErrorValue(cfg: Config, states: seq<State>, steps: seq<Step>)
    requires cfg.Sound() && IsRun(cfg, states, steps)
    ensures var s := states[|steps|];
            && s.chan.sends <= 1
            && (s.chan.closed ==> s.chan.sends == 1)
            && (MainEnabled(s, Receive) ==> s.chan.slot == Full(s.comp.failed))
  {
    RunsKeepInv(cfg, states, steps);
  }

  // ------------------------------------------------- no deadlock, no livelock

  /** The step the compressor can take, alone or with the dump's help, when it is not blocked in a write. */
  function CompressorProgress(cfg: Config, s: State): Step {
    match s.comp.pc
    case Opening => OfCompressor(OpenStream(true))
    case Salting => OfCompressor(SaltWritten)
    case Copying =>
      if s.comp.todo != [] then OfCompressor(EmitWrite)
      else if s.dump.stdout != [] then OfCompressor(ReadChunk(1))
      else if s.dump.process.Exited? then OfCompressor(ReadEof)
      else if s.dump.left != [] then OfDump(Write(1))
      else OfDump(Exit(true))
    case Finishing => if s.comp.todo != [] then OfCompressor(EmitWrite) else OfCompressor(CloseEncoder)
    case Reporting => OfCompressor(Report)
    case Remarking => OfCompressor(SecondClose)
    case ClosingChan => OfCompressor(CloseChan)
    case ClosingPipe => OfCompressor(ClosePipe)
    case Stopped => OfMain(UploadEof)
  }

  lemma CompressorCanStep(cfg: Config, s: State)
    requires cfg.Sound() && Inv(cfg, s) && Idle(s.pipe) && !s.comp.pc.Stopped?
    ensures Enabled(cfg, s, CompressorProgress(cfg, s)) && Healthy(CompressorProgress(cfg, s))
  {
  }

  /** The next step of a run that has not finished. */
  function Progress(cfg: Config, s: State): Step {
    match s.main.pc
    case Uploading => if !Idle(s.pipe) then OfMain(UploadRead(1)) else CompressorProgress(cfg, s)
    case ClosingReader => OfMain(CloseReader)
    case AwaitAborted =>
      if s.chan.slot.Full? then OfMain(Receive)
      else if !Idle(s.pipe) then OfCompressor(WriteCut)
      else CompressorProgress(cfg, s)
    case AwaitCompressor => OfMain(Receive)
    case Killing => OfMain(Kill)
    case WaitKilled => if s.dump.process.Alive? then OfDump(DieKilled) else OfMain(Reap)
    case WaitDump => OfMain(WaitForDump)
    case Finished(_) => OfMain(Reap)
  }

  /**
   No deadlock: until completeBackup or failBackup is reached, some process
   can step, and without relying on any new failure.
   */
  lemma NeverStuck(cfg: Config, states: seq<State>, steps: seq<Step>)
    requires cfg.Sound() && IsRun(cfg, states, steps)
    requires !states[|steps|].main.pc.Finished?
    ensures var step := Progress(cfg, states[|steps|]); Enabled(cfg, states[|steps|], step) && Healthy(step)
  {
    RunsKeepInv(cfg, states, steps);
    var s := states[|steps|];
    if Idle(s.pipe) && !s.comp.pc.Stopped? {
      CompressorCanStep(cfg, s);
    }
  }

  function Rank(c: CompressorPc): nat {
    match c
    case Opening => 8 case Salting => 7 case Copying => 6 case Finishing => 5 case Reporting => 4
    case Remarking => 3 case ClosingChan => 2 case ClosingPipe => 1 case Stopped => 0
  }

  function MainRank(m: MainPc): nat {
    match m
    case Uploading => 7 case ClosingReader => 6 case AwaitAborted => 5 case AwaitCompressor => 4
    case Killing => 3 case WaitKilled => 2 case WaitDump => 1 case Finished(_) => 0
  }

  /** Bytes the dump still has to write count twice, those in its stdout once. */
  function OutputLeft(d: Dump): nat {
    2 * |d.left| + |d.stdout| + if d.process.Alive? then 1 else 0
  }

  /** What is left to do, compared lexicographically. */
  function Work(s: State): (nat, nat, nat, nat, nat) {
    (OutputLeft(s.dump), Rank(s.comp.pc), |s.comp.todo|, |s.pipe.offered|, MainRank(s.main.pc))
  }

  predicate Less(a: (nat, nat, nat, nat, nat), b: (nat, nat, nat, nat, nat)) {
    || a.0 < b.0
    || (a.0 == b.0 && a.1 < b.1)
    || (a.0 == b.0 && a.1 == b.1 && a.2 < b.2)
    || (a.0 == b.0 && a.1 == b.1 && a.2 == b.2 && a.3 < b.3)
    || (a.0 == b.0 && a.1 == b.1 && a.2 == b.2 && a.3 == b.3 && a.4 < b.4)
  }

  lemma CompressorStepLessWork(cfg: Config, s: State, step: CompressorStep)
    requires CompressorEnabled(cfg, s, step)
    ensures Less(Work(CompressorApply(cfg, s, step)), Work(s))
  {
  }

  lemma StepLessWork(cfg: Config, s: State, step: Step)
    requires Enabled(cfg, s, step)
    ensures Less(Work(Apply(cfg, s, step)), Work(s))
  {
    if step.OfCompressor? {
      CompressorStepLessWork(cfg, s, step.c);
    }
  }

  lemma RunGrows(cfg: Config, states: seq<State>, steps: seq<Step>, step: Step)
    requires IsRun(cfg, states, steps) && Enabled(cfg, states[|steps|], step)
    ensures IsRun(cfg, states + [Apply(cfg, states[|steps|], step)], steps + [step])
  {
    var states', steps' := states + [Apply(cfg, states[|steps|], step)], steps + [step];
    forall i | 0 <= i < |steps'|
      ensures Enabled(cfg, states'[i], steps'[i]) && states'[i + 1] == Apply(cfg, states'[i], steps'[i])
    {
      if i < |steps| {
        assert states'[i] == states[i] && states'[i + 1] == states[i + 1] && steps'[i] == steps[i];
      }
    }
  }

  /**
   Every run, however far it got and whatever failed in it, can go on to
   completeBackup or failBackup without any further failure. So there are
   successful runs, and a run that saw no failure can still become one.
   */
  lemma {:induction false} EveryRunFinishes(cfg: Config, states: seq<State>, steps: seq<Step>)
      returns (more: seq<State>, rest: seq<Step>)
    requires cfg.Sound() && IsRun(cfg, states, steps)
    ensures IsRun(cfg, states + more, steps + rest) && AllHealthy(rest)
    ensures (states + more)[|steps + rest|].main.pc.Finished?
    ensures (states + more)[|steps + rest|].main.pc.outcome.Success? <==> AllHealthy(steps)
    decreases Work(states[|steps|]).0, Work(states[|steps|]).1, Work(states[|steps|]).2, Work(states[|steps|]).3,
              Work(states[|steps|]).4
  {
    if states[|steps|].main.pc.Finished? {
      more, rest := [], [];
      assert states + [] == states && steps + [] == steps;
      OutcomeIff(cfg, states, steps);
    } else {
      var step := Progress(cfg, states[|steps|]);
      NeverStuck(cfg, states, steps);
      var next := Apply(cfg, states[|steps|], step);
      RunGrows(cfg, states, steps, step);
      StepLessWork(cfg, states[|steps|], step);
      more, rest := EveryRunFinishes(cfg, states + [next], steps + [step]);
      Prepended(states, next, more);
      Prepended(steps, step, rest);
      OneMoreHealthy(steps, step);
      more, rest := [next] + more, [step] + rest;
    }
  }

  lemma Prepended<T>(a: seq<T>, x: T, b: seq<T>)
    ensures (a + [x]) + b == a + ([x] + b)
  {
  }

  /** In an infinite schedule, the step at position `i` is one the system can take. */
  ghost predicate TakesStep(cfg: Config, state: nat -> State, step: nat -> Step, i: nat) {
    Enabled(cfg, state(i), step(i)) && state(i + 1) == Apply(cfg, state(i), step(i))
  }

  lemma NoInfiniteRun(cfg: Config, state: nat -> State, step: nat -> Step, from: nat)
    requires forall i: nat :: from <= i ==> TakesStep(cfg, state, step, i)
    ensures false
    decreases Work(state(from)).0, Work(state(from)).1, Work(state(from)).2, Work(state(from)).3, Work(state(from)).4
  {
    assert TakesStep(cfg, state, step, from);
    StepLessWork(cfg, state(from), step(from));
    NoInfiniteRun(cfg, state, step, from + 1);
  }

  /** Every run is finite whatever the scheduling: an infinite schedule stops being a run somewhere. */
  lemma EveryScheduleStops(cfg: Config, state: nat -> State, step: nat -> Step)
    ensures exists i: nat :: !TakesStep(cfg, state, step, i)
  {
    if forall i: nat :: TakesStep(cfg, state, step, i) {
      NoInfiniteRun(cfg, state, step, 0);
    }
  }
}
