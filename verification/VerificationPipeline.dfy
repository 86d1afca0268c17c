/**
 runVerification without the decrypt branch: a downloader goroutine feeding a
 hashing goroutine through io.Pipe, with the download's error sent on a
 one-slot channel.
 */
module VerificationPipeline {
  import opened Bytes
  import FrameFormat
  import BackupPipeline
  import opened ErrorSlot

  datatype DownloaderPc = Copying | Reporting | ClosingChan | ClosingPipe | Stopped

  /** `left` is the part of the object not yet offered to the pipe. */
  datatype Downloader = Downloader(pc: DownloaderPc, left: Bytes, failed: bool)

  datatype CheckerPc = Reading | AwaitDownload | Finished(verdict: Verdict)

  /** The outcome of one verification, and the checksum the record then holds. */
  datatype Verdict = Verdict(passed: bool, checksum: string)

  datatype State = State(
    down: Downloader, offered: Bytes, writerClosed: bool, slot: Slot, chanClosed: bool,
    pc: CheckerPc, hashed: Bytes)

  datatype Step =
    | Offer(n: nat) | DownloadDone | DownloadError | Report | CloseChan | ClosePipe
    | HashChunk(n: nat) | HashEof | Receive

  /** `checksum` is the one stored in the record, "" for none. */
  datatype Config = Config(stored: Bytes, checksum: string, hash: Bytes -> string)

  function Init(cfg: Config): State {
    State(Downloader(Copying, cfg.stored, false), [], false, Empty, false, Reading, [])
  }

  predicate Enabled(s: State, step: Step) {
    match step
    case Offer(n) => s.down.pc.Copying? && s.offered == [] && 0 < n <= |s.down.left|
    case DownloadDone => s.down.pc.Copying? && s.offered == [] && s.down.left == []
    case DownloadError => s.down.pc.Copying? && s.offered == []
    case Report => s.down.pc.Reporting? && s.slot.Empty?
    case CloseChan => s.down.pc.ClosingChan?
    case ClosePipe => s.down.pc.ClosingPipe?
    case HashChunk(n) => s.pc.Reading? && 0 < n <= |s.offered|
    case HashEof => s.pc.Reading? && s.offered == [] && s.writerClosed
    case Receive => s.pc.AwaitDownload? && (s.slot.Full? || s.chanClosed)
  }

  /** The comparison that follows a complete download. */
  function Compare(cfg: Config, computed: string): Verdict {
    if cfg.checksum != "" then Verdict(computed == cfg.checksum, cfg.checksum)
    else Verdict(true, computed)
  }

  function Apply(cfg: Config, s: State, step: Step): State
    requires Enabled(s, step)
  {
    match step
    case Offer(n) => s.(offered := s.down.left[..n], down := s.down.(left := s.down.left[n..]))
    case DownloadDone => s.(down := s.down.(pc := Reporting))
    case DownloadError => s.(down := s.down.(pc := Reporting, failed := true))
    case Report => s.(down := s.down.(pc := ClosingChan), slot := Full(s.down.failed))
    case CloseChan => s.(down := s.down.(pc := ClosingPipe), chanClosed := true)
    case ClosePipe => s.(down := s.down.(pc := Stopped), writerClosed := true)
    case HashChunk(n) => s.(hashed := s.hashed + s.offered[..n], offered := s.offered[n..])
    case HashEof => s.(pc := AwaitDownload)
    case Receive =>
      var failed := s.slot.Full? && s.slot.failed;
      s.(slot := Empty,
         pc := Finished(if failed then Verdict(false, cfg.checksum) else Compare(cfg, cfg.hash(s.hashed))))
  }

  ghost predicate IsRun(cfg: Config, states: seq<State>, steps: seq<Step>) {
    && |states| == |steps| + 1
    && states[0] == Init(cfg)
    && forall i :: 0 <= i < |steps| ==> Enabled(states[i], steps[i]) && states[i + 1] == Apply(cfg, states[i], steps[i])
  }

  predicate Reported(s: State) {
    s.down.pc.ClosingChan? || s.down.pc.ClosingPipe? || s.down.pc.Stopped?
  }

  ghost predicate Inv(cfg: Config, s: State) {
    // the object's bytes are conserved, and a download that ends well used them all
    && s.hashed + (s.offered + s.down.left) == cfg.stored
    && (!s.down.pc.Copying? ==> s.offered == [])
    && (!s.down.pc.Copying? && !s.down.failed ==> s.down.left == [])
    && (s.down.pc.Copying? ==> !s.down.failed)
    && s.slot == (if Reported(s) && !s.pc.Finished? then Full(s.down.failed) else Empty)
    && (s.chanClosed <==> s.down.pc.ClosingPipe? || s.down.pc.Stopped?)
    && (s.writerClosed <==> s.down.pc.Stopped?)
    && (!s.pc.Reading? ==> s.down.pc.Stopped?)
    && (s.pc.Finished? ==> s.pc.verdict == Expected(cfg, s.down.failed))
  }

  /** What the verdict must be, from the stored object alone. */
  function Expected(cfg: Config, downloadFailed: bool): Verdict {
    if downloadFailed then Verdict(false, cfg.checksum) else Compare(cfg, cfg.hash(cfg.stored))
  }

  lemma BytesMove(a: Bytes, b: Bytes, c: Bytes, n: nat)
    requires n <= |b|
    ensures (a + b[..n]) + (b[n..] + c) == a + (b + c)
  {
    Regroup(a, b[..n], b[n..] + c);
    Regroup(b[..n], b[n..], c);
    assert b == b[..n] + b[n..];
  }

  lemma StepKeepsInv(cfg: Config, s: State, step: Step)
    requires Inv(cfg, s) && Enabled(s, step)
    ensures Inv(cfg, Apply(cfg, s, step))
  {
    if step.HashChunk? {
      BytesMove(s.hashed, s.offered, s.down.left, step.n);
    } else if step.Offer? {
      assert s.down.left == s.down.left[..step.n] + s.down.left[step.n..];
    } else if step.Receive? && !s.down.failed {
      assert s.hashed == cfg.stored;
    }
  }

  lemma {:induction false} RunsKeepInv(cfg: Config, states: seq<State>, steps: seq<Step>)
    requires IsRun(cfg, states, steps)
    ensures Inv(cfg, states[|steps|])
  {
    assert [] + ([] + cfg.stored) == cfg.stored;
    for i := 0 to |steps|
      invariant Inv(cfg, states[i])
    {
      StepKeepsInv(cfg, states[i], steps[i]);
    }
  }

  lemma {:induction false} FailureIsADownloadError(cfg: Config, states: seq<State>, steps: seq<Step>)
    requires IsRun(cfg, states, steps)
    ensures states[|steps|].down.failed <==> DownloadError in steps
  {
    if steps != [] {
      var n := |steps| - 1;
      FailureIsADownloadError(cfg, states[..n + 1], steps[..n]);
      assert steps == steps[..n] + [steps[n]];
      assert Enabled(states[n], steps[n]);
    }
  }

  // ---------------------------------------------------------- main results

  /**
   In every interleaving: "passed" exactly when the whole object was
   downloaded without error and its hash is the stored checksum or there was
   none; and a first pass records the hash. A partial download always fails.
   */
  lemma VerdictIff(cfg: Config, states: seq<State>, steps: seq<Step>)
    requires IsRun(cfg, states, steps) && states[|steps|].pc.Finished?
    ensures var s := states[|steps|];
            var v := s.pc.verdict;
            && (v.passed <==> DownloadError !in steps && (cfg.checksum == "" || cfg.checksum == cfg.hash(cfg.stored)))
            && (v.passed ==> s.hashed == cfg.stored && v.checksum == cfg.hash(cfg.stored))
            && (s.hashed != cfg.stored ==> !v.passed)
            && (!v.passed ==> v.checksum == cfg.checksum)
  {
    RunsKeepInv(cfg, states, steps);
    FailureIsADownloadError(cfg, states, steps);
    var s := states[|steps|];
    if !s.down.failed {
      assert s.hashed == cfg.stored;
    }
  }

  /** The next step of a verification that has not finished. */
  function Progress(s: State): Step {
    if s.pc.AwaitDownload? then Receive
    else if s.offered != [] then HashChunk(1)
    else match s.down.pc
      case Copying => if s.down.left != [] then Offer(1) else DownloadDone
      case Reporting => Report
      case ClosingChan => CloseChan
      case ClosingPipe => ClosePipe
      case Stopped => HashEof
  }

  lemma NeverStuck(cfg: Config, states: seq<State>, steps: seq<Step>)
    requires IsRun(cfg, states, steps) && !states[|steps|].pc.Finished?
    ensures Enabled(states[|steps|], Progress(states[|steps|])) && Progress(states[|steps|]) != DownloadError
  {
    RunsKeepInv(cfg, states, steps);
  }

  function Rank(s: State): nat {
    (match s.down.pc
     case Copying => 4 case Reporting => 3 case ClosingChan => 2 case ClosingPipe => 1 case Stopped => 0)
    + (match s.pc case Reading => 2 case AwaitDownload => 1 case Finished(_) => 0)
  }

  /** Every step of every run lowers this bound, so a run has at most that many steps. */
  function Work(s: State): nat {
    2 * |s.down.left| + |s.offered| + Rank(s)
  }

  lemma {:induction false} RunsAreBounded(cfg: Config, states: seq<State>, steps: seq<Step>)
    requires IsRun(cfg, states, steps)
    ensures |steps| <= 2 * |cfg.stored| + 6
  {
    for i := 0 to |steps|
      invariant i + Work(states[i]) <= Work(states[0])
    {
      assert Work(Apply(cfg, states[i], steps[i])) < Work(states[i]);
    }
  }

  // --------------------------------------------- a record over several passes

  /** One verification attempt: the object found then, and whether its download failed. */
  datatype Attempt = Attempt(stored: Bytes, failed: bool)

  function After(hash: Bytes -> string, checksum: string, a: Attempt): Verdict {
    Expected(Config(a.stored, checksum, hash), a.failed)
  }

  /** All of these attempts pass in turn, each starting from the checksum the one before left. */
  predicate AllPass(hash: Bytes -> string, checksum: string, attempts: seq<Attempt>)
    decreases |attempts|
  {
    attempts == [] ||
    (After(hash, checksum, attempts[0]).passed
     && AllPass(hash, After(hash, checksum, attempts[0]).checksum, attempts[1..]))
  }

  /**
   Attempts all pass exactly when every download succeeds and every object
   hashes to one reference: the stored checksum, or else the first hash.
   */
  lemma {:induction false} PassesShareOneChecksum(hash: Bytes -> string, checksum: string, attempts: seq<Attempt>)
    requires forall b :: hash(b) != ""
    requires attempts != []
    ensures var reference := if checksum != "" then checksum else hash(attempts[0].stored);
            AllPass(hash, checksum, attempts) <==>
            forall i :: 0 <= i < |attempts| ==> !attempts[i].failed && hash(attempts[i].stored) == reference
    decreases |attempts|
  {
    var reference := if checksum != "" then checksum else hash(attempts[0].stored);
    var tail := attempts[1..];
    if After(hash, checksum, attempts[0]).passed && tail != [] {
      PassesShareOneChecksum(hash, reference, tail);
      assert forall i :: 0 < i < |attempts| ==> attempts[i] == tail[i - 1];
      assert forall i :: 0 <= i < |tail| ==> tail[i] == attempts[i + 1];
    }
  }

  // ------------------------------------------------ verifying a finished backup

  /**
   An unencrypted backup carries no checksum: its first complete verification
   passes and records one.
   */
  lemma PlainBackupVerifies(cfg: BackupPipeline.Config, states: seq<BackupPipeline.State>,
                            steps: seq<BackupPipeline.Step>)
    requires cfg.Sound() && cfg.derive.None? && BackupPipeline.IsRun(cfg, states, steps)
    requires states[|steps|].main.pc.Finished? && states[|steps|].main.pc.outcome.Success?
    ensures var s := states[|steps|];
            After(cfg.hash, s.main.pc.outcome.checksum, Attempt(s.main.got, false))
            == Verdict(true, cfg.hash(s.main.got))
  {
    BackupPipeline.SuccessIsComplete(cfg, states, steps);
  }

  /**
   An encrypted backup carries the hash of its compressed content, but the
   encrypted size that selects the decrypt branch is never set, so its stored
   bytes are hashed as they are. It verifies exactly when two different byte
   strings have the same hash.
   */
  lemma EncryptedBackupVerifiesIff(cfg: BackupPipeline.Config, states: seq<BackupPipeline.State>,
                                   steps: seq<BackupPipeline.Step>)
    requires cfg.Sound() && cfg.derive.Some? && BackupPipeline.IsRun(cfg, states, steps)
    requires states[|steps|].main.pc.Finished? && states[|steps|].main.pc.outcome.Success?
    requires forall b :: cfg.hash(b) != ""
    ensures var s := states[|steps|];
            var content := FrameFormat.DecodeStream(cfg.derive.value, s.main.got).text;
            && s.main.got != content
            && (After(cfg.hash, s.main.pc.outcome.checksum, Attempt(s.main.got, false)).passed
                <==> cfg.hash(s.main.got) == cfg.hash(content))
  {
    BackupPipeline.SuccessIsComplete(cfg, states, steps);
    BackupPipeline.SuccessIsStream(cfg, states, steps);
    var s := states[|steps|];
    var writes := s.comp.hashed;
    FrameFormat.StreamRoundTrip(cfg.derive.value, cfg.salt, writes, FrameFormat.EOF_MARKER);
    FrameFormat.FramesOutweigh(cfg.Cipher(), 1, writes);
    assert |FrameFormat.Stream(cfg.derive.value, cfg.salt, writes)| > |Flat(writes)|;
  }
}
