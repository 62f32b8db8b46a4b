/**
 * The double-sign guard: the last-sign state kept in memory and in the state file, with a failure or
 * a crash allowed at every point of saving, and what holds of the signatures released over any run.
 */
module Privval {
  import opened Types

  const STEP_PROPOSAL := 0
  const STEP_PREVOTE := 1
  const STEP_PRECOMMIT := 2

  datatype SignError = HeightRegression | RoundRegression | StepRegression | DoubleSign

  /** `H` is the type of hashes of sign bytes. */
  datatype LastSignState<H> = LastSignState(
    height: int,
    round: int,
    step: int,
    signature: Bytes,
    blockHash: Option<Bytes>,
    signBytesHash: Option<H>,
    timestamp: int)

  function FreshState<H>(): LastSignState<H> { LastSignState(0, 0, 0, [], None, None, 0) }

  /** A vote or proposal to sign; `M` is the type of sign bytes. */
  datatype Request<M> = Request(
    height: int,
    round: int,
    step: int,
    signBytes: M,
    blockHash: Option<Bytes>,
    timestamp: int)

  function CheckHRS<H>(last: LastSignState<H>, height: int, round: int, step: int): Option<SignError> {
    if last.height > height then Some(HeightRegression)
    else if last.height < height then None
    else if last.round > round then Some(RoundRegression)
    else if last.round < round then None
    else if last.step > step then Some(StepRegression)
    else if last.step == step then Some(DoubleSign)
    else None
  }

  /** Lexicographic order on (height, round, step). */
  predicate HRSBefore(h1: int, r1: int, s1: int, h2: int, r2: int, s2: int) {
    h1 < h2 || (h1 == h2 && (r1 < r2 || (r1 == r2 && s1 < s2)))
  }

  /** The check passes exactly on a strictly later position, and reports a double sign on the same one. */
  lemma CheckHRSMeaning<H>(last: LastSignState<H>, height: int, round: int, step: int)
    ensures CheckHRS(last, height, round, step) == None
      <==> HRSBefore(last.height, last.round, last.step, height, round, step)
    ensures CheckHRS(last, height, round, step) == Some(DoubleSign)
      <==> (last.height, last.round, last.step) == (height, round, step)
  {}

  /** Whether a request at the position last signed asks for the same message again. */
  predicate IsSame<M, H(==)>(sha: M -> H, last: LastSignState<H>, req: Request<M>) {
    if last.signBytesHash.Some? then
      last.signBytesHash.value == sha(req.signBytes)
    else
      && last.timestamp == req.timestamp
      && (req.step == STEP_PROPOSAL ==> last.blockHash.Some?)
      && last.blockHash == req.blockHash
  }

  datatype Decision = SignNow | ReturnCached | Refuse(error: SignError)

  function Decide<M, H(==)>(sha: M -> H, last: LastSignState<H>, req: Request<M>): Decision {
    match CheckHRS(last, req.height, req.round, req.step)
    case None => SignNow
    case Some(e) => if e == DoubleSign && IsSame(sha, last, req) then ReturnCached else Refuse(e)
  }

  function SignedState<M, H>(sha: M -> H, req: Request<M>, sig: Bytes): LastSignState<H> {
    LastSignState(req.height, req.round, req.step, sig, req.blockHash, Some(sha(req.signBytes)), req.timestamp)
  }

  // ----- The machine -----

  /** How saving ended: the file was replaced or not, and an error or crash may have come at any point. */
  datatype SaveOutcome =
    | Saved
    | ErrorBeforeRename | ErrorAfterRename
    | CrashBeforeRename | CrashAfterRename

  /** A signature handed to a caller. */
  datatype Release<M> = Release(req: Request<M>, signature: Bytes)

  datatype Machine<M, H> = Machine(
    memory: Option<LastSignState<H>>,   // None while the process is down
    file: Option<LastSignState<H>>,     // None while no state file exists
    released: seq<Release<M>>)

  datatype Event<M> =
    | SignRequest(req: Request<M>, outcome: SaveOutcome)
    | Crash
    | Start(saveFails: bool)

  /** What the state file yields when read back; unreadable when a hash does not have 32 bytes. */
  function Reload<H>(file: LastSignState<H>): Option<LastSignState<H>> {
    if file.blockHash == Some([]) then Some(file.(blockHash := None))
    else if file.blockHash.Some? && |file.blockHash.value| != 32 then None
    else Some(file)
  }

  function Step<M, H(==)>(sha: M -> H, sign: M -> Bytes, s: Machine<M, H>, e: Event<M>): Machine<M, H> {
    match e
    case Crash => s.(memory := None)
    case Start(saveFails) =>
      if s.memory.Some? then s
      else if s.file.Some? then s.(memory := Reload(s.file.value))
      else if saveFails then s
      else s.(memory := Some(FreshState()), file := Some(FreshState()))
    case SignRequest(req, outcome) =>
      if s.memory.None? then s else
        match Decide(sha, s.memory.value, req)
        case Refuse(_) => s
        case ReturnCached => s.(released := s.released + [Release(req, s.memory.value.signature)])
        case SignNow =>
          var sig := sign(req.signBytes);
          var next := SignedState(sha, req, sig);
          match outcome
          case Saved => Machine(Some(next), Some(next), s.released + [Release(req, sig)])
          case ErrorBeforeRename => s
          case ErrorAfterRename => s.(file := Some(next))
          case CrashBeforeRename => s.(memory := None)
          case CrashAfterRename => s.(memory := None, file := Some(next))
  }

  function Run<M, H(==)>(sha: M -> H, sign: M -> Bytes, events: seq<Event<M>>): Machine<M, H> {
    if events == [] then Machine(None, None, [])
    else Step(sha, sign, Run(sha, sign, events[..|events| - 1]), events[|events| - 1])
  }

  // ----- No double sign -----

  predicate NotAfter<M>(a: Request<M>, b: Request<M>) {
    !HRSBefore(b.height, b.round, b.step, a.height, a.round, a.step)
  }

  predicate SamePosition<M>(a: Request<M>, b: Request<M>) {
    a.height == b.height && a.round == b.round && a.step == b.step
  }

  /** A state that covers a release: at least as late, and at the same position holding its hash. */
  ghost predicate Covers<M, H>(sha: M -> H, last: LastSignState<H>, r: Release<M>) {
    var q := r.req;
    && !HRSBefore(last.height, last.round, last.step, q.height, q.round, q.step)
    && ((last.height, last.round, last.step) == (q.height, q.round, q.step) ==>
          last.signBytesHash == Some(sha(q.signBytes)) && last.signature == r.signature)
  }

  /** A state is either fresh or holds the hash and signature of one message. */
  ghost predicate Wellformed<M, H>(sha: M -> H, sign: M -> Bytes, asked: set<M>, last: LastSignState<H>) {
    last == FreshState()
    || (last.signBytesHash.Some?
        && exists m :: m in asked && last.signature == sign(m) && last.signBytesHash == Some(sha(m)))
  }

  ghost predicate CoversAll<M, H>(sha: M -> H, sign: M -> Bytes, asked: set<M>, last: LastSignState<H>,
          rs: seq<Release<M>>) {
    Wellformed(sha, sign, asked, last) && forall i :: 0 <= i < |rs| ==> Covers(sha, last, rs[i])
  }

  /** Released signatures are made by signing a message with the same hash as the requested one. */
  ghost predicate Honest<M, H>(sha: M -> H, sign: M -> Bytes, asked: set<M>, r: Release<M>) {
    exists m :: m in asked && r.signature == sign(m) && sha(m) == sha(r.req.signBytes)
  }

  /** The file never lags behind memory: it is later, or records the same message. */
  ghost predicate Ahead<H>(file: LastSignState<H>, memory: LastSignState<H>) {
    || HRSBefore(memory.height, memory.round, memory.step, file.height, file.round, file.step)
    || ((memory.height, memory.round, memory.step) == (file.height, file.round, file.step)
        && memory.signBytesHash == file.signBytesHash && memory.signature == file.signature)
  }

  ghost predicate MachineInv<M, H>(sha: M -> H, sign: M -> Bytes, asked: set<M>, s: Machine<M, H>) {
    && (s.memory.Some? ==>
          CoversAll(sha, sign, asked, s.memory.value, s.released) && s.file.Some?
            && Ahead(s.file.value, s.memory.value))
    && (s.file.Some? ==> CoversAll(sha, sign, asked, s.file.value, s.released))
    && (s.file.None? ==> s.released == [])
    && (forall i :: 0 <= i < |s.released| ==> Honest(sha, sign, asked, s.released[i]))
    && (forall i, j :: 0 <= i < j < |s.released| ==> NotAfter(s.released[i].req, s.released[j].req))
    && (forall i, j :: 0 <= i < j < |s.released| && SamePosition(s.released[i].req, s.released[j].req) ==>
          && sha(s.released[i].req.signBytes) == sha(s.released[j].req.signBytes)
          && s.released[i].signature == s.released[j].signature)
  }

  /** Signing strictly later than a covering state covers everything released so far and the new message. */
  lemma SignedStateCovers<M, H>(sha: M -> H, sign: M -> Bytes, asked: set<M>, last: LastSignState<H>,
                                          rs: seq<Release<M>>, req: Request<M>)
    requires CoversAll(sha, sign, asked, last, rs)
    requires CheckHRS(last, req.height, req.round, req.step) == None && req.signBytes in asked
    ensures var sig := sign(req.signBytes); var next := SignedState(sha, req, sig);
      CoversAll(sha, sign, asked, next, rs) && CoversAll(sha, sign, asked, next, rs + [Release(req, sig)])
      && (forall i :: 0 <= i < |rs| ==> NotAfter(rs[i].req, req) && !SamePosition(rs[i].req, req))
  {
    CheckHRSMeaning(last, req.height, req.round, req.step);
    var sig := sign(req.signBytes);
    var next := SignedState(sha, req, sig);
    assert Wellformed(sha, sign, asked, next);
    forall i | 0 <= i < |rs|
      ensures Covers(sha, next, rs[i]) && NotAfter(rs[i].req, req) && !SamePosition(rs[i].req, req)
    {
      assert Covers(sha, last, rs[i]);
    }
  }

  /** On a fresh state nothing counts as a repetition, since votes never use the proposal step. */
  lemma CachedIsHonest<M, H>(sha: M -> H, sign: M -> Bytes, asked: set<M>, last: LastSignState<H>, req: Request<M>)
    requires Wellformed(sha, sign, asked, last) && Decide(sha, last, req) == ReturnCached
    ensures last.signBytesHash == Some(sha(req.signBytes))
    ensures Honest(sha, sign, asked, Release(req, last.signature))
    ensures (last.height, last.round, last.step) == (req.height, req.round, req.step)
  {
    CheckHRSMeaning(last, req.height, req.round, req.step);
  }

  /** Adding one release that fits both states and follows the log keeps the invariant. */
  lemma AppendKeepsInv<M, H>(sha: M -> H, sign: M -> Bytes, asked: set<M>, s: Machine<M, H>, r: Release<M>,
                                   memory: LastSignState<H>, file: LastSignState<H>)
    requires MachineInv(sha, sign, asked, s)
    requires CoversAll(sha, sign, asked, memory, s.released + [r])
      && CoversAll(sha, sign, asked, file, s.released + [r])
    requires Ahead(file, memory) && Honest(sha, sign, asked, r)
    requires forall i :: 0 <= i < |s.released| ==> NotAfter(s.released[i].req, r.req)
    requires forall i :: 0 <= i < |s.released| && SamePosition(s.released[i].req, r.req) ==>
      sha(s.released[i].req.signBytes) == sha(r.req.signBytes) && s.released[i].signature == r.signature
    ensures MachineInv(sha, sign, asked, Machine(Some(memory), Some(file), s.released + [r]))
  {}

  lemma CachedKeepsInv<M, H>(sha: M -> H, sign: M -> Bytes, asked: set<M>, s: Machine<M, H>, req: Request<M>)
    requires MachineInv(sha, sign, asked, s) && s.memory.Some?
    requires Decide(sha, s.memory.value, req) == ReturnCached
    ensures MachineInv(sha, sign, asked, s.(released := s.released + [Release(req, s.memory.value.signature)]))
  {
    var last := s.memory.value;
    var r := Release(req, last.signature);
    CachedIsHonest(sha, sign, asked, last, req);
    assert Covers(sha, last, r) && Covers(sha, s.file.value, r);
    forall i | 0 <= i < |s.released|
      ensures NotAfter(s.released[i].req, req)
      ensures SamePosition(s.released[i].req, req) ==>
        sha(s.released[i].req.signBytes) == sha(req.signBytes) && s.released[i].signature == last.signature
    {
      assert Covers(sha, last, s.released[i]);
    }
    AppendKeepsInv(sha, sign, asked, s, r, last, s.file.value);
  }

  /** Every step of the machine keeps the invariant, whatever fails. */
  lemma StepKeepsInv<M, H>(sha: M -> H, sign: M -> Bytes, asked: set<M>, s: Machine<M, H>, e: Event<M>)
    requires MachineInv(sha, sign, asked, s)
    requires e.SignRequest? ==> e.req.signBytes in asked
    ensures MachineInv(sha, sign, asked, Step(sha, sign, s, e))
  {
    if e.SignRequest? && s.memory.Some? {
      var req, last := e.req, s.memory.value;
      match Decide(sha, last, req)
      case Refuse(_) =>
      case ReturnCached => CachedKeepsInv(sha, sign, asked, s, req);
      case SignNow =>
        var sig := sign(req.signBytes);
        var r, next := Release(req, sig), SignedState(sha, req, sig);
        SignedStateCovers(sha, sign, asked, last, s.released, req);
        CheckHRSMeaning(last, req.height, req.round, req.step);
        assert Honest(sha, sign, asked, r);
        if e.outcome == Saved { AppendKeepsInv(sha, sign, asked, s, r, next, next); }
    }
  }

  /** The messages some request of the run asked to sign. */
  ghost function Asked<M>(events: seq<Event<M>>): set<M> {
    set i | 0 <= i < |events| && events[i].SignRequest? :: events[i].req.signBytes
  }

  lemma InvMonotone<M, H>(sha: M -> H, sign: M -> Bytes, asked: set<M>, more: set<M>, s: Machine<M, H>)
    requires MachineInv(sha, sign, asked, s) && asked <= more
    ensures MachineInv(sha, sign, more, s)
  {}

  lemma {:induction false} RunKeepsInv<M, H>(sha: M -> H, sign: M -> Bytes, events: seq<Event<M>>)
    ensures MachineInv(sha, sign, Asked(events), Run(sha, sign, events))
  {
    if events != [] {
      var n := |events| - 1;
      RunKeepsInv(sha, sign, events[..n]);
      InvMonotone(sha, sign, Asked(events[..n]), Asked(events), Run(sha, sign, events[..n]));
      StepKeepsInv(sha, sign, Asked(events), Run(sha, sign, events[..n]), events[n]);
    }
  }

  /**
   * Over every run of requests, failed saves, crashes and restarts from a fresh state: released
   * messages never go back in (height, round, step), and two at the same position have the same hash
   * of sign bytes and the same signature.
   */
  lemma NoDoubleSign<M, H>(sha: M -> H, sign: M -> Bytes, events: seq<Event<M>>, i: nat, j: nat)
    requires i < j < |Run(sha, sign, events).released|
    ensures var rs := Run(sha, sign, events).released;
      && NotAfter(rs[i].req, rs[j].req)
      && (SamePosition(rs[i].req, rs[j].req) ==>
            sha(rs[i].req.signBytes) == sha(rs[j].req.signBytes) && rs[i].signature == rs[j].signature)
  {
    RunKeepsInv(sha, sign, events);
  }

  /**
   * Every signature a run hands out, fresh or cached, verifies for the message it was asked for,
   * unless two different messages asked for in the run have the same hash.
   */
  lemma ReleasedSignaturesVerify<M, H>(sha: M -> H, sign: M -> Bytes, verify: (M, Bytes) -> bool,
                                       events: seq<Event<M>>, i: nat)
    requires forall m :: m in Asked(events) ==> verify(m, sign(m))
    requires i < |Run(sha, sign, events).released|
    ensures var r := Run(sha, sign, events).released[i];
      || verify(r.req.signBytes, r.signature)
      || exists m :: m in Asked(events) && m != r.req.signBytes && sha(m) == sha(r.req.signBytes)
  {
    RunKeepsInv(sha, sign, events);
    var r := Run(sha, sign, events).released[i];
    assert Honest(sha, sign, Asked(events), r);
    var m :| m in Asked(events) && r.signature == sign(m) && sha(m) == sha(r.req.signBytes);
  }

  /**
   * A running signer answers: a request later than everything in memory is signed and, once saved,
   * handed out and remembered; the message signed last is answered with the same signature again.
   */
  lemma LaterIsSigned<M, H>(sha: M -> H, sign: M -> Bytes, s: Machine<M, H>, req: Request<M>)
    requires s.memory.Some?
    requires var last := s.memory.value; HRSBefore(last.height, last.round, last.step, req.height, req.round, req.step)
    ensures var s' := Step(sha, sign, s, SignRequest(req, Saved));
      && s'.released == s.released + [Release(req, sign(req.signBytes))]
      && s'.memory.Some? && s'.file == s'.memory
      && Step(sha, sign, s', SignRequest(req, Saved))
        == s'.(released := s'.released + [Release(req, sign(req.signBytes))])
  {
    CheckHRSMeaning(s.memory.value, req.height, req.round, req.step);
  }

  /** A restart resumes from the state file, unless the file holds a block hash of another length than 32. */
  lemma RestartResumes<M, H>(sha: M -> H, sign: M -> Bytes, s: Machine<M, H>, saveFails: bool)
    requires s.memory.None? && s.file.Some?
    ensures var s', file := Step(sha, sign, s, Start(saveFails)), s.file.value;
      && s'.released == s.released && s'.file == s.file
      && (s'.memory.Some? <==> file.blockHash.None? || |file.blockHash.value| in {0, 32})
      && (s'.memory.Some? ==>
            var m := s'.memory.value;
            && (m.height, m.round, m.step, m.signature, m.signBytesHash)
               == (file.height, file.round, file.step, file.signature, file.signBytesHash))
  {
    var hash := s.file.value.blockHash;
    assert hash.Some? && |hash.value| == 0 ==> hash == Some([]);
  }

  // ----- The signer object -----

  datatype SignResult = Signature(sig: Bytes) | Failed(error: SignError) | Panicked

  const PREVOTE_TYPE := 1
  const PRECOMMIT_TYPE := 2

  /** The step of a vote type code; there is none for an unknown type. */
  function VoteStep(voteType: int): Option<int> {
    if voteType == PREVOTE_TYPE then Some(STEP_PREVOTE)
    else if voteType == PRECOMMIT_TYPE then Some(STEP_PRECOMMIT)
    else None
  }

  /** The file-based signer. `released` is the history of signatures handed to callers. */
  class FilePV<M, H(==)> {
    const sha: M -> H
    const sign: M -> Bytes
    var running: bool
    var lastSignState: LastSignState<H>
    var stateFile: Option<LastSignState<H>>
    ghost var released: seq<Release<M>>

    constructor (sha: M -> H, sign: M -> Bytes)
      ensures View() == Machine(None, None, []) && this.sha == sha && this.sign == sign
    {
      this.sha, this.sign := sha, sign;
      running, lastSignState, stateFile, released := false, FreshState(), None, [];
    }

    ghost function View(): Machine<M, H>
      reads this
    {
      Machine(if running then Some(lastSignState) else None, stateFile, released)
    }

    /** Write the state to a temporary file and rename it over the state file. */
    method SaveState(outcome: SaveOutcome) returns (ok: bool)
      modifies this`stateFile
      ensures ok <==> outcome == Saved
      ensures stateFile == if outcome in {Saved, ErrorAfterRename, CrashAfterRename}
                           then Some(lastSignState) else old(stateFile)
    {
      if outcome == ErrorBeforeRename || outcome == CrashBeforeRename { return false; }
      stateFile := Some(lastSignState);
      return outcome == Saved;
    }

    method Start(saveFails: bool)
      modifies this
      ensures View() == Step(sha, sign, old(View()), Event.Start(saveFails))
    {
      if running { return; }
      if stateFile.None? {
        lastSignState := FreshState();
        var ok := SaveState(if saveFails then ErrorBeforeRename else Saved);
        running := ok;
      } else {
        var state := Reload(stateFile.value);
        if state.Some? { lastSignState, running := state.value, true; }
      }
    }

    method Crash()
      modifies this`running
      ensures View() == Step(sha, sign, old(View()), Event.Crash)
    {
      running := false;
    }

    /** Sign a message at its position, or hand out the signature given for it before. */
    method SignMessage(req: Request<M>, outcome: SaveOutcome) returns (r: SignResult)
      requires running
      modifies this
      ensures View() == Step(sha, sign, old(View()), SignRequest(req, outcome))
      ensures r.Signature? <==> released != old(released)
      ensures r.Signature? ==> released == old(released) + [Release(req, r.sig)]
    {
      var err := CheckHRS(lastSignState, req.height, req.round, req.step);
      if err.Some? {
        if err.value == DoubleSign && IsSame(sha, lastSignState, req) {
          released := released + [Release(req, lastSignState.signature)];
          return Signature(lastSignState.signature);
        }
        return Failed(err.value);
      }

      var newSig := sign(req.signBytes);
      var oldState := lastSignState;
      lastSignState := SignedState(sha, req, newSig);
      var ok := SaveState(outcome);
      if !ok {
        lastSignState := oldState;
        running := outcome == ErrorBeforeRename || outcome == ErrorAfterRename;
        return Panicked;
      }
      released := released + [Release(req, newSig)];
      return Signature(newSig);
    }

    method SignVote(voteType: int, req: Request<M>, outcome: SaveOutcome) returns (r: SignResult)
      requires running
      modifies this
      ensures VoteStep(voteType).None? ==> r == Panicked && View() == old(View())
      ensures VoteStep(voteType).Some? ==>
        View() == Step(sha, sign, old(View()), SignRequest(req.(step := VoteStep(voteType).value), outcome))
    {
      var step := VoteStep(voteType);
      if step.None? { return Panicked; }
      r := SignMessage(req.(step := step.value), outcome);
    }

    method SignProposal(req: Request<M>, outcome: SaveOutcome) returns (r: SignResult)
      requires running
      modifies this
      ensures View() == Step(sha, sign, old(View()), SignRequest(req.(step := STEP_PROPOSAL), outcome))
    {
      r := SignMessage(req.(step := STEP_PROPOSAL), outcome);
    }
  }
}
