/** The stdio hand-shake of internal/vm/ioproxy.go as a state machine: one `Pair` is the goroutine of
    IOConnectorPair.proxy with its two connectors; a `Session` is what ioConnectorSet.start sets up,
    the pairs together with the goroutines that collect their results. */
module IoPair {

  /** A connector works, delivers exactly one result, and has that result taken. */
  datatype Connector = Working | Delivered(ok: bool) | Taken

  datatype Stream = Unopened | Open | Closed

  /** What was done to a channel so far. */
  datatype Channel = Channel(sends: nat, closes: nat)

  datatype Copy = NotStarted | Running | Ended

  /** The timer that forces the streams closed: armed by the exit of the process. */
  datatype Exit = Alive | Exited | Forced

  /** Where the goroutine stands. */
  datatype Pc =
    | Selecting        // in the loop over the two result channels
    | InitFailed       // initDone closed, an error was seen, streams not yet closed
    | Copying          // in io.CopyBuffer
    | SendingCopyErr   // about to send the copy error on copyDone
    | ClosingStreams   // deferred logClose
    | ClosingCopyDone  // deferred close(copyDone)
    | Finished

  datatype Pair = Pair(
    readConn: Connector,
    writeConn: Connector,
    reader: Stream,
    writer: Stream,
    ioInitErr: bool,
    initDone: Channel,     // buffered, capacity 2
    copyDone: Channel,     // unbuffered
    pc: Pc,
    copy: Copy,
    exit: Exit
  )

  const INIT_CAPACITY := 2

  const NEW_PAIR: Pair :=
    Pair(Working, Working, Unopened, Unopened, false, Channel(0, 0), Channel(0, 0), Selecting, NotStarted, Alive)

  datatype Step =
    | ReadDelivers(ok: bool)
    | WriteDelivers(ok: bool)
    | TakeRead
    | TakeWrite
    | CloseInit
    | CloseAfterInitError
    | EndCopy(failed: bool)
    | SendCopyErr
    | CloseStreams
    | CloseCopyDone
    | ProcExit
    | ForceClose

  predicate Enabled(p: Pair, step: Step) {
    match step
    case ReadDelivers(_) => p.readConn == Working
    case WriteDelivers(_) => p.writeConn == Working
    case TakeRead => p.pc == Selecting && p.readConn.Delivered?
    case TakeWrite => p.pc == Selecting && p.writeConn.Delivered?
    case CloseInit => p.pc == Selecting && p.readConn == Taken && p.writeConn == Taken
    case CloseAfterInitError => p.pc == InitFailed
    case EndCopy(_) => p.pc == Copying
    case SendCopyErr => p.pc == SendingCopyErr
    case CloseStreams => p.pc == ClosingStreams
    case CloseCopyDone => p.pc == ClosingCopyDone
    case ProcExit => p.exit == Alive
    case ForceClose => p.copy != NotStarted && p.exit == Exited
  }

  /** Stream.Close, skipped for a stream that was never opened and is nil. */
  function Shut(s: Stream): Stream {
    if s == Unopened then Unopened else Closed
  }

  function LogClose(p: Pair): Pair {
    p.(reader := Shut(p.reader), writer := Shut(p.writer))
  }

  function Send(c: Channel): Channel { c.(sends := c.sends + 1) }
  function Close(c: Channel): Channel { c.(closes := c.closes + 1) }

  function Apply(p: Pair, step: Step): Pair
    requires Enabled(p, step)
  {
    match step
    case ReadDelivers(ok) => p.(readConn := Delivered(ok))
    case WriteDelivers(ok) => p.(writeConn := Delivered(ok))
    case TakeRead =>
      if p.readConn.ok then p.(readConn := Taken, reader := Open)
      else p.(readConn := Taken, ioInitErr := true, initDone := Send(p.initDone))
    case TakeWrite =>
      if p.writeConn.ok then p.(writeConn := Taken, writer := Open)
      else p.(writeConn := Taken, ioInitErr := true, initDone := Send(p.initDone))
    case CloseInit =>
      if p.ioInitErr then p.(initDone := Close(p.initDone), pc := InitFailed)
      else p.(initDone := Close(p.initDone), pc := Copying, copy := Running)
    case CloseAfterInitError => LogClose(p).(pc := ClosingCopyDone)
    case EndCopy(failed) => p.(pc := if failed then SendingCopyErr else ClosingStreams, copy := Ended)
    case SendCopyErr => p.(pc := ClosingStreams, copyDone := Send(p.copyDone))
    case CloseStreams => LogClose(p).(pc := ClosingCopyDone)
    case CloseCopyDone => p.(pc := Finished, copyDone := Close(p.copyDone))
    case ProcExit => p.(exit := Exited)
    case ForceClose => LogClose(p).(exit := Forced)
  }

  /** Something can be received from copyDone: a sent error, or the close. */
  predicate CopyEvent(p: Pair) {
    p.copyDone.sends > 0 || p.copyDone.closes > 0
  }

  /** How many of the two connectors were seen to have failed. */
  function Failures(p: Pair): nat {
    (if p.readConn == Taken && p.reader == Unopened then 1 else 0)
    + (if p.writeConn == Taken && p.writer == Unopened then 1 else 0)
  }

  /** While the results are awaited. */
  ghost predicate InvSelecting(p: Pair) {
    && (p.readConn != Taken ==> p.reader == Unopened)
    && (p.writeConn != Taken ==> p.writer == Unopened)
    && p.initDone.sends == Failures(p)
    && (p.ioInitErr <==> Failures(p) > 0)
    && p.initDone.closes == 0
    && p.copyDone == Channel(0, 0)
    && p.copy == NotStarted
  }

  /** Once both results are in and initDone is closed. */
  ghost predicate InvInitialised(p: Pair) {
    && p.readConn == Taken && p.writeConn == Taken
    && p.initDone == Channel(Failures(p), 1)
    && (p.ioInitErr <==> Failures(p) > 0)
    && p.copyDone.closes == (if p.pc == Finished then 1 else 0)
    && match p.pc
       case InitFailed => p.ioInitErr && p.copy == NotStarted && p.copyDone.sends == 0
       case Copying => !p.ioInitErr && p.copy == Running && p.copyDone.sends == 0
       case SendingCopyErr => !p.ioInitErr && p.copy == Ended && p.copyDone.sends == 0
       case ClosingStreams => !p.ioInitErr && p.copy == Ended && p.copyDone.sends <= 1
       case _ => (p.ioInitErr <==> p.copy == NotStarted) && p.copy != Running && p.reader != Open && p.writer != Open
  }

  ghost predicate Inv(p: Pair) {
    if p.pc == Selecting then InvSelecting(p) else InvInitialised(p)
  }

  lemma InvStep(p: Pair, step: Step)
    requires Inv(p) && Enabled(p, step)
    ensures Inv(Apply(p, step))
  {
  }

  /** What every reachable pair satisfies, in the terms of the channels and streams. */
  ghost predicate Protocol(p: Pair) {
    // the buffer of initDone never overflows and neither channel is closed twice
    && p.initDone.sends <= INIT_CAPACITY && p.initDone.closes <= 1 && p.copyDone.closes <= 1
    // initDone is closed before anything can be received from copyDone
    && (CopyEvent(p) ==> p.initDone.closes == 1)
    // copying starts iff both connectors succeeded, which is when no error was sent
    && (p.initDone.closes == 1 ==> (p.copy != NotStarted <==> p.reader != Unopened && p.writer != Unopened))
    && (p.initDone.closes == 1 ==> (p.copy != NotStarted <==> p.initDone.sends == 0))
    // whoever receives from copyDone knows that no data is still being copied
    && (CopyEvent(p) ==> p.copy != Running)
    // at the end every stream that was opened has been closed
    && (p.pc == Finished ==> p.reader != Open && p.writer != Open)
  }

  ghost predicate ValidRun(p: Pair, run: seq<Step>)
    decreases |run|
  {
    run == [] || (Enabled(p, run[0]) && ValidRun(Apply(p, run[0]), run[1..]))
  }

  ghost function Final(p: Pair, run: seq<Step>): Pair
    requires ValidRun(p, run)
    decreases |run|
  {
    if run == [] then p else Final(Apply(p, run[0]), run[1..])
  }

  /** An upper bound on the steps still to come. */
  function Rank(p: Pair): nat {
    ConnectorRank(p.readConn) + ConnectorRank(p.writeConn)
    + (match p.pc case Selecting => 6 case InitFailed => 4 case Copying => 4 case SendingCopyErr => 3
       case ClosingStreams => 2 case ClosingCopyDone => 1 case Finished => 0)
    + (match p.exit case Alive => 2 case Exited => 1 case Forced => 0)
  }

  function ConnectorRank(c: Connector): nat {
    match c case Working => 2 case Delivered(_) => 1 case Taken => 0
  }

  lemma RankStep(p: Pair, step: Step)
    requires Enabled(p, step)
    ensures Rank(Apply(p, step)) < Rank(p)
  {
  }

  lemma {:induction false} RunInv(p: Pair, run: seq<Step>)
    requires Inv(p) && ValidRun(p, run)
    ensures Inv(Final(p, run))
    ensures |run| + Rank(Final(p, run)) <= Rank(p)
    decreases |run|
  {
    hide Apply, Enabled, Inv, Rank;
    if run != [] {
      InvStep(p, run[0]);
      RankStep(p, run[0]);
      RunInv(Apply(p, run[0]), run[1..]);
    }
  }

  /** In every interleaving of the goroutine with its connectors and the exit timer the protocol holds,
      and no interleaving is longer than twelve steps. */
  lemma EveryRunKeepsProtocol(run: seq<Step>)
    requires ValidRun(NEW_PAIR, run)
    ensures Protocol(Final(NEW_PAIR, run))
    ensures |run| <= 12
  {
    RunInv(NEW_PAIR, run);
  }

  // ----- what is reported, in terms of what happened -----

  /** A connector delivered at most one result, and its stream was opened exactly if that was a success that was
      taken. */
  ghost predicate ConnectorTold(conn: Connector, stream: Stream, succeeded: bool, failed: bool) {
    match conn
    case Working => !succeeded && !failed && stream == Unopened
    case Delivered(ok) => succeeded == ok && failed == !ok && stream == Unopened
    case Taken => succeeded != failed && (stream != Unopened <==> succeeded)
  }

  /** An error is sent on copyDone exactly if the copying failed. */
  ghost predicate CopyTold(p: Pair, failed: bool) {
    match p.pc
    case Selecting => !failed && p.copyDone.sends == 0
    case InitFailed => !failed && p.copyDone.sends == 0
    case Copying => !failed && p.copyDone.sends == 0
    case SendingCopyErr => failed && p.copyDone.sends == 0
    case _ => p.copyDone.sends == if failed then 1 else 0
  }

  /** The streams are forced closed only once copying has begun, and then they are closed. */
  ghost predicate ExitTold(p: Pair, exited: bool, forced: bool) {
    && (p.exit != Alive <==> exited) && (p.exit == Forced <==> forced)
    && (forced ==> p.copy != NotStarted && p.reader == Closed && p.writer == Closed)
  }

  /** The state of a pair after the steps `done`. */
  ghost predicate Told(done: seq<Step>, p: Pair) {
    && ConnectorTold(p.readConn, p.reader, ReadDelivers(true) in done, ReadDelivers(false) in done)
    && ConnectorTold(p.writeConn, p.writer, WriteDelivers(true) in done, WriteDelivers(false) in done)
    && CopyTold(p, EndCopy(true) in done)
    && ExitTold(p, ProcExit in done, ForceClose in done)
  }

  lemma ToldStep(done: seq<Step>, p: Pair, step: Step)
    requires Inv(p) && Told(done, p) && Enabled(p, step)
    ensures Told(done + [step], Apply(p, step))
  {
    assert forall st :: st in done + [step] <==> st in done || st == step;
  }

  lemma {:induction false} RunTold(done: seq<Step>, p: Pair, run: seq<Step>)
    requires Inv(p) && Told(done, p) && ValidRun(p, run)
    ensures Told(done + run, Final(p, run))
    decreases |run|
  {
    hide Apply, Enabled, Inv, Told;
    if run == [] {
      assert done + run == done;
    } else {
      InvStep(p, run[0]);
      ToldStep(done, p, run[0]);
      RunTold(done + [run[0]], Apply(p, run[0]), run[1..]);
      assert done + run == done + [run[0]] + run[1..];
    }
  }

  /** In every interleaving the two channels report what happened and nothing else: initDone one error for each
      connector that failed, copyDone an error only if the copying failed. When the goroutine has finished, both
      channels are closed, copyDone had its error if and only if the copying failed, data was copied if and only if both
      connectors succeeded, and exactly the streams that were opened have been closed. Streams that were forced closed
      are closed at once. */
  lemma ReportsAreExact(run: seq<Step>)
    requires ValidRun(NEW_PAIR, run)
    ensures var p := Final(NEW_PAIR, run);
            && (p.copyDone.sends > 0 ==> EndCopy(true) in run)
            && (p.initDone.closes == 1 ==>
                  p.initDone.sends == (if ReadDelivers(false) in run then 1 else 0)
                                      + (if WriteDelivers(false) in run then 1 else 0))
            && (ForceClose in run ==> p.reader == Closed && p.writer == Closed)
            && (p.pc == Finished ==>
                  && p.initDone.closes == 1
                  && p.copyDone == Channel(if EndCopy(true) in run then 1 else 0, 1)
                  && (p.copy == Ended <==> ReadDelivers(true) in run && WriteDelivers(true) in run)
                  && p.reader == (if ReadDelivers(true) in run then Closed else Unopened)
                  && p.writer == (if WriteDelivers(true) in run then Closed else Unopened))
  {
    RunInv(NEW_PAIR, run);
    RunTold([], NEW_PAIR, run);
    assert [] + run == run;
  }

  // ----- sessions: ioConnectorSet.start -----

  /** What the goroutine reading a pair's initDone got. */
  datatype Received = Waiting | GotError | GotNil

  datatype Session = Session(pairs: seq<Pair>, initGot: seq<Received>, copyGot: seq<bool>)

  function NewSession(streams: nat): Session {
    Session(seq(streams, _ => NEW_PAIR), seq(streams, _ => Waiting), seq(streams, _ => false))
  }

  datatype SessionStep =
    | PairStep(i: nat, step: Step)
    | InitReceive(i: nat)
    | CopyReceive(i: nat)

  predicate SessionEnabled(s: Session, step: SessionStep) {
    && |s.initGot| == |s.pairs| && |s.copyGot| == |s.pairs|
    && step.i < |s.pairs|
    && match step
       // a send on the unbuffered copyDone is also its reception
       case PairStep(i, st) => Enabled(s.pairs[i], st) && (st == SendCopyErr ==> !s.copyGot[i])
       case InitReceive(i) => s.initGot[i] == Waiting
           && (s.pairs[i].initDone.sends > 0 || s.pairs[i].initDone.closes > 0)
       case CopyReceive(i) => !s.copyGot[i] && s.pairs[i].copyDone.closes > 0
  }

  function SessionApply(s: Session, step: SessionStep): Session
    requires SessionEnabled(s, step)
  {
    match step
    case PairStep(i, st) =>
      s.(pairs := s.pairs[i := Apply(s.pairs[i], st)],
         copyGot := if st == SendCopyErr then s.copyGot[i := true] else s.copyGot)
    case InitReceive(i) => s.(initGot := s.initGot[i := if s.pairs[i].initDone.sends > 0 then GotError else GotNil])
    case CopyReceive(i) => s.(copyGot := s.copyGot[i := true])
  }

  /** initErrG.Wait has returned, with nil. */
  predicate InitOk(s: Session) {
    forall i :: 0 <= i < |s.initGot| ==> s.initGot[i] == GotNil
  }

  /** initErrG.Wait has returned an error. */
  predicate InitFailedWith(s: Session) {
    && (forall i :: 0 <= i < |s.initGot| ==> s.initGot[i] != Waiting)
    && !InitOk(s)
  }

  /** copyErrG.Wait has returned. */
  predicate CopyDone(s: Session) {
    forall i :: 0 <= i < |s.copyGot| ==> s.copyGot[i]
  }

  /** No stream of the session is being copied, now or later. */
  ghost predicate Drained(s: Session) {
    forall i :: 0 <= i < |s.pairs| ==> s.pairs[i].pc != Selecting && s.pairs[i].copy != Running
  }

  ghost predicate StreamInv(p: Pair, initGot: Received, copyGot: bool) {
    && Inv(p)
    && (initGot == GotNil ==> p.initDone == Channel(0, 1))
    && (initGot == GotError ==> p.initDone.sends > 0)
    && (copyGot ==> CopyEvent(p))
    // the channel is not buffered
    && (p.copyDone.sends > 0 ==> copyGot)
  }

  ghost predicate SessionInv(s: Session) {
    && |s.initGot| == |s.pairs| && |s.copyGot| == |s.pairs|
    && forall i :: 0 <= i < |s.pairs| ==> StreamInv(s.pairs[i], s.initGot[i], s.copyGot[i])
  }

  /** A connector of the pair has failed, whether or not the goroutine has seen it. */
  predicate PairFailed(p: Pair) {
    p.readConn == Delivered(false) || p.writeConn == Delivered(false) || p.ioInitErr
  }

  predicate Failed(s: Session) {
    exists i :: 0 <= i < |s.pairs| && PairFailed(s.pairs[i])
  }

  /** What a session has reported or suffered stays so. */
  ghost predicate Persists(s: Session, s': Session) {
    && (CopyDone(s) ==> CopyDone(s'))
    && (InitOk(s) ==> InitOk(s'))
    && (InitFailedWith(s) ==> InitFailedWith(s'))
    && (Failed(s) ==> Failed(s'))
  }

  /** A step touches one stream, keeps its invariant and takes back nothing that was received. */
  lemma StreamStep(s: Session, step: SessionStep)
    requires SessionInv(s) && SessionEnabled(s, step)
    ensures var s', i := SessionApply(s, step), step.i;
            && StreamInv(s'.pairs[i], s'.initGot[i], s'.copyGot[i])
            && (s.initGot[i] != Waiting ==> s'.initGot[i] == s.initGot[i]) && (s.copyGot[i] ==> s'.copyGot[i])
            && (PairFailed(s.pairs[i]) ==> PairFailed(s'.pairs[i]))
  {
    var i := step.i;
    assert StreamInv(s.pairs[i], s.initGot[i], s.copyGot[i]);
    if step.PairStep? {
      InvStep(s.pairs[i], step.step);
    }
  }

  ghost predicate OneStreamMoved(s: Session, s': Session, i: nat) {
    && |s'.pairs| == |s'.initGot| == |s'.copyGot| == |s.pairs| == |s.initGot| == |s.copyGot| && i < |s.pairs|
    && (forall j :: 0 <= j < |s.pairs| && j != i ==>
          s'.pairs[j] == s.pairs[j] && s'.initGot[j] == s.initGot[j] && s'.copyGot[j] == s.copyGot[j])
    && (s.initGot[i] != Waiting ==> s'.initGot[i] == s.initGot[i]) && (s.copyGot[i] ==> s'.copyGot[i])
    && (PairFailed(s.pairs[i]) ==> PairFailed(s'.pairs[i]))
  }

  lemma MovedPersists(s: Session, s': Session, i: nat)
    requires OneStreamMoved(s, s', i)
    ensures Persists(s, s')
  {
    hide PairFailed;
    if Failed(s) {
      var j :| 0 <= j < |s.pairs| && PairFailed(s.pairs[j]);
      assert PairFailed(s'.pairs[j]);
    }
    if InitFailedWith(s) {
      var j :| 0 <= j < |s.initGot| && s.initGot[j] != GotNil;
      assert s'.initGot[j] == s.initGot[j];
    }
  }

  lemma SessionInvStep(s: Session, step: SessionStep)
    requires SessionInv(s) && SessionEnabled(s, step)
    ensures SessionInv(SessionApply(s, step)) && Persists(s, SessionApply(s, step))
  {
    var s' := SessionApply(s, step);
    StreamStep(s, step);
    StreamRankStep(s, step);
    hide StreamInv, StreamRank, SessionApply, SessionEnabled, PairFailed, Persists;
    MovedPersists(s, s', step.i);
  }

  /** Reading the two channels of a session tells the truth about its streams: initialisation reported nil
      means that every stream was opened on both sides and its copying begun, an error that some connector
      failed, and the end of copying that no stream is or will be copied. */
  lemma SessionReports(s: Session)
    requires SessionInv(s)
    ensures InitOk(s) ==> !Failed(s) && forall i :: 0 <= i < |s.pairs| ==>
              s.pairs[i].copy != NotStarted && s.pairs[i].reader != Unopened && s.pairs[i].writer != Unopened
    ensures InitFailedWith(s) ==> exists i :: 0 <= i < |s.pairs| && Failures(s.pairs[i]) > 0
    ensures CopyDone(s) ==> Drained(s)
  {
    assert forall i :: 0 <= i < |s.pairs| ==> StreamInv(s.pairs[i], s.initGot[i], s.copyGot[i]);
  }

  // ----- progress -----

  /** The goroutine of stream `i` has finished and both its channels were read. */
  predicate Idle(s: Session, i: nat)
    requires i < |s.pairs| == |s.initGot| == |s.copyGot|
  {
    s.pairs[i].pc == Finished && s.initGot[i] != Waiting && s.copyGot[i]
  }

  /** An upper bound on the steps of stream `i` still to come. */
  function StreamRank(s: Session, i: nat): nat
    requires i < |s.pairs| == |s.initGot| == |s.copyGot|
  {
    Rank(s.pairs[i]) + (if s.initGot[i] == Waiting then 1 else 0) + (if s.copyGot[i] then 0 else 1)
  }

  /** Every step brings its stream nearer the end and leaves the others alone; so a stream has at most fourteen steps.
      */
  lemma StreamRankStep(s: Session, step: SessionStep)
    requires SessionEnabled(s, step)
    ensures var s' := SessionApply(s, step);
            && |s'.pairs| == |s'.initGot| == |s'.copyGot| == |s.pairs|
            && StreamRank(s', step.i) < StreamRank(s, step.i) <= 14
            && forall j :: 0 <= j < |s.pairs| && j != step.i ==>
                 s'.pairs[j] == s.pairs[j] && s'.initGot[j] == s.initGot[j] && s'.copyGot[j] == s.copyGot[j]
  {
    if step.PairStep? {
      RankStep(s.pairs[step.i], step.step);
    }
  }

  /** What stream `i` can do next, if its connectors succeed. */
  function Next(s: Session, i: nat): SessionStep
    requires i < |s.pairs| == |s.initGot| == |s.copyGot|
  {
    var p := s.pairs[i];
    match p.pc
    case Selecting =>
      PairStep(i, if p.readConn.Working? then ReadDelivers(true)
                  else if p.readConn.Delivered? then TakeRead
                  else if p.writeConn.Working? then WriteDelivers(true)
                  else if p.writeConn.Delivered? then TakeWrite
                  else CloseInit)
    case InitFailed => PairStep(i, CloseAfterInitError)
    case Copying => PairStep(i, EndCopy(false))
    case SendingCopyErr => PairStep(i, SendCopyErr)
    case ClosingStreams => PairStep(i, CloseStreams)
    case ClosingCopyDone => PairStep(i, CloseCopyDone)
    case Finished => if s.initGot[i] == Waiting then InitReceive(i) else CopyReceive(i)
  }

  /** No stream of a proxy can get stuck, not even on a send that needs a receiver: short of its end there is always a
      step that does not need the process to exit. A stream whose connectors have not failed need not fail. */
  lemma NoDeadlock(s: Session, i: nat)
    requires SessionInv(s) && i < |s.pairs| && !Idle(s, i)
    ensures var step := Next(s, i);
            && step.i == i && SessionEnabled(s, step)
            && step != PairStep(i, ProcExit) && step != PairStep(i, ForceClose)
            && (PairFailed(SessionApply(s, step).pairs[i]) ==> PairFailed(s.pairs[i]))
  {
    assert StreamInv(s.pairs[i], s.initGot[i], s.copyGot[i]);
  }

  /** At the end of all streams everything was reported. */
  lemma AllIdle(s: Session)
    requires SessionInv(s) && forall i :: 0 <= i < |s.pairs| ==> Idle(s, i)
    ensures CopyDone(s) && (InitOk(s) <==> !Failed(s)) && (InitOk(s) || InitFailedWith(s))
  {
    assert forall i :: 0 <= i < |s.pairs| && Idle(s, i) ==> s.initGot[i] != Waiting;
    forall i | 0 <= i < |s.copyGot| ensures s.copyGot[i] {
      assert Idle(s, i);
    }
    if !InitOk(s) {
      var i :| 0 <= i < |s.pairs| && s.initGot[i] != GotNil;
      assert Idle(s, i) && StreamInv(s.pairs[i], s.initGot[i], s.copyGot[i]);
      assert PairFailed(s.pairs[i]);
    } else {
      SessionReports(s);
    }
  }
}
