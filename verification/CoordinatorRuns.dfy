/** Every run of the coordinator: any sequence of locked sections by any threads (src/dist.cpp). */
module CoordinatorRuns {
  import opened Wrappers
  import opened Coordination

  /** One section; a thread that is not at this point of its loop takes no step. */
  datatype Call =
    | CallAccept | CallGreet(i: nat, hello: Hello) | CallCheckHello(i: nat) | CallRegister(i: nat)
    | CallBegin(i: nat, frame: Frame) | CallValidate(i: nat) | CallComplete(i: nat)
    | CallDispatch(i: nat, request: nat, payload: Payload) | CallRelayed(i: nat) | CallRelayFailed(i: nat) | CallCollect(i: nat, timedOut: bool)
    | CallFinish(i: nat) | CallRelease(i: nat) | CallClose(i: nat)
    | CallFence(boot: nat) | CallAdvance(newEpoch: nat) | CallRaise(newEpoch: nat) | CallReplace(snapshot: nat)

  /** What a client was answered. */
  datatype Answer = Answer(request: nat, status: WireStatus, payload: Payload)

  predicate At(c: Coordinator, i: nat)
    reads c
  {
    i < |c.sessions| && !c.sessions[i].finished
  }

  predicate Enabled(c: Coordinator, call: Call)
    reads c
  {
    match call
    case CallGreet(i, _) => c.Idle(i)
    case CallCheckHello(i) => At(c, i) && c.sessions[i].phase.Greeting?
    case CallRegister(i) => At(c, i) && c.sessions[i].phase.Accepted?
    case CallBegin(i, _) => c.Idle(i) && c.sessions[i].worker
    case CallValidate(i) => At(c, i) && c.sessions[i].phase.Publishing?
    case CallComplete(i) => At(c, i) && c.sessions[i].phase.Judged?
    case CallDispatch(i, _, _) => c.Idle(i) && !c.sessions[i].worker
    case CallRelayed(i) => At(c, i) && c.sessions[i].phase.Relaying?
    case CallRelayFailed(i) => At(c, i) && c.sessions[i].phase.Relaying?
    case CallCollect(i, timedOut) =>
      At(c, i) && c.sessions[i].phase.Waiting? && (timedOut || c.sessions[i].phase.request !in c.pending || c.pending[c.sessions[i].phase.request].ready)
    case CallFinish(i) => c.Idle(i)
    case CallRelease(i) => i < |c.sessions| && c.sessions[i].finished && i !in c.released
    case CallClose(i) => i in c.released
    case CallAccept => true
    case CallFence(_) => true
    case CallAdvance(_) => true
    case CallRaise(_) => true
    case CallReplace(_) => true
  }

  /** What only grows: the log, by fences and by publications of the epoch in force. */
  ghost predicate Grown(before: seq<Entry>, low: nat, after: seq<Entry>, high: nat) {
    before <= after && low <= high && forall k :: |before| <= k < |after| && after[k].Passed? ==> low <= after[k].frame.epoch <= high
  }

  lemma GrownThen(x: seq<Entry>, e: nat, y: seq<Entry>, f: nat, z: seq<Entry>, g: nat)
    requires Grown(x, e, y, f) && Grown(y, f, z, g)
    ensures Grown(x, e, z, g)
  {
    forall k | |x| <= k < |z| && z[k].Passed? ensures e <= z[k].frame.epoch <= g {
      assert k < |y| ==> z[k] == y[k];
    }
  }

  /** An accepted answer is a publication that passed validation. */
  ghost predicate Honest(log: seq<Entry>, answers: seq<Answer>) {
    forall k :: 0 <= k < |answers| && answers[k].status == Ok ==> PassedIn(log, answers[k].request, answers[k].payload)
  }

  lemma HonestLater(before: seq<Entry>, after: seq<Entry>, answers: seq<Answer>)
    requires Honest(before, answers) && before <= after
    ensures Honest(after, answers)
  {
    forall k | 0 <= k < |answers| && answers[k].status == Ok ensures PassedIn(after, answers[k].request, answers[k].payload) {
      var i :| 0 <= i < |before| && before[i].Passed? && before[i].frame.request == answers[k].request && before[i].frame.payload == answers[k].payload;
      assert after[i] == before[i];
    }
  }

  ghost predicate Live(sessions: seq<Session>, i: nat) {
    i < |sessions| && !sessions[i].finished
  }

  /** A thread that is at the point of its loop where the section stands goes on to the next. */
  ghost predicate Moved(before: seq<Session>, call: Call, after: seq<Session>)
    requires |after| >= |before|
  {
    match call
    case CallAccept => |after| == |before| + 1
    case CallGreet(i, _) => Live(before, i) && before[i].phase == Reading ==> after[i].phase.Greeting?
    case CallCheckHello(i) => Live(before, i) && before[i].phase.Greeting? ==> after[i].phase.Accepted? || after[i].phase == Reading
    case CallRegister(i) => Live(before, i) && before[i].phase.Accepted? ==> after[i].worker && after[i].phase == Reading
    case CallBegin(i, _) => Live(before, i) && before[i].phase == Reading && before[i].worker ==> after[i].phase.Publishing?
    case CallValidate(i) => Live(before, i) && before[i].phase.Publishing? ==> after[i].phase.Judged?
    case CallComplete(i) => Live(before, i) && before[i].phase.Judged? ==> after[i].phase == Reading
    case CallDispatch(i, request, _) => Live(before, i) && before[i].phase == Reading && !before[i].worker ==> after[i].phase == Relaying(request) || after[i].phase == Waiting(request)
    case CallRelayed(i) => Live(before, i) && before[i].phase.Relaying? ==> after[i].phase.Waiting?
    case CallRelayFailed(i) => Live(before, i) && before[i].phase.Relaying? ==> after[i].phase.Waiting?
    case CallCollect(i, timedOut) => timedOut && Live(before, i) && before[i].phase.Waiting? ==> after[i].phase == Reading
    case CallFinish(i) => Live(before, i) && before[i].phase == Reading ==> after[i].finished
    case _ => true
  }

  /** The sections of a handshake and of a publication. */
  predicate OfWorker(call: Call) {
    call.CallGreet? || call.CallCheckHello? || call.CallRegister? || call.CallBegin? || call.CallValidate? || call.CallComplete?
  }

  method PerformWorker(c: Coordinator, call: Call)
    requires c.Valid() && OfWorker(call) && Enabled(c, call)
    modifies c
    ensures c.Valid() && Grown(old(c.log), old(c.epoch), c.log, c.epoch)
    ensures c.fencedBoots == old(c.fencedBoots) && c.released == old(c.released)
    ensures |c.sessions| >= |old(c.sessions)| && Moved(old(c.sessions), call, c.sessions)
  {
    hide Coordinator.Valid, PassedIn, Coordinator.Judge, Counted, Completed;
    match call
    case CallGreet(i, hello) => c.Greet(i, hello);
    case CallCheckHello(i) => var verdict := c.CheckHello(i);
    case CallRegister(i) => c.Register(i);
    case CallBegin(i, frame) => c.BeginPublication(i, frame);
    case CallValidate(i) => var verdict := c.ValidatePublication(i);
    case CallComplete(i) => c.CompletePublication(i);
  }

  /** The sections of a client's session. */
  predicate OfClient(call: Call) {
    call.CallDispatch? || call.CallRelayed? || call.CallRelayFailed? || call.CallCollect?
  }

  method PerformClient(c: Coordinator, call: Call) returns (answers: seq<Answer>)
    requires c.Valid() && OfClient(call) && Enabled(c, call)
    modifies c
    ensures c.Valid() && c.log == old(c.log) && c.epoch == old(c.epoch) && Honest(c.log, answers)
    ensures c.fencedBoots == old(c.fencedBoots) && c.released == old(c.released)
    ensures |c.sessions| >= |old(c.sessions)| && Moved(old(c.sessions), call, c.sessions)
  {
    hide Coordinator.Valid, PassedIn, Cleared, FreeWorker;
    answers := [];
    match call
    case CallDispatch(i, request, payload) => var chosen := c.Dispatch(i, request, payload);
    case CallRelayed(i) => c.Relayed(i);
    case CallRelayFailed(i) => c.RelayFailed(i);
    case CallCollect(i, timedOut) =>
      var request := c.sessions[i].phase.request;
      var status, payload := c.Collect(i, timedOut);
      answers := [Answer(request, status, payload)];
  }

  method Perform(c: Coordinator, call: Call) returns (answers: seq<Answer>)
    requires c.Valid()
    modifies c
    ensures c.Valid() && Grown(old(c.log), old(c.epoch), c.log, c.epoch) && Honest(c.log, answers)
    ensures old(c.fencedBoots) <= c.fencedBoots && old(c.released) <= c.released
    ensures |c.sessions| >= |old(c.sessions)| && Moved(old(c.sessions), call, c.sessions)
    ensures call.CallRelease? && call.i < |old(c.sessions)| && old(c.sessions)[call.i].finished ==> call.i in c.released
    ensures call.CallFence? && call.boot in old(c.workers) ==> call.boot in c.fencedBoots
    ensures (call.CallAdvance? || call.CallRaise?) ==> c.epoch >= call.newEpoch
    ensures call.CallReplace? ==> c.currentSnapshot == call.snapshot
  {
    hide Coordinator.Valid, PassedIn, Coordinator.Judge, Lost, LastOpen, IsOpen;
    answers := [];
    if !Enabled(c, call) {
      return;
    }
    if OfWorker(call) {
      PerformWorker(c, call);
      return;
    }
    if OfClient(call) {
      answers := PerformClient(c, call);
      return;
    }
    match call
    case CallAccept => c.Accept();
    case CallFinish(i) => c.Finish(i);
    case CallRelease(i) => c.ReleaseSession(i);
    case CallClose(i) => c.Close(i);
    case CallFence(boot) => var told := c.FenceWorker(boot);
    case CallAdvance(newEpoch) => var ok := c.AdvanceEpoch(newEpoch);
    case CallRaise(newEpoch) => c.RaiseEpoch(newEpoch);
    case CallReplace(snapshot) => c.ReplaceSnapshot(snapshot);
  }

  method PerformAll(c: Coordinator, calls: seq<Call>) returns (answers: seq<Answer>)
    requires c.Valid()
    modifies c
    ensures c.Valid() && Grown(old(c.log), old(c.epoch), c.log, c.epoch) && Honest(c.log, answers)
    ensures old(c.fencedBoots) <= c.fencedBoots && old(c.released) <= c.released
  {
    hide Coordinator.Valid, PassedIn;
    answers := [];
    for n := 0 to |calls|
      invariant c.Valid() && Grown(old(c.log), old(c.epoch), c.log, c.epoch) && Honest(c.log, answers)
      invariant old(c.fencedBoots) <= c.fencedBoots && old(c.released) <= c.released
    {
      ghost var log, epoch := c.log, c.epoch;
      var more := Perform(c, calls[n]);
      GrownThen(old(c.log), old(c.epoch), log, epoch, c.log, c.epoch);
      HonestLater(log, c.log, answers);
      answers := answers + more;
    }
  }

  /** Whatever runs after a boot was fenced, no publication of it passes again. */
  method FencedNeverPasses(c: Coordinator, boot: nat, calls: seq<Call>) returns (answers: seq<Answer>)
    requires c.Valid() && boot in c.fencedBoots
    modifies c
    ensures c.Valid() && boot in c.fencedBoots && old(c.log) <= c.log
    ensures forall k :: |old(c.log)| <= k < |c.log| && c.log[k].Passed? ==> c.log[k].frame.boot != boot
  {
    hide PassedIn, SlotsOwned, SlotsJustified, SessionsOk;
    answers := PerformAll(c, calls);
    NonePasses(old(c.log), c.log, boot);
  }

  lemma NonePasses(log: seq<Entry>, after: seq<Entry>, boot: nat)
    requires FencesHold(after) && FencedIn(log, boot) && log <= after
    ensures forall k :: |log| <= k < |after| && after[k].Passed? ==> after[k].frame.boot != boot
  {
    var i :| 0 <= i < |log| && log[i] == Fenced(boot);
    assert after[i] == Fenced(boot);
  }

  /** Whatever runs after an accepted epoch advance, no publication made for an earlier epoch
      passes, and none of a worker whose session was there at the advance. */
  method AdvancedNeverPasses(c: Coordinator, newEpoch: nat, calls: seq<Call>) returns (ok: bool, answers: seq<Answer>)
    requires c.Valid()
    modifies c
    ensures ok <==> newEpoch > old(c.epoch)
    ensures ok ==> old(c.log) <= c.log && forall k :: |old(c.log)| <= k < |c.log| && c.log[k].Passed? ==> c.log[k].frame.epoch >= newEpoch
    ensures ok ==> forall i, k :: 0 <= i < |old(c.sessions)| && old(c.sessions)[i].worker && |old(c.log)| <= k < |c.log| && c.log[k].Passed? ==> old(c.sessions)[i].bootKey != Some(c.log[k].frame.boot)
  {
    hide PassedIn, SlotsOwned, SlotsJustified, SessionsOk, FencesHold;
    ok := c.AdvanceEpoch(newEpoch);
    ghost var log := c.log;
    answers := PerformAll(c, calls);
    forall i | ok && 0 <= i < |old(c.sessions)| && old(c.sessions)[i].worker
      ensures forall k :: |log| <= k < |c.log| && c.log[k].Passed? ==> old(c.sessions)[i].bootKey != Some(c.log[k].frame.boot)
    {
      NonePasses(log, c.log, old(c.sessions)[i].bootKey.value);
    }
    assert forall k :: |old(c.log)| <= k < |log| ==> c.log[k] == log[k];
  }

  /** The snapshot in force after a history is the one a replacement put there, or one put in force later. */
  lemma {:induction false} InForceSince(log: seq<Entry>, i: nat, k: nat)
    requires i < k <= |log| && log[i].Replaced?
    ensures SnapshotAfter(log[..k]) == log[i].snapshot || exists j :: i < j < k && log[j] == Replaced(SnapshotAfter(log[..k]))
  {
    var front, last := log[..k][..k - 1], log[k - 1];
    assert front == log[..k - 1];
    if k - 1 > i && !last.Replaced? {
      InForceSince(log, i, k - 1);
    }
  }

  /** Whatever runs after a snapshot was replaced, nothing made for another snapshot passes, unless that
      snapshot has been put in force again. */
  method SupersededNeverPasses(c: Coordinator, snapshot: nat, calls: seq<Call>) returns (answers: seq<Answer>)
    requires c.Valid()
    modifies c
    ensures c.Valid() && old(c.log) + [Replaced(snapshot)] <= c.log
    ensures forall k :: |old(c.log)| < k < |c.log| && c.log[k].Passed? ==>
      c.log[k].snapshot == snapshot || exists j :: |old(c.log)| < j < k && c.log[j] == Replaced(c.log[k].snapshot)
  {
    hide PassedIn, SlotsOwned, SlotsJustified, SessionsOk, FencesHold, SnapshotAfter, EpochAfter, RegisteredIn;
    ghost var i := |c.log|;
    c.ReplaceSnapshot(snapshot);
    assert c.log[i] == Replaced(snapshot);
    answers := PerformAll(c, calls);
    forall k | i < k < |c.log| && c.log[k].Passed?
      ensures c.log[k].snapshot == snapshot || exists j :: i < j < k && c.log[j] == Replaced(c.log[k].snapshot)
    {
      assert PassesAt(c.log, k);
      InForceSince(c.log, i, k);
    }
  }

  /** From the start of a coordinator, after any run: what passed was made for the epoch and snapshot in
      force and by a registered boot, an accepted answer passed validation, and once every worker
      session is released no slot is left open. */
  method RunFromStart(epoch: nat, snapshot: nat, calls: seq<Call>) returns (c: Coordinator, answers: seq<Answer>)
    ensures fresh(c) && c.Valid() && Honest(c.log, answers) && c.epoch >= epoch
    ensures PassesHold(c.log) && c.epoch == EpochAfter(c.log) && c.currentSnapshot == SnapshotAfter(c.log)
    ensures FencesHold(c.log) && (forall boot: nat :: boot in c.fencedBoots <==> FencedIn(c.log, boot))
    ensures (forall j: nat :: j < |c.sessions| && c.sessions[j].worker ==> j in c.released) ==> forall request: nat :: request in c.pending ==> c.pending[request].ready
  {
    hide PassedIn, SlotsJustified, SessionsOk, SlotsOwned;
    c := new Coordinator(epoch, snapshot);
    answers := PerformAll(c, calls);
    if forall j: nat :: j < |c.sessions| && c.sessions[j].worker ==> j in c.released {
      LossCompletesAll(c.pending, c.sessions, c.released);
    }
  }

  /** A worker registers, a client asks, and the worker publishes for the snapshot it registered with.
      With that snapshot still in force the client gets the payload, and with another it gets a mismatch. */
  method OneRequest(replaced: bool) returns (status: WireStatus, payload: Payload)
    ensures !replaced ==> status == Ok && payload == [43]
    ensures replaced ==> status == SnapshotMismatch && payload == []
  {
    hide Coordinator.Valid, PassedIn;
    var c := OneWorker();
    c.Accept();
    assert FreeWorker(c.sessions[0], c.workers);
    var chosen := c.Dispatch(1, 77, [42]);
    c.Relayed(1);
    assert c.sessions == [Session(true, false, true, Some(9), Some(77), Reading), Session(true, false, false, None, None, Waiting(77))];
    c.BeginPublication(0, Frame(9, 1, 77, [43]));
    if replaced {
      c.ReplaceSnapshot(6);
    }
    status, payload := Served(c, replaced);
  }

  /** A coordinator with one idle worker session. */
  method OneWorker() returns (c: Coordinator)
    ensures fresh(c) && c.Valid() && c.sessions == [Session(true, false, true, Some(9), None, Reading)]
    ensures c.workers == map[9 := Registration(5, 1, false, 0, 0)] && c.fencedBoots == {} && c.epoch == 1 && c.currentSnapshot == 5 && c.pending == map[]
  {
    hide Coordinator.Valid, PassedIn;
    c := new Coordinator(1, 5);
    c.Accept();
    c.Greet(0, Hello(9, 5, 1));
    var welcome := c.CheckHello(0);
    c.Register(0);
  }

  /** The publication is validated and the waiting client collects. */
  method Served(c: Coordinator, replaced: bool) returns (status: WireStatus, payload: Payload)
    requires c.Valid() && c.workers == map[9 := Registration(5, 1, false, 0, 0)] && c.fencedBoots == {} && c.epoch == 1 && c.currentSnapshot == if replaced then 6 else 5
    requires c.sessions == [Session(true, false, true, Some(9), Some(77), Publishing(Frame(9, 1, 77, [43]), 5)), Session(true, false, false, None, None, Waiting(77))]
    requires c.pending == map[77 := Slot(false, Internal, [], [42], Some(9))]
    modifies c
    ensures !replaced ==> status == Ok && payload == [43]
    ensures replaced ==> status == SnapshotMismatch && payload == []
  {
    hide Coordinator.Valid, PassedIn;
    var verdict := c.ValidatePublication(0);
    c.CompletePublication(0);
    status, payload := c.Collect(1, false);
  }
}
