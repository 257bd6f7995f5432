/** The coordinator's step protocol (src/dist.cpp): every method is one section under the
    coordinator's mutex, or one unlocked step of a session thread between two of them.  What a
    thread carries from one section to the next is its phase; any interleaving of threads is a
    sequence of these calls. */
module Coordination {
  import opened Wrappers
  import opened View

  type Payload = seq<nat>

  datatype WireStatus = Ok | UnknownWorker | WorkerFenced | EpochStale | SnapshotMismatch
    | NoWorkerAvailable | ReceiveBoundExceeded | Internal

  datatype Hello = Hello(boot: nat, snapshot: nat, epoch: nat)

  datatype Frame = Frame(boot: nat, epoch: nat, request: nat, payload: Payload)

  datatype Registration = Registration(snapshot: nat, registeredEpoch: nat, fenced: bool, completed: nat, rejected: nat)

  datatype Slot = Slot(ready: bool, status: WireStatus, payload: Payload, requestPayload: Payload, workerKey: Option<nat>)

  datatype Phase = Reading
    | Greeting(hello: Hello, snapshot: nat, epoch: nat)
    | Accepted(hello: Hello, epoch: nat)
    | Publishing(frame: Frame, snapshot: nat)
    | Judged(frame: Frame, verdict: WireStatus)
    | Relaying(request: nat)
    | Waiting(request: nat)

  datatype Session = Session(open: bool, finished: bool, worker: bool, bootKey: Option<nat>, outstanding: Option<nat>, phase: Phase)

  /** The history that matters: publications that passed validation, fences, registrations, and the
      epochs and snapshots put in force. */
  datatype Entry = Passed(frame: Frame, snapshot: nat) | Fenced(boot: nat) | Registered(boot: nat) | Raised(epoch: nat) | Replaced(snapshot: nat)

  /** The epoch in force after a history. */
  ghost function EpochAfter(log: seq<Entry>): nat {
    if log == [] then 0
    else
      var last := log[|log| - 1];
      if last.Raised? then last.epoch else EpochAfter(log[..|log| - 1])
  }

  /** The snapshot in force after a history; 0 is none. */
  ghost function SnapshotAfter(log: seq<Entry>): nat {
    if log == [] then 0
    else
      var last := log[|log| - 1];
      if last.Replaced? then last.snapshot else SnapshotAfter(log[..|log| - 1])
  }

  ghost predicate RegisteredIn(log: seq<Entry>, boot: nat) {
    exists i :: 0 <= i < |log| && log[i] == Registered(boot)
  }

  /** What passed at k was made for the epoch and the snapshot in force then, by a registered boot. */
  ghost predicate PassesAt(log: seq<Entry>, k: nat)
    requires k < |log| && log[k].Passed?
  {
    && log[k].frame.epoch == EpochAfter(log[..k])
    && log[k].snapshot == SnapshotAfter(log[..k]) && log[k].snapshot != 0
    && RegisteredIn(log[..k], log[k].frame.boot)
  }

  ghost predicate PassesHold(log: seq<Entry>) {
    forall k :: 0 <= k < |log| && log[k].Passed? ==> PassesAt(log, k)
  }

  /** The history accounts for what is in force and who is registered. */
  ghost predicate Accounts(log: seq<Entry>, epoch: nat, snapshot: nat, workers: map<nat, Registration>) {
    && EpochAfter(log) == epoch && SnapshotAfter(log) == snapshot
    && (forall boot: nat :: boot in workers ==> RegisteredIn(log, boot))
    && PassesHold(log)
  }

  ghost predicate FencedIn(log: seq<Entry>, boot: nat) {
    exists i :: 0 <= i < |log| && log[i] == Fenced(boot)
  }

  /** After a fence no publication of that boot passes. */
  ghost predicate FencesHold(log: seq<Entry>) {
    forall i, j :: 0 <= i < j < |log| && log[i].Fenced? && log[j].Passed? ==> log[j].frame.boot != log[i].boot
  }

  ghost predicate PassedIn(log: seq<Entry>, request: nat, payload: Payload) {
    exists i :: 0 <= i < |log| && log[i].Passed? && log[i].frame.request == request && log[i].frame.payload == payload
  }

  ghost predicate Owns(sessions: seq<Session>, released: set<nat>, j: nat, request: nat) {
    j < |sessions| && j !in released && sessions[j].worker && sessions[j].outstanding == Some(request)
  }

  ghost predicate Owned(sessions: seq<Session>, released: set<nat>, request: nat) {
    exists j: nat :: Owns(sessions, released, j, request)
  }

  /** A slot still open belongs to a worker session that has not been released. */
  ghost predicate SlotsOwned(pending: map<nat, Slot>, sessions: seq<Session>, released: set<nat>) {
    forall request: nat :: request in pending && !pending[request].ready ==> Owned(sessions, released, request)
  }

  /** A slot holds an accepted result only if that result passed validation. */
  ghost predicate SlotsJustified(pending: map<nat, Slot>, log: seq<Entry>) {
    forall request: nat :: request in pending && pending[request].status == Ok ==> PassedIn(log, request, pending[request].payload)
  }

  ghost predicate SessionsOk(sessions: seq<Session>, released: set<nat>, fenced: set<nat>, log: seq<Entry>) {
    forall i :: 0 <= i < |sessions| ==> SessionOk(sessions[i], i in released, fenced, log)
  }

  ghost predicate SessionOk(s: Session, released: bool, fenced: set<nat>, log: seq<Entry>) {
    && (s.worker ==> s.bootKey.Some?)
    && (released ==> s.finished && (s.worker ==> s.bootKey.value in fenced))
    && (s.finished ==> s.phase == Reading)
    && (!s.open ==> released)
    && (s.phase.Judged? && s.phase.verdict == Ok ==> PassedIn(log, s.phase.frame.request, s.phase.frame.payload))
  }

  class Coordinator {
    var sessions: seq<Session>
    var workers: map<nat, Registration>
    var fencedBoots: set<nat>
    var pending: map<nat, Slot>
    var epoch: nat
    var currentSnapshot: nat
    var acceptedPublications: nat
    /** Session threads that have got past their release. */
    var released: set<nat>
    ghost var log: seq<Entry>

    ghost predicate Valid()
      reads this
    {
      && SlotsOwned(pending, sessions, released)
      && SlotsJustified(pending, log)
      && SessionsOk(sessions, released, fencedBoots, log)
      && (forall j :: j in released ==> j < |sessions|)
      && Accounts(log, epoch, currentSnapshot, workers)
      && FencesHold(log) && forall boot: nat :: boot in fencedBoots <==> FencedIn(log, boot)
    }

    constructor (initialEpoch: nat, snapshot: nat)
      ensures Valid() && epoch == initialEpoch && currentSnapshot == snapshot && sessions == [] && pending == map[] && workers == map[] && fencedBoots == {} && released == {} && log == [Raised(initialEpoch), Replaced(snapshot)]
    {
      sessions, workers, fencedBoots, pending := [], map[], {}, map[];
      epoch, currentSnapshot, acceptedPublications := initialEpoch, snapshot, 0;
      released, log := {}, [Raised(initialEpoch), Replaced(snapshot)];
      StartAccounts(initialEpoch, snapshot);
    }

    /** A session thread that is between two frames. */
    predicate Idle(i: nat)
      reads this
    {
      i < |sessions| && !sessions[i].finished && sessions[i].phase == Reading
    }

    method Accept()
      requires Valid()
      modifies this`sessions
      ensures Valid() && sessions == old(sessions) + [Session(true, false, false, None, None, Reading)]
    {
      hide PassedIn, SessionOk, FencesHold, FencedIn, Owned;
      var s := Session(true, false, false, None, None, Reading);
      OwnersStay(pending, sessions, sessions + [s], released, released);
      FreshOk(s, fencedBoots, log);
      sessions := sessions + [s];
    }

    /** Changes the phase of one session and nothing else. */
    method SetPhase(i: nat, phase: Phase)
      requires Valid() && i < |sessions| && !sessions[i].finished
      requires phase.Judged? && phase.verdict == Ok ==> PassedIn(log, phase.frame.request, phase.frame.payload)
      modifies this`sessions
      ensures Valid() && sessions == old(sessions)[i := old(sessions)[i].(phase := phase)]
    {
      hide PassedIn, FencesHold, FencedIn, Owned;
      var after := sessions[i := sessions[i].(phase := phase)];
      OwnersStay(pending, sessions, after, released, released);
      assert i !in released;
      sessions := after;
    }

    /** Handshake, first section: captures the coordinator's evidence. */
    method Greet(i: nat, hello: Hello)
      requires Valid() && Idle(i)
      modifies this`sessions
      ensures Valid() && sessions == old(sessions)[i := old(sessions)[i].(phase := Greeting(hello, currentSnapshot, epoch))]
    {
      SetPhase(i, Greeting(hello, currentSnapshot, epoch));
    }

    /** Handshake, second section: fence, epoch and snapshot are checked against the captured evidence. */
    method CheckHello(i: nat) returns (verdict: WireStatus)
      requires Valid() && i < |sessions| && !sessions[i].finished && sessions[i].phase.Greeting?
      modifies this`sessions
      ensures Valid() && |sessions| == |old(sessions)| && (verdict == Ok <==> sessions[i].phase.Accepted?)
      ensures sessions[i].phase == if verdict == Ok then Accepted(old(sessions)[i].phase.hello, old(sessions)[i].phase.epoch) else Reading
      ensures var hello, epoch, snapshot := old(sessions)[i].phase.hello, old(sessions)[i].phase.epoch, old(sessions)[i].phase.snapshot;
        && (verdict == Ok <==> hello.boot !in fencedBoots && hello.epoch == epoch && snapshot != 0 && hello.snapshot == snapshot)
        && (verdict == WorkerFenced <==> hello.boot in fencedBoots)
        && (verdict == EpochStale <==> hello.boot !in fencedBoots && hello.epoch != epoch)
        && (verdict == SnapshotMismatch <==> hello.boot !in fencedBoots && hello.epoch == epoch && (snapshot == 0 || hello.snapshot != snapshot))
      ensures sessions == old(sessions)[i := old(sessions)[i].(phase := sessions[i].phase)]
    {
      var p := sessions[i].phase;
      verdict :=
        if p.hello.boot in fencedBoots then WorkerFenced
        else if p.hello.epoch != p.epoch then EpochStale
        else if p.snapshot == 0 || p.hello.snapshot != p.snapshot then SnapshotMismatch
        else Ok;
      SetPhase(i, if verdict == Ok then Accepted(p.hello, p.epoch) else Reading);
    }

    /** Handshake, third section. */
    method Register(i: nat)
      requires Valid() && i < |sessions| && !sessions[i].finished && sessions[i].phase.Accepted?
      modifies this`sessions, this`workers, this`log
      ensures log == old(log) + [Registered(old(sessions)[i].phase.hello.boot)]
      ensures Valid() && var boot := old(sessions)[i].phase.hello.boot;
        boot in workers && workers == old(workers)[boot := Registration(old(sessions)[i].phase.hello.snapshot, old(sessions)[i].phase.epoch, false, 0, 0)] &&
        sessions == old(sessions)[i := old(sessions)[i].(worker := true, bootKey := Some(boot), phase := Reading)]
    {
      var p := sessions[i].phase;
      LogOther(sessions, released, fencedBoots, pending, log, Registered(p.hello.boot));
      AccountsMore(log, epoch, currentSnapshot, workers, Registered(p.hello.boot), workers[p.hello.boot := Registration(p.hello.snapshot, p.epoch, false, 0, 0)]);
      hide PassedIn, FencesHold, FencedIn, Owned, EpochAfter, SnapshotAfter, PassesHold, RegisteredIn;
      log := log + [Registered(p.hello.boot)];
      workers := workers[p.hello.boot := Registration(p.hello.snapshot, p.epoch, false, 0, 0)];
      var after := sessions[i := sessions[i].(worker := true, bootKey := Some(p.hello.boot), phase := Reading)];
      OwnersStay(pending, sessions, after, released, released);
      sessions := after;
    }

    /** Publication, first section: the snapshot the boot registered with. */
    method BeginPublication(i: nat, frame: Frame)
      requires Valid() && Idle(i) && sessions[i].worker
      modifies this`sessions
      ensures Valid() && sessions == old(sessions)[i := old(sessions)[i].(phase := Publishing(frame, if frame.boot in workers then workers[frame.boot].snapshot else 0))]
    {
      SetPhase(i, Publishing(frame, if frame.boot in workers then workers[frame.boot].snapshot else 0));
    }

    /** What a publication must meet at the moment it is validated. */
    function Judge(boot: nat, frameEpoch: nat, snapshot: nat): WireStatus
      reads this
    {
      if boot in fencedBoots then WorkerFenced
      else if boot !in workers || workers[boot].fenced then UnknownWorker
      else if frameEpoch != epoch then EpochStale
      else if currentSnapshot == 0 || snapshot != currentSnapshot then SnapshotMismatch
      else Ok
    }

    /** Publication, second section. */
    method ValidatePublication(i: nat) returns (verdict: WireStatus)
      requires Valid() && i < |sessions| && !sessions[i].finished && sessions[i].phase.Publishing?
      modifies this`sessions, this`log
      ensures Valid() && verdict == Judge(old(sessions)[i].phase.frame.boot, old(sessions)[i].phase.frame.epoch, old(sessions)[i].phase.snapshot)
      ensures sessions == old(sessions)[i := old(sessions)[i].(phase := Judged(old(sessions)[i].phase.frame, verdict))]
      ensures log == if verdict == Ok then old(log) + [Passed(old(sessions)[i].phase.frame, old(sessions)[i].phase.snapshot)] else old(log)
      ensures var frame, snapshot := old(sessions)[i].phase.frame, old(sessions)[i].phase.snapshot; var known := frame.boot in workers && !workers[frame.boot].fenced;
        && (verdict == Ok <==> frame.boot !in fencedBoots && known && frame.epoch == epoch && currentSnapshot != 0 && snapshot == currentSnapshot)
        && (verdict == WorkerFenced <==> frame.boot in fencedBoots)
        && (verdict == UnknownWorker <==> frame.boot !in fencedBoots && !known)
        && (verdict == EpochStale <==> frame.boot !in fencedBoots && known && frame.epoch != epoch)
        && (verdict == SnapshotMismatch <==> frame.boot !in fencedBoots && known && frame.epoch == epoch && (currentSnapshot == 0 || snapshot != currentSnapshot))
    {
      var p := sessions[i].phase;
      verdict := Judge(p.frame.boot, p.frame.epoch, p.snapshot);
      if verdict == Ok {
        LogPassed(sessions, released, fencedBoots, pending, log, p.frame, p.snapshot);
        AccountsMore(log, epoch, currentSnapshot, workers, Passed(p.frame, p.snapshot), workers);
        log := log + [Passed(p.frame, p.snapshot)];
      }
      hide PassedIn, FencesHold, FencedIn, SlotsOwned, SlotsJustified, SessionsOk;
      SetPhase(i, Judged(p.frame, verdict));
    }

    /** The counters of a registration. */
    method CountVerdict(boot: nat, verdict: WireStatus)
      requires Valid()
      modifies this`workers
      ensures Valid() && workers == Counted(old(workers), boot, verdict)
    {
      AccountsLess(log, epoch, currentSnapshot, workers, Counted(workers, boot, verdict));
      hide PassedIn, FencesHold, FencedIn, SlotsOwned, SlotsJustified, SessionsOk, Accounts;
      if boot in workers {
        var registration := workers[boot];
        if verdict != Ok {
          workers := workers[boot := registration.(rejected := registration.rejected + 1)];
        } else {
          workers := workers[boot := registration.(completed := registration.completed + 1)];
        }
      }
      assert workers == Counted(old(workers), boot, verdict);
    }

    /** Publication, third section: counters, and the slot of the request if it is still open. */
    method CompletePublication(i: nat)
      requires Valid() && i < |sessions| && !sessions[i].finished && sessions[i].phase.Judged?
      modifies this`sessions, this`workers, this`pending, this`acceptedPublications
      ensures Valid() && var frame, verdict := old(sessions)[i].phase.frame, old(sessions)[i].phase.verdict;
        && workers == Counted(old(workers), frame.boot, verdict)
        && pending == Completed(old(pending), frame, verdict)
        && acceptedPublications == old(acceptedPublications) + (if verdict == Ok && IsOpen(old(pending), frame.request) then 1 else 0)
      ensures sessions == old(sessions)[i := old(sessions)[i].(phase := Reading)]
    {
      var frame, verdict := sessions[i].phase.frame, sessions[i].phase.verdict;
      CountVerdict(frame.boot, verdict);
      CompletedOk(sessions, released, fencedBoots, pending, log, i);
      hide PassedIn, FencesHold, FencedIn, SlotsOwned, SlotsJustified, SessionsOk, Accounts, Counted;
      if frame.request in pending && !pending[frame.request].ready {
        var slot := pending[frame.request];
        if verdict == Ok {
          slot := slot.(status := Ok, payload := frame.payload);
          acceptedPublications := acceptedPublications + 1;
        } else {
          slot := slot.(status := verdict);
        }
        pending := pending[frame.request := slot.(ready := true)];
      }
      assert pending == Completed(old(pending), frame, verdict);
      hide Completed;
      SetPhase(i, Reading);
    }

    /** A worker session a request can be given to. */
    predicate Available(j: nat)
      requires j < |sessions|
      reads this
    {
      var s := sessions[j];
      s.worker && !s.finished && s.outstanding == None && s.bootKey.Some? && s.bootKey.value in workers && !workers[s.bootKey.value].fenced
    }

    /** Dispatch: the first available worker session in order takes the request. */
    method Dispatch(i: nat, request: nat, payload: Payload) returns (chosen: Option<nat>)
      requires Valid() && Idle(i) && !sessions[i].worker
      modifies this`sessions, this`pending
      ensures Valid()
      ensures match chosen {
          case Some(j) =>
            && j < |old(sessions)| && FreeWorker(old(sessions)[j], workers) && (forall k :: 0 <= k < j ==> !FreeWorker(old(sessions)[k], workers))
            && pending == old(pending)[request := Slot(false, Internal, [], payload, old(sessions)[j].bootKey)]
            && sessions == old(sessions)[j := old(sessions)[j].(outstanding := Some(request))][i := old(sessions)[i].(phase := Relaying(request))]
          case None =>
            && (forall k :: 0 <= k < |old(sessions)| ==> !FreeWorker(old(sessions)[k], workers))
            && pending == old(pending)[request := Slot(true, NoWorkerAvailable, [], [], None)]
            && sessions == old(sessions)[i := old(sessions)[i].(phase := Waiting(request))]
        }
    {
      var j := 0;
      while j < |sessions| && !Available(j)
        invariant 0 <= j <= |sessions| && forall k :: 0 <= k < j ==> !Available(k)
      {
        j := j + 1;
      }
      assert forall k :: 0 <= k < |sessions| ==> (Available(k) <==> FreeWorker(sessions[k], workers));
      if j == |sessions| {
        chosen := None;
        ReadySlot(sessions, released, pending, log, request, Slot(true, NoWorkerAvailable, [], [], None));
        pending := pending[request := Slot(true, NoWorkerAvailable, [], [], None)];
        hide PassedIn, FencesHold, FencedIn, SlotsOwned, SlotsJustified, SessionsOk;
        SetPhase(i, Waiting(request));
      } else {
        chosen := Some(j);
        var slot := Slot(false, Internal, [], payload, sessions[j].bootKey);
        Assign(sessions, released, fencedBoots, pending, log, j, request, slot);
        pending := pending[request := slot];
        sessions := sessions[j := sessions[j].(outstanding := Some(request))];
        hide PassedIn, FencesHold, FencedIn, SlotsOwned, SlotsJustified, SessionsOk;
        SetPhase(i, Relaying(request));
      }
    }

    /** The frame went out to the worker. */
    method Relayed(i: nat)
      requires Valid() && i < |sessions| && !sessions[i].finished && sessions[i].phase.Relaying?
      modifies this`sessions
      ensures Valid() && sessions == old(sessions)[i := old(sessions)[i].(phase := Waiting(old(sessions)[i].phase.request))]
    {
      SetPhase(i, Waiting(sessions[i].phase.request));
    }

    /** The frame could not be sent: the slot, whatever it holds by now, reports that. */
    method RelayFailed(i: nat)
      requires Valid() && i < |sessions| && !sessions[i].finished && sessions[i].phase.Relaying?
      modifies this`sessions, this`pending
      ensures Valid() && sessions == old(sessions)[i := old(sessions)[i].(phase := Waiting(old(sessions)[i].phase.request))]
      ensures var request := old(sessions)[i].phase.request;
        request in pending && pending[request].ready && pending[request].status == NoWorkerAvailable && forall k :: k != request ==> (k in pending <==> k in old(pending)) && (k in pending ==> pending[k] == old(pending)[k])
    {
      var request := sessions[i].phase.request;
      var slot := if request in pending then pending[request] else Slot(false, Internal, [], [], None);
      ReadySlot(sessions, released, pending, log, request, slot.(ready := true, status := NoWorkerAvailable));
      pending := pending[request := slot.(ready := true, status := NoWorkerAvailable)];
      hide PassedIn, FencesHold, FencedIn, SlotsOwned, SlotsJustified, SessionsOk;
      SetPhase(i, Waiting(request));
    }

    /** The waiting client takes the verdict, or gives up when the bound has passed; either way the
        slot goes and no session keeps the request outstanding. */
    method Collect(i: nat, timedOut: bool) returns (status: WireStatus, payload: Payload)
      requires Valid() && i < |sessions| && !sessions[i].finished && sessions[i].phase.Waiting?
      requires timedOut || sessions[i].phase.request !in pending || pending[sessions[i].phase.request].ready
      modifies this`sessions, this`pending
      ensures Valid() && var request := old(sessions)[i].phase.request;
        && pending == old(pending) - {request}
        && sessions == Cleared(old(sessions), request)[i := Cleared(old(sessions), request)[i].(phase := Reading)]
        && status == (if request !in old(pending) then Internal else if !old(pending)[request].ready then ReceiveBoundExceeded else old(pending)[request].status)
        && payload == (if request in old(pending) && old(pending)[request].ready then old(pending)[request].payload else [])
        && (status == Ok ==> PassedIn(log, request, payload))
    {
      var request := sessions[i].phase.request;
      status, payload := Internal, [];
      if request in pending {
        if !pending[request].ready {
          status := ReceiveBoundExceeded;
        } else {
          status, payload := pending[request].status, pending[request].payload;
        }
      }
      ClearOk(sessions, released, fencedBoots, pending, log, request);
      pending := pending - {request};
      var all := sessions;
      for j := 0 to |all|
        invariant |all| == |sessions| && forall k :: 0 <= k < |all| ==> all[k] == if k < j then ClearedSession(sessions[k], request) else sessions[k]
      {
        if all[j].outstanding == Some(request) {
          all := all[j := all[j].(outstanding := None)];
        }
      }
      assert all == Cleared(sessions, request);
      sessions := all;
      hide PassedIn, FencesHold, FencedIn, SlotsOwned, SlotsJustified, SessionsOk;
      SetPhase(i, Reading);
    }

    /** The thread leaves its loop. */
    method Finish(i: nat)
      requires Valid() && Idle(i)
      modifies this`sessions
      ensures Valid() && sessions == old(sessions)[i := old(sessions)[i].(finished := true)]
    {
      hide PassedIn, FencesHold, FencedIn, Owned;
      var after := sessions[i := sessions[i].(finished := true)];
      OwnersStay(pending, sessions, after, released, released);
      sessions := after;
    }

    /** Session loss fences the boot and completes the outstanding request. */
    method ReleaseSession(i: nat)
      requires Valid() && i < |sessions| && sessions[i].finished && i !in released
      modifies this`workers, this`fencedBoots, this`pending, this`released, this`log
      ensures Valid() && released == old(released) + {i}
      ensures sessions[i].worker && sessions[i].bootKey.Some? ==> sessions[i].bootKey.value in fencedBoots && sessions[i].bootKey.value !in workers
      ensures var lost := if sessions[i].worker && sessions[i].bootKey.Some? then {sessions[i].bootKey.value} else {}; fencedBoots == old(fencedBoots) + lost
      ensures OnlyFences(old(log), log)
      ensures pending == Lost(old(pending), sessions[i].outstanding)
      ensures forall request: nat :: sessions[i].outstanding == Some(request) && request in pending ==> pending[request].ready
    {
      BootsKnown(sessions, released, fencedBoots, log);
      hide PassedIn, FencesHold, FencedIn, SlotsOwned, SlotsJustified, SessionsOk, Accounts;
      var s := sessions[i];
      if s.worker && s.bootKey.Some? {
        LogFenced(sessions, released, fencedBoots, pending, log, s.bootKey.value);
        AccountsMore(log, epoch, currentSnapshot, workers, Fenced(s.bootKey.value), workers - {s.bootKey.value});
        workers := workers - {s.bootKey.value};
        fencedBoots := fencedBoots + {s.bootKey.value};
        log := log + [Fenced(s.bootKey.value)];
      }
      LoseSession(sessions, released, fencedBoots, pending, log, i);
      if s.outstanding.Some? && s.outstanding.value in pending && !pending[s.outstanding.value].ready {
        pending := pending[s.outstanding.value := pending[s.outstanding.value].(ready := true, status := UnknownWorker)];
      }
      released := released + {i};
    }

    /** The socket goes after the release, outside the lock. */
    method Close(i: nat)
      requires Valid() && i in released
      modifies this`sessions
      ensures Valid() && i < |sessions| && sessions == old(sessions)[i := old(sessions)[i].(open := false)]
    {
      hide PassedIn, FencesHold, FencedIn, Owned;
      var after := sessions[i := sessions[i].(open := false)];
      OwnersStay(pending, sessions, after, released, released);
      sessions := after;
    }

    /** Administrative fence: a registered boot is fenced for good, also when there is no session
        left to tell; success is reported only when the last session of that boot has its socket. */
    method FenceWorker(boot: nat) returns (told: bool)
      requires Valid()
      modifies this`workers, this`fencedBoots, this`log
      ensures Valid() && (told <==> boot in old(workers) && LastOpen(sessions, boot))
      ensures fencedBoots == if boot in old(workers) then old(fencedBoots) + {boot} else old(fencedBoots)
      ensures boot in old(workers) ==> Judge(boot, epoch, currentSnapshot) == WorkerFenced && workers == old(workers)[boot := old(workers)[boot].(fenced := true)]
      ensures boot !in old(workers) ==> workers == old(workers)
      ensures log == if boot in old(workers) then old(log) + [Fenced(boot)] else old(log)
    {
      if boot !in workers {
        return false;
      }
      workers := workers[boot := workers[boot].(fenced := true)];
      LogFenced(sessions, released, fencedBoots, pending, log, boot);
      AccountsMore(log, epoch, currentSnapshot, workers, Fenced(boot), workers);
      fencedBoots := fencedBoots + {boot};
      log := log + [Fenced(boot)];
      told := FindSocket(sessions, boot);
    }

    /** Fences the boot of every worker session. */
    method FenceWorkerBoots()
      requires Valid()
      modifies this`fencedBoots, this`log
      ensures Valid() && OnlyFences(old(log), log) && old(fencedBoots) <= fencedBoots
      ensures forall k :: 0 <= k < |sessions| && sessions[k].worker ==> sessions[k].bootKey.Some? && sessions[k].bootKey.value in fencedBoots
      ensures forall boot: nat :: boot in fencedBoots ==> boot in old(fencedBoots) || exists k :: 0 <= k < |sessions| && sessions[k].worker && sessions[k].bootKey == Some(boot)
    {
      BootsKnown(sessions, released, fencedBoots, log);
      hide PassedIn, FencesHold, FencedIn, SlotsOwned, SlotsJustified, SessionsOk, Accounts;
      for i := 0 to |sessions|
        invariant Valid() && OnlyFences(old(log), log) && old(fencedBoots) <= fencedBoots
        invariant forall k :: 0 <= k < i && sessions[k].worker ==> sessions[k].bootKey.value in fencedBoots
        invariant forall boot: nat :: boot in fencedBoots ==> boot in old(fencedBoots) || exists k :: 0 <= k < i && sessions[k].worker && sessions[k].bootKey == Some(boot)
      {
        if sessions[i].worker && sessions[i].bootKey.Some? {
          LogFenced(sessions, released, fencedBoots, pending, log, sessions[i].bootKey.value);
          AccountsMore(log, epoch, currentSnapshot, workers, Fenced(sessions[i].bootKey.value), workers);
          fencedBoots := fencedBoots + {sessions[i].bootKey.value};
          log := log + [Fenced(sessions[i].bootKey.value)];
        }
      }
    }

    /** A new epoch forgets every registration and fences the boot of every worker session. */
    method AdvanceEpoch(newEpoch: nat) returns (ok: bool)
      requires Valid()
      modifies this`epoch, this`workers, this`fencedBoots, this`log
      ensures Valid() && (ok <==> newEpoch > old(epoch)) && NonePassed(old(log), log) && old(fencedBoots) <= fencedBoots
      ensures !ok ==> epoch == old(epoch) && workers == old(workers) && fencedBoots == old(fencedBoots) && log == old(log)
      ensures ok ==> |log| > |old(log)| && log[|old(log)|] == Raised(newEpoch) && forall k :: |old(log)| < k < |log| ==> log[k].Fenced?
      ensures ok ==> epoch == newEpoch && workers == map[]
      ensures ok ==> forall i :: 0 <= i < |sessions| && sessions[i].worker ==> sessions[i].bootKey.Some? && sessions[i].bootKey.value in fencedBoots
      ensures ok ==> forall boot: nat :: boot in fencedBoots ==> boot in old(fencedBoots) || exists i :: 0 <= i < |sessions| && sessions[i].worker && sessions[i].bootKey == Some(boot)
    {
      if newEpoch <= epoch {
        return false;
      }
      LogOther(sessions, released, fencedBoots, pending, log, Raised(newEpoch));
      AccountsMore(log, epoch, currentSnapshot, workers, Raised(newEpoch), workers);
      hide PassedIn, FencesHold, FencedIn, SlotsOwned, SlotsJustified, SessionsOk, Accounts;
      epoch := newEpoch;
      log := log + [Raised(newEpoch)];
      FenceWorkerBoots();
      AccountsLess(log, epoch, currentSnapshot, workers, map[]);
      workers := map[];
      ok := true;
    }

    /** Publication of a snapshot, first section: the epoch never goes back. */
    method RaiseEpoch(newEpoch: nat)
      requires Valid()
      modifies this`epoch, this`log
      ensures Valid() && epoch == if newEpoch > old(epoch) then newEpoch else old(epoch)
      ensures log == if newEpoch > old(epoch) then old(log) + [Raised(newEpoch)] else old(log)
    {
      if newEpoch > epoch {
        LogOther(sessions, released, fencedBoots, pending, log, Raised(newEpoch));
        AccountsMore(log, epoch, currentSnapshot, workers, Raised(newEpoch), workers);
        epoch := newEpoch;
        log := log + [Raised(newEpoch)];
      }
    }

    /** Publication of a snapshot, second section, under the runtime's own mutex. */
    method ReplaceSnapshot(snapshot: nat)
      requires Valid()
      modifies this`currentSnapshot, this`log
      ensures Valid() && currentSnapshot == snapshot && log == old(log) + [Replaced(snapshot)]
    {
      LogOther(sessions, released, fencedBoots, pending, log, Replaced(snapshot));
      AccountsMore(log, epoch, currentSnapshot, workers, Replaced(snapshot), workers);
      currentSnapshot := snapshot;
      log := log + [Replaced(snapshot)];
    }
  }

  lemma StartAccounts(epoch: nat, snapshot: nat)
    ensures Accounts([Raised(epoch), Replaced(snapshot)], epoch, snapshot, map[])
  {
    var log := [Raised(epoch), Replaced(snapshot)];
    assert log[..1] == [Raised(epoch)];
  }

  /** One more entry, and what it changes. */
  lemma AccountsMore(log: seq<Entry>, epoch: nat, snapshot: nat, workers: map<nat, Registration>, e: Entry, more: map<nat, Registration>)
    requires Accounts(log, epoch, snapshot, workers)
    requires e.Passed? ==> e.frame.epoch == epoch && e.snapshot == snapshot != 0 && e.frame.boot in workers
    requires forall boot: nat :: boot in more ==> boot in workers || e == Registered(boot)
    ensures Accounts(log + [e], if e.Raised? then e.epoch else epoch, if e.Replaced? then e.snapshot else snapshot, more)
  {
    var after := log + [e];
    assert after[..|log|] == log;
    forall boot: nat | RegisteredIn(log, boot) || e == Registered(boot) ensures RegisteredIn(after, boot) {
      if i :| 0 <= i < |log| && log[i] == Registered(boot) {
        assert after[i] == Registered(boot);
      } else {
        assert after[|log|] == Registered(boot);
      }
    }
    forall k | 0 <= k < |after| && after[k].Passed? ensures PassesAt(after, k) {
      if k < |log| {
        assert log[k] == after[k] && PassesAt(log, k) && after[..k] == log[..k];
      }
    }
  }

  lemma AccountsLess(log: seq<Entry>, epoch: nat, snapshot: nat, workers: map<nat, Registration>, fewer: map<nat, Registration>)
    requires Accounts(log, epoch, snapshot, workers) && forall boot: nat :: boot in fewer ==> boot in workers
    ensures Accounts(log, epoch, snapshot, fewer)
  {
    hide PassesHold, EpochAfter, SnapshotAfter, RegisteredIn;
  }

  /** The log grew without a publication. */
  ghost predicate NonePassed(before: seq<Entry>, after: seq<Entry>) {
    before <= after && forall k :: |before| <= k < |after| ==> !after[k].Passed?
  }

  /** The log grew by fences only. */
  ghost predicate OnlyFences(before: seq<Entry>, after: seq<Entry>) {
    before <= after && forall k :: |before| <= k < |after| ==> after[k].Fenced?
  }

  /** There is a session of this boot, and the last one still has its socket. */
  ghost predicate LastOpen(sessions: seq<Session>, boot: nat) {
    exists j: nat :: LastOf(sessions, boot, j) && sessions[j].open
  }

  method FindSocket(sessions: seq<Session>, boot: nat) returns (found: bool)
    ensures found <==> LastOpen(sessions, boot)
  {
    hide LastOpen;
    found := false;
    NoneOpen(boot);
    for i := 0 to |sessions|
      invariant found <==> LastOpen(sessions[..i], boot)
    {
      LastOpenStep(sessions, boot, i);
      if sessions[i].bootKey == Some(boot) {
        found := sessions[i].open;
      }
    }
    assert sessions[..|sessions|] == sessions;
  }

  lemma NoneOpen(boot: nat)
    ensures !LastOpen([], boot)
  {
  }

  ghost predicate LastOf(sessions: seq<Session>, boot: nat, j: nat) {
    j < |sessions| && sessions[j].bootKey == Some(boot) && forall k :: j < k < |sessions| ==> sessions[k].bootKey != Some(boot)
  }

  lemma LastOpenStep(sessions: seq<Session>, boot: nat, i: nat)
    requires i < |sessions|
    ensures LastOpen(sessions[..i + 1], boot) <==> if sessions[i].bootKey == Some(boot) then sessions[i].open else LastOpen(sessions[..i], boot)
  {
    var x, y := sessions[..i], sessions[..i + 1];
    assert sessions[i].bootKey == Some(boot) ==> LastOf(y, boot, i);
    assert y[i] == sessions[i] && forall k :: 0 <= k < i ==> y[k] == x[k];
    assert sessions[i].bootKey != Some(boot) ==> forall j: nat :: LastOf(y, boot, j) <==> LastOf(x, boot, j);
  }

  ghost predicate IsOpen(pending: map<nat, Slot>, request: nat) {
    request in pending && !pending[request].ready
  }

  /** A worker session that is alive, has nothing to do, and whose boot is registered and not fenced. */
  ghost predicate FreeWorker(s: Session, workers: map<nat, Registration>) {
    s.worker && !s.finished && s.outstanding.None? && s.bootKey.Some? && s.bootKey.value in workers && !workers[s.bootKey.value].fenced
  }

  ghost function Counted(workers: map<nat, Registration>, boot: nat, verdict: WireStatus): map<nat, Registration> {
    if boot !in workers then workers
    else if verdict == Ok then workers[boot := workers[boot].(completed := workers[boot].completed + 1)]
    else workers[boot := workers[boot].(rejected := workers[boot].rejected + 1)]
  }

  ghost function Completed(pending: map<nat, Slot>, frame: Frame, verdict: WireStatus): map<nat, Slot> {
    if !IsOpen(pending, frame.request) then pending
    else
      var slot := pending[frame.request];
      pending[frame.request := slot.(ready := true, status := verdict, payload := if verdict == Ok then frame.payload else slot.payload)]
  }

  ghost function Lost(pending: map<nat, Slot>, outstanding: Option<nat>): map<nat, Slot> {
    if outstanding.Some? && IsOpen(pending, outstanding.value)
    then pending[outstanding.value := pending[outstanding.value].(ready := true, status := UnknownWorker)]
    else pending
  }

  function ClearedSession(s: Session, request: nat): Session {
    if s.outstanding == Some(request) then s.(outstanding := None) else s
  }

  ghost function Cleared(sessions: seq<Session>, request: nat): (r: seq<Session>)
    ensures |r| == |sessions|
    ensures forall i :: 0 <= i < |r| ==> r[i] == if sessions[i].outstanding == Some(request) then sessions[i].(outstanding := None) else sessions[i]
  {
    seq(|sessions|, i requires 0 <= i < |sessions| => ClearedSession(sessions[i], request))
  }

  /** Owners stay owners when no session loses its role, its request or its place. */
  lemma OwnersStay(pending: map<nat, Slot>, before: seq<Session>, after: seq<Session>, released: set<nat>, released': set<nat>)
    requires SlotsOwned(pending, before, released) && |before| <= |after|
    requires forall j :: 0 <= j < |before| ==> after[j].outstanding == before[j].outstanding && (before[j].worker ==> after[j].worker)
    requires released == released'
    ensures SlotsOwned(pending, after, released')
  {
    forall request: nat | request in pending && !pending[request].ready ensures Owned(after, released', request) {
      assert Owned(before, released, request);
      var j: nat :| Owns(before, released, j, request);
      assert Owns(after, released', j, request);
    }
  }

  lemma FreshOk(s: Session, fenced: set<nat>, log: seq<Entry>)
    requires s == Session(true, false, false, None, None, Reading)
    ensures SessionOk(s, false, fenced, log)
  {
  }

  lemma Longer(log: seq<Entry>, e: Entry)
    ensures forall request: nat, payload: Payload :: PassedIn(log, request, payload) ==> PassedIn(log + [e], request, payload)
    ensures forall boot: nat :: FencedIn(log + [e], boot) <==> FencedIn(log, boot) || e == Fenced(boot)
  {
    var more := log + [e];
    forall request: nat, payload: Payload | PassedIn(log, request, payload) ensures PassedIn(more, request, payload) {
      var i :| 0 <= i < |log| && log[i].Passed? && log[i].frame.request == request && log[i].frame.payload == payload;
      assert more[i] == log[i];
    }
    forall boot: nat ensures FencedIn(more, boot) <==> FencedIn(log, boot) || e == Fenced(boot) {
      if FencedIn(log, boot) {
        var i :| 0 <= i < |log| && log[i] == Fenced(boot);
        assert more[i] == Fenced(boot);
      }
      if e == Fenced(boot) {
        assert more[|log|] == Fenced(boot);
      }
    }
  }

  lemma LongerKeeps(sessions: seq<Session>, released: set<nat>, fenced: set<nat>, fenced': set<nat>, pending: map<nat, Slot>, log: seq<Entry>, e: Entry)
    requires SlotsJustified(pending, log) && SessionsOk(sessions, released, fenced, log) && fenced <= fenced'
    ensures SlotsJustified(pending, log + [e]) && SessionsOk(sessions, released, fenced', log + [e])
  {
    Longer(log, e);
    hide PassedIn, FencedIn;
    forall i | 0 <= i < |sessions| ensures SessionOk(sessions[i], i in released, fenced', log + [e]) {
      assert SessionOk(sessions[i], i in released, fenced, log);
    }
  }

  lemma LogPassed(sessions: seq<Session>, released: set<nat>, fenced: set<nat>, pending: map<nat, Slot>, log: seq<Entry>, frame: Frame, snapshot: nat)
    requires SlotsJustified(pending, log) && SessionsOk(sessions, released, fenced, log) && FencesHold(log)
    requires forall boot: nat :: boot in fenced <==> FencedIn(log, boot)
    requires frame.boot !in fenced
    ensures var more := log + [Passed(frame, snapshot)];
      && SlotsJustified(pending, more) && SessionsOk(sessions, released, fenced, more) && FencesHold(more)
      && (forall boot: nat :: boot in fenced <==> FencedIn(more, boot)) && PassedIn(more, frame.request, frame.payload)
  {
    var e := Passed(frame, snapshot);
    LongerKeeps(sessions, released, fenced, fenced, pending, log, e);
    Longer(log, e);
    hide SlotsJustified, SessionsOk;
    assert (log + [e])[|log|] == e;
    forall i | 0 <= i < |log| && log[i].Fenced? ensures log[i].boot != frame.boot {
      assert log[i] == Fenced(log[i].boot);
      assert FencedIn(log, log[i].boot);
    }
  }

  lemma LogFenced(sessions: seq<Session>, released: set<nat>, fenced: set<nat>, pending: map<nat, Slot>, log: seq<Entry>, boot: nat)
    requires SlotsJustified(pending, log) && SessionsOk(sessions, released, fenced, log) && FencesHold(log)
    requires forall b: nat :: b in fenced <==> FencedIn(log, b)
    ensures var more := log + [Fenced(boot)];
      && SlotsJustified(pending, more) && SessionsOk(sessions, released, fenced + {boot}, more) && FencesHold(more)
      && (forall b: nat :: b in fenced + {boot} <==> FencedIn(more, b))
  {
    var e := Fenced(boot);
    LongerKeeps(sessions, released, fenced, fenced + {boot}, pending, log, e);
    Longer(log, e);
    hide SlotsJustified, SessionsOk, FencedIn;
  }

  /** An entry that is neither a publication nor a fence. */
  lemma LogOther(sessions: seq<Session>, released: set<nat>, fenced: set<nat>, pending: map<nat, Slot>, log: seq<Entry>, e: Entry)
    requires SlotsJustified(pending, log) && SessionsOk(sessions, released, fenced, log) && FencesHold(log)
    requires (forall b: nat :: b in fenced <==> FencedIn(log, b)) && !e.Passed? && !e.Fenced?
    ensures var more := log + [e];
      && SlotsJustified(pending, more) && SessionsOk(sessions, released, fenced, more) && FencesHold(more)
      && (forall b: nat :: b in fenced <==> FencedIn(more, b))
  {
    LongerKeeps(sessions, released, fenced, fenced, pending, log, e);
    Longer(log, e);
    hide SlotsJustified, SessionsOk, FencedIn;
  }

  lemma CompletedOk(sessions: seq<Session>, released: set<nat>, fenced: set<nat>, pending: map<nat, Slot>, log: seq<Entry>, i: nat)
    requires SlotsOwned(pending, sessions, released) && SlotsJustified(pending, log) && SessionsOk(sessions, released, fenced, log)
    requires i < |sessions| && sessions[i].phase.Judged?
    ensures var more := Completed(pending, sessions[i].phase.frame, sessions[i].phase.verdict);
      SlotsOwned(more, sessions, released) && SlotsJustified(more, log)
  {
    hide PassedIn, Owned;
    assert SessionOk(sessions[i], i in released, fenced, log);
  }

  lemma ReadySlot(sessions: seq<Session>, released: set<nat>, pending: map<nat, Slot>, log: seq<Entry>, request: nat, slot: Slot)
    requires SlotsOwned(pending, sessions, released) && SlotsJustified(pending, log) && slot.ready && slot.status != Ok
    ensures SlotsOwned(pending[request := slot], sessions, released) && SlotsJustified(pending[request := slot], log)
  {
    hide PassedIn, Owned;
  }

  lemma Assign(sessions: seq<Session>, released: set<nat>, fenced: set<nat>, pending: map<nat, Slot>, log: seq<Entry>, j: nat, request: nat, slot: Slot)
    requires SlotsOwned(pending, sessions, released) && SlotsJustified(pending, log) && SessionsOk(sessions, released, fenced, log)
    requires j < |sessions| && sessions[j].worker && !sessions[j].finished && sessions[j].outstanding == None && slot.status != Ok
    ensures var after := sessions[j := sessions[j].(outstanding := Some(request))];
      SlotsOwned(pending[request := slot], after, released) && SlotsJustified(pending[request := slot], log) && SessionsOk(after, released, fenced, log)
  {
    hide PassedIn;
    var after := sessions[j := sessions[j].(outstanding := Some(request))];
    assert SessionOk(sessions[j], j in released, fenced, log);
    forall k: nat | k in pending[request := slot] && !pending[request := slot][k].ready ensures Owned(after, released, k) {
      if k == request {
        assert Owns(after, released, j, k);
      } else {
        assert Owned(sessions, released, k);
        var o: nat :| Owns(sessions, released, o, k);
        assert Owns(after, released, o, k);
      }
    }
  }

  lemma ClearOk(sessions: seq<Session>, released: set<nat>, fenced: set<nat>, pending: map<nat, Slot>, log: seq<Entry>, request: nat)
    requires SlotsOwned(pending, sessions, released) && SlotsJustified(pending, log) && SessionsOk(sessions, released, fenced, log)
    ensures SlotsOwned(pending - {request}, Cleared(sessions, request), released) && SlotsJustified(pending - {request}, log)
    ensures SessionsOk(Cleared(sessions, request), released, fenced, log)
  {
    hide PassedIn;
    var after := Cleared(sessions, request);
    forall k: nat | k in pending - {request} && !(pending - {request})[k].ready ensures Owned(after, released, k) {
      assert Owned(sessions, released, k);
      var o: nat :| Owns(sessions, released, o, k);
      assert Owns(after, released, o, k);
    }
    forall i | 0 <= i < |after| ensures SessionOk(after[i], i in released, fenced, log) {
      assert SessionOk(sessions[i], i in released, fenced, log);
    }
  }

  lemma LoseSession(sessions: seq<Session>, released: set<nat>, fenced: set<nat>, pending: map<nat, Slot>, log: seq<Entry>, i: nat)
    requires SlotsOwned(pending, sessions, released) && SlotsJustified(pending, log) && SessionsOk(sessions, released, fenced, log)
    requires i < |sessions| && sessions[i].finished && (sessions[i].worker ==> sessions[i].bootKey.value in fenced)
    ensures var after := Lost(pending, sessions[i].outstanding);
      SlotsOwned(after, sessions, released + {i}) && SlotsJustified(after, log) && SessionsOk(sessions, released + {i}, fenced, log)
  {
    hide PassedIn;
    var after := Lost(pending, sessions[i].outstanding);
    forall k: nat | k in after && !after[k].ready ensures Owned(sessions, released + {i}, k) {
      assert Owned(sessions, released, k);
      var o: nat :| Owns(sessions, released, o, k);
      assert Owns(sessions, released + {i}, o, k);
    }
    forall k | 0 <= k < |sessions| ensures SessionOk(sessions[k], k in released + {i}, fenced, log) {
      assert SessionOk(sessions[k], k in released, fenced, log);
    }
  }

  lemma BootsKnown(sessions: seq<Session>, released: set<nat>, fenced: set<nat>, log: seq<Entry>)
    requires SessionsOk(sessions, released, fenced, log)
    ensures forall i :: 0 <= i < |sessions| && sessions[i].worker ==> sessions[i].bootKey.Some?
  {
    hide PassedIn;
    forall i | 0 <= i < |sessions| && sessions[i].worker ensures sessions[i].bootKey.Some? {
      assert SessionOk(sessions[i], i in released, fenced, log);
    }
  }

  /** No slot stays open once every worker session has been released. */
  lemma LossCompletesAll(pending: map<nat, Slot>, sessions: seq<Session>, released: set<nat>)
    requires SlotsOwned(pending, sessions, released)
    requires forall j: nat :: j < |sessions| && sessions[j].worker ==> j in released
    ensures forall request: nat :: request in pending ==> pending[request].ready
  {
    forall request: nat | request in pending ensures !pending[request].ready ==> Owned(sessions, released, request) {
    }
  }
}
