/**
 * The counting side of fasthttpserver.go: workers that launch services in batches, services that report
 * requests in batches of 1000, `main` that closes the three channels, and `requestCounter` that drains
 * them, interleaved arbitrarily over channels of capacity 4096.
 */
module ServerCounts {
  import HttpService

  const CAPACITY: nat := 4096

  // ---------------------------------------------------------------- state

  /** `seenClosed`: the counter has received the close and set its reference to nil. */
  datatype Chan = Chan(items: seq<nat>, closed: bool, seenClosed: bool)

  /** A worker's batch: `batch` connections accepted, `launched` of them already started as services. */
  datatype WorkerPc = Accepting | Launching | Reporting | Joining | WorkerDone

  datatype Worker = Worker(pc: WorkerPc, batch: nat, launched: nat)

  datatype ServicePc = Serving | Flushing | SayingClosed | GivingBack | LastReport | ServiceDone

  /** `held` counts the pool buffers in hand: the method buffer, and the two header buffers once needed. */
  datatype Service = Service(owner: nat, pc: ServicePc, total: nat, out: nat, held: nat)

  datatype MainPc = WaitWorkers | CloseAccepted | CloseRequests | CloseClosed | MainDone

  datatype Sums = Sums(accepted: nat, finished: nat, closed: nat)

  datatype Bufs = Bufs(taken: nat, returned: nat)

  /** `arrived` counts the connections that AcceptTCP has handed out, whatever becomes of them. */
  datatype Shared = Shared(
    accepted: Chan, requests: Chan, closed: Chan, sums: Sums, bufs: Bufs, arrived: nat, panicked: bool)

  datatype State = State(workers: seq<Worker>, services: seq<Service>, main: MainPc, sh: Shared)

  datatype Action =
    | WorkerAct(i: nat, turn: Turn)
    | ServiceAct(k: nat, choice: Choice)
    | MainAct
    | CountAccepted | CountRequests | CountClosed

  /** What a worker at its loop head does next; leaving drops a batch that was not started. */
  datatype Turn = AcceptOne | StartBatch | LeaveLoop

  datatype Choice = Answer | TakeBuffer | Stop

  // ---------------------------------------------------------------- steps

  predicate CanSend(ch: Chan) {
    ch.closed || |ch.items| < CAPACITY
  }

  function Send(ch: Chan, n: nat): (r: Chan) {
    ch.(items := ch.items + [n])
  }

  predicate WorkerReady(w: Worker, sh: Shared, servicesDone: bool) {
    match w.pc
    case Reporting => CanSend(sh.accepted)
    case Joining => servicesDone
    case WorkerDone => false
    case _ => true
  }

  datatype WorkerResult = WorkerResult(w: Worker, sh: Shared, launched: seq<Service>)

  function WorkerStep(i: nat, w: Worker, sh: Shared, turn: Turn): (r: WorkerResult) {
    match w.pc
    case Accepting =>
      (match turn
       case AcceptOne => WorkerResult(w.(batch := w.batch + 1), sh.(arrived := sh.arrived + 1), [])
       case StartBatch => WorkerResult(if w.batch > 0 then w.(pc := Launching) else w, sh, [])
       case LeaveLoop => WorkerResult(w.(pc := Joining), sh, []))
    case Launching =>
      if w.launched < w.batch then
        WorkerResult(w.(launched := w.launched + 1), sh.(bufs := sh.bufs.(taken := sh.bufs.taken + 1)),
                     [Service(i, Serving, 0, 0, 1)])
      else WorkerResult(w.(pc := Reporting), sh, [])
    case Reporting =>
      WorkerResult(Worker(Accepting, 0, 0),
                   sh.(accepted := Send(sh.accepted, w.launched), panicked := sh.panicked || sh.accepted.closed), [])
    case Joining => WorkerResult(w.(pc := WorkerDone), sh, [])
    case WorkerDone => WorkerResult(w, sh, [])
  }

  predicate ServiceReady(sv: Service, sh: Shared) {
    match sv.pc
    case Flushing => CanSend(sh.requests)
    case SayingClosed => CanSend(sh.closed)
    case LastReport => CanSend(sh.requests)
    case ServiceDone => false
    case _ => true
  }

  datatype ServiceResult = ServiceResult(sv: Service, sh: Shared)

  function ServiceStep(sv: Service, sh: Shared, choice: Choice): (r: ServiceResult) {
    match sv.pc
    case Serving =>
      (match choice
       case Answer =>
         ServiceResult(sv.(total := sv.total + 1, out := sv.out + 1,
                           pc := if sv.out + 1 >= HttpService.REPORT_BATCH then Flushing else Serving), sh)
       case TakeBuffer =>
         if sv.held < 3 then
           ServiceResult(sv.(held := sv.held + 1), sh.(bufs := sh.bufs.(taken := sh.bufs.taken + 1)))
         else ServiceResult(sv, sh)
       case Stop => ServiceResult(sv.(pc := SayingClosed), sh))
    case Flushing =>
      ServiceResult(sv.(pc := Serving, out := 0),
                    sh.(requests := Send(sh.requests, sv.out), panicked := sh.panicked || sh.requests.closed))
    case SayingClosed =>
      ServiceResult(sv.(pc := GivingBack),
                    sh.(closed := Send(sh.closed, 1), panicked := sh.panicked || sh.closed.closed))
    case GivingBack =>
      ServiceResult(sv.(pc := LastReport, held := 0),
                    sh.(bufs := sh.bufs.(returned := sh.bufs.returned + sv.held)))
    case LastReport =>
      ServiceResult(sv.(pc := ServiceDone, out := 0),
                    sh.(requests := Send(sh.requests, sv.out), panicked := sh.panicked || sh.requests.closed))
    case ServiceDone => ServiceResult(sv, sh)
  }

  predicate OwnDone(services: seq<Service>, i: nat) {
    forall k | 0 <= k < |services| && services[k].owner == i :: services[k].pc.ServiceDone?
  }

  predicate WorkersDone(workers: seq<Worker>) {
    forall i | 0 <= i < |workers| :: workers[i].pc.WorkerDone?
  }

  predicate CanReceive(ch: Chan) {
    !ch.seenClosed && (ch.items != [] || ch.closed)
  }

  /** A receive: the oldest item, or the close once the channel is empty. */
  function Receive(ch: Chan): (r: Chan)
    requires CanReceive(ch)
  {
    if ch.items == [] then ch.(seenClosed := true) else ch.(items := ch.items[1..])
  }

  function Amount(ch: Chan): (n: nat) {
    if ch.items == [] then 0 else ch.items[0]
  }

  predicate Enabled(s: State, a: Action) {
    match a
    case WorkerAct(i, _) => i < |s.workers| && WorkerReady(s.workers[i], s.sh, OwnDone(s.services, i))
    case ServiceAct(k, _) => k < |s.services| && ServiceReady(s.services[k], s.sh)
    case MainAct => (s.main.WaitWorkers? ==> WorkersDone(s.workers)) && !s.main.MainDone?
    case CountAccepted => CanReceive(s.sh.accepted)
    case CountRequests => CanReceive(s.sh.requests)
    case CountClosed => CanReceive(s.sh.closed)
  }

  function MainStep(m: MainPc, sh: Shared): (r: (MainPc, Shared)) {
    match m
    case WaitWorkers => (CloseAccepted, sh)
    case CloseAccepted => (CloseRequests, sh.(accepted := sh.accepted.(closed := true)))
    case CloseRequests => (CloseClosed, sh.(requests := sh.requests.(closed := true)))
    case CloseClosed => (MainDone, sh.(closed := sh.closed.(closed := true)))
    case MainDone => (MainDone, sh)
  }

  function Apply(s: State, a: Action): (s': State)
    requires Enabled(s, a)
  {
    var sh := s.sh;
    match a
    case WorkerAct(i, turn) =>
      var r := WorkerStep(i, s.workers[i], sh, turn);
      s.(workers := s.workers[i := r.w], services := s.services + r.launched, sh := r.sh)
    case ServiceAct(k, choice) =>
      var r := ServiceStep(s.services[k], sh, choice);
      s.(services := s.services[k := r.sv], sh := r.sh)
    case MainAct =>
      var r := MainStep(s.main, sh);
      s.(main := r.0, sh := r.1)
    case CountAccepted =>
      s.(sh := sh.(accepted := Receive(sh.accepted),
                   sums := sh.sums.(accepted := sh.sums.accepted + Amount(sh.accepted))))
    case CountRequests =>
      s.(sh := sh.(requests := Receive(sh.requests),
                   sums := sh.sums.(finished := sh.sums.finished + Amount(sh.requests))))
    case CountClosed =>
      s.(sh := sh.(closed := Receive(sh.closed),
                   sums := sh.sums.(closed := sh.sums.closed + Amount(sh.closed))))
  }

  predicate Legal(s: State, acts: seq<Action>)
    decreases |acts|
  {
    acts == [] || (Enabled(s, acts[0]) && Legal(Apply(s, acts[0]), acts[1..]))
  }

  function Exec(s: State, acts: seq<Action>): (r: State)
    requires Legal(s, acts)
    decreases |acts|
  {
    if acts == [] then s else Exec(Apply(s, acts[0]), acts[1..])
  }

  ghost predicate Initial(s: State) {
    && (forall i | 0 <= i < |s.workers| :: s.workers[i] == Worker(Accepting, 0, 0))
    && s.services == [] && s.main.WaitWorkers?
    && s.sh == Shared(Chan([], false, false), Chan([], false, false), Chan([], false, false),
                      Sums(0, 0, 0), Bufs(0, 0), 0, false)
  }
}
