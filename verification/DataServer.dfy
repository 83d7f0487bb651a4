/** The NDMP data server of one session: its states, sockets and halt notifications (ndmpd_data.c). */
module DataServer {

  datatype DataState = Idle | Listen | Connected | Active | Halted
  datatype Reason = NA | Successful | Aborted | InternalError | ConnectError
  datatype Operation = NoAction | Backup | Recover
  datatype Mover = MoverIdle | MoverListen | MoverActive | MoverHalted
  datatype Addr = Local | Tcp | OtherAddr(valid: bool)
  datatype Err = NoErr | IllegalState | IllegalArgs | IoErr | ConnectErr | NoDevice | NoMem | OtherErr

  /** The value of every field of the data server, and what has gone out to the operating system and the client. */
  datatype View = View(
    state: DataState, reason: Reason, op: Operation, abort: bool,
    tcp: bool,              // dd_data_addr.addr_type is TCP, else LOCAL
    sock: int, listen: int, // dd_sock and dd_listen_sock, -1 when there is none
    mover: Mover,
    abortFunc: Operation,   // dm_abort_func: none, that of a backup or that of a restore
    cookie: bool,           // dm_module_cookie has been set by a worker
    created: nat,           // worker threads that have not begun yet
    running: nat,           // worker threads that hold a reference (ns_nref)
    handlers: set<int>,     // registered file handlers
    open: set<int>,         // descriptors opened and not closed
    notices: seq<Reason>)   // notify_data_halted messages sent

  /** Requests of the client and events, with what the system answers to them. */
  datatype Action =
    | ListenRequest(addr: Addr, fd: int, handlerOk: bool)
    | ConnectRequest(addr: Addr, fd: int)
    | StartBackup(typeOk: bool, envErr: Err, memOk: bool, paramsCode: int, responseOk: bool, threadOk: bool)
    | StartRecover(typeOk: bool, memOk: bool, envOk: bool, nlistOk: bool, paramsErr: Err, responseOk: bool,
                   threadOk: bool)
    | AbortRequest
    | StopRequest
    | Accept(fd: int)
    | WorkerBegins
    | WorkerDone(err: int)

  const EINTR := 4
  const EIO := 5

  // ---- what each function does to the fields ----

  function MoverError(v: View): View {
    if v.mover == MoverHalted || v.mover == MoverIdle then v else v.(mover := MoverHalted)
  }

  function CloseSock(v: View): View {
    if v.sock == -1 then v else v.(handlers := v.handlers - {v.sock}, open := v.open - {v.sock}, sock := -1)
  }

  function CloseListen(v: View): View {
    if v.listen == -1 then v else v.(handlers := v.handlers - {v.listen}, open := v.open - {v.listen}, listen := -1)
  }

  function DataError(v: View, reason: Reason): View {
    if v.state == Idle || v.state == Halted then v
    else
      var h := v.(state := Halted, reason := reason, notices := v.notices + [reason]);
      if v.tcp then CloseListen(CloseSock(h)) else MoverError(h)
  }

  function Cleanup(v: View): View {
    var w := CloseListen(v);
    if w.sock == -1 then w else w.(open := w.open - {w.sock}, sock := -1)
  }

  function Init(v: View): View {
    v.(op := NoAction, state := Idle, reason := NA, abort := false, sock := -1, tcp := false, listen := -1)
  }

  function ReasonOf(err: int): Reason {
    if err == 0 then Successful
    else if err == EINTR then Aborted
    else if err == EIO then ConnectError else InternalError
  }

  function AfterListen(v: View, addr: Addr, fd: int, handlerOk: bool): (View, Err) {
    if v.state != Idle || v.mover != MoverIdle then (v, IllegalState)
    else match addr
      case Local => (v.(tcp := false, state := Listen), NoErr)
      case Tcp =>
        if fd < 0 || !handlerOk then (v.(listen := -1), IoErr)
        else
          (v.(listen := fd, open := v.open + {fd}, handlers := v.handlers + {fd}, tcp := true, state := Listen), NoErr)
      case OtherAddr(_) => (v, IllegalArgs)
  }

  function AfterConnect(v: View, addr: Addr, fd: int): (View, Err) {
    if addr.OtherAddr? && !addr.valid then (v, IllegalArgs)
    else if v.state != Idle then (v, IllegalState)
    else match addr
      case Local =>
        if v.mover != MoverListen then (v, IllegalState)
        else (v.(mover := MoverActive, state := Connected), NoErr)
      case Tcp =>
        if fd < 0 then (v, ConnectErr)
        else (v.(sock := fd, open := v.open + {fd}, tcp := true, state := Connected), NoErr)
      case OtherAddr(_) => (v, IllegalArgs)
  }

  function BackupActive(v: View): View {
    v.(abortFunc := Backup, cookie := false, state := Active, op := Backup, abort := false)
  }

  /** start_backup_v3: the state goes to ACTIVE before the worker thread is there. */
  function BackupStarted(v: View, a: Action): (View, Err)
    requires a.StartBackup?
  {
    if v.state != Connected then (v, IllegalState)
    else if !v.tcp then (v, NoDevice)
    else if !a.typeOk then (v, IllegalArgs)
    else if a.envErr != NoErr then (v, a.envErr)
    else if !a.memOk then (v, NoMem)
    else
      var w := BackupActive(v);
      if a.paramsCode != 0 then (DataError(w, ReasonOf(a.paramsCode)), NoErr)
      else if !a.responseOk then (w, NoErr)
      else if !a.threadOk then (w, IllegalArgs)
      else (w.(created := w.created + 1), NoErr)
  }

  function AfterStartBackup(v: View, a: Action): (View, Err)
    requires a.StartBackup?
  {
    var (w, err) := BackupStarted(v, a);
    (if err != NoErr then Cleanup(w) else w, err)
  }

  function RecoverStarted(v: View, a: Action): (View, Err)
    requires a.StartRecover?
  {
    if v.state != Connected then (v, IllegalState)
    else if !a.typeOk then (v, IllegalArgs)
    else if !a.memOk || !a.envOk || !a.nlistOk then (v, NoMem)
    else
      var w := v.(abortFunc := Recover, cookie := false);
      if a.paramsErr != NoErr then (w, a.paramsErr)
      else if !a.responseOk then (DataError(w, ConnectError), NoErr)
      else
        var x := w.(state := Active, op := Recover, abort := false);
        if !a.threadOk then (x, IllegalArgs) else (x.(created := x.created + 1), NoErr)
  }

  function AfterStartRecover(v: View, a: Action): (View, Err)
    requires a.StartRecover?
  {
    var (w, err) := RecoverStarted(v, a);
    (if err != NoErr then Cleanup(DataError(w, InternalError)) else w, err)
  }

  /** The abort functions of the modules: that of a backup closes the data socket, once a worker has begun. */
  function AbortModule(v: View): View {
    if v.abortFunc == Backup && v.cookie && v.tcp && v.sock != -1
    then v.(open := v.open - {v.sock}, sock := -1)
    else v
  }

  function AfterAbort(v: View): (View, Err) {
    match v.state
    case Idle => (v, IllegalState)
    case Active => (AbortModule(v.(abort := true)), NoErr)
    case _ => (DataError(v.(abort := true), Aborted), NoErr)
  }

  function AfterStop(v: View): (View, Err) {
    if v.state != Halted then (v, IllegalState) else (Init(Cleanup(v)), NoErr)
  }

  function Accepted(v: View, fd: int): View {
    v.(sock := if fd < 0 then -1 else fd, open := (if fd < 0 then v.open else v.open + {fd}) - {v.listen},
       handlers := v.handlers - {v.listen}, listen := -1)
  }

  function AfterAccept(v: View, fd: int): View {
    if fd < 0 then DataError(Accepted(v, fd), ConnectError) else Accepted(v, fd).(state := Connected)
  }

  /** A worker thread begins: it takes its reference and its module cookie. */
  function Begun(v: View): View
    requires v.created > 0
  {
    v.(created := v.created - 1, running := v.running + 1, cookie := true)
  }

  /** ndmpd_api_done_v3 at the end of a worker. */
  function Done(v: View, err: int): View
    requires v.running > 0
  {
    DataError(v, ReasonOf(err)).(running := v.running - 1)
  }

  // ---- runs ----

  /** Whether a request or event can come up: its descriptor is free, there is a listener, a stop need not wait. */
  predicate Comes(v: View, a: Action) {
    match a
    case ListenRequest(_, fd, _) => fd !in v.open
    case ConnectRequest(_, fd) => fd !in v.open
    case StopRequest => v.state != Halted || v.running == 0
    case Accept(fd) => v.listen != -1 && v.listen in v.handlers && fd !in v.open
    case WorkerBegins => v.created > 0
    case WorkerDone(_) => v.running > 0
    case _ => true
  }

  /** What it leads to. */
  function Next(v: View, a: Action): View
    requires Comes(v, a)
  {
    match a
    case ListenRequest(addr, fd, ok) => AfterListen(v, addr, fd, ok).0
    case ConnectRequest(addr, fd) => AfterConnect(v, addr, fd).0
    case StartBackup(_, _, _, _, _, _) => AfterStartBackup(v, a).0
    case StartRecover(_, _, _, _, _, _, _) => AfterStartRecover(v, a).0
    case AbortRequest => AfterAbort(v).0
    case StopRequest => AfterStop(v).0
    case Accept(fd) => AfterAccept(v, fd)
    case WorkerBegins => Begun(v)
    case WorkerDone(err) => Done(v, err)
  }

  function Step(v: View, a: Action): Option<View> {
    if Comes(v, a) then Some(Next(v, a)) else None
  }

  datatype Option<+T> = None | Some(value: T)

  predicate Initial(v: View) {
    v == View(Idle, NA, NoAction, false, false, -1, -1, MoverIdle, NoAction, false, 0, 0, {}, {}, [])
  }

  /** Where the session may be: what each open socket, the operation and the halt reason say about the state. */
  predicate Safe(v: View) {
    && (v.reason != NA <==> v.state == Halted)
    && (v.listen != -1 ==> v.state == Listen && v.tcp && v.handlers == {v.listen})
    && (v.listen == -1 ==> v.handlers == {})
    && (v.sock != -1 ==> (v.state == Connected || v.state == Active) && v.tcp)
    && (v.op != NoAction ==> v.state == Active || v.state == Halted)
    && (v.state == Active ==> v.op != NoAction)
    && (v.state == Connected || v.state == Active ==> v.tcp)
    && v.mover == MoverIdle
    && v.open == (if v.sock != -1 then {v.sock} else {}) + (if v.listen != -1 then {v.listen} else {})
    && (v.state == Halted ==> v.notices != [] && v.notices[|v.notices| - 1] == v.reason)
  }

  /** A step that enters HALTED sends one notification, with the reason; every other step sends none. */
  predicate Notified(v: View, w: View) {
    if v.state != Halted && w.state == Halted then w.notices == v.notices + [w.reason] else w.notices == v.notices
  }

  lemma ErrorSafe(v: View, reason: Reason)
    requires Safe(v) && reason != NA
    ensures Safe(DataError(v, reason)) && Notified(v, DataError(v, reason))
    ensures v.state != Idle ==> DataError(v, reason).state == Halted
  {
  }

  lemma CleanupSafe(v: View)
    requires Safe(v)
    ensures var w := Cleanup(v); Safe(w) && Notified(v, w) && w.sock == w.listen == -1 && w.open == w.handlers == {}
  {
  }

  lemma ListenerOpen(v: View)
    requires Safe(v)
    ensures v.listen != -1 ==> v.listen in v.open
  {
  }

  lemma ErrorKeepsWorkers(v: View, reason: Reason)
    ensures DataError(v, reason).running == v.running
  {
  }

  lemma ListenSafe(v: View, addr: Addr, fd: int, ok: bool)
    requires Safe(v)
    ensures var w := AfterListen(v, addr, fd, ok).0; Safe(w) && Notified(v, w)
  {
  }

  lemma ConnectSafe(v: View, addr: Addr, fd: int)
    requires Safe(v)
    ensures var w := AfterConnect(v, addr, fd).0; Safe(w) && Notified(v, w)
  {
  }

  lemma BackupStartedSafe(v: View, a: Action)
    requires Safe(v) && a.StartBackup?
    ensures var w := BackupStarted(v, a).0; Safe(w) && Notified(v, w)
    ensures v.state == Connected ==> Safe(BackupActive(v))
  {
    if v.state == Connected {
      assert Safe(BackupActive(v));
      ErrorSafe(BackupActive(v), ReasonOf(a.paramsCode));
    }
    hide DataError;
  }

  lemma BackupSafe(v: View, a: Action)
    requires Safe(v) && a.StartBackup?
    ensures var w := AfterStartBackup(v, a).0; Safe(w) && Notified(v, w)
  {
    BackupStartedSafe(v, a);
    CleanupSafe(BackupStarted(v, a).0);
    hide DataError, Safe, BackupStarted;
  }

  lemma RecoverStartedSafe(v: View, a: Action)
    requires Safe(v) && a.StartRecover?
    ensures var (w, err) := RecoverStarted(v, a);
      && Safe(w) && Notified(v, w)
      && (err != NoErr ==> w.notices == v.notices && (w.state == Halted <==> v.state == Halted))
  {
    var w := v.(abortFunc := Recover, cookie := false);
    ErrorSafe(w, ConnectError);
    hide DataError;
  }

  lemma RecoverSafe(v: View, a: Action)
    requires Safe(v) && a.StartRecover?
    ensures var w := AfterStartRecover(v, a).0; Safe(w) && Notified(v, w)
  {
    RecoverStartedSafe(v, a);
    var r := RecoverStarted(v, a).0;
    ErrorSafe(r, InternalError);
    CleanupSafe(DataError(r, InternalError));
    hide DataError, Safe, RecoverStarted;
  }

  lemma AbortSafe(v: View)
    requires Safe(v)
    ensures var w := AfterAbort(v).0; Safe(w) && Notified(v, w)
  {
    ErrorSafe(v.(abort := true), Aborted);
  }

  lemma StopSafe(v: View)
    requires Safe(v)
    ensures var w := AfterStop(v).0; Safe(w) && Notified(v, w)
  {
    CleanupSafe(v);
  }

  lemma AcceptSafe(v: View, fd: int)
    requires Safe(v) && Step(v, Accept(fd)).Some?
    ensures var w := AfterAccept(v, fd); Safe(w) && Notified(v, w)
  {
    if fd < 0 {
      var w := v.(sock := -1, open := v.open - {v.listen}, handlers := v.handlers - {v.listen}, listen := -1);
      ErrorSafe(w, ConnectError);
    }
  }

  lemma WorkerSafe(v: View, a: Action)
    requires Safe(v) && Step(v, a).Some? && (a.WorkerBegins? || a.WorkerDone?)
    ensures Safe(Step(v, a).value) && Notified(v, Step(v, a).value)
  {
    if a.WorkerDone? {
      ErrorSafe(v, ReasonOf(a.err));
    }
  }

  lemma StepSafe(v: View, a: Action)
    requires Safe(v) && Step(v, a).Some?
    ensures Safe(Step(v, a).value) && Notified(v, Step(v, a).value)
  {
    hide Safe, Notified, AfterListen, AfterConnect, AfterStartBackup, AfterStartRecover, AfterAbort, AfterStop;
    hide AfterAccept, DataError;
    match a
    case ListenRequest(addr, fd, ok) => ListenSafe(v, addr, fd, ok);
    case ConnectRequest(addr, fd) => ConnectSafe(v, addr, fd);
    case StartBackup(_, _, _, _, _, _) => BackupSafe(v, a);
    case StartRecover(_, _, _, _, _, _, _) => RecoverSafe(v, a);
    case AbortRequest => AbortSafe(v);
    case StopRequest => StopSafe(v);
    case Accept(fd) => AcceptSafe(v, fd);
    case WorkerBegins => WorkerSafe(v, a);
    case WorkerDone(err) => WorkerSafe(v, a);
  }

  /** The state after the steps, None when one cannot come up. */
  function Run(v: View, acts: seq<Action>): Option<View>
    decreases |acts|
  {
    if acts == [] then Some(v) else
      var r := Step(v, acts[0]);
      if r.None? then None else Run(r.value, acts[1..])
  }

  lemma {:induction false} RunMore(v: View, acts: seq<Action>, a: Action)
    requires Run(v, acts).Some?
    ensures Run(v, acts + [a]) == Step(Run(v, acts).value, a)
    decreases |acts|
  {
    hide Step;
    if acts == [] {
      assert [] + [a] == [a] && [a][1..] == [];
    } else {
      assert (acts + [a])[1..] == acts[1..] + [a];
      RunMore(Step(v, acts[0]).value, acts[1..], a);
    }
  }

  /** How often a run goes from another state into HALTED. */
  function Halts(v: View, acts: seq<Action>): nat
    decreases |acts|
  {
    if acts == [] || Step(v, acts[0]).None? then 0 else
      var w := Step(v, acts[0]).value;
      (if v.state != Halted && w.state == Halted then 1 else 0) + Halts(w, acts[1..])
  }

  lemma {:induction false} RunKeeps(v: View, acts: seq<Action>)
    requires Safe(v) && Run(v, acts).Some?
    ensures Safe(Run(v, acts).value) && |Run(v, acts).value.notices| == |v.notices| + Halts(v, acts)
    decreases |acts|
  {
    if acts != [] {
      StepSafe(v, acts[0]);
      hide Step, Safe;
      RunKeeps(Step(v, acts[0]).value, acts[1..]);
    }
  }

  /** Every run of requests and events from a fresh session is safe, with one notification per entry to HALTED. */
  lemma DataServerSafe(v: View, acts: seq<Action>)
    requires Initial(v) && Run(v, acts).Some?
    ensures Safe(Run(v, acts).value) && |Run(v, acts).value.notices| == Halts(v, acts)
  {
    RunKeeps(v, acts);
  }

  // ---- what the client is told ----

  /** The reason tells how a piece of work ended, by its error number. */
  predicate Tells(reason: Reason, err: int) {
    && (reason == Successful <==> err == 0)
    && (reason == Aborted <==> err == EINTR)
    && (reason == ConnectError <==> err == EIO)
    && (reason == InternalError <==> err !in {0, EINTR, EIO})
  }

  /** Everything that can halt a session, and the reason that the client is told then. */
  lemma HaltTells(v: View, a: Action)
    requires Safe(v) && Comes(v, a) && v.state != Halted && Next(v, a).state == Halted
    ensures Next(v, a).notices == v.notices + [Next(v, a).reason]
    ensures match a {
      case WorkerDone(err) => Tells(Next(v, a).reason, err)
      case StartBackup(_, _, _, code, _, _) => code != 0 && Tells(Next(v, a).reason, code)
      case AbortRequest => Next(v, a).reason == Aborted
      case Accept(fd) => fd < 0 && Next(v, a).reason == ConnectError
      case StartRecover(typeOk, memOk, envOk, nlistOk, paramsErr, responseOk, _) =>
        Next(v, a).reason ==
          if v.state == Connected && typeOk && memOk && envOk && nlistOk && paramsErr == NoErr && !responseOk
          then ConnectError else InternalError
      case _ => false
    }
  {
    hide Safe, AfterStartBackup, AfterStartRecover, DataError, Cleanup;
    StepSafe(v, a);
    match a
    case WorkerDone(err) => ErrorTells(v, ReasonOf(err));
    case StartBackup(_, _, _, _, _, _) => BackupTells(v, a);
    case StartRecover(_, _, _, _, _, _, _) => RecoverTells(v, a);
    case AbortRequest => ErrorTells(v.(abort := true), Aborted);
    case Accept(fd) => ErrorTells(Accepted(v, fd), ConnectError);
    case _ =>
  }

  lemma ErrorTells(v: View, reason: Reason)
    ensures var w := DataError(v, reason);
      if v.state == Idle || v.state == Halted then w == v else w.state == Halted && w.reason == reason
  {
  }

  lemma CleanupTells(v: View)
    ensures Cleanup(v).state == v.state && Cleanup(v).reason == v.reason
  {
  }

  lemma BackupTells(v: View, a: Action)
    requires a.StartBackup? && v.state != Halted && AfterStartBackup(v, a).0.state == Halted
    ensures a.paramsCode != 0 && Tells(AfterStartBackup(v, a).0.reason, a.paramsCode)
  {
    hide DataError, Cleanup;
    ErrorTells(BackupActive(v), ReasonOf(a.paramsCode));
    CleanupTells(BackupStarted(v, a).0);
  }

  lemma RecoverTells(v: View, a: Action)
    requires a.StartRecover? && v.state != Halted && AfterStartRecover(v, a).0.state == Halted
    ensures AfterStartRecover(v, a).0.reason ==
              if v.state == Connected && a.typeOk && a.memOk && a.envOk && a.nlistOk && a.paramsErr == NoErr
                 && !a.responseOk
              then ConnectError else InternalError
  {
    hide DataError, Cleanup;
    var w := RecoverStarted(v, a).0;
    ErrorTells(v.(abortFunc := Recover, cookie := false), ConnectError);
    ErrorTells(w, InternalError);
    CleanupTells(DataError(w, InternalError));
  }

  /**
   * The error that a refused request is answered with, in every safe session: the wrong state first, then what is wrong
   * with the request, then what the system could not do. That a backup has no device is never the answer.
   */
  lemma RefusalTells(v: View, a: Action)
    requires Safe(v)
    ensures match a {
      case ListenRequest(addr, fd, ok) =>
        AfterListen(v, addr, fd, ok).1 ==
          if v.state != Idle then IllegalState else if addr.OtherAddr? then IllegalArgs
          else if addr.Tcp? && (fd < 0 || !ok) then IoErr else NoErr
      case ConnectRequest(addr, fd) =>
        AfterConnect(v, addr, fd).1 ==
          if addr == OtherAddr(false) then IllegalArgs else if v.state != Idle || addr.Local? then IllegalState
          else if addr.OtherAddr? then IllegalArgs else if fd < 0 then ConnectErr else NoErr
      case StartBackup(typeOk, envErr, memOk, code, responseOk, threadOk) =>
        AfterStartBackup(v, a).1 ==
          if v.state != Connected then IllegalState else if !typeOk then IllegalArgs
          else if envErr != NoErr then envErr else if !memOk then NoMem
          else if code == 0 && responseOk && !threadOk then IllegalArgs else NoErr
      case StartRecover(typeOk, memOk, envOk, nlistOk, paramsErr, responseOk, threadOk) =>
        AfterStartRecover(v, a).1 ==
          if v.state != Connected then IllegalState else if !typeOk then IllegalArgs
          else if !(memOk && envOk && nlistOk) then NoMem else if paramsErr != NoErr then paramsErr
          else if responseOk && !threadOk then IllegalArgs else NoErr
      case AbortRequest => AfterAbort(v).1 == if v.state == Idle then IllegalState else NoErr
      case StopRequest => AfterStop(v).1 == if v.state == Halted then NoErr else IllegalState
      case _ => true
    }
  {
    hide DataError, Cleanup, AbortModule;
  }

  /** A worker that ends while the session is neither idle nor halted halts it, and its error number is told. */
  lemma WorkerTells(v: View, err: int)
    requires Safe(v) && v.running > 0 && v.state != Idle && v.state != Halted
    ensures var w := Next(v, WorkerDone(err));
      w.state == Halted && w.notices == v.notices + [w.reason] && Tells(w.reason, err)
  {
    HaltTells(v, WorkerDone(err));
  }

  /** How many workers end without an error in a session that is neither idle nor halted. */
  function WellEnded(v: View, acts: seq<Action>): nat
    decreases |acts|
  {
    if acts == [] || Step(v, acts[0]).None? then 0 else
      (if acts[0] == WorkerDone(0) && v.state != Idle && v.state != Halted then 1 else 0)
      + WellEnded(Step(v, acts[0]).value, acts[1..])
  }

  lemma StepSuccess(v: View, a: Action)
    requires Safe(v) && Step(v, a).Some?
    ensures multiset(Step(v, a).value.notices)[Successful] == multiset(v.notices)[Successful]
              + if a == WorkerDone(0) && v.state != Idle && v.state != Halted then 1 else 0
  {
    StepSafe(v, a);
    var w := Next(v, a);
    if v.state != Halted && w.state == Halted {
      HaltTells(v, a);
    } else if a.WorkerDone? && v.state != Idle && v.state != Halted {
      WorkerTells(v, a.err);
    }
    hide Safe, Next, Comes;
  }

  /** Over every run success is told just as often as a worker of a session at work ended without an error. */
  lemma {:induction false} SuccessIsEarned(v: View, acts: seq<Action>)
    requires Safe(v) && Run(v, acts).Some?
    ensures multiset(Run(v, acts).value.notices)[Successful]
              == multiset(v.notices)[Successful] + WellEnded(v, acts)
    decreases |acts|
  {
    if acts != [] {
      StepSafe(v, acts[0]);
      StepSuccess(v, acts[0]);
      hide Step, Safe;
      SuccessIsEarned(Step(v, acts[0]).value, acts[1..]);
    }
  }

  /** So a client of a fresh session is told of success only if some worker ended without an error. */
  lemma NoFalseSuccess(v: View, acts: seq<Action>)
    requires Initial(v) && Run(v, acts).Some? && Successful in Run(v, acts).value.notices
    ensures WorkerDone(0) in acts
  {
    SuccessIsEarned(v, acts);
    NobodyEnded(v, acts);
  }

  lemma {:induction false} NobodyEnded(v: View, acts: seq<Action>)
    ensures WorkerDone(0) !in acts ==> WellEnded(v, acts) == 0
    decreases |acts|
  {
    hide Step;
    if acts != [] && Step(v, acts[0]).Some? {
      NobodyEnded(Step(v, acts[0]).value, acts[1..]);
    }
  }

  // ---- ACTIVE without a worker ----

  predicate Trapped(v: View) {
    v.state == Active && v.created == 0 && v.running == 0
  }

  /** A backup whose thread cannot be created, or whose reply cannot be sent, leaves ACTIVE without a worker. */
  lemma BackupCanTrap(v: View, a: Action)
    requires Safe(v) && v.state == Connected && v.created == 0 && v.running == 0
    requires a.StartBackup? && a.typeOk && a.envErr == NoErr && a.memOk && a.paramsCode == 0
    ensures Trapped(AfterStartBackup(v, a).0) <==> !a.responseOk || !a.threadOk
  {
  }

  lemma TrappedStep(v: View, a: Action)
    requires Safe(v) && Trapped(v) && Step(v, a).Some?
    ensures var w := Step(v, a).value;
      if a.StartRecover? then w.state == Halted else Trapped(w) && w.notices == v.notices
  {
  }

  /**
   * From there no request but one gets the session out: abort, stop, listen, connect and start-backup all leave it
   * active and silent; only a start-recover request, which is refused, halts it.
   */
  lemma {:induction false} TrappedStays(v: View, acts: seq<Action>)
    requires Safe(v) && Trapped(v) && Run(v, acts).Some? && forall i :: 0 <= i < |acts| ==> !acts[i].StartRecover?
    ensures var w := Run(v, acts).value; Safe(w) && Trapped(w) && w.notices == v.notices
    decreases |acts|
  {
    if acts != [] {
      TrappedStep(v, acts[0]);
      StepSafe(v, acts[0]);
      hide Step, Safe, Trapped;
      TrappedStays(Step(v, acts[0]).value, acts[1..]);
    }
  }

  // ---- what the requests mean for a session ----

  lemma IdleMoves(v: View, a: Action)
    requires v.state == Idle && v.listen == -1 && Comes(v, a) && Next(v, a).state != Idle
    ensures if a.ListenRequest? then Next(v, a).state == Listen
            else a.ConnectRequest? && Next(v, a).state == Connected
  {
  }

  lemma ListenMoves(v: View, a: Action)
    requires v.state == Listen && Comes(v, a) && Next(v, a).state != Listen
    ensures if a.Accept? && a.fd >= 0 then Next(v, a).state == Connected
            else
              Next(v, a).state == Halted &&
              (a.Accept? || a.StartRecover? || a.AbortRequest? || a.WorkerDone?)
  {
  }

  lemma ConnectedBackup(v: View, a: Action)
    requires v.state == Connected && a.StartBackup? && AfterStartBackup(v, a).0.state != Connected
    ensures AfterStartBackup(v, a).0.state == if a.paramsCode == 0 then Active else Halted
  {
  }

  lemma ConnectedRecover(v: View, a: Action)
    requires v.state == Connected && a.StartRecover? && AfterStartRecover(v, a).0.state != Connected
    ensures AfterStartRecover(v, a).0.state in {Active, Halted}
  {
    hide DataError, Cleanup;
    var w := RecoverStarted(v, a).0;
    ErrorTells(v.(abortFunc := Recover, cookie := false), ConnectError);
    ErrorTells(w, InternalError);
    CleanupTells(DataError(w, InternalError));
  }

  lemma ConnectedMoves(v: View, a: Action)
    requires v.state == Connected && v.listen == -1 && Comes(v, a) && Next(v, a).state != Connected
    ensures if a.StartBackup? && a.paramsCode == 0 then Next(v, a).state == Active
            else if a.StartRecover? || a.StartBackup? then Next(v, a).state in {Active, Halted}
            else (a.AbortRequest? || a.WorkerDone?) && Next(v, a).state == Halted
  {
    hide AfterStartBackup, AfterStartRecover;
    if a.StartBackup? {
      ConnectedBackup(v, a);
    } else if a.StartRecover? {
      ConnectedRecover(v, a);
    }
  }

  lemma ActiveMoves(v: View, a: Action)
    requires v.state == Active && v.listen == -1 && Comes(v, a) && Next(v, a).state != Active
    ensures (a.StartRecover? || a.WorkerDone?) && Next(v, a).state == Halted
  {
  }

  lemma HaltedMoves(v: View, a: Action)
    requires v.state == Halted && v.listen == -1 && Comes(v, a) && Next(v, a).state != Halted
    ensures a.StopRequest? && Next(v, a).state == Idle
  {
  }

  /** A step changes the state only along the NDMP state diagram, each arrow by its own requests and events. */
  lemma StateDiagram(v: View, a: Action)
    requires Safe(v) && Comes(v, a) && Next(v, a).state != v.state
    ensures match v.state {
      case Idle => if a.ListenRequest? then Next(v, a).state == Listen
                   else a.ConnectRequest? && Next(v, a).state == Connected
      case Listen => if a.Accept? && a.fd >= 0 then Next(v, a).state == Connected
                     else
                       Next(v, a).state == Halted &&
                       (a.Accept? || a.StartRecover? || a.AbortRequest? || a.WorkerDone?)
      case Connected => if a.StartBackup? && a.paramsCode == 0 then Next(v, a).state == Active
                        else if a.StartRecover? || a.StartBackup? then Next(v, a).state in {Active, Halted}
                        else (a.AbortRequest? || a.WorkerDone?) && Next(v, a).state == Halted
      case Active => (a.StartRecover? || a.WorkerDone?) && Next(v, a).state == Halted
      case Halted => a.StopRequest? && Next(v, a).state == Idle
    }
  {
    ListenerOnly(v);
    hide Safe, Next, Comes;
    match v.state
    case Idle => IdleMoves(v, a);
    case Listen => ListenMoves(v, a);
    case Connected => ConnectedMoves(v, a);
    case Active => ActiveMoves(v, a);
    case Halted => HaltedMoves(v, a);
  }

  lemma ListenerOnly(v: View)
    requires Safe(v)
    ensures v.state != Listen ==> v.listen == -1
  {
  }

  /** Halting ends with every socket closed, and tells the client once; an idle or halted session is left alone. */
  lemma ErrorHalts(v: View, reason: Reason)
    requires Safe(v) && reason != NA
    ensures var w := DataError(v, reason);
      if v.state == Idle || v.state == Halted then w == v
      else w.state == Halted && w.reason == reason && w.open == w.handlers == {} && w.notices == v.notices + [reason]
  {
  }

  /** A listen request is granted just to an idle session, with a listener just over TCP; refused it changes nothing. */
  lemma ListenGranted(v: View, addr: Addr, fd: int, ok: bool)
    requires Safe(v)
    ensures var (w, err) := AfterListen(v, addr, fd, ok);
      && (err == NoErr <==> v.state == Idle && (addr.Local? || (addr.Tcp? && fd >= 0 && ok)))
      && (if err != NoErr then w == v
          else w.state == Listen && w.open == w.handlers == (if addr.Tcp? then {fd} else {}))
  {
  }

  /** A connect request is granted just to an idle session over TCP, the mover being a stub; else nothing changes. */
  lemma ConnectGranted(v: View, addr: Addr, fd: int)
    requires Safe(v)
    ensures var (w, err) := AfterConnect(v, addr, fd);
      && (err == NoErr <==> v.state == Idle && addr.Tcp? && fd >= 0)
      && (if err == NoErr then w.state == Connected && w.open == {fd} && w.handlers == {} else w == v)
  {
  }

  /** Whether the request asks for nothing that is not there. */
  predicate BackupWellFormed(a: Action)
    requires a.StartBackup?
  {
    a.typeOk && a.envErr == NoErr && a.memOk
  }

  /**
   * A start-backup request is refused exactly outside CONNECTED, for its arguments, or when only its thread cannot be
   * created. A refused one, in whatever state, sends no notice and closes every socket: the descriptors are kept only
   * if there were none. The state stays, or is ACTIVE when only the thread failed.
   */
  lemma RefusedBackupCloses(v: View, a: Action)
    requires Safe(v) && a.StartBackup?
    ensures var (w, err) := AfterStartBackup(v, a);
      && (err == NoErr <==>
            v.state == Connected && BackupWellFormed(a) && (a.paramsCode == 0 && a.responseOk ==> a.threadOk))
      && (err != NoErr ==>
            && w.open == w.handlers == {} && w.sock == w.listen == -1 && w.notices == v.notices
            && ((w.sock, w.listen) == (v.sock, v.listen) <==> v.open == {})
            && w.state == (if v.state == Connected && BackupWellFormed(a) then Active else v.state))
      && (err == NoErr && a.paramsCode == 0 ==> w.state == Active && w.sock == v.sock)
  {
  }

  /** A refused start-recover request halts the session from every state but IDLE, and closes every socket. */
  lemma RefusedRecoverHalts(v: View, a: Action)
    requires Safe(v) && a.StartRecover?
    ensures var (w, err) := AfterStartRecover(v, a);
      && (err == NoErr ==> v.state == Connected && w.sock == if a.responseOk then v.sock else -1)
      && (err == NoErr <==> v.state == Connected && a.typeOk && a.memOk && a.envOk && a.nlistOk &&
                            a.paramsErr == NoErr && (a.responseOk ==> a.threadOk))
      && (err != NoErr ==> w.open == w.handlers == {} && w.state == if v.state == Idle then Idle else Halted)
  {
  }

  /** An abort halts at once, except in ACTIVE: there it closes at most the socket, and the worker is left to end. */
  lemma AbortMeans(v: View)
    requires Safe(v)
    ensures var (w, err) := AfterAbort(v);
      && (err == NoErr <==> v.state != Idle) && (err != NoErr ==> w == v)
      && (err == NoErr ==> w.abort && w.state == (if v.state == Active then Active else Halted))
      && w.running == v.running && w.created == v.created
      && (v.state == Active ==> (w.open == v.open <==> v.open == {} || v.abortFunc != Backup || !v.cookie))
      && (v.state == Listen || v.state == Connected ==> w.open == w.handlers == {})
  {
  }

  /** A stop makes a halted session as good as new, but for the notices, the workers and the abort function it has. */
  lemma StopRenews(v: View, first: View)
    requires Safe(v) && Initial(first)
    ensures var (w, err) := AfterStop(v);
      && (err == NoErr <==> v.state == Halted)
      && w == if err != NoErr then v else
              first.(notices := v.notices, created := v.created, running := v.running,
                     abortFunc := v.abortFunc, cookie := v.cookie)
  {
  }

  /** An accept closes the listener either way; then the one open descriptor is the connection, or the session halts. */
  lemma AcceptMeans(v: View, fd: int)
    requires Safe(v) && Comes(v, Accept(fd))
    ensures var w := AfterAccept(v, fd);
      && w.listen == -1 && w.handlers == {}
      && (if fd >= 0 then w.state == Connected && w.sock == fd && w.open == {fd} && w.notices == v.notices
          else w.state == Halted && w.open == {} && w.notices == v.notices + [ConnectError])
  {
  }

  lemma OperationKept(v: View, reason: Reason)
    ensures DataError(v, reason).op == v.op && Cleanup(v).op == v.op && AbortModule(v).op == v.op
    ensures Cleanup(v).state == v.state && (v.state != Active ==> DataError(v, reason).state != Active)
  {
  }

  lemma StartedOperation(v: View, a: Action)
    requires a.StartBackup? || a.StartRecover?
    ensures var w := Next(v, a);
      && (v.state != Active && w.state == Active ==> w.op == if a.StartBackup? then Backup else Recover)
      && (w.op == v.op || w.op == if a.StartBackup? then Backup else Recover)
  {
    hide DataError, Cleanup;
    if a.StartBackup? {
      OperationKept(BackupActive(v), ReasonOf(a.paramsCode));
      OperationKept(BackupStarted(v, a).0, NA);
    } else {
      var w := RecoverStarted(v, a).0;
      OperationKept(v.(abortFunc := Recover, cookie := false), ConnectError);
      OperationKept(w, InternalError);
      OperationKept(DataError(w, InternalError), NA);
    }
  }

  /** A session that becomes active has the operation that was asked for, and keeps it until it is stopped. */
  lemma OperationIs(v: View, a: Action)
    requires Safe(v) && Comes(v, a)
    ensures var w := Next(v, a);
      && (v.state != Active && w.state == Active ==>
            (a.StartBackup? && w.op == Backup) || (a.StartRecover? && w.op == Recover))
      && (w.op != v.op ==>
            || (a.StartBackup? && w.op == Backup) || (a.StartRecover? && w.op == Recover)
            || (a.StopRequest? && v.state == Halted && w.op == NoAction))
  {
    hide Safe, DataError, Cleanup, AbortModule, AfterStartBackup, AfterStartRecover;
    match a
    case StartBackup(_, _, _, _, _, _) => StartedOperation(v, a);
    case StartRecover(_, _, _, _, _, _, _) => StartedOperation(v, a);
    case AbortRequest =>
      OperationKept(v.(abort := true), Aborted);
    case StopRequest => OperationKept(v, NA);
    case Accept(fd) => OperationKept(Accepted(v, fd), ConnectError);
    case WorkerDone(err) => OperationKept(v, ReasonOf(err));
    case _ =>
  }

  /**
   * An abort takes the socket away from a backup just when its worker has begun: before that the socket stays, and
   * with it the worker's connection.
   */
  lemma AbortNeedsWorker(v: View, a: Action)
    requires Safe(v) && v.state == Connected && v.sock != -1 && v.created == 0
    requires a.StartBackup? && BackupWellFormed(a) && a.paramsCode == 0 && a.responseOk && a.threadOk
    ensures var early := Run(v, [a, AbortRequest]); var late := Run(v, [a, WorkerBegins, AbortRequest]);
      && early.Some? && early.value.state == Active && early.value.sock == v.sock && early.value.open == {v.sock}
      && late.Some? && late.value.state == Active && late.value.sock == -1 && late.value.open == {}
  {
    var w := Next(v, a);
    assert [a, AbortRequest][1..] == [AbortRequest] && [AbortRequest][1..] == [];
    assert [a, WorkerBegins, AbortRequest][1..] == [WorkerBegins, AbortRequest];
    assert [WorkerBegins, AbortRequest][1..] == [AbortRequest];
    assert Run(v, [a, AbortRequest]) == Run(w, [AbortRequest]) == Run(Next(w, AbortRequest), []);
    var x := Next(w, WorkerBegins);
    assert Run(v, [a, WorkerBegins, AbortRequest]) == Run(w, [WorkerBegins, AbortRequest]) == Run(x, [AbortRequest]);
    assert Run(x, [AbortRequest]) == Run(Next(x, AbortRequest), []);
  }

  // ---- a session without sockets ----

  /** Past IDLE with every socket closed, as a refused start-backup leaves a session. */
  predicate Socketless(v: View) {
    v.state != Idle && v.open == {}
  }

  lemma SocketlessStep(v: View, a: Action)
    requires Safe(v) && Socketless(v) && Comes(v, a) && !a.StopRequest?
    ensures Safe(Next(v, a)) && Socketless(Next(v, a))
    ensures v.state == Listen ==> Next(v, a).state == Listen || Next(v, a).state == Halted
    ensures v.state == Halted ==> Next(v, a).state == Halted
  {
    StepSafe(v, a);
  }

  /**
   * Until it is stopped such a session never opens a socket again, whatever else comes; one that was listening is
   * never connected.
   */
  lemma {:induction false} SocketlessStays(v: View, acts: seq<Action>)
    requires Safe(v) && Socketless(v) && Run(v, acts).Some? && StopRequest !in acts
    ensures var w := Run(v, acts).value; Socketless(w)
    ensures v.state == Listen || v.state == Halted ==> Run(v, acts).value.state in {Listen, Halted}
    decreases |acts|
  {
    if acts != [] {
      SocketlessStep(v, acts[0]);
      hide Next, Comes, Safe, Socketless;
      SocketlessStays(Next(v, acts[0]), acts[1..]);
    }
  }

  /** From a fresh session: listening over TCP, then any start-backup request, and no connection is ever accepted. */
  lemma ListenerLost(v: View, fd: int, a: Action, acts: seq<Action>)
    requires Initial(v) && fd >= 0 && a.StartBackup? && StopRequest !in acts
    requires Run(v, [ListenRequest(Tcp, fd, true), a] + acts).Some?
    ensures var w := Run(v, [ListenRequest(Tcp, fd, true), a] + acts).value;
      w.open == {} && w.state in {Listen, Halted} && forall fd :: !Comes(w, Accept(fd))
  {
    var l := ListenRequest(Tcp, fd, true);
    var v1 := Next(v, l);
    ListenSafe(v, Tcp, fd, true);
    RefusedBackupCloses(v1, a);
    BackupSafe(v1, a);
    var v2 := Next(v1, a);
    assert ([l, a] + acts)[1..] == [a] + acts && ([a] + acts)[1..] == acts;
    assert Run(v, [l, a] + acts) == Run(v1, [a] + acts) == Run(v2, acts);
    SocketlessStays(v2, acts);
    RunKeeps(v2, acts);
  }

  /** The way back when no worker runs: an abort, or in ACTIVE a start-recover to be refused, and then a stop. */
  lemma WayBack(v: View, a: Action)
    requires Safe(v) && v.state != Idle && v.running == 0
    requires if v.state == Active then a.StartRecover? else a.AbortRequest?
    ensures Run(v, [a, StopRequest]).Some? && Run(v, [a, StopRequest]).value.state == Idle
  {
    var w := Next(v, a);
    assert [a, StopRequest][1..] == [StopRequest] && [StopRequest][1..] == [];
    assert w.state == Halted && w.running == 0;
    assert Run(w, [StopRequest]) == Run(Next(w, StopRequest), []);
  }

  /** The session that the requests and events work on. */
  class Server {
    var state: DataState
    var reason: Reason
    var op: Operation
    var abort: bool
    var tcp: bool
    var sock: int
    var listen: int
    var mover: Mover
    var abortFunc: Operation
    var cookie: bool
    var created: nat
    var running: nat
    var handlers: set<int>
    var open: set<int>
    var notices: seq<Reason>

    function Now(): View
      reads this
    {
      View(state, reason, op, abort, tcp, sock, listen, mover, abortFunc, cookie, created, running,
           handlers, open, notices)
    }

    /** A fresh session: ndmpd_data_init and ndmpd_mover_init. */
    constructor ()
      ensures Initial(Now()) && Safe(Now())
    {
      state, reason, op, abort, tcp, sock, listen, mover := Idle, NA, NoAction, false, false, -1, -1, MoverIdle;
      abortFunc, cookie, created, running, handlers, open, notices := NoAction, false, 0, 0, {}, {}, [];
    }

    method CloseFd(fd: int)
      modifies `open
      ensures open == old(open) - {fd}
    {
      open := open - {fd};
    }

    /** The end of ndmpd_data_error over TCP. */
    method CloseSockets()
      modifies this
      ensures Now() == CloseListen(CloseSock(old(Now())))
    {
      if sock != -1 {
        handlers := handlers - {sock};
        CloseFd(sock);
        sock := -1;
      }
      if listen != -1 {
        handlers := handlers - {listen};
        CloseFd(listen);
        listen := -1;
      }
    }

    /** ndmpd_data_error. */
    method Error(why: Reason)
      requires why != NA
      modifies this
      ensures Now() == DataError(old(Now()), why)
      ensures Safe(old(Now())) ==> Safe(Now()) && Notified(old(Now()), Now())
    {
      if Safe(Now()) {
        ErrorSafe(Now(), why);
      }
      hide Safe, Notified;
      hide CloseListen, CloseSock;
      if state == Idle || state == Halted {
        return;
      }
      state, reason := Halted, why;
      notices := notices + [why];
      if tcp {
        CloseSockets();
      } else {
        if mover != MoverHalted && mover != MoverIdle {
          mover := MoverHalted;
        }
      }
    }

    /** ndmpd_data_cleanup. */
    method CleanupSession()
      modifies this
      ensures Now() == Cleanup(old(Now()))
      ensures Safe(old(Now())) ==> Safe(Now()) && Notified(old(Now()), Now())
    {
      if Safe(Now()) {
        CleanupSafe(Now());
      }
      hide Safe, Notified;
      if listen != -1 {
        handlers := handlers - {listen};
        CloseFd(listen);
        listen := -1;
      }
      if sock != -1 {
        CloseFd(sock);
        sock := -1;
      }
    }

    /** ndmpd_data_listen_v3 and _v4. */
    method HandleListen(addr: Addr, fd: int, handlerOk: bool) returns (err: Err)
      modifies this
      ensures (Now(), err) == AfterListen(old(Now()), addr, fd, handlerOk)
      ensures Safe(old(Now())) ==> Safe(Now()) && Notified(old(Now()), Now())
    {
      if Safe(Now()) {
        ListenSafe(Now(), addr, fd, handlerOk);
      }
      hide Safe, Notified;
      if state != Idle || mover != MoverIdle {
        return IllegalState;
      }
      match addr {
        case Local =>
          tcp := false;
          err := NoErr;
        case Tcp =>
          if fd < 0 {
            listen := -1;
            err := IoErr;
          } else {
            listen := fd;
            if handlerOk {
              open := open + {fd};
              handlers := handlers + {fd};
              tcp := true;
              err := NoErr;
            } else {
              listen := -1;
              err := IoErr;
            }
          }
        case OtherAddr(_) =>
          err := IllegalArgs;
      }
      if err == NoErr {
        state := Listen;
      }
    }

    /** ndmpd_data_connect_v3 and _v4. */
    method HandleConnect(addr: Addr, fd: int) returns (err: Err)
      modifies this
      ensures (Now(), err) == AfterConnect(old(Now()), addr, fd)
      ensures Safe(old(Now())) ==> Safe(Now()) && Notified(old(Now()), Now())
    {
      if Safe(Now()) {
        ConnectSafe(Now(), addr, fd);
      }
      hide Safe, Notified;
      if addr.OtherAddr? && !addr.valid {
        return IllegalArgs;
      } else if state != Idle {
        return IllegalState;
      }
      match addr {
        case Local =>
          if mover != MoverListen {
            err := IllegalState;
          } else {
            mover := MoverActive;
            err := NoErr;
          }
        case Tcp =>
          if fd < 0 {
            err := ConnectErr;
          } else {
            sock := fd;
            open := open + {fd};
            tcp := true;
            err := NoErr;
          }
        case OtherAddr(_) =>
          err := IllegalArgs;
      }
      if err == NoErr {
        state := Connected;
      }
    }

    /** ndmpd_data_start_backup_v3 with start_backup_v3. */
    method HandleStartBackup(a: Action) returns (err: Err)
      requires a.StartBackup?
      modifies this
      ensures (Now(), err) == AfterStartBackup(old(Now()), a)
      ensures Safe(old(Now())) ==> Safe(Now()) && Notified(old(Now()), Now())
    {
      if Safe(Now()) {
        BackupSafe(Now(), a);
      }
      hide Safe, Notified;
      err := StartBackupV3(a);
      if err != NoErr {
        CleanupSession();
      }
    }

    method StartBackupV3(a: Action) returns (err: Err)
      requires a.StartBackup?
      modifies this
      ensures (Now(), err) == BackupStarted(old(Now()), a)
      ensures Safe(old(Now())) ==> Safe(Now()) && Notified(old(Now()), Now())
    {
      if Safe(Now()) {
        BackupStartedSafe(Now(), a);
      }
      hide Safe, Notified;
      if state != Connected {
        return IllegalState;
      }
      if !tcp {
        return NoDevice;
      }
      if !a.typeOk {
        return IllegalArgs;
      }
      if a.envErr != NoErr {
        return a.envErr;
      }
      if !a.memOk {
        return NoMem;
      }
      cookie, abortFunc := false, Backup;
      state, op, abort := Active, Backup, false;
      if a.paramsCode != 0 {
        Error(ReasonOf(a.paramsCode));
        return NoErr;
      }
      if !a.responseOk {
        return NoErr;
      }
      if !a.threadOk {
        return IllegalArgs;
      }
      created := created + 1;
      return NoErr;
    }

    /** ndmpd_data_start_recover_v3 with start_recover_v3. */
    method HandleStartRecover(a: Action) returns (err: Err)
      requires a.StartRecover?
      modifies this
      ensures (Now(), err) == AfterStartRecover(old(Now()), a)
      ensures Safe(old(Now())) ==> Safe(Now()) && Notified(old(Now()), Now())
    {
      if Safe(Now()) {
        RecoverSafe(Now(), a);
      }
      hide Safe, Notified;
      err := StartRecoverV3(a);
      if err != NoErr {
        Error(InternalError);
        CleanupSession();
      }
    }

    method StartRecoverV3(a: Action) returns (err: Err)
      requires a.StartRecover?
      modifies this
      ensures (Now(), err) == RecoverStarted(old(Now()), a)
      ensures Safe(old(Now())) ==> Safe(Now()) && Notified(old(Now()), Now())
    {
      if Safe(Now()) {
        RecoverStartedSafe(Now(), a);
      }
      hide Safe, Notified;
      if state != Connected {
        return IllegalState;
      }
      if !a.typeOk {
        return IllegalArgs;
      }
      if !a.memOk || !a.envOk || !a.nlistOk {
        return NoMem;
      }
      cookie, abortFunc := false, Recover;
      if a.paramsErr != NoErr {
        return a.paramsErr;
      }
      if !a.responseOk {
        Error(ConnectError);
        return NoErr;
      }
      state, op, abort := Active, Recover, false;
      if !a.threadOk {
        return IllegalArgs;
      }
      created := created + 1;
      return NoErr;
    }

    /** ndmpd_data_abort_v3. */
    method HandleAbort() returns (err: Err)
      modifies this
      ensures (Now(), err) == AfterAbort(old(Now()))
      ensures Safe(old(Now())) ==> Safe(Now()) && Notified(old(Now()), Now())
    {
      if Safe(Now()) {
        AbortSafe(Now());
      }
      hide Safe, Notified;
      if state == Idle {
        return IllegalState;
      } else if state == Active {
        abort := true;
        if abortFunc == Backup && cookie && tcp && sock != -1 {
          CloseFd(sock);
          sock := -1;
        }
      } else {
        abort := true;
        Error(Aborted);
      }
      return NoErr;
    }

    /** ndmpd_data_init, as a stop calls it. */
    method InitData()
      modifies this
      ensures Now() == Init(old(Now()))
    {
      op, state, reason, abort, sock := NoAction, Idle, NA, false, -1;
      tcp, listen := false, -1;
    }

    /** ndmpd_data_stop_v3, after it has waited for the workers. */
    method HandleStop() returns (err: Err)
      modifies this
      ensures (Now(), err) == AfterStop(old(Now()))
      ensures Safe(old(Now())) ==> Safe(Now()) && Notified(old(Now()), Now())
    {
      if Safe(Now()) {
        StopSafe(Now());
      }
      hide Safe, Notified, CloseListen;
      if state != Halted {
        return IllegalState;
      }
      hide Cleanup, Init;
      CleanupSession();
      InitData();
      return NoErr;
    }

    /** data_accept_connection_v3: the listener goes whether or not the accept worked. */
    method AcceptConnection(fd: int)
      requires listen != -1 && fd != listen && Comes(Now(), Accept(fd))
      modifies this
      ensures Now() == AfterAccept(old(Now()), fd)
      ensures Safe(old(Now())) ==> Safe(Now()) && Notified(old(Now()), Now())
    {
      if Safe(Now()) {
        AcceptSafe(Now(), fd);
      }
      hide Safe, Notified;
      hide DataError;
      TakeConnection(fd);
      if fd < 0 {
        Error(ConnectError);
      } else {
        state := Connected;
      }
    }

    method TakeConnection(fd: int)
      requires listen != -1 && fd != listen
      modifies this
      ensures Now() == Accepted(old(Now()), fd)
    {
      if fd < 0 {
        sock := -1;
      } else {
        sock := fd;
        open := open + {fd};
      }
      handlers := handlers - {listen};
      CloseFd(listen);
      listen := -1;
    }

    /** One request or event is served. */
    method Serve(a: Action)
      requires Safe(Now()) && Comes(Now(), a)
      modifies this
      ensures Now() == Next(old(Now()), a)
      ensures Safe(Now()) && Notified(old(Now()), Now())
    {
      hide Safe, Notified, AfterListen, AfterConnect, AfterStartBackup, AfterStartRecover, AfterAbort, AfterStop;
      hide AfterAccept, DataError;
      ListenerOpen(Now());
      match a {
        case ListenRequest(addr, fd, ok) => var _ := HandleListen(addr, fd, ok);
        case ConnectRequest(addr, fd) => var _ := HandleConnect(addr, fd);
        case StartBackup(_, _, _, _, _, _) => var _ := HandleStartBackup(a);
        case StartRecover(_, _, _, _, _, _, _) => var _ := HandleStartRecover(a);
        case AbortRequest => var _ := HandleAbort();
        case StopRequest => var _ := HandleStop();
        case Accept(fd) => AcceptConnection(fd);
        case WorkerBegins =>
          WorkerSafe(Now(), a);
          created, running, cookie := created - 1, running + 1, true;
        case WorkerDone(err) =>
          WorkerSafe(Now(), a);
          ErrorKeepsWorkers(Now(), ReasonOf(err));
          Error(ReasonOf(err));
          running := running - 1;
      }
    }

    /** The loop of the connection handler: requests and events as they come, up to the first that cannot. */
    method ServeAll(acts: seq<Action>) returns (served: nat)
      requires Safe(Now())
      modifies this
      ensures Safe(Now()) && served <= |acts| && Run(old(Now()), acts[..served]) == Some(Now())
      ensures served < |acts| ==> !Comes(Now(), acts[served])
      ensures |notices| == |old(notices)| + Halts(old(Now()), acts[..served])
    {
      served := 0;
      ghost var v := Now();
      hide Safe, Next, Comes, Notified;
      assert acts[..0] == [];
      while served < |acts| && Comes(Now(), acts[served])
        invariant served <= |acts| && Safe(Now()) && Run(v, acts[..served]) == Some(Now())
      {
        RunMore(v, acts[..served], acts[served]);
        assert acts[..served] + [acts[served]] == acts[..served + 1];
        Serve(acts[served]);
        served := served + 1;
      }
      RunKeeps(v, acts[..served]);
    }
  }
}
