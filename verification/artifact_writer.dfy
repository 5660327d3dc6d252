/** ArtifactWriter (artifact_writer.cc): the serialisation point of the log, its background flush thread
    and its shutdown. Any number of threads write; a write to the file or to the stream may fail. */
module ArtifactWriters {
  import opened Options

  /** An artifact with the sequence number it was given. */
  datatype Record = Record(number: nat, payload: string)

  /** The fields guarded by the writer's mutex. `hasFile` and `hasStream` say what was passed to the
      constructor, `numbered` is the history of numbered artifacts, `lost` the history of failures. */
  datatype Writer = Writer(
    hasFile: bool,
    hasStream: bool,
    flushEachMinute: bool,
    stop: bool,
    fileOpen: bool,
    count: nat,
    file: seq<Record>,
    stream: seq<Record>,
    // history
    numbered: seq<Record>,
    lost: bool,
    flushes: nat,
    lateFlush: bool)

  /** The constructor; None when neither a file nor a stream is given. */
  function Open(hasFile: bool, hasStream: bool, flushEachMinute: bool): Option<Writer> {
    if !hasFile && !hasStream then None
    else Some(Writer(hasFile, hasStream, flushEachMinute, false, hasFile, 0, [], [], [], false, 0, false))
  }

  /** SetupPeriodicFlush spawns the thread under this condition. */
  predicate Spawns(w: Writer) { w.hasFile && w.flushEachMinute }

  // ---- The three parts of Write, all under the mutex ----

  function Number(w: Writer, payload: string): (Writer, Record) {
    var r := Record(w.count, payload);
    (w.(count := w.count + 1, numbered := w.numbered + [r]), r)
  }

  function ToFile(w: Writer, r: Record, ok: bool): Writer {
    if !w.hasFile then w
    else if ok then w.(file := w.file + [r])
    else w.(lost := true)
  }

  function ToStream(w: Writer, r: Record, ok: bool): Writer {
    if !w.hasStream then w
    else if ok then w.(stream := w.stream + [r])
    else w.(lost := true)
  }

  function FlushLocked(w: Writer): Writer {
    if !w.hasFile then w else w.(flushes := w.flushes + 1, lateFlush := w.lateFlush || !w.fileOpen)
  }

  // ---- The threads ----

  datatype WriterPc =
    | Idle
    | WriteLock(payload: string)
    | WriteNumber(payload: string)
    | WriteFile(record: Record)
    | WriteStream(record: Record)
    | FlushLock
    | FlushDo

  /** FlushEveryMinute: Await lets go of the mutex and takes it again when stop_flush_routine_ is set or
      the minute is over. */
  datatype FlusherPc = NotSpawned | Enter | Await | Asleep | Woken | Flushing | Exited

  datatype DestructorPc = NotCalled | DtorLock | DtorStop | DtorClose | DtorRelease | DtorJoin | DtorDone

  datatype Owner = ByWriter(t: nat) | ByFlusher | ByDestructor

  datatype State = State(
    w: Writer,
    lock: Option<Owner>,
    writers: seq<WriterPc>,
    flusher: FlusherPc,
    destructor: DestructorPc,
    joined: bool)

  function Init(n: nat, w: Writer): State {
    State(w, None, seq(n, _ => Idle), if Spawns(w) then Enter else NotSpawned, NotCalled, false)
  }

  datatype Action =
    | Call(t: nat, pc: WriterPc)
    | Work(t: nat, ok: bool)      // `ok` is the outcome of the file or stream operation, if it is one
    | Flusher
    | Destroy
    | Destructor

  predicate WriterReady(s: State, t: nat) {
    t < |s.writers| && s.writers[t] != Idle && (s.writers[t].WriteLock? || s.writers[t].FlushLock? ==> s.lock == None)
  }

  predicate FlusherReady(s: State) {
    s.flusher != NotSpawned && s.flusher != Exited && (s.flusher == Enter || s.flusher == Asleep ==> s.lock == None)
  }

  predicate DestructorReady(s: State) {
    && s.destructor != NotCalled && s.destructor != DtorDone
    && (s.destructor == DtorLock ==> s.lock == None)
    && (s.destructor == DtorJoin ==> s.flusher == Exited)
  }

  predicate Allowed(s: State, a: Action) {
    match a
    case Call(t, pc) =>
      t < |s.writers| && s.writers[t] == Idle && (pc.WriteLock? || pc.FlushLock?) && s.destructor == NotCalled
    case Work(t, _) => WriterReady(s, t)
    case Flusher => FlusherReady(s)
    case Destroy => s.destructor == NotCalled && forall t | 0 <= t < |s.writers| :: s.writers[t] == Idle
    case Destructor => DestructorReady(s)
  }

  function WorkStep(s: State, t: nat, ok: bool): State
    requires WriterReady(s, t)
  {
    match s.writers[t]
    case Idle => s
    case WriteLock(payload) => s.(lock := Some(ByWriter(t)), writers := s.writers[t := WriteNumber(payload)])
    case WriteNumber(payload) =>
      var (w, r) := Number(s.w, payload);
      s.(w := w, writers := s.writers[t := WriteFile(r)])
    case WriteFile(r) => s.(w := ToFile(s.w, r, ok), writers := s.writers[t := WriteStream(r)])
    case WriteStream(r) => s.(w := ToStream(s.w, r, ok), lock := None, writers := s.writers[t := Idle])
    case FlushLock => s.(lock := Some(ByWriter(t)), writers := s.writers[t := FlushDo])
    case FlushDo => s.(w := FlushLocked(s.w), lock := None, writers := s.writers[t := Idle])
  }

  function FlusherStep(s: State): State {
    match s.flusher
    case NotSpawned => s
    case Enter => s.(lock := Some(ByFlusher), flusher := Await)
    case Await => s.(lock := None, flusher := if s.w.stop then Exited else Asleep)
    case Asleep => s.(lock := Some(ByFlusher), flusher := Woken)
    case Woken =>
      if s.w.stop then s.(lock := None, flusher := Exited) else s.(flusher := Flushing)
    case Flushing => s.(w := FlushLocked(s.w), flusher := Await)
    case Exited => s
  }

  function DestructorStep(s: State): State {
    match s.destructor
    case NotCalled => s
    case DtorLock => s.(lock := Some(ByDestructor), destructor := DtorStop)
    case DtorStop =>
      if s.w.hasFile then s.(w := s.w.(stop := true), destructor := DtorClose)
      else s.(w := s.w.(stop := true), lock := None, destructor := DtorDone)
    case DtorClose =>
      var s' := s.(w := s.w.(fileOpen := false));
      if s.w.flushEachMinute then s'.(destructor := DtorRelease) else s'.(lock := None, destructor := DtorDone)
    case DtorRelease => s.(lock := None, destructor := DtorJoin)
    case DtorJoin => s.(joined := true, destructor := DtorDone)
    case DtorDone => s
  }

  function Apply(s: State, a: Action): State
    requires Allowed(s, a)
  {
    match a
    case Call(t, pc) => s.(writers := s.writers[t := pc])
    case Work(t, ok) => WorkStep(s, t, ok)
    case Flusher => FlusherStep(s)
    case Destroy => s.(destructor := DtorLock)
    case Destructor => DestructorStep(s)
  }

  function Exec(s: State, actions: seq<Action>): Option<State>
    decreases |actions|
  {
    if actions == [] then Some(s)
    else if Allowed(s, actions[0]) then Exec(Apply(s, actions[0]), actions[1..])
    else None
  }

  /** s is reached by some schedule of n calling threads on a writer opened with some arguments. */
  ghost predicate Reachable(n: nat, s: State) {
    exists w, actions :: IsOpened(w) && Exec(Init(n, w), actions) == Some(s)
  }

  ghost predicate IsOpened(w: Writer) {
    exists hasFile, hasStream, flush :: Open(hasFile, hasStream, flush) == Some(w)
  }

  // ---- Invariants ----

  predicate HoldsLock(pc: WriterPc) { pc.WriteNumber? || pc.WriteFile? || pc.WriteStream? || pc.FlushDo? }

  predicate LockOk(s: State) {
    && (s.lock == Some(ByFlusher) <==> s.flusher == Await || s.flusher == Woken || s.flusher == Flushing)
    && (s.lock == Some(ByDestructor) <==>
          s.destructor == DtorStop || s.destructor == DtorClose || s.destructor == DtorRelease)
    && (s.lock.Some? && s.lock.value.ByWriter? ==> s.lock.value.t < |s.writers|)
    && (forall t | 0 <= t < |s.writers| :: HoldsLock(s.writers[t]) <==> s.lock == Some(ByWriter(t)))
  }

  /** A sublist of the numbered artifacts: numbers strictly increase and each record is the one assigned. */
  predicate Sublist(records: seq<Record>, numbered: seq<Record>) {
    && (forall i, j | 0 <= i < j < |records| :: records[i].number < records[j].number)
    && (forall i | 0 <= i < |records| :: records[i].number < |numbered| && numbered[records[i].number] == records[i])
  }

  /** What the medium holds: everything assigned but the record still on its way to it. */
  predicate Complete(records: seq<Record>, numbered: seq<Record>, pending: bool) {
    if pending then |numbered| > 0 && records == numbered[..|numbered| - 1] else records == numbered
  }

  /** The record that the owner of the mutex has numbered and not yet written to the file, or the stream. */
  predicate FilePending(s: State) {
    s.lock.Some? && s.lock.value.ByWriter? && s.lock.value.t < |s.writers| && s.writers[s.lock.value.t].WriteFile?
  }

  predicate StreamPending(s: State) {
    s.lock.Some? && s.lock.value.ByWriter? && s.lock.value.t < |s.writers| &&
    (s.writers[s.lock.value.t].WriteFile? || s.writers[s.lock.value.t].WriteStream?)
  }

  predicate RecordsOk(s: State) {
    && s.w.count == |s.w.numbered|
    && (forall i | 0 <= i < |s.w.numbered| :: s.w.numbered[i].number == i)
    && Sublist(s.w.file, s.w.numbered) && Sublist(s.w.stream, s.w.numbered)
    && (forall t | 0 <= t < |s.writers| :: PendingOk(s.w, s.writers[t]))
    && (!s.w.lost && s.w.hasFile ==> Complete(s.w.file, s.w.numbered, FilePending(s)))
    && (!s.w.lost && s.w.hasStream ==> Complete(s.w.stream, s.w.numbered, StreamPending(s)))
  }

  predicate IsLatest(w: Writer, r: Record) { |w.numbered| > 0 && r == w.numbered[|w.numbered| - 1] }

  predicate Ahead(records: seq<Record>, r: Record) { forall i | 0 <= i < |records| :: records[i].number < r.number }

  /** A record on its way is the latest one, and is in neither medium it still has to reach. */
  predicate PendingOk(w: Writer, pc: WriterPc) {
    && (pc.WriteFile? ==> IsLatest(w, pc.record) && Ahead(w.file, pc.record) && Ahead(w.stream, pc.record))
    && (pc.WriteStream? ==> IsLatest(w, pc.record) && Ahead(w.stream, pc.record))
  }

  predicate ShutdownOk(s: State) {
    && (s.flusher == NotSpawned <==> !Spawns(s.w))
    && (s.w.stop <==> s.destructor == DtorClose || s.destructor == DtorRelease || s.destructor == DtorJoin ||
                      s.destructor == DtorDone)
    && (s.flusher == Flushing ==> !s.w.stop)
    && (s.flusher == Exited ==> s.w.stop)
    && (s.w.hasFile && !s.w.stop ==> s.w.fileOpen)
    && (s.destructor == DtorClose ==> s.w.hasFile)
    && (s.destructor == DtorRelease || s.destructor == DtorJoin ==> Spawns(s.w))
    && (s.destructor != NotCalled ==> forall t | 0 <= t < |s.writers| :: s.writers[t] == Idle)
    && (!s.w.hasFile || s.destructor == DtorRelease || s.destructor == DtorJoin || s.destructor == DtorDone ==>
          !s.w.fileOpen)
    && !s.w.lateFlush
    && (s.joined ==> s.destructor == DtorDone && s.flusher == Exited)
    && (s.destructor == DtorDone ==> (s.joined <==> Spawns(s.w)))
  }

  ghost predicate Inv(s: State) { LockOk(s) && RecordsOk(s) && ShutdownOk(s) }

  lemma WriterLocksRight(s: State, t: nat, ok: bool)
    requires Inv(s) && WriterReady(s, t)
    ensures LockOk(WorkStep(s, t, ok))
  {
    assert HoldsLock(s.writers[t]) <==> s.lock == Some(ByWriter(t));
  }

  /** What the writers share with the destructor and the flush thread. */
  predicate SameShared(w: Writer, w': Writer) {
    w'.hasFile == w.hasFile && w'.flushEachMinute == w.flushEachMinute && w'.stop == w.stop &&
    w'.fileOpen == w.fileOpen && w'.lateFlush == w.lateFlush
  }

  lemma PartsShare(w: Writer, payload: string, r: Record, ok: bool)
    ensures SameShared(w, Number(w, payload).0) && SameShared(w, ToFile(w, r, ok)) && SameShared(w, ToStream(w, r, ok))
    ensures (w.hasFile ==> w.fileOpen) ==> SameShared(w, FlushLocked(w))
  {
  }

  lemma {:induction false} WriterShares(s: State, t: nat, ok: bool)
    requires WriterReady(s, t) && (s.w.hasFile ==> s.w.fileOpen)
    ensures SameShared(s.w, WorkStep(s, t, ok).w)
  {
    var call := s.writers[t];
    if call.WriteNumber? {
      PartsShare(s.w, call.payload, Record(0, ""), ok);
    } else if call.WriteFile? || call.WriteStream? {
      PartsShare(s.w, "", call.record, ok);
    } else {
      PartsShare(s.w, "", Record(0, ""), ok);
    }
  }

  lemma WriterWorks(s: State, t: nat, ok: bool)
    requires Inv(s) && WriterReady(s, t)
    ensures ShutdownOk(WorkStep(s, t, ok))
  {
    var s' := WorkStep(s, t, ok);
    assert s.destructor == NotCalled && !s.w.stop;
    WriterShares(s, t, ok);
    assert s'.flusher == s.flusher && s'.destructor == s.destructor && s'.joined == s.joined;
  }

  /** While one writer owns the mutex, the others have nothing on its way. */
  lemma OnlyOwnerPending(s: State, t: nat, u: nat)
    requires LockOk(s) && t < |s.writers| && u < |s.writers| && u != t && s.lock == Some(ByWriter(t))
    ensures !s.writers[u].WriteFile? && !s.writers[u].WriteStream?
  {
    assert HoldsLock(s.writers[u]) <==> s.lock == Some(ByWriter(u));
  }

  lemma WriterNumbers(s: State, t: nat, ok: bool)
    requires Inv(s) && WriterReady(s, t) && s.writers[t].WriteNumber?
    ensures RecordsOk(WorkStep(s, t, ok))
  {
    assert HoldsLock(s.writers[t]);
    var s' := WorkStep(s, t, ok);
    assert s.w.numbered <= s'.w.numbered;
    forall u | 0 <= u < |s'.writers|
      ensures PendingOk(s'.w, s'.writers[u])
    {
      if u != t { OnlyOwnerPending(s, t, u); }
    }
  }

  /** Writing the latest record to a medium it is ahead of. */
  lemma Appended(w: Writer, records: seq<Record>, r: Record)
    requires Sublist(records, w.numbered) && IsLatest(w, r) && Ahead(records, r) && r.number == |w.numbered| - 1
    ensures Sublist(records + [r], w.numbered)
    ensures Complete(records, w.numbered, true) ==> Complete(records + [r], w.numbered, false)
  {
  }

  lemma WriterWritesFile(s: State, t: nat, ok: bool)
    requires Inv(s) && WriterReady(s, t) && s.writers[t].WriteFile?
    ensures RecordsOk(WorkStep(s, t, ok))
  {
    assert HoldsLock(s.writers[t]) && PendingOk(s.w, s.writers[t]);
    var s' := WorkStep(s, t, ok);
    Appended(s.w, s.w.file, s.writers[t].record);
    forall u | 0 <= u < |s'.writers|
      ensures PendingOk(s'.w, s'.writers[u])
    {
      if u != t { OnlyOwnerPending(s, t, u); }
    }
  }

  lemma WriterWritesStream(s: State, t: nat, ok: bool)
    requires Inv(s) && WriterReady(s, t) && s.writers[t].WriteStream?
    ensures RecordsOk(WorkStep(s, t, ok))
  {
    assert HoldsLock(s.writers[t]) && PendingOk(s.w, s.writers[t]);
    var s' := WorkStep(s, t, ok);
    Appended(s.w, s.w.stream, s.writers[t].record);
    forall u | 0 <= u < |s'.writers|
      ensures PendingOk(s'.w, s'.writers[u])
    {
      if u != t { OnlyOwnerPending(s, t, u); }
    }
  }

  lemma WriterLocks(s: State, t: nat, ok: bool)
    requires Inv(s) && WriterReady(s, t)
    requires s.writers[t].WriteLock? || s.writers[t].FlushLock? || s.writers[t].FlushDo?
    ensures RecordsOk(WorkStep(s, t, ok))
  {
    assert HoldsLock(s.writers[t]) <==> s.lock == Some(ByWriter(t));
    var s' := WorkStep(s, t, ok);
    forall u | 0 <= u < |s'.writers|
      ensures PendingOk(s'.w, s'.writers[u])
    {
      assert PendingOk(s.w, s.writers[u]);
    }
  }

  lemma OtherRecords(s: State, s': State)
    requires Inv(s)
    requires s'.writers == s.writers && (s'.lock == s.lock || ((s.lock == None || !s.lock.value.ByWriter?) &&
               (s'.lock == None || !s'.lock.value.ByWriter?)))
    requires s'.w == s.w.(stop := s'.w.stop, fileOpen := s'.w.fileOpen, flushes := s'.w.flushes,
                          lateFlush := s'.w.lateFlush)
    ensures RecordsOk(s')
  {
    forall t | 0 <= t < |s'.writers|
      ensures PendingOk(s'.w, s'.writers[t])
    {
      assert PendingOk(s.w, s.writers[t]);
    }
  }

  lemma WriterKeeps(s: State, t: nat, ok: bool)
    requires Inv(s) && WriterReady(s, t)
    ensures Inv(WorkStep(s, t, ok))
  {
    WriterLocksRight(s, t, ok);
    WriterWorks(s, t, ok);
    match s.writers[t]
    case WriteNumber(_) => WriterNumbers(s, t, ok);
    case WriteFile(_) => WriterWritesFile(s, t, ok);
    case WriteStream(_) => WriterWritesStream(s, t, ok);
    case Idle =>
    case _ => WriterLocks(s, t, ok);
  }

  lemma FlusherKeeps(s: State)
    requires Inv(s) && FlusherReady(s)
    ensures Inv(FlusherStep(s))
  {
    OtherRecords(s, FlusherStep(s));
  }

  lemma DestructorKeeps(s: State)
    requires Inv(s) && DestructorReady(s)
    ensures Inv(DestructorStep(s))
  {
    OtherRecords(s, DestructorStep(s));
  }

  lemma InvApply(s: State, a: Action)
    requires Inv(s) && Allowed(s, a)
    ensures Inv(Apply(s, a))
  {
    match a
    case Work(t, ok) => WriterKeeps(s, t, ok);
    case Flusher => FlusherKeeps(s);
    case Destructor => DestructorKeeps(s);
    case Destroy => OtherRecords(s, Apply(s, a));
    case Call(t, pc) => CallKeeps(s, t, pc);
  }

  lemma CallKeeps(s: State, t: nat, pc: WriterPc)
    requires Inv(s) && Allowed(s, Call(t, pc))
    ensures Inv(Apply(s, Call(t, pc)))
  {
    assert HoldsLock(s.writers[t]) <==> s.lock == Some(ByWriter(t));
    var s' := Apply(s, Call(t, pc));
    forall u | 0 <= u < |s'.writers|
      ensures PendingOk(s'.w, s'.writers[u])
    {
      assert PendingOk(s.w, s.writers[u]);
    }
  }

  lemma {:induction false} InvExec(s: State, actions: seq<Action>)
    requires Inv(s) && Exec(s, actions).Some?
    ensures Inv(Exec(s, actions).value)
    decreases |actions|
  {
    if actions != [] {
      InvApply(s, actions[0]);
      InvExec(Apply(s, actions[0]), actions[1..]);
    }
  }

  lemma InvReachable(n: nat, s: State)
    requires Reachable(n, s)
    ensures Inv(s)
  {
    var w, actions :| IsOpened(w) && Exec(Init(n, w), actions) == Some(s);
    InvExec(Init(n, w), actions);
  }

  // ---- What follows ----

  /** Whatever fails, file and stream each hold a strictly increasing sublist of the numbered artifacts. */
  lemma NumbersIncrease(n: nat, s: State, i: nat, j: nat)
    requires Reachable(n, s) && i < j
    ensures j < |s.w.file| ==> s.w.file[i].number < s.w.file[j].number && s.w.file[j] in s.w.numbered
    ensures j < |s.w.stream| ==> s.w.stream[i].number < s.w.stream[j].number && s.w.stream[j] in s.w.numbered
  {
    InvReachable(n, s);
  }

  /** With no failure, the record at position i of the file and of the stream has sequence number i, at every
      moment; whenever the mutex is free, the two hold the same records, one for each number drawn. */
  lemma PositionsAreNumbers(n: nat, s: State, i: nat)
    requires Reachable(n, s) && !s.w.lost
    ensures s.w.hasFile && i < |s.w.file| ==> s.w.file[i].number == i
    ensures s.w.hasStream && i < |s.w.stream| ==> s.w.stream[i].number == i
    ensures s.lock == None && s.w.hasFile && s.w.hasStream ==> s.w.file == s.w.stream
    ensures s.lock == None && s.w.hasFile ==> |s.w.file| == s.w.count
    ensures s.lock == None && s.w.hasStream ==> |s.w.stream| == s.w.count
  {
    InvReachable(n, s);
  }

  /** The flush thread never flushes a closed file, and it has been joined, once the destructor returns,
      exactly when it was spawned. */
  lemma CleanShutdown(n: nat, s: State)
    requires Reachable(n, s)
    ensures !s.w.lateFlush
    ensures s.destructor == DtorDone ==>
              && (s.joined <==> s.w.hasFile && s.w.flushEachMinute)
              && (s.joined ==> s.flusher == Exited) && !s.w.fileOpen
  {
    InvReachable(n, s);
  }

  /** Steps the flush thread still needs once it has been told to stop. */
  function StepsToExit(pc: FlusherPc): nat {
    match pc
    case Exited => 0
    case NotSpawned => 0
    case Await => 1
    case Woken => 1
    case Enter => 2
    case Asleep => 2
    case Flushing => 2
  }

  /** The join returns: while the destructor waits, the flush thread can always move, and every move of
      it brings it closer to its exit. */
  lemma JoinReturns(n: nat, s: State)
    requires Reachable(n, s) && s.destructor == DtorJoin
    ensures s.flusher == Exited || FlusherReady(s)
    ensures FlusherReady(s) ==> StepsToExit(FlusherStep(s).flusher) < StepsToExit(s.flusher)
  {
    InvReachable(n, s);
    assert s.lock.Some? && s.lock.value.ByWriter? ==> HoldsLock(s.writers[s.lock.value.t]);
  }

  /** No reachable state is stuck while a write, a flush or the destructor is unfinished. */
  lemma NoDeadlock(n: nat, s: State)
    requires Reachable(n, s)
    requires (exists t :: 0 <= t < |s.writers| && s.writers[t] != Idle) ||
             (s.destructor != NotCalled && s.destructor != DtorDone)
    ensures (exists t :: WriterReady(s, t)) || FlusherReady(s) || DestructorReady(s)
  {
    InvReachable(n, s);
    if s.lock.Some? && s.lock.value.ByWriter? {
      assert HoldsLock(s.writers[s.lock.value.t]);
      assert WriterReady(s, s.lock.value.t);
    } else if t :| 0 <= t < |s.writers| && s.writers[t] != Idle {
      if s.lock == None { assert WriterReady(s, t); }
    }
  }

  // ---- What is written is what was asked for ----

  /** How often the records hold the payload. */
  function Times(records: seq<Record>, payload: string): nat {
    if records == [] then 0
    else Times(records[..|records| - 1], payload) + if records[|records| - 1].payload == payload then 1 else 0
  }

  /** The call is a write of the payload that has not been numbered yet. */
  predicate Awaits(pc: WriterPc, payload: string) { (pc.WriteLock? || pc.WriteNumber?) && pc.payload == payload }

  function Waiting(writers: seq<WriterPc>, payload: string): nat {
    if writers == [] then 0
    else Waiting(writers[..|writers| - 1], payload) + if Awaits(writers[|writers| - 1], payload) then 1 else 0
  }

  /** How many writes of the payload a schedule asks for. */
  function Asked(actions: seq<Action>, payload: string): nat {
    if actions == [] then 0
    else (if actions[0].Call? && Awaits(actions[0].pc, payload) then 1 else 0) + Asked(actions[1..], payload)
  }

  lemma {:induction false} WaitingUpdate(writers: seq<WriterPc>, t: nat, pc: WriterPc, payload: string)
    requires t < |writers|
    ensures Waiting(writers[t := pc], payload) + (if Awaits(writers[t], payload) then 1 else 0) ==
            Waiting(writers, payload) + if Awaits(pc, payload) then 1 else 0
  {
    var n := |writers| - 1;
    if t < n {
      WaitingUpdate(writers[..n], t, pc, payload);
      assert writers[t := pc][..n] == writers[..n][t := pc];
    } else {
      assert writers[t := pc][..n] == writers[..n];
    }
  }

  lemma {:induction false} NobodyWaits(writers: seq<WriterPc>, payload: string)
    requires forall t | 0 <= t < |writers| :: writers[t] == Idle
    ensures Waiting(writers, payload) == 0
  {
    if writers != [] { NobodyWaits(writers[..|writers| - 1], payload); }
  }

  lemma {:induction false} TimesAppend(records: seq<Record>, r: Record, payload: string)
    ensures Times(records + [r], payload) == Times(records, payload) + if r.payload == payload then 1 else 0
  {
    assert (records + [r])[..|records|] == records;
  }

  /** How often the payload has been numbered or waits to be. */
  function Taken(s: State, payload: string): nat { Times(s.w.numbered, payload) + Waiting(s.writers, payload) }

  lemma {:induction false} WorkKeepsPayloads(s: State, t: nat, ok: bool, payload: string)
    requires WriterReady(s, t)
    ensures Taken(WorkStep(s, t, ok), payload) == Taken(s, payload)
  {
    var s' := WorkStep(s, t, ok);
    assert s'.writers == s.writers[t := s'.writers[t]];
    WaitingUpdate(s.writers, t, s'.writers[t], payload);
    if s.writers[t].WriteNumber? {
      TimesAppend(s.w.numbered, s'.writers[t].record, payload);
    }
  }

  lemma {:induction false} ApplyTakes(s: State, a: Action, payload: string)
    requires Allowed(s, a)
    ensures Taken(Apply(s, a), payload) == Taken(s, payload) + if a.Call? && Awaits(a.pc, payload) then 1 else 0
  {
    match a
    case Work(t, ok) => WorkKeepsPayloads(s, t, ok, payload);
    case Call(t, pc) => WaitingUpdate(s.writers, t, pc, payload);
    case _ => assert Apply(s, a).writers == s.writers && Apply(s, a).w.numbered == s.w.numbered;
  }

  lemma {:induction false} ExecTakes(s: State, actions: seq<Action>, payload: string)
    requires Exec(s, actions).Some?
    ensures Taken(Exec(s, actions).value, payload) == Taken(s, payload) + Asked(actions, payload)
    decreases |actions|
  {
    if actions != [] {
      ApplyTakes(s, actions[0], payload);
      ExecTakes(Apply(s, actions[0]), actions[1..], payload);
    }
  }

  lemma {:induction false} PrefixTimes(records: seq<Record>, n: nat, payload: string)
    requires n <= |records|
    ensures Times(records[..n], payload) <= Times(records, payload)
  {
    if n < |records| {
      var front := records[..|records| - 1];
      PrefixTimes(front, n, payload);
      assert front[..n] == records[..n];
    } else {
      assert records[..n] == records;
    }
  }

  /** Without its last record a sublist is one of what was numbered before that. */
  lemma {:induction false} SublistFront(records: seq<Record>, numbered: seq<Record>)
    requires Sublist(records, numbered) && records != []
    ensures var last := records[|records| - 1];
            && last.number < |numbered| && numbered[last.number] == last
            && Sublist(records[..|records| - 1], numbered[..last.number])
  {
  }

  /** A sublist holds a payload no more often than it was numbered. */
  lemma {:induction false} SublistTimes(records: seq<Record>, numbered: seq<Record>, payload: string)
    requires Sublist(records, numbered)
    ensures Times(records, payload) <= Times(numbered, payload)
  {
    if records != [] {
      var last := records[|records| - 1];
      SublistFront(records, numbered);
      var before := numbered[..last.number];
      SublistTimes(records[..|records| - 1], before, payload);
      assert Times(numbered[..last.number + 1], payload) == Times(before + [last], payload) by {
        assert numbered[..last.number + 1] == before + [last];
      }
      TimesAppend(before, last, payload);
      PrefixTimes(numbered, last.number + 1, payload);
    }
  }

  /** On every schedule, whatever fails, file and stream hold a payload no more often than it was asked for.
      Whenever all writers are idle, it has been numbered as often as it was asked for; and if nothing failed, it is
      that often in the file and in the stream. */
  lemma {:induction false} WritesAreKept(n: nat, w: Writer, actions: seq<Action>, payload: string)
    requires IsOpened(w) && Exec(Init(n, w), actions).Some?
    ensures var s := Exec(Init(n, w), actions).value; var asked := Asked(actions, payload);
            && Times(s.w.file, payload) <= asked && Times(s.w.stream, payload) <= asked
            && ((forall t | 0 <= t < |s.writers| :: s.writers[t] == Idle) ==>
                  && Times(s.w.numbered, payload) == asked
                  && (!s.w.lost && s.w.hasFile ==> Times(s.w.file, payload) == asked)
                  && (!s.w.lost && s.w.hasStream ==> Times(s.w.stream, payload) == asked))
  {
    var s := Exec(Init(n, w), actions).value;
    InvExec(Init(n, w), actions);
    ExecTakes(Init(n, w), actions, payload);
    NobodyWaits(Init(n, w).writers, payload);
    SublistTimes(s.w.file, s.w.numbered, payload);
    SublistTimes(s.w.stream, s.w.numbered, payload);
    if forall t | 0 <= t < |s.writers| :: s.writers[t] == Idle { AllNumbered(s, payload); }
  }

  lemma {:induction false} AllNumbered(s: State, payload: string)
    requires Inv(s) && forall t | 0 <= t < |s.writers| :: s.writers[t] == Idle
    ensures Taken(s, payload) == Times(s.w.numbered, payload)
    ensures !s.w.lost && s.w.hasFile ==> s.w.file == s.w.numbered
    ensures !s.w.lost && s.w.hasStream ==> s.w.stream == s.w.numbered
  {
    NobodyWaits(s.writers, payload);
  }

  // ---- The objects ----

  /** IntIncrementer (int_incrementer.h): hands out 0, 1, 2, ... */
  class IntIncrementer {
    var count: nat

    constructor ()
      ensures count == 0
    {
      count := 0;
    }

    method Next() returns (value: nat)
      modifies this
      ensures value == old(count) && count == old(count) + 1
    {
      value := count;
      count := count + 1;
    }
  }

  /** The writer as its calling threads see it under the mutex. */
  function Written(w: Writer, payload: string, fileOk: bool, streamOk: bool): Writer {
    var (numbered, r) := Number(w, payload);
    ToStream(ToFile(numbered, r, fileOk), r, streamOk)
  }

  class ArtifactWriter {
    const hasFile: bool
    const hasStream: bool
    const flushEachMinute: bool
    const sequenceNumber: IntIncrementer
    var stopFlushRoutine: bool
    var fileOpen: bool
    var file: seq<Record>
    var stream: seq<Record>
    ghost var numbered: seq<Record>
    ghost var lost: bool
    ghost var flushes: nat
    ghost var lateFlush: bool

    ghost function State(): Writer
      reads this, sequenceNumber
    {
      Writer(hasFile, hasStream, flushEachMinute, stopFlushRoutine, fileOpen, sequenceNumber.count, file, stream,
             numbered, lost, flushes, lateFlush)
    }

    constructor (hasFile: bool, hasStream: bool, flushEachMinute: bool)
      requires hasFile || hasStream
      ensures Open(hasFile, hasStream, flushEachMinute) == Some(State()) && fresh(sequenceNumber)
    {
      this.hasFile, this.hasStream, this.flushEachMinute := hasFile, hasStream, flushEachMinute;
      stopFlushRoutine, fileOpen, file, stream := false, hasFile, [], [];
      numbered, lost, flushes, lateFlush := [], false, 0, false;
      sequenceNumber := new IntIncrementer();
    }

    /** The body of Write; `fileOk` and `streamOk` are the outcomes of the record write and of the JSON
        conversion. */
    method Write(payload: string, fileOk: bool, streamOk: bool)
      modifies this, sequenceNumber
      ensures State() == Written(old(State()), payload, fileOk, streamOk)
      ensures sequenceNumber.count == old(sequenceNumber.count) + 1
      ensures file == old(file) + if hasFile && fileOk then [Record(old(sequenceNumber.count), payload)] else []
      ensures stream == old(stream) + if hasStream && streamOk then [Record(old(sequenceNumber.count), payload)] else []
      ensures lost <==> old(lost) || (hasFile && !fileOk) || (hasStream && !streamOk)
      ensures stopFlushRoutine == old(stopFlushRoutine) && fileOpen == old(fileOpen) && flushes == old(flushes)
    {
      var number := sequenceNumber.Next();
      var record := Record(number, payload);
      numbered := numbered + [record];
      WriteToFile(record, fileOk);
      WriteToStream(record, streamOk);
    }

    method WriteToFile(record: Record, ok: bool)
      modifies this
      ensures State() == ToFile(old(State()), record, ok)
    {
      if !hasFile { return; }
      if ok { file := file + [record]; } else { lost := true; }
    }

    method WriteToStream(record: Record, ok: bool)
      modifies this
      ensures State() == ToStream(old(State()), record, ok)
    {
      if !hasStream { return; }
      if ok { stream := stream + [record]; } else { lost := true; }
    }

    method Flush()
      modifies this
      ensures State() == FlushLocked(old(State()))
    {
      if !hasFile { return; }
      flushes := flushes + 1;
      lateFlush := lateFlush || !fileOpen;
    }
  }
}
