/** The concurrent ranged download (`_get_file_ranged` in vidaio/audit/store.py): parts of 16 MiB, one
    worker a part with three attempts, each resuming at its own offset (`Range`, section 14.2 of
    RFC 9110), every request pinned to one ETag (`If-Match`, section 13.1.1 of RFC 9110). The main
    thread and the workers are steps of one machine. */
module RangedDownload {
  import opened Wrappers

  type Bytes = seq<bv8>

  const PART_BYTES: nat := 16777216
  const PART_ATTEMPTS: nat := 3

  // -- the plan --------------------------------------------------------------------

  /** First and last byte of each part. */
  function Parts(size: nat): (r: seq<(nat, int)>)
    ensures |r| == (size + PART_BYTES - 1) / PART_BYTES
  {
    seq((size + PART_BYTES - 1) / PART_BYTES,
        i requires 0 <= i => (i * PART_BYTES, Least(i * PART_BYTES + PART_BYTES, size) - 1))
  }

  function Least(a: int, b: int): int { if a <= b then a else b }

  /** The parts cover every byte once: no gap, no overlap, none longer than 16 MiB. */
  lemma PartsTile(size: nat, at: nat)
    requires at < size
    ensures var parts := Parts(size);
            && at / PART_BYTES < |parts|
            && forall i :: 0 <= i < |parts| ==> (parts[i].0 <= at <= parts[i].1 <==> i == at / PART_BYTES)
  {
    var parts := Parts(size);
    forall i | 0 <= i < |parts| ensures parts[i].0 <= at <= parts[i].1 <==> i == at / PART_BYTES {
      assert parts[i] == (i * PART_BYTES, Least(i * PART_BYTES + PART_BYTES, size) - 1);
    }
  }

  lemma PartsWithin(size: nat, i: nat)
    requires i < |Parts(size)|
    ensures var part := Parts(size)[i]; part.0 <= part.1 < size && part.1 + 1 - part.0 <= PART_BYTES
  {
    assert Parts(size)[i] == (i * PART_BYTES, Least(i * PART_BYTES + PART_BYTES, size) - 1);
  }

  lemma PartsDisjoint(size: nat, i: nat, j: nat)
    requires i < j < |Parts(size)|
    ensures Parts(size)[i].1 < Parts(size)[j].0
  {
    assert Parts(size)[i] == (i * PART_BYTES, Least(i * PART_BYTES + PART_BYTES, size) - 1);
    assert Parts(size)[j] == (j * PART_BYTES, Least(j * PART_BYTES + PART_BYTES, size) - 1);
    assert i * PART_BYTES + PART_BYTES <= j * PART_BYTES;
  }

  // -- the machine ------------------------------------------------------------------

  datatype Worker =
    | Queued
    | Ready(attempt: nat, offset: nat)
    | Reading(attempt: nat, offset: nat)
    | Finished
    | Raised
    | Returned
    | Cancelled

  datatype Main = Waiting | Draining | Succeeded | Failed | Refused

  /** `file` is the destination; None while it does not exist. `lost` records the positions that a
      worker passed although the operating system had not taken their bytes. */
  datatype State = State(file: Option<Bytes>, workers: seq<Worker>, stop: bool, main: Main, lost: set<nat>)

  datatype Answer = Body | Changed | Error

  /** `Deliver` is a chunk of a response body and how much of it `pwrite` takes, which the code does not
      look at; `Interrupt` is any exception in the main thread. */
  datatype Action =
    | Launch(i: nat)
    | Request(i: nat, answer: Answer)
    | Deliver(i: nat, chunk: Bytes, taken: nat)
    | EndBody(i: nat)
    | BreakBody(i: nat, changed: bool)
    | NoticeStop(i: nat)
    | NoticeFailure
    | Interrupt
    | Collect

  /** The destination is created exclusively, and then extended to its size. */
  function Opened(before: Option<Bytes>, size: nat): State {
    if before.Some? then State(before, [], false, Refused, {})
    else State(Some(Zeros(size)), seq(|Parts(size)|, i => Queued), false, Waiting, {})
  }

  function Zeros(size: nat): Bytes { seq(size, i => 0) }

  function Pwrite(file: Bytes, data: Bytes, at: nat): (r: Bytes)
    requires at + |data| <= |file|
    ensures |r| == |file|
    ensures forall q :: 0 <= q < |file| ==> r[q] == if at <= q < at + |data| then data[q - at] else file[q]
  {
    file[..at] + data + file[at + |data|..]
  }

  predicate Running(w: Worker) { w.Ready? || w.Reading? }

  predicate Over(w: Worker) { !w.Queued? && !Running(w) }

  function Set(s: State, i: nat, w: Worker): State
    requires i < |s.workers|
  {
    s.(workers := s.workers[i := w])
  }

  /** The attempt is over without the whole part. */
  function Again(attempt: nat, offset: nat): Worker {
    if attempt + 1 >= PART_ATTEMPTS then Raised else Ready(attempt + 1, offset)
  }

  function CancelQueued(workers: seq<Worker>): (r: seq<Worker>)
    ensures |r| == |workers|
  {
    seq(|workers|, i requires 0 <= i < |workers| => if workers[i].Queued? then Cancelled else workers[i])
  }

  /** What the network may deliver: the bytes of the pinned object from the worker's own offset on,
      or too many bytes. */
  predicate Possible(obj: Bytes, s: State, a: Action) {
    a.Deliver? && a.i < |s.workers| && a.i < |Parts(|obj|)| && s.workers[a.i].Reading? ==>
      var offset := s.workers[a.i].offset;
      offset + |a.chunk| <= Parts(|obj|)[a.i].1 + 1 && offset + |a.chunk| <= |obj| ==>
        a.chunk == obj[offset..offset + |a.chunk|]
  }

  function Positions(low: nat, high: nat): (r: set<nat>)
    ensures forall q :: q in r <==> low <= q < high
    decreases high - low
  {
    if low >= high then {} else {low} + Positions(low + 1, high)
  }

  /** The offset moves by the whole chunk, whatever part of it was taken. */
  function StepDeliver(size: nat, s: State, i: nat, chunk: Bytes, taken: nat): State
    requires i < |s.workers| && i < |Parts(size)| && s.workers[i].Reading?
  {
    var w := s.workers[i];
    var n := Least(taken, |chunk|);
    if w.offset + |chunk| > Parts(size)[i].1 + 1 then Set(s, i, Raised)
    else if s.file.None? || w.offset + |chunk| > |s.file.value| then s
    else
      Set(s.(file := Some(Pwrite(s.file.value, chunk[..n], w.offset)),
             lost := s.lost + Positions(w.offset + n, w.offset + |chunk|)),
          i, Reading(w.attempt, w.offset + |chunk|))
  }

  function StepWorker(size: nat, s: State, a: Action): State
    requires !a.NoticeFailure? && !a.Interrupt? && !a.Collect?
  {
    if a.i >= |s.workers| || a.i >= |Parts(size)| then s
    else
      var w := s.workers[a.i];
      match a
      case Launch(i) => if w.Queued? then Set(s, i, Ready(0, Parts(size)[i].0)) else s
      case Request(i, answer) =>
        if !w.Ready? || s.stop then s
        else (match answer
              case Body => Set(s, i, Reading(w.attempt, w.offset))
              case Changed => Set(s, i, Raised)
              case Error => Set(s, i, Again(w.attempt, w.offset)))
      case Deliver(i, chunk, taken) => if w.Reading? then StepDeliver(size, s, i, chunk, taken) else s
      case EndBody(i) =>
        if !w.Reading? then s
        else Set(s, i, if w.offset == Parts(size)[i].1 + 1 then Finished else Again(w.attempt, w.offset))
      case BreakBody(i, changed) =>
        if !w.Reading? then s else Set(s, i, if changed then Raised else Again(w.attempt, w.offset))
      case NoticeStop(i) => if Running(w) && s.stop then Set(s, i, Returned) else s
  }

  function Apply(size: nat, s: State, a: Action): State {
    match a
    case NoticeFailure =>
      if s.main.Waiting? && exists i :: 0 <= i < |s.workers| && s.workers[i].Raised?
      then s.(stop := true, workers := CancelQueued(s.workers), main := Draining) else s
    case Interrupt => if s.main.Waiting? then s.(main := Draining) else s
    case Collect =>
      if exists i :: 0 <= i < |s.workers| && !Over(s.workers[i]) then s
      else if s.main.Draining? then s.(main := Failed, file := None, stop := true)
      else if s.main.Waiting? && forall i :: 0 <= i < |s.workers| ==> !s.workers[i].Raised? then s.(main := Succeeded)
      else s
    case _ => StepWorker(size, s, a)
  }

  function Run(size: nat, s: State, actions: seq<Action>): State
    decreases |actions|
  {
    if actions == [] then s else Run(size, Apply(size, s, actions[0]), actions[1..])
  }

  ghost predicate AllPossible(obj: Bytes, s: State, actions: seq<Action>)
    decreases |actions|
  {
    actions == [] || (Possible(obj, s, actions[0]) && AllPossible(obj, Apply(|obj|, s, actions[0]), actions[1..]))
  }

  // -- the invariant ----------------------------------------------------------------------

  /** How far a worker has come in part `i`. */
  function Done(size: nat, i: nat, w: Worker): int
    requires i < |Parts(size)|
  {
    match w
    case Ready(_, offset) => offset
    case Reading(_, offset) => offset
    case Finished => Parts(size)[i].1 + 1
    case _ => Parts(size)[i].0
  }

  /** What stands at a position that was passed: the byte of the object, or the zero of the extended
      file where the byte was lost. */
  function Expected(obj: Bytes, lost: set<nat>, q: nat): bv8
    requires q < |obj|
  {
    if q in lost then 0 else obj[q]
  }

  ghost predicate WorkerOk(obj: Bytes, file: Bytes, lost: set<nat>, i: nat, w: Worker)
    requires i < |Parts(|obj|)| && |file| == |obj|
  {
    var part, done := Parts(|obj|)[i], Done(|obj|, i, w);
    && part.0 <= done <= part.1 + 1 <= |obj|
    && (forall q: nat :: part.0 <= q < done ==> file[q] == Expected(obj, lost, q))
    && (Running(w) || w.Queued? ==> forall q: nat :: done <= q <= part.1 ==> file[q] == 0 && q !in lost)
    && (Running(w) ==> w.attempt < PART_ATTEMPTS)
  }

  ghost predicate WorkersOk(obj: Bytes, s: State) {
    && |s.workers| == |Parts(|obj|)| && s.file.Some? && |s.file.value| == |obj|
    && forall i :: 0 <= i < |s.workers| ==> WorkerOk(obj, s.file.value, s.lost, i, s.workers[i])
  }

  /** The bytes of the object with zeros at the lost positions. */
  ghost predicate IsObjectBut(file: Bytes, obj: Bytes, lost: set<nat>) {
    |file| == |obj| && forall q: nat :: q < |obj| ==> file[q] == Expected(obj, lost, q)
  }

  /** Returning without an exception before the end of the part happens only after a stop. */
  ghost predicate Inv(obj: Bytes, s: State) {
    match s.main
    case Waiting =>
      && WorkersOk(obj, s) && !s.stop
      && forall i :: 0 <= i < |s.workers| ==> !s.workers[i].Returned? && !s.workers[i].Cancelled?
    case Draining => WorkersOk(obj, s)
    case Succeeded =>
      && s.file.Some? && IsObjectBut(s.file.value, obj, s.lost)
      && forall i :: 0 <= i < |s.workers| ==> s.workers[i].Finished?
    case Failed => s.file.None? && forall i :: 0 <= i < |s.workers| ==> Over(s.workers[i])
    case Refused => s.workers == []
  }

  lemma OpenedOk(obj: Bytes, before: Option<Bytes>)
    ensures Inv(obj, Opened(before, |obj|))
  {
    var s := Opened(before, |obj|);
    if before.None? {
      forall i | 0 <= i < |s.workers| ensures WorkerOk(obj, s.file.value, {}, i, s.workers[i]) {
        PartsWithin(|obj|, i);
      }
    }
  }

  /** Where the chunk goes there were zeros: it puts the bytes that are taken and leaves the others. */
  lemma DeliveredBytes(obj: Bytes, file: Bytes, lost: set<nat>, chunk: Bytes, n: nat, at: nat)
    requires |file| == |obj| && at + |chunk| <= |obj| && n <= |chunk| && chunk == obj[at..at + |chunk|]
    requires forall q: nat :: at <= q < at + |chunk| ==> file[q] == 0 && q !in lost
    ensures var after := Pwrite(file, chunk[..n], at);
            var gone := lost + Positions(at + n, at + |chunk|);
            forall q: nat :: at <= q < at + |chunk| ==> after[q] == Expected(obj, gone, q)
  {
    var after := Pwrite(file, chunk[..n], at);
    forall q: nat | at <= q < at + n ensures after[q] == obj[q] { assert chunk[q - at] == obj[q]; }
  }

  /** A chunk arrives in its own part at its own offset: the part grows. */
  lemma DeliverKeepsOwn(obj: Bytes, s: State, i: nat, chunk: Bytes, taken: nat)
    requires WorkersOk(obj, s) && i < |s.workers| && s.workers[i].Reading?
    requires var w := s.workers[i];
             w.offset + |chunk| <= Parts(|obj|)[i].1 + 1 && chunk == obj[w.offset..w.offset + |chunk|]
    ensures var t := StepDeliver(|obj|, s, i, chunk, taken);
            t.file.Some? && |t.file.value| == |obj| && WorkerOk(obj, t.file.value, t.lost, i, t.workers[i])
  {
    var w := s.workers[i];
    assert WorkerOk(obj, s.file.value, s.lost, i, w);
    DeliveredBytes(obj, s.file.value, s.lost, chunk, Least(taken, |chunk|), w.offset);
    assert StepDeliver(|obj|, s, i, chunk, taken).workers[i] == Reading(w.attempt, w.offset + |chunk|);
  }

  /** The other parts keep their bytes. */
  lemma DeliverKeepsOther(obj: Bytes, s: State, i: nat, chunk: Bytes, taken: nat, j: nat)
    requires WorkersOk(obj, s) && i < |s.workers| && s.workers[i].Reading? && j < |s.workers| && j != i
    requires s.workers[i].offset + |chunk| <= Parts(|obj|)[i].1 + 1
    ensures var t := StepDeliver(|obj|, s, i, chunk, taken);
            t.file.Some? && |t.file.value| == |obj| && t.workers[j] == s.workers[j]
            && WorkerOk(obj, t.file.value, t.lost, j, t.workers[j])
  {
    assert WorkerOk(obj, s.file.value, s.lost, i, s.workers[i]);
    assert WorkerOk(obj, s.file.value, s.lost, j, s.workers[j]);
    if j < i { PartsDisjoint(|obj|, j, i); } else { PartsDisjoint(|obj|, i, j); }
  }

  lemma DeliverKeepsWorkers(obj: Bytes, s: State, i: nat, chunk: Bytes, taken: nat)
    requires WorkersOk(obj, s) && i < |s.workers| && s.workers[i].Reading?
    requires var w := s.workers[i];
             w.offset + |chunk| <= Parts(|obj|)[i].1 + 1 && chunk == obj[w.offset..w.offset + |chunk|]
    ensures WorkersOk(obj, StepDeliver(|obj|, s, i, chunk, taken))
  {
    var t := StepDeliver(|obj|, s, i, chunk, taken);
    DeliverKeepsOwn(obj, s, i, chunk, taken);
    forall j | 0 <= j < |t.workers| ensures WorkerOk(obj, t.file.value, t.lost, j, t.workers[j]) {
      if j != i { DeliverKeepsOther(obj, s, i, chunk, taken, j); }
    }
  }

  /** A worker that moves without writing and without claiming more bytes. */
  lemma SetKeepsWorkers(obj: Bytes, s: State, i: nat, w: Worker)
    requires WorkersOk(obj, s) && i < |s.workers| && (Running(w) ==> w.attempt < PART_ATTEMPTS)
    requires Done(|obj|, i, w) == Done(|obj|, i, s.workers[i]) || Done(|obj|, i, w) == Parts(|obj|)[i].0
    requires Running(w) || w.Queued? ==>
               Done(|obj|, i, w) == Done(|obj|, i, s.workers[i]) && (Running(s.workers[i]) || s.workers[i].Queued?)
    ensures WorkersOk(obj, Set(s, i, w))
  {
    assert WorkerOk(obj, s.file.value, s.lost, i, s.workers[i]);
  }

  /** Every step of a worker is a write into its part or a move without a write. */
  lemma WorkerStepShape(size: nat, s: State, a: Action)
    requires !a.NoticeFailure? && !a.Interrupt? && !a.Collect?
    ensures var t := StepWorker(size, s, a);
            || t == s
            || (a.i < |s.workers| && a.i < |Parts(size)| &&
                if a.Deliver? && s.workers[a.i].Reading? && s.workers[a.i].offset + |a.chunk| <= Parts(size)[a.i].1 + 1
                then t == StepDeliver(size, s, a.i, a.chunk, a.taken)
                else exists w :: t == Set(s, a.i, w) && Moves(size, s, a.i, w))
  {
    var t := StepWorker(size, s, a);
    if a.i < |s.workers| && a.i < |Parts(size)| && t != s {
      var w := t.workers[a.i];
      if !(a.Deliver? && s.workers[a.i].Reading? && s.workers[a.i].offset + |a.chunk| <= Parts(size)[a.i].1 + 1) {
        assert t == Set(s, a.i, w) && Moves(size, s, a.i, w);
      }
    }
  }

  /** What a worker may become without a write. */
  predicate Moves(size: nat, s: State, i: nat, w: Worker)
    requires i < |s.workers| && i < |Parts(size)|
  {
    var was := s.workers[i];
    match w
    case Queued => false
    case Cancelled => false
    case Returned => s.stop
    case Raised => true
    case Finished => was.Reading? && was.offset == Parts(size)[i].1 + 1
    case Ready(attempt, offset) =>
      attempt < PART_ATTEMPTS && (if was.Queued? then attempt == 0 && offset == Parts(size)[i].0
                                  else Running(was) && attempt == was.attempt + 1 && offset == was.offset)
    case Reading(attempt, offset) => was == Ready(attempt, offset)
  }

  lemma WorkerStepKeeps(obj: Bytes, s: State, a: Action)
    requires WorkersOk(obj, s) && Possible(obj, s, a) && !a.NoticeFailure? && !a.Interrupt? && !a.Collect?
    ensures WorkersOk(obj, StepWorker(|obj|, s, a))
  {
    WorkerStepShape(|obj|, s, a);
    var t := StepWorker(|obj|, s, a);
    if t != s {
      assert WorkerOk(obj, s.file.value, s.lost, a.i, s.workers[a.i]);
      if a.Deliver? && s.workers[a.i].Reading? && s.workers[a.i].offset + |a.chunk| <= Parts(|obj|)[a.i].1 + 1 {
        DeliverKeepsWorkers(obj, s, a.i, a.chunk, a.taken);
      } else {
        var w :| t == Set(s, a.i, w) && Moves(|obj|, s, a.i, w);
        SetKeepsWorkers(obj, s, a.i, w);
      }
    }
  }

  /** Only a worker that was told to stop returns early, and no step cancels one. */
  lemma WorkerStepStops(size: nat, s: State, a: Action)
    requires !a.NoticeFailure? && !a.Interrupt? && !a.Collect?
    ensures var t := StepWorker(size, s, a);
            t.stop == s.stop && t.main == s.main && |t.workers| == |s.workers|
            && forall i :: 0 <= i < |s.workers| && (t.workers[i].Returned? || t.workers[i].Cancelled?) ==>
                 t.workers[i] == s.workers[i] || s.stop
  {
    WorkerStepShape(size, s, a);
  }

  /** A worker writes only inside its part and never again before its own offset, however often it
      is resumed; and it is resumed at most twice. */
  lemma WritesStayInPart(obj: Bytes, s: State, a: Action, at: nat)
    requires WorkersOk(obj, s) && Possible(obj, s, a) && !a.NoticeFailure? && !a.Interrupt? && !a.Collect? && at < |obj|
    ensures var t := StepWorker(|obj|, s, a);
            && t.file.Some? && |t.file.value| == |obj|
            && (t.file.value[at] != s.file.value[at] ==>
                  && a.Deliver? && a.i < |s.workers| && s.workers[a.i].Reading?
                  && Parts(|obj|)[a.i].0 <= s.workers[a.i].offset <= at <= Parts(|obj|)[a.i].1)
            && (forall i :: 0 <= i < |t.workers| && Running(t.workers[i]) ==> t.workers[i].attempt < PART_ATTEMPTS)
            && (forall i :: 0 <= i < |t.workers| && Running(t.workers[i]) && Running(s.workers[i]) ==>
                  s.workers[i].offset <= t.workers[i].offset)
  {
    WorkerStepKeeps(obj, s, a);
    WorkerStepShape(|obj|, s, a);
    var t := StepWorker(|obj|, s, a);
    forall i | 0 <= i < |t.workers| ensures Running(t.workers[i]) ==> t.workers[i].attempt < PART_ATTEMPTS {
      assert WorkerOk(obj, t.file.value, t.lost, i, t.workers[i]);
    }
    if a.i < |s.workers| { assert WorkerOk(obj, s.file.value, s.lost, a.i, s.workers[a.i]); }
  }

  /** Every byte belongs to a part, so finished workers have passed the whole object. */
  lemma AllFinishedIsWhole(obj: Bytes, s: State)
    requires WorkersOk(obj, s) && forall i :: 0 <= i < |s.workers| ==> s.workers[i].Finished?
    ensures IsObjectBut(s.file.value, obj, s.lost)
  {
    forall q: nat | q < |obj| ensures s.file.value[q] == Expected(obj, s.lost, q) {
      PartsTile(|obj|, q);
      assert WorkerOk(obj, s.file.value, s.lost, q / PART_BYTES, s.workers[q / PART_BYTES]);
    }
  }

  lemma CancelKeepsWorkers(obj: Bytes, s: State)
    requires WorkersOk(obj, s)
    ensures WorkersOk(obj, s.(stop := true, workers := CancelQueued(s.workers), main := Draining))
  {
    var t := s.(stop := true, workers := CancelQueued(s.workers), main := Draining);
    forall i | 0 <= i < |t.workers| ensures WorkerOk(obj, t.file.value, t.lost, i, t.workers[i]) {
      assert WorkerOk(obj, s.file.value, s.lost, i, s.workers[i]);
    }
  }

  lemma ActionKeepsInv(obj: Bytes, s: State, a: Action)
    requires Inv(obj, s) && Possible(obj, s, a)
    ensures Inv(obj, Apply(|obj|, s, a))
  {
    match a
    case NoticeFailure => if s.main.Waiting? { CancelKeepsWorkers(obj, s); }
    case Interrupt =>
    case Collect =>
      if s.main.Waiting? && Apply(|obj|, s, a) != s { AllFinishedIsWhole(obj, s); }
    case _ =>
      if s.main.Waiting? || s.main.Draining? { WorkerStepKeeps(obj, s, a); WorkerStepStops(|obj|, s, a); }
  }

  lemma {:induction false} RunKeepsInv(obj: Bytes, s: State, actions: seq<Action>)
    requires Inv(obj, s) && AllPossible(obj, s, actions)
    ensures Inv(obj, Run(|obj|, s, actions))
    decreases |actions|
  {
    if actions != [] {
      ActionKeepsInv(obj, s, actions[0]);
      RunKeepsInv(obj, Apply(|obj|, s, actions[0]), actions[1..]);
    }
  }

  lemma {:induction false} RefusedStays(size: nat, s: State, actions: seq<Action>)
    requires s.main.Refused? && s.workers == []
    ensures Run(size, s, actions) == s
    decreases |actions|
  {
    if actions != [] {
      assert Apply(size, s, actions[0]) == s;
      RefusedStays(size, s, actions[1..]);
    }
  }

  /** For every interleaving, every chunking and every pattern of failures: success means the file
      has the length of the pinned object and its bytes everywhere but at lost positions, where it has
      zeros; so it is the object exactly when only zero bytes were lost. A failure leaves no file and no
      worker that could still write, and an existing destination is never touched. */
  lemma DownloadIsAllOrNothing(obj: Bytes, before: Option<Bytes>, actions: seq<Action>)
    requires AllPossible(obj, Opened(before, |obj|), actions)
    ensures var s := Run(|obj|, Opened(before, |obj|), actions);
            && (s.main.Succeeded? ==>
                  && s.file.Some? && IsObjectBut(s.file.value, obj, s.lost)
                  && (s.file == Some(obj) <==> forall q :: q in s.lost && q < |obj| ==> obj[q] == 0))
            && (s.main.Failed? ==> s.file.None? && forall i :: 0 <= i < |s.workers| ==> Over(s.workers[i]))
            && (before.Some? ==> s.main.Refused? && s.file == before)
            && (before.None? ==> !s.main.Refused?)
  {
    var s := Run(|obj|, Opened(before, |obj|), actions);
    OpenedOk(obj, before);
    RunKeepsInv(obj, Opened(before, |obj|), actions);
    if before.Some? {
      RefusedStays(|obj|, Opened(before, |obj|), actions);
    } else {
      NeverRefused(|obj|, Opened(before, |obj|), actions);
    }
    if s.main.Succeeded? { SameBytesOrLost(s.file.value, obj, s.lost); }
  }

  lemma SameBytesOrLost(file: Bytes, obj: Bytes, lost: set<nat>)
    requires IsObjectBut(file, obj, lost)
    ensures file == obj <==> forall q :: q in lost && q < |obj| ==> obj[q] == 0
  {
    if forall q :: q in lost && q < |obj| ==> obj[q] == 0 {
      assert forall q: nat :: q < |obj| ==> file[q] == obj[q];
    } else {
      var q :| q in lost && q < |obj| && obj[q] != 0;
      assert file[q] == Expected(obj, lost, q) == 0;
    }
  }

  /** `pwrite` takes every chunk whole. */
  ghost predicate TakenWhole(actions: seq<Action>) {
    forall k :: 0 <= k < |actions| && actions[k].Deliver? ==> |actions[k].chunk| <= actions[k].taken
  }

  /** Then nothing is lost, and success means the pinned object. */
  lemma WholeWritesGiveTheObject(obj: Bytes, before: Option<Bytes>, actions: seq<Action>)
    requires AllPossible(obj, Opened(before, |obj|), actions) && TakenWhole(actions)
    ensures var s := Run(|obj|, Opened(before, |obj|), actions); s.main.Succeeded? ==> s.file == Some(obj)
  {
    DownloadIsAllOrNothing(obj, before, actions);
    NothingLost(|obj|, Opened(before, |obj|), actions);
  }

  lemma {:induction false} NothingLost(size: nat, s: State, actions: seq<Action>)
    requires TakenWhole(actions)
    ensures Run(size, s, actions).lost == s.lost
    decreases |actions|
  {
    if actions != [] {
      var next := Apply(size, s, actions[0]);
      assert next.lost == s.lost;
      NothingLost(size, next, actions[1..]);
    }
  }

  lemma {:induction false} NeverRefused(size: nat, s: State, actions: seq<Action>)
    requires !s.main.Refused?
    ensures !Run(size, s, actions).main.Refused?
    decreases |actions|
  {
    if actions != [] { NeverRefused(size, Apply(size, s, actions[0]), actions[1..]); }
  }

  // -- progress --------------------------------------------------------------------------------

  /** Once every worker is over and the main thread still
      waits, the download succeeds exactly when every part is finished. */
  lemma CollectDecides(obj: Bytes, s: State)
    requires Inv(obj, s) && s.main.Waiting? && forall i :: 0 <= i < |s.workers| ==> Over(s.workers[i])
    ensures Apply(|obj|, s, Collect).main.Succeeded? <==> forall i :: 0 <= i < |s.workers| ==> s.workers[i].Finished?
  {}

  predicate Smooth(a: Action) {
    a.Launch? || (a.Request? && a.answer.Body?) || a.Deliver? || a.EndBody? || a.Collect?
  }

  /** The network is able to do this, nothing fails on the way, and nobody interrupts. */
  ghost predicate Smoothly(obj: Bytes, s: State, actions: seq<Action>) {
    AllPossible(obj, s, actions) && forall k :: 0 <= k < |actions| ==> Smooth(actions[k])
  }

  ghost predicate CanReach(obj: Bytes, s: State, t: State) {
    exists actions :: Smoothly(obj, s, actions) && t == Run(|obj|, s, actions)
  }

  lemma {:induction false} SmoothJoins(obj: Bytes, s: State, a: seq<Action>, b: seq<Action>)
    requires Smoothly(obj, s, a) && Smoothly(obj, Run(|obj|, s, a), b)
    ensures Smoothly(obj, s, a + b) && Run(|obj|, s, a + b) == Run(|obj|, Run(|obj|, s, a), b)
    decreases |a|
  {
    if a == [] {
      assert a + b == b;
    } else {
      assert (a + b)[0] == a[0] && (a + b)[1..] == a[1..] + b;
      SmoothJoins(obj, Apply(|obj|, s, a[0]), a[1..], b);
    }
  }

  lemma ReachJoins(obj: Bytes, s: State, t: State, u: State)
    requires CanReach(obj, s, t) && CanReach(obj, t, u)
    ensures CanReach(obj, s, u)
  {
    var a :| Smoothly(obj, s, a) && t == Run(|obj|, s, a);
    var b :| Smoothly(obj, t, b) && u == Run(|obj|, t, b);
    SmoothJoins(obj, s, a, b);
  }

  lemma ReachNext(obj: Bytes, s: State, a: Action)
    requires Possible(obj, s, a) && Smooth(a)
    ensures CanReach(obj, s, Apply(|obj|, s, a))
  {
    assert [a][1..] == [] && Smoothly(obj, s, [a]);
    assert Run(|obj|, s, [a]) == Run(|obj|, Apply(|obj|, s, a), []);
  }

  lemma ReachSelf(obj: Bytes, s: State)
    ensures CanReach(obj, s, s)
  {
    assert Smoothly(obj, s, []) && s == Run(|obj|, s, []);
  }

  lemma ReachKeepsInv(obj: Bytes, s: State, t: State)
    requires Inv(obj, s) && CanReach(obj, s, t)
    ensures Inv(obj, t)
  {
    var actions :| Smoothly(obj, s, actions) && t == Run(|obj|, s, actions);
    RunKeepsInv(obj, s, actions);
  }

  /** The part can still be finished: its worker neither failed nor was told to stop. */
  predicate Hopeful(w: Worker) { w.Queued? || Running(w) || w.Finished? }

  ghost predicate AllHopeful(obj: Bytes, s: State) {
    Inv(obj, s) && s.main.Waiting? && forall i :: 0 <= i < |s.workers| ==> Hopeful(s.workers[i])
  }

  /** What the network sends next from the worker's own offset on: the rest of the part. */
  function Rest(obj: Bytes, i: nat, w: Worker): Bytes
    requires i < |Parts(|obj|)| && 0 <= Done(|obj|, i, w) <= Parts(|obj|)[i].1 + 1 <= |obj|
  {
    obj[Done(|obj|, i, w)..Parts(|obj|)[i].1 + 1]
  }

  /** The file of `t` is that of `s`, or has grown by what was taken. */
  ghost predicate Wrote(s: State, t: State, whole: bool) {
    if whole then t.lost == s.lost else t.file == s.file
  }

  /** How many bytes of a chunk `pwrite` takes: all of them, or none. */
  function Taken(chunk: Bytes, whole: bool): nat { if whole then |chunk| else 0 }

  lemma DeliversRest(obj: Bytes, s: State, i: nat, whole: bool)
    requires AllHopeful(obj, s) && i < |s.workers| && s.workers[i].Reading?
    requires WorkerOk(obj, s.file.value, s.lost, i, s.workers[i])
    ensures var chunk := Rest(obj, i, s.workers[i]);
            var a := Deliver(i, chunk, Taken(chunk, whole));
            var t := Apply(|obj|, s, a);
            && Possible(obj, s, a) && t.workers == s.workers[i := Reading(s.workers[i].attempt, Parts(|obj|)[i].1 + 1)]
            && t.main == s.main && t.stop == s.stop && Wrote(s, t, whole)
  {
    var chunk, at := Rest(obj, i, s.workers[i]), s.workers[i].offset;
    if whole {
      assert Positions(at + |chunk|, at + |chunk|) == {};
    } else {
      assert Pwrite(s.file.value, chunk[..0], at) == s.file.value;
    }
  }

  /** The worker of an unfinished part gets a response body. */
  lemma OpensBody(obj: Bytes, s: State, i: nat)
    requires AllHopeful(obj, s) && i < |s.workers| && !s.workers[i].Finished?
    ensures exists w: Worker :: w.Reading? && CanReach(obj, s, Set(s, i, w))
  {
    if s.workers[i].Queued? {
      var t := Apply(|obj|, s, Launch(i));
      ReachNext(obj, s, Launch(i));
      AsksForBody(obj, t, i);
      ReachJoins(obj, s, t, Apply(|obj|, t, Request(i, Body)));
      assert Apply(|obj|, t, Request(i, Body)) == Set(s, i, Reading(0, Parts(|obj|)[i].0));
    } else if s.workers[i].Ready? {
      AsksForBody(obj, s, i);
    } else {
      ReachSelf(obj, s);
      assert s == Set(s, i, s.workers[i]);
    }
  }

  lemma AsksForBody(obj: Bytes, s: State, i: nat)
    requires i < |s.workers| && i < |Parts(|obj|)| && s.workers[i].Ready? && s.main.Waiting? && !s.stop
    ensures Apply(|obj|, s, Request(i, Body)) == Set(s, i, Reading(s.workers[i].attempt, s.workers[i].offset))
    ensures CanReach(obj, s, Apply(|obj|, s, Request(i, Body)))
  {
    ReachNext(obj, s, Request(i, Body));
  }

  /** The part is finished and all others are as they were. */
  ghost predicate Finishes(obj: Bytes, s: State, i: nat, whole: bool, t: State)
    requires i < |s.workers|
  {
    AllHopeful(obj, t) && t.workers == s.workers[i := Finished] && Wrote(s, t, whole)
  }

  /** The body brings the rest of the part and ends. */
  lemma EndsPart(obj: Bytes, s: State, i: nat, whole: bool)
    requires AllHopeful(obj, s) && i < |s.workers| && s.workers[i].Reading?
    ensures exists t :: CanReach(obj, s, t) && Finishes(obj, s, i, whole, t)
  {
    assert WorkerOk(obj, s.file.value, s.lost, i, s.workers[i]);
    DeliversRest(obj, s, i, whole);
    var chunk := Rest(obj, i, s.workers[i]);
    var deliver := Deliver(i, chunk, Taken(chunk, whole));
    var t := Apply(|obj|, s, deliver);
    ReachNext(obj, s, deliver);
    ReachNext(obj, t, EndBody(i));
    ReachJoins(obj, s, t, Apply(|obj|, t, EndBody(i)));
    ReachKeepsInv(obj, s, Apply(|obj|, t, EndBody(i)));
  }

  /** From wherever its worker is, one part is finished without disturbing another one. */
  lemma FinishPart(obj: Bytes, s: State, i: nat, whole: bool)
    requires AllHopeful(obj, s) && i < |s.workers|
    ensures exists t :: CanReach(obj, s, t) && Finishes(obj, s, i, whole, t)
  {
    if s.workers[i].Finished? {
      ReachSelf(obj, s);
      assert s.workers == s.workers[i := Finished];
    } else {
      OpensBody(obj, s, i);
      var w: Worker :| w.Reading? && CanReach(obj, s, Set(s, i, w));
      ReachKeepsInv(obj, s, Set(s, i, w));
      EndsPart(obj, Set(s, i, w), i, whole);
      var t :| CanReach(obj, Set(s, i, w), t) && Finishes(obj, Set(s, i, w), i, whole, t);
      ReachJoins(obj, s, Set(s, i, w), t);
      assert Finishes(obj, s, i, whole, t);
    }
  }

  lemma {:induction false} FinishParts(obj: Bytes, s: State, i: nat, whole: bool)
    requires AllHopeful(obj, s) && i <= |s.workers| && forall k :: 0 <= k < i ==> s.workers[k].Finished?
    ensures exists t :: CanReach(obj, s, t) && AllHopeful(obj, t) && AllFinished(t) && Wrote(s, t, whole)
    decreases |s.workers| - i
  {
    if i == |s.workers| {
      ReachSelf(obj, s);
    } else {
      FinishPart(obj, s, i, whole);
      var t :| CanReach(obj, s, t) && Finishes(obj, s, i, whole, t);
      FinishParts(obj, t, i + 1, whole);
      var u :| CanReach(obj, t, u) && AllHopeful(obj, u) && AllFinished(u) && Wrote(t, u, whole);
      ReachJoins(obj, s, t, u);
    }
  }

  ghost predicate AllFinished(s: State) { forall k :: 0 <= k < |s.workers| ==> s.workers[k].Finished? }

  lemma FinishedSucceeds(obj: Bytes, s: State)
    requires AllHopeful(obj, s) && AllFinished(s)
    ensures CanReach(obj, s, Apply(|obj|, s, Collect)) && Apply(|obj|, s, Collect) == s.(main := Succeeded)
  {
    CollectDecides(obj, s);
    ReachNext(obj, s, Collect);
  }

  /** As long as no worker failed for good and nobody interrupted, the download can still succeed,
      however many attempts were broken so far: when every part gets its remaining bytes it does. */
  lemma CanStillSucceed(obj: Bytes, s: State, whole: bool)
    requires AllHopeful(obj, s)
    ensures exists t :: CanReach(obj, s, t) && t.main.Succeeded? && Wrote(s, t, whole)
  {
    FinishParts(obj, s, 0, whole);
    var t :| CanReach(obj, s, t) && AllHopeful(obj, t) && AllFinished(t) && Wrote(s, t, whole);
    FinishedSucceeds(obj, t);
    ReachJoins(obj, s, t, Apply(|obj|, t, Collect));
  }

  /** A fresh download can succeed with the pinned object, whatever its size. */
  lemma FreshDownloadSucceeds(obj: Bytes)
    ensures exists t :: CanReach(obj, Opened(None, |obj|), t) && t.main.Succeeded? && t.file == Some(obj)
  {
    var s := Opened(None, |obj|);
    OpenedOk(obj, None);
    CanStillSucceed(obj, s, true);
    var t :| CanReach(obj, s, t) && t.main.Succeeded? && Wrote(s, t, true);
    var actions :| Smoothly(obj, s, actions) && t == Run(|obj|, s, actions);
    DownloadIsAllOrNothing(obj, None, actions);
  }

  /** Every download that was not interrupted and has no worker that failed is in such a state. */
  lemma UninterruptedIsHopeful(obj: Bytes, actions: seq<Action>)
    requires AllPossible(obj, Opened(None, |obj|), actions)
    ensures var s := Run(|obj|, Opened(None, |obj|), actions);
            s.main.Waiting? && (forall i :: 0 <= i < |s.workers| ==> !s.workers[i].Raised?) <==> AllHopeful(obj, s)
  {
    OpenedOk(obj, None);
    RunKeepsInv(obj, Opened(None, |obj|), actions);
  }

  /** Short writes corrupt: for every object with a byte that is not zero there is a run in which
      nothing fails, the download succeeds, and the file is zeros instead of the object. */
  lemma ShortWriteCorrupts(obj: Bytes)
    requires exists q :: 0 <= q < |obj| && obj[q] != 0
    ensures Zeros(|obj|) != obj
    ensures exists t :: CanReach(obj, Opened(None, |obj|), t) && t.main.Succeeded? && t.file == Some(Zeros(|obj|))
  {
    OpenedOk(obj, None);
    CanStillSucceed(obj, Opened(None, |obj|), false);
    var q :| 0 <= q < |obj| && obj[q] != 0;
    assert Zeros(|obj|)[q] != obj[q];
  }

  /** A download that succeeds leaves the object. */
  ghost predicate LeavesObject(obj: Bytes, actions: seq<Action>) {
    var s := Run(|obj|, Opened(None, |obj|), actions); s.main.Succeeded? ==> s.file == Some(obj)
  }

  /** So without an assumption about `pwrite`, success is to be trusted for an object of zeros only. */
  lemma SuccessMeansObjectExactlyWhen(obj: Bytes)
    ensures (forall actions :: AllPossible(obj, Opened(None, |obj|), actions) ==> LeavesObject(obj, actions))
            <==> forall q :: 0 <= q < |obj| ==> obj[q] == 0
  {
    if forall q :: 0 <= q < |obj| ==> obj[q] == 0 {
      forall actions | AllPossible(obj, Opened(None, |obj|), actions)
        ensures LeavesObject(obj, actions)
      {
        DownloadIsAllOrNothing(obj, None, actions);
      }
    } else {
      ShortWriteCorrupts(obj);
      var t :| CanReach(obj, Opened(None, |obj|), t) && t.main.Succeeded? && t.file == Some(Zeros(|obj|));
      var actions :| Smoothly(obj, Opened(None, |obj|), actions) && t == Run(|obj|, Opened(None, |obj|), actions);
      assert !LeavesObject(obj, actions);
    }
  }

  // -- attempts and failures -----------------------------------------------------------------

  /** Three attempts: a worker whose response breaks off resumes at its own offset twice, the third time
      it gives up; a changed object ends it at once. */
  lemma BrokenAttempts(size: nat, s: State, i: nat, attempt: nat, offset: nat, a: Action)
    requires i < |s.workers| && i < |Parts(size)| && s.main.Waiting? && !s.stop
    requires || (s.workers[i] == Ready(attempt, offset) && a == Request(i, Error))
             || (s.workers[i] == Reading(attempt, offset) && a == BreakBody(i, false))
             || (s.workers[i] == Reading(attempt, offset) && a == EndBody(i) && offset != Parts(size)[i].1 + 1)
    ensures Apply(size, s, a) == Set(s, i, if attempt < 2 then Ready(attempt + 1, offset) else Raised)
  {}

  lemma ChangedObjectFails(size: nat, s: State, i: nat, a: Action)
    requires i < |s.workers| && i < |Parts(size)| && s.main.Waiting? && !s.stop
    requires (s.workers[i].Ready? && a == Request(i, Changed)) || (s.workers[i].Reading? && a == BreakBody(i, true))
    ensures Apply(size, s, a) == Set(s, i, Raised)
  {}

  /** More bytes than the part has room for fail the worker without a write. */
  lemma TooManyBytesFail(size: nat, s: State, i: nat, chunk: Bytes, taken: nat)
    requires i < |s.workers| && i < |Parts(size)| && s.workers[i].Reading?
    requires Parts(size)[i].1 + 1 < s.workers[i].offset + |chunk|
    ensures Apply(size, s, Deliver(i, chunk, taken)) == Set(s, i, Raised)
  {}

  lemma PartBounds(size: nat, i: nat)
    requires i < |Parts(size)|
    ensures Parts(size)[i].0 == i * 16 * 1024 * 1024
    ensures Parts(size)[i].1 + 1 == if (i + 1) * 16 * 1024 * 1024 <= size then (i + 1) * 16 * 1024 * 1024 else size
  {
    assert Parts(size)[i] == (i * PART_BYTES, Least(i * PART_BYTES + PART_BYTES, size) - 1);
  }

  /** A failed worker is noticed: the others are told to stop, queued ones are cancelled, and once all are
      over the download fails and the file goes. */
  lemma FailureIsNoticed(size: nat, s: State)
    requires s.main.Waiting? && exists i :: 0 <= i < |s.workers| && s.workers[i].Raised?
    ensures var t := Apply(size, s, NoticeFailure);
            && t.main.Draining? && t.stop && |t.workers| == |s.workers|
            && forall i :: 0 <= i < |s.workers| ==>
                 t.workers[i] == if s.workers[i].Queued? then Cancelled else s.workers[i]
  {}

  /** An exception in the main thread gives the download up, whatever the workers do; a worker that was told
      to stop returns. */
  lemma InterruptDrains(size: nat, s: State, i: nat)
    requires s.main.Waiting?
    ensures Apply(size, s, Interrupt) == s.(main := Draining)
    ensures s.stop && i < |s.workers| && i < |Parts(size)| && Running(s.workers[i]) ==>
              Apply(size, s, NoticeStop(i)) == Set(s, i, Returned)
  {}

  lemma DrainedFails(size: nat, s: State)
    requires s.main.Draining? && forall i :: 0 <= i < |s.workers| ==> Over(s.workers[i])
    ensures Apply(size, s, Collect).main.Failed? && Apply(size, s, Collect).file.None?
  {}
}
