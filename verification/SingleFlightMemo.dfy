/** The bounded single-flight memo of one audit invocation (vidaio/auditor/content_cache.py). Each
    critical section, each completion of a future and each call of the inner recomputer is a step, so
    any number of callers interleave freely. */
module SingleFlightMemo {
  import opened Wrappers

  type Key = string
  type Value = int

  /** An ordered dictionary, oldest entry first. */
  type Memo = seq<(Key, Value)>

  datatype Future = Pending | Resolved(value: Value) | Broken

  /** A future together with the call that created it and will complete it. */
  datatype Flight = Flight(key: Key, owner: nat, future: Future)

  datatype Pc =
    | Idle
    | Lookup(key: Key)
    | Wait(key: Key, f: nat)
    | Compute(key: Key, f: nat)
    | Insert(key: Key, f: nat, value: Value)
    | Resolve(key: Key, f: nat, value: Value)
    | Break(key: Key, f: nat)
    | Remove(key: Key, f: nat, result: Option<Value>)

  /** `computed` and `returned` record what the inner recomputer produced and what callers got. */
  datatype State = State(memo: Memo, inFlight: map<Key, nat>, flights: seq<Flight>, procs: map<nat, Pc>,
                         computed: set<(Key, Value)>, returned: set<(Key, Value)>)

  const EMPTY := State([], map[], [], map[], {}, {})

  /** `answer` is the inner result, None an exception. */
  datatype Action = Begin(p: nat, key: Key) | Act(p: nat, answer: Option<Value>)

  // -- the ordered dictionary -----------------------------------------------------------

  function Find(memo: Memo, key: Key): (r: Option<nat>)
    ensures r.Some? ==> r.value < |memo| && memo[r.value].0 == key
    ensures r.None? ==> forall i :: 0 <= i < |memo| ==> memo[i].0 != key
  {
    if memo == [] then None
    else if memo[0].0 == key then Some(0)
    else
      var r := Find(memo[1..], key);
      if r.None? then None else Some(r.value + 1)
  }

  function MovedToEnd(memo: Memo, at: nat): (r: Memo)
    requires at < |memo|
    ensures |r| == |memo|
  {
    memo[..at] + memo[at + 1..] + [memo[at]]
  }

  /** Assignment keeps the place of an existing key; beyond the bound the oldest entry goes. */
  function Put(memo: Memo, key: Key, value: Value, bound: nat): Memo {
    var at := Find(memo, key);
    var added := if at.Some? then memo[at.value := (key, value)] else memo + [(key, value)];
    if |added| > bound then added[1..] else added
  }

  // -- the steps ---------------------------------------------------------------------

  function PcOf(s: State, p: nat): Pc { if p in s.procs then s.procs[p] else Idle }

  function Goto(s: State, p: nat, pc: Pc): State { s.(procs := s.procs[p := pc]) }

  function Return(s: State, p: nat, key: Key, value: Value): State {
    Goto(s, p, Idle).(returned := s.returned + {(key, value)})
  }

  function StepLookup(s: State, p: nat, key: Key): State {
    var at := Find(s.memo, key);
    if at.Some? then Return(s.(memo := MovedToEnd(s.memo, at.value)), p, key, s.memo[at.value].1)
    else if key in s.inFlight then Goto(s, p, Wait(key, s.inFlight[key]))
    else
      var f := |s.flights|;
      Goto(s.(inFlight := s.inFlight[key := f], flights := s.flights + [Flight(key, p, Pending)]), p, Compute(key, f))
  }

  function StepWait(s: State, p: nat, key: Key, f: nat): State {
    if f >= |s.flights| then s
    else match s.flights[f].future
      case Pending => s
      case Resolved(v) => Return(s, p, key, v)
      case Broken => Goto(s, p, Idle)
  }

  function Complete(s: State, f: nat, future: Future): State {
    if f >= |s.flights| then s else s.(flights := s.flights[f := s.flights[f].(future := future)])
  }

  function Step(s: State, p: nat, answer: Option<Value>, bound: nat): State {
    match PcOf(s, p)
    case Idle => s
    case Lookup(key) => StepLookup(s, p, key)
    case Wait(key, f) => StepWait(s, p, key, f)
    case Compute(key, f) =>
      if answer.None? then Goto(s, p, Break(key, f))
      else Goto(s.(computed := s.computed + {(key, answer.value)}), p, Insert(key, f, answer.value))
    case Insert(key, f, v) => Goto(s.(memo := Put(s.memo, key, v, bound)), p, Resolve(key, f, v))
    case Resolve(key, f, v) => Goto(Complete(s, f, Resolved(v)), p, Remove(key, f, Some(v)))
    case Break(key, f) => Goto(Complete(s, f, Broken), p, Remove(key, f, None))
    case Remove(key, f, result) =>
      var s' := s.(inFlight := s.inFlight - {key});
      if result.Some? then Return(s', p, key, result.value) else Goto(s', p, Idle)
  }

  function Apply(s: State, a: Action, bound: nat): State {
    match a
    case Begin(p, key) => if PcOf(s, p).Idle? then Goto(s, p, Lookup(key)) else s
    case Act(p, answer) => Step(s, p, answer, bound)
  }

  function Run(s: State, actions: seq<Action>, bound: nat): State
    decreases |actions|
  {
    if actions == [] then s else Run(Apply(s, actions[0], bound), actions[1..], bound)
  }

  // -- the invariant -----------------------------------------------------------------------

  predicate Owns(pc: Pc) {
    pc.Compute? || pc.Insert? || pc.Resolve? || pc.Break? || pc.Remove?
  }

  ghost predicate MemoOk(memo: Memo, computed: set<(Key, Value)>, bound: nat) {
    && |memo| <= bound
    && (forall i :: 0 <= i < |memo| ==> memo[i] in computed)
    && (forall i, j :: 0 <= i < j < |memo| ==> memo[i].0 != memo[j].0)
  }

  ghost predicate FlightOk(s: State, f: nat)
    requires f < |s.flights|
  {
    var fl := s.flights[f];
    && (fl.future.Resolved? ==> (fl.key, fl.future.value) in s.computed)
    && (fl.future.Pending? ==> fl.key in s.inFlight && s.inFlight[fl.key] == f)
  }

  /** An entry in flight has its owner, who is still on the way to remove it. */
  ghost predicate EntryOk(s: State, k: Key)
    requires k in s.inFlight
  {
    var f := s.inFlight[k];
    && f < |s.flights| && s.flights[f].key == k
    && var pc := PcOf(s, s.flights[f].owner); Owns(pc) && pc.key == k && pc.f == f
  }

  ghost predicate PcFine(s: State, p: nat, pc: Pc) {
    && (Owns(pc) || pc.Wait? ==> pc.f < |s.flights| && s.flights[pc.f].key == pc.key)
    && (Owns(pc) ==> && pc.key in s.inFlight && s.inFlight[pc.key] == pc.f && s.flights[pc.f].owner == p
                     && (s.flights[pc.f].future.Pending? <==> !pc.Remove?))
    && (pc.Insert? || pc.Resolve? ==> (pc.key, pc.value) in s.computed)
    && (pc.Remove? && pc.result.Some? ==> (pc.key, pc.result.value) in s.computed)
  }

  ghost predicate Inv(s: State, bound: nat) {
    && MemoOk(s.memo, s.computed, bound)
    && (forall f :: 0 <= f < |s.flights| ==> FlightOk(s, f))
    && (forall k :: k in s.inFlight ==> EntryOk(s, k))
    && (forall p :: p in s.procs ==> PcFine(s, p, s.procs[p]))
    && s.returned <= s.computed
  }

  /** What one step of `p` leaves alone: everything that another call owns. */
  ghost predicate Frame(s: State, t: State, p: nat) {
    && t.procs == s.procs[p := PcOf(t, p)]
    && s.computed <= t.computed && |s.flights| <= |t.flights|
    && (forall f :: 0 <= f < |s.flights| ==>
          && t.flights[f].key == s.flights[f].key && t.flights[f].owner == s.flights[f].owner
          && (s.flights[f].owner != p ==> t.flights[f] == s.flights[f]))
    && (forall k :: k in s.inFlight && s.inFlight[k] < |s.flights| && s.flights[s.inFlight[k]].owner != p ==>
          k in t.inFlight && t.inFlight[k] == s.inFlight[k])
    && (forall k :: k in t.inFlight && !(k in s.inFlight && s.inFlight[k] == t.inFlight[k]) ==>
          t.inFlight[k] < |t.flights| && t.flights[t.inFlight[k]].owner == p)
  }

  lemma OthersStayFine(s: State, t: State, p: nat, q: nat)
    requires Frame(s, t, p) && q != p && q in s.procs && PcFine(s, q, s.procs[q])
    ensures PcFine(t, q, t.procs[q])
  {}

  /** The rest of the invariant, given what `p` itself did. */
  lemma FrameKeepsInv(s: State, t: State, p: nat, bound: nat)
    requires Inv(s, bound) && Frame(s, t, p) && MemoOk(t.memo, t.computed, bound) && t.returned <= t.computed
    requires PcFine(t, p, PcOf(t, p))
    requires forall f :: 0 <= f < |t.flights| && t.flights[f].owner == p ==> FlightOk(t, f)
    requires forall k :: k in t.inFlight && t.inFlight[k] < |t.flights| && t.flights[t.inFlight[k]].owner == p ==>
             EntryOk(t, k)
    requires forall f :: |s.flights| <= f < |t.flights| ==> t.flights[f].owner == p
    ensures Inv(t, bound)
  {
    forall q | q in t.procs ensures PcFine(t, q, t.procs[q]) { if q != p { OthersStayFine(s, t, p, q); } }
    forall f | 0 <= f < |t.flights| ensures FlightOk(t, f) {
      if t.flights[f].owner != p {
        assert FlightOk(s, f);
        if t.flights[f].future.Pending? { assert EntryOk(s, t.flights[f].key); }
      }
    }
    forall k | k in t.inFlight ensures EntryOk(t, k) {
      if k in s.inFlight && s.inFlight[k] == t.inFlight[k] { assert EntryOk(s, k); }
    }
  }

  // -- the steps keep it ---------------------------------------------------------------

  /** A caller has at most one flight open: the one it is working on. */
  lemma OwnFlights(s: State, p: nat, f: nat, bound: nat)
    requires Inv(s, bound) && f < |s.flights| && s.flights[f].owner == p
    ensures s.flights[f].future.Pending? ==> Owns(PcOf(s, p)) && PcOf(s, p).f == f && PcOf(s, p).key == s.flights[f].key
  {
    assert FlightOk(s, f);
    if s.flights[f].future.Pending? { assert EntryOk(s, s.flights[f].key); }
  }

  lemma OwnEntries(s: State, p: nat, k: Key, bound: nat)
    requires Inv(s, bound) && k in s.inFlight && s.flights[s.inFlight[k]].owner == p
    ensures Owns(PcOf(s, p)) && PcOf(s, p).key == k && PcOf(s, p).f == s.inFlight[k]
  {
    assert EntryOk(s, k);
  }

  /** All entries but the one a caller works on belong to others. */
  lemma OtherEntries(s: State, p: nat, bound: nat)
    requires Inv(s, bound)
    ensures forall k :: k in s.inFlight && !(Owns(PcOf(s, p)) && PcOf(s, p).key == k) ==>
            s.flights[s.inFlight[k]].owner != p
    ensures forall k :: k in s.inFlight ==> s.inFlight[k] < |s.flights|
  {
    forall k | k in s.inFlight ensures s.inFlight[k] < |s.flights|
                                       && (!(Owns(PcOf(s, p)) && PcOf(s, p).key == k) ==>
                                           s.flights[s.inFlight[k]].owner != p)
    {
      assert EntryOk(s, k);
    }
  }

  lemma TouchKeepsMemo(memo: Memo, at: nat, computed: set<(Key, Value)>, bound: nat)
    requires MemoOk(memo, computed, bound) && at < |memo|
    ensures MemoOk(MovedToEnd(memo, at), computed, bound)
  {
    var r := MovedToEnd(memo, at);
    forall i | 0 <= i < |r| ensures r[i] == memo[if i < at then i else if i < |memo| - 1 then i + 1 else at] {}
  }

  lemma PutKeepsMemo(memo: Memo, key: Key, value: Value, computed: set<(Key, Value)>, bound: nat)
    requires MemoOk(memo, computed, bound) && (key, value) in computed
    ensures MemoOk(Put(memo, key, value, bound), computed, bound)
  {
    var at := Find(memo, key);
    var added := if at.Some? then memo[at.value := (key, value)] else memo + [(key, value)];
    assert forall i :: 0 <= i < |added| ==> added[i] in computed;
    forall i, j | 0 <= i < j < |added| ensures added[i].0 != added[j].0 {}
  }

  /** A step of `p` that leaves flights and entries alone. */
  lemma QuietStep(s: State, t: State, p: nat, bound: nat)
    requires Inv(s, bound) && t.inFlight == s.inFlight && t.flights == s.flights && s.computed <= t.computed
    requires t.procs == s.procs[p := PcOf(t, p)] && MemoOk(t.memo, t.computed, bound) && t.returned <= t.computed
    requires PcFine(t, p, PcOf(t, p))
    requires Owns(PcOf(s, p)) ==> Owns(PcOf(t, p)) && PcOf(t, p).key == PcOf(s, p).key && PcOf(t, p).f == PcOf(s, p).f
    ensures Inv(t, bound)
  {
    forall f | 0 <= f < |t.flights| && t.flights[f].owner == p ensures FlightOk(t, f) { assert FlightOk(s, f); }
    forall k | k in t.inFlight && t.inFlight[k] < |t.flights| && t.flights[t.inFlight[k]].owner == p
      ensures EntryOk(t, k)
    {
      OwnEntries(s, p, k, bound);
      assert EntryOk(s, k);
    }
    FrameKeepsInv(s, t, p, bound);
  }

  lemma ComputedGrows(memo: Memo, computed: set<(Key, Value)>, more: set<(Key, Value)>, bound: nat)
    requires MemoOk(memo, computed, bound) && computed <= more
    ensures MemoOk(memo, more, bound)
  {}

  lemma LookupStep(s: State, p: nat, key: Key, bound: nat)
    requires Inv(s, bound) && p in s.procs && s.procs[p] == Lookup(key)
    ensures Inv(StepLookup(s, p, key), bound)
  {
    var at := Find(s.memo, key);
    var t := StepLookup(s, p, key);
    if at.Some? {
      TouchKeepsMemo(s.memo, at.value, s.computed, bound);
      assert s.memo[at.value] in s.computed;
      QuietStep(s, t, p, bound);
    } else if key in s.inFlight {
      assert EntryOk(s, key);
      QuietStep(s, t, p, bound);
    } else {
      forall f | 0 <= f < |t.flights| && t.flights[f].owner == p ensures FlightOk(t, f) {
        if f < |s.flights| {
          OwnFlights(s, p, f, bound);
          assert FlightOk(s, f);
        }
      }
      OtherEntries(s, p, bound);
      FrameKeepsInv(s, t, p, bound);
    }
  }

  /** Completing the own future: it was pending, and the entry stays until it is removed. */
  lemma CompleteStep(s: State, p: nat, future: Future, result: Option<Value>, bound: nat)
    requires Inv(s, bound) && p in s.procs && Owns(s.procs[p]) && !s.procs[p].Remove? && !future.Pending?
    requires result == (if future.Resolved? then Some(future.value) else None)
    requires result.Some? ==> (s.procs[p].key, result.value) in s.computed
    ensures Inv(Goto(Complete(s, s.procs[p].f, future), p, Remove(s.procs[p].key, s.procs[p].f, result)), bound)
    ensures s.procs[p].f < |s.flights| && s.flights[s.procs[p].f].future.Pending?
  {
    var key, f := s.procs[p].key, s.procs[p].f;
    assert PcFine(s, p, s.procs[p]);
    var t := Goto(Complete(s, f, future), p, Remove(key, f, result));
    forall g | 0 <= g < |t.flights| && t.flights[g].owner == p ensures FlightOk(t, g) {
      if g != f {
        assert FlightOk(s, g);
        OwnFlights(s, p, g, bound);
      }
    }
    forall k | k in t.inFlight && t.inFlight[k] < |t.flights| && t.flights[t.inFlight[k]].owner == p
      ensures EntryOk(t, k)
    {
      assert EntryOk(s, k);
      OwnEntries(s, p, k, bound);
    }
    OtherEntries(s, p, bound);
    FrameKeepsInv(s, t, p, bound);
  }

  /** Removing the own entry: it is there, and its future is complete. */
  lemma RemoveStep(s: State, p: nat, bound: nat)
    requires Inv(s, bound) && p in s.procs && s.procs[p].Remove?
    ensures Inv(Step(s, p, None, bound), bound)
    ensures s.procs[p].key in s.inFlight && !s.flights[s.procs[p].f].future.Pending?
  {
    var key, f := s.procs[p].key, s.procs[p].f;
    assert PcFine(s, p, s.procs[p]);
    var t := Step(s, p, None, bound);
    forall g | 0 <= g < |t.flights| && t.flights[g].owner == p ensures FlightOk(t, g) {
      assert FlightOk(s, g);
      OwnFlights(s, p, g, bound);
    }
    OtherEntries(s, p, bound);
    FrameKeepsInv(s, t, p, bound);
  }

  lemma StepKeepsInv(s: State, p: nat, answer: Option<Value>, bound: nat)
    requires Inv(s, bound) && p in s.procs
    ensures Inv(Step(s, p, answer, bound), bound)
  {
    assert PcFine(s, p, s.procs[p]);
    var t := Step(s, p, answer, bound);
    match s.procs[p]
    case Idle =>
    case Lookup(key) => LookupStep(s, p, key, bound);
    case Wait(key, f) =>
      assert FlightOk(s, f);
      if t != s { QuietStep(s, t, p, bound); }
    case Compute(key, f) =>
      ComputedGrows(s.memo, s.computed, t.computed, bound);
      QuietStep(s, t, p, bound);
    case Insert(key, f, v) =>
      PutKeepsMemo(s.memo, key, v, s.computed, bound);
      QuietStep(s, t, p, bound);
    case Resolve(key, f, v) => CompleteStep(s, p, Resolved(v), Some(v), bound);
    case Break(key, f) => CompleteStep(s, p, Broken, None, bound);
    case Remove(key, f, result) => RemoveStep(s, p, bound);
  }

  lemma ActionKeepsInv(s: State, a: Action, bound: nat)
    requires Inv(s, bound)
    ensures Inv(Apply(s, a, bound), bound)
  {
    match a
    case Begin(p, key) => if PcOf(s, p).Idle? { QuietStep(s, Goto(s, p, Lookup(key)), p, bound); }
    case Act(p, answer) => if p in s.procs { StepKeepsInv(s, p, answer, bound); }
  }

  lemma {:induction false} RunKeepsInv(s: State, actions: seq<Action>, bound: nat)
    requires Inv(s, bound)
    ensures Inv(Run(s, actions, bound), bound)
    decreases |actions|
  {
    if actions != [] {
      ActionKeepsInv(s, actions[0], bound);
      RunKeepsInv(Apply(s, actions[0], bound), actions[1..], bound);
    }
  }

  // -- what follows --------------------------------------------------------------------------

  ghost predicate Reachable(s: State, bound: nat) {
    exists actions :: s == Run(EMPTY, actions, bound)
  }

  lemma ReachableInv(s: State, bound: nat)
    requires Reachable(s, bound)
    ensures Inv(s, bound)
  {
    var actions :| s == Run(EMPTY, actions, bound);
    RunKeepsInv(EMPTY, actions, bound);
  }

  /** Every value a caller gets was computed by the inner recomputer for the same key, and so is
      every entry of the memo; the memo never exceeds its bound. */
  lemma OnlyComputedValues(s: State, bound: nat)
    requires Reachable(s, bound)
    ensures s.returned <= s.computed && |s.memo| <= bound
    ensures forall i :: 0 <= i < |s.memo| ==> s.memo[i] in s.computed
  {
    ReachableInv(s, bound);
  }

  /** The inner recomputer answers as a function of the key, or fails. */
  ghost predicate Answers(s: State, actions: seq<Action>, bound: nat, inner: Key -> Value)
    decreases |actions|
  {
    actions != [] ==>
      && (actions[0].Act? && PcOf(s, actions[0].p).Compute? && actions[0].answer.Some? ==>
            actions[0].answer.value == inner(PcOf(s, actions[0].p).key))
      && Answers(Apply(s, actions[0], bound), actions[1..], bound, inner)
  }

  lemma {:induction false} ComputedByInner(s: State, actions: seq<Action>, bound: nat, inner: Key -> Value)
    requires Answers(s, actions, bound, inner) && forall c :: c in s.computed ==> c.1 == inner(c.0)
    ensures forall c :: c in Run(s, actions, bound).computed ==> c.1 == inner(c.0)
    decreases |actions|
  {
    if actions != [] { ComputedByInner(Apply(s, actions[0], bound), actions[1..], bound, inner); }
  }

  /** The memo refines the plain recompute: whatever the interleaving, the evictions and the
      failures in between, a returned value is the inner recompute of its key. */
  lemma MemoRefinesRecompute(actions: seq<Action>, bound: nat, inner: Key -> Value, key: Key, value: Value)
    requires Answers(EMPTY, actions, bound, inner) && (key, value) in Run(EMPTY, actions, bound).returned
    ensures value == inner(key)
  {
    RunKeepsInv(EMPTY, actions, bound);
    ComputedByInner(EMPTY, actions, bound, inner);
  }

  /** At most one call per key is inside the inner recomputer, or anywhere between that call and
      the removal of its entry. */
  lemma SingleFlight(s: State, bound: nat, p: nat, q: nat)
    requires Reachable(s, bound) && Owns(PcOf(s, p)) && Owns(PcOf(s, q)) && PcOf(s, p).key == PcOf(s, q).key
    ensures p == q
  {
    ReachableInv(s, bound);
    assert PcFine(s, p, s.procs[p]) && PcFine(s, q, s.procs[q]);
  }

  /** Each entry is completed exactly once and removed exactly once, even on a failure: completing
      finds the future pending, removing finds the entry with a completed future. */
  lemma CompletedAndRemovedOnce(s: State, bound: nat, p: nat)
    requires Reachable(s, bound) && Owns(PcOf(s, p))
    ensures var pc := PcOf(s, p);
            && pc.key in s.inFlight && s.inFlight[pc.key] == pc.f && pc.f < |s.flights|
            && (s.flights[pc.f].future.Pending? <==> !pc.Remove?)
  {
    ReachableInv(s, bound);
    assert PcFine(s, p, s.procs[p]);
  }

  /** No waiter is orphaned: whoever waits on a pending future waits for another call that still is on
      the way to complete it. That the inner calls end is not part of this. */
  lemma WaitersHaveAnOwner(s: State, bound: nat, q: nat)
    requires Reachable(s, bound) && PcOf(s, q).Wait?
    ensures var f := PcOf(s, q).f;
            && f < |s.flights| && s.flights[f].key == PcOf(s, q).key
            && (s.flights[f].future.Pending? ==>
                  var p := s.flights[f].owner;
                  p != q && Owns(PcOf(s, p)) && !PcOf(s, p).Remove? && PcOf(s, p).key == PcOf(s, q).key &&
                    PcOf(s, p).f == f)
  {
    ReachableInv(s, bound);
    assert PcFine(s, q, s.procs[q]);
    var f := PcOf(s, q).f;
    assert FlightOk(s, f);
    if s.flights[f].future.Pending? {
      assert EntryOk(s, s.flights[f].key);
      var p := s.flights[f].owner;
      assert PcFine(s, p, s.procs[p]);
    }
  }

  // -- the object, for one caller at a time ---------------------------------------------

  /** One undisturbed call: lookup, inner call, insertion, completion, removal. */
  function Undisturbed(s: State, p: nat, key: Key, answer: Option<Value>, bound: nat): State {
    var s1 := Step(Goto(s, p, Lookup(key)), p, answer, bound);
    Step(Step(Step(Step(s1, p, answer, bound), p, answer, bound), p, answer, bound), p, answer, bound)
  }

  lemma UndisturbedHit(s: State, p: nat, key: Key, answer: Option<Value>, bound: nat)
    requires Find(s.memo, key).Some?
    ensures var at := Find(s.memo, key).value;
            var t := Undisturbed(s, p, key, answer, bound);
            && t.memo == MovedToEnd(s.memo, at) && t.inFlight == s.inFlight && t.flights == s.flights
            && PcOf(t, p).Idle? && t.returned == s.returned + {(key, s.memo[at].1)}
  {
    var s1 := Step(Goto(s, p, Lookup(key)), p, answer, bound);
    assert PcOf(s1, p).Idle?;
  }

  lemma UndisturbedMiss(s: State, p: nat, key: Key, answer: Option<Value>, bound: nat)
    requires Find(s.memo, key).None? && key !in s.inFlight
    ensures var t := Undisturbed(s, p, key, answer, bound);
            && t.memo == (if answer.Some? then Put(s.memo, key, answer.value, bound) else s.memo)
            && t.inFlight == s.inFlight && PcOf(t, p).Idle?
            && t.flights == s.flights + [Flight(key, p, if answer.Some? then Resolved(answer.value) else Broken)]
            && t.returned == s.returned + (if answer.Some? then {(key, answer.value)} else {})
  {
    var f := |s.flights|;
    var s1 := Step(Goto(s, p, Lookup(key)), p, answer, bound);
    assert PcOf(s1, p) == Compute(key, f) && s1.flights == s.flights + [Flight(key, p, Pending)];
    var s2 := Step(s1, p, answer, bound);
    var s3 := Step(s2, p, answer, bound);
    var s4 := Step(s3, p, answer, bound);
    assert s1.inFlight - {key} == s.inFlight;
    if answer.Some? {
      assert PcOf(s2, p) == Insert(key, f, answer.value);
      assert PcOf(s3, p) == Resolve(key, f, answer.value) && s3.memo == Put(s.memo, key, answer.value, bound);
      assert PcOf(s4, p) == Remove(key, f, answer) && s4.inFlight == s1.inFlight;
    } else {
      assert PcOf(s2, p) == Break(key, f);
      assert PcOf(s3, p) == Remove(key, f, None) && s3.inFlight == s1.inFlight;
      assert PcOf(s4, p).Idle?;
    }
  }

  lemma UndisturbedWait(s: State, p: nat, key: Key, answer: Option<Value>, bound: nat)
    requires Find(s.memo, key).None? && key in s.inFlight && s.inFlight[key] < |s.flights|
    ensures var t := Undisturbed(s, p, key, answer, bound);
            var future := s.flights[s.inFlight[key]].future;
            && t.memo == s.memo && t.inFlight == s.inFlight && t.flights == s.flights
            && PcOf(t, p) == (if future.Pending? then Wait(key, s.inFlight[key]) else Idle)
            && t.returned == s.returned + (if future.Resolved? then {(key, future.value)} else {})
  {
    var s1 := Step(Goto(s, p, Lookup(key)), p, answer, bound);
    assert PcOf(s1, p) == Wait(key, s.inFlight[key]);
    var s2 := Step(s1, p, answer, bound);
    assert s.flights[s.inFlight[key]].future.Pending? ==> s2 == s1;
  }

  // -- what the memo remembers ------------------------------------------------------------

  predicate Remembers(memo: Memo, key: Key) { exists i :: 0 <= i < |memo| && memo[i].0 == key }

  /** The key is the youngest entry; all others keep their order, none goes while there is room, and what
      goes was older than everything that stays. */
  predicate Learned(before: Memo, key: Key, value: Value, bound: nat, after: Memo) {
    && |after| == (if |before| < bound then |before| + 1 else bound) && 0 < |after|
    && after[|after| - 1] == (key, value)
    && forall i :: 0 <= i < |after| - 1 && |before| + 1 - |after| + i < |before| ==>
         after[i] == before[|before| + 1 - |after| + i]
  }

  lemma PutLearns(memo: Memo, key: Key, value: Value, bound: nat)
    requires !Remembers(memo, key) && |memo| <= bound && 0 < bound
    ensures Learned(memo, key, value, bound, Put(memo, key, value, bound))
  {
    assert Find(memo, key).None?;
  }

  /** A bound of zero remembers nothing, and an entry that is there already only changes its value. */
  lemma PutElse(memo: Memo, key: Key, value: Value, bound: nat, at: nat)
    ensures memo == [] && bound == 0 ==> Put(memo, key, value, bound) == []
    ensures at < |memo| <= bound && memo[at].0 == key && (forall i :: 0 <= i < at ==> memo[i].0 != key) ==>
              Put(memo, key, value, bound) == memo[at := (key, value)]
  {
    if at < |memo| <= bound && memo[at].0 == key && (forall i :: 0 <= i < at ==> memo[i].0 != key) {
      FindsFirst(memo, key, at);
    }
  }

  lemma {:induction false} FindsFirst(memo: Memo, key: Key, at: nat)
    requires at < |memo| && memo[at].0 == key && forall i :: 0 <= i < at ==> memo[i].0 != key
    ensures Find(memo, key) == Some(at)
  {
    if at > 0 { FindsFirst(memo[1..], key, at - 1); }
  }

  /** A hit makes its entry the youngest; the others keep their order. */
  predicate Touched(before: Memo, at: nat, after: Memo) {
    && at < |before| == |after| && after[|after| - 1] == before[at]
    && (forall i :: 0 <= i < at ==> after[i] == before[i])
    && (forall i :: at <= i < |after| - 1 ==> after[i] == before[i + 1])
  }

  lemma MovedIsTouched(memo: Memo, at: nat)
    requires at < |memo|
    ensures Touched(memo, at, MovedToEnd(memo, at))
  {}

  /** Whoever waits gets what the owner got: its value, or its failure. */
  lemma WaiterGetsTheOutcome(s: State, p: nat, key: Key, f: nat, answer: Option<Value>, bound: nat)
    requires PcOf(s, p) == Wait(key, f) && f < |s.flights|
    ensures var t := Step(s, p, answer, bound);
            match s.flights[f].future
            case Pending => t == s
            case Resolved(v) => PcOf(t, p).Idle? && t.returned == s.returned + {(key, v)} && t.memo == s.memo
            case Broken => PcOf(t, p).Idle? && t.returned == s.returned && t.memo == s.memo
  {}

  /** A call that was answered is answered again from the memo: no second inner call, the same value. */
  lemma RepeatedCallIsAnswered(s: State, p: nat, key: Key, value: Value, other: Option<Value>, bound: nat)
    requires !Remembers(s.memo, key) && key !in s.inFlight && |s.memo| <= bound && 0 < bound
    ensures var t := Undisturbed(s, p, key, Some(value), bound);
            var u := Undisturbed(t, p, key, other, bound);
            && Learned(s.memo, key, value, bound, t.memo) && |t.flights| == |s.flights| + 1
            && u.flights == t.flights && (key, value) in u.returned && PcOf(u, p).Idle?
            && (forall e :: e in u.returned ==> e in t.returned)
  {
    assert Find(s.memo, key).None?;
    UndisturbedMiss(s, p, key, Some(value), bound);
    PutLearns(s.memo, key, value, bound);
    var t := Undisturbed(s, p, key, Some(value), bound);
    assert Find(t.memo, key).Some? by { assert t.memo[|t.memo| - 1].0 == key; }
    OnlyOneEntry(s.memo, t.memo, key, value, bound);
    UndisturbedHit(t, p, key, other, bound);
  }

  lemma OnlyOneEntry(before: Memo, after: Memo, key: Key, value: Value, bound: nat)
    requires !Remembers(before, key) && |before| <= bound && Learned(before, key, value, bound, after)
    ensures Find(after, key) == Some(|after| - 1)
  {
    FindsFirst(after, key, |after| - 1);
  }

  /** What a call comes back with, or the future it is waiting for. */
  datatype Reply = Got(value: Value) | Raised | Waits(f: nat)

  class EpochRecomputer {
    var memo: Memo
    var inFlight: map<Key, nat>
    var flights: seq<Flight>
    const bound: nat

    constructor (bound: nat)
      ensures memo == [] && inFlight == map[] && flights == [] && this.bound == bound
    {
      this.bound := bound;
      memo, inFlight, flights := [], map[], [];
    }

    function Content(): State
      reads this
    {
      State(memo, inFlight, flights, map[], {}, {})
    }

    /** A hit is answered from the memo and becomes the youngest entry; a key in flight is left to its
        owner; any other miss asks the inner recomputer once, keeps its answer and lets go of the
        entry, also after a failure. */
    method Recompute(key: Key, answer: Option<Value>) returns (r: Reply)
      requires key in inFlight ==> inFlight[key] < |flights|
      modifies this
      ensures var t := Undisturbed(old(Content()), 0, key, answer, bound);
              && memo == t.memo && inFlight == t.inFlight && flights == t.flights
              && t.returned == (if r.Got? then {(key, r.value)} else {})
              && PcOf(t, 0) == (if r.Waits? then Wait(key, r.f) else Idle)
      ensures inFlight == old(inFlight)
      ensures Find(old(memo), key).Some? ==> r == Got(old(memo)[Find(old(memo), key).value].1)
      ensures r.Waits? <==> && Find(old(memo), key).None? && key in inFlight
                            && old(flights)[inFlight[key]].future.Pending?
      ensures Remembers(old(memo), key) ==>
                && flights == old(flights)
                && exists at: nat :: && Touched(old(memo), at, memo) && old(memo)[at].0 == key
                                && r == Got(old(memo)[at].1)
      ensures !Remembers(old(memo), key) && key !in inFlight ==>
                && |flights| == |old(flights)| + 1
                && (r == if answer.Some? then Got(answer.value) else Raised)
                && (answer.None? ==> memo == old(memo))
                && (answer.Some? && |old(memo)| <= bound && 0 < bound ==>
                      Learned(old(memo), key, answer.value, bound, memo))
      ensures !Remembers(old(memo), key) && key in inFlight ==> memo == old(memo) && flights == old(flights)
    {
      var at := Find(memo, key);
      if at.Some? {
        UndisturbedHit(Content(), 0, key, answer, bound);
        MovedIsTouched(memo, at.value);
        r := Got(memo[at.value].1);
        memo := MovedToEnd(memo, at.value);
        return;
      }
      if key in inFlight {
        UndisturbedWait(Content(), 0, key, answer, bound);
        match flights[inFlight[key]].future {
          case Pending => return Waits(inFlight[key]);
          case Resolved(v) => return Got(v);
          case Broken => return Raised;
        }
      }
      UndisturbedMiss(Content(), 0, key, answer, bound);
      r := if answer.Some? then Got(answer.value) else Raised;
      if answer.Some? && |memo| <= bound && 0 < bound { PutLearns(memo, key, answer.value, bound); }
      Measure(key, answer);
    }

    /** The owner's part: the entry goes in, the answer is kept, the entry goes out again. */
    method Measure(key: Key, answer: Option<Value>)
      requires key !in inFlight
      modifies this
      ensures memo == if answer.Some? then Put(old(memo), key, answer.value, bound) else old(memo)
      ensures inFlight == old(inFlight)
      ensures flights == old(flights) + [Flight(key, 0, if answer.Some? then Resolved(answer.value) else Broken)]
    {
      ghost var before := inFlight;
      var f := |flights|;
      inFlight := inFlight[key := f];
      flights := flights + [Flight(key, 0, Pending)];
      if answer.Some? {
        memo := Put(memo, key, answer.value, bound);
        flights := flights[f := flights[f].(future := Resolved(answer.value))];
      } else {
        flights := flights[f := flights[f].(future := Broken)];
      }
      inFlight := inFlight - {key};
      assert inFlight == before;
    }
  }
}
