/** The `_FINALIZED` set convention (vidaio/audit/store.py) under races. Every request to the object
    store is a step of its own: a probe for the marker, a create, the comparison after a refused
    create, a read. A transport creates conditionally (`If-None-Match: *`, section 13.1.2 of
    RFC 9110); the local file store overwrites. */
module SetStore {
  import opened Wrappers

  type Data = string

  /** A named member of a set, or its marker. */
  datatype Key = Key(prefix: string, name: string)

  const MARKER := "_FINALIZED"

  datatype Mode = Conditional | Overwriting

  datatype Call =
    | PutSetMember(prefix: string, name: string, data: Data)
    | FinalizeSet(prefix: string)
    | GetSetMember(prefix: string, name: string, expected: Option<Data>)

  /** Where a caller is. */
  datatype Pc =
    | Idle
    | ProbeToPut(key: Key, data: Data)
    | ProbeToFinalize(prefix: string)
    | Create(key: Key, data: Data)
    | Compare(key: Key, data: Data)
    | ProbeToGet(key: Key, expected: Option<Data>)
    | Fetch(key: Key, expected: Option<Data>)

  /** Calls that returned without an exception. */
  datatype Event = PutOk(key: Key, data: Data) | ReadOk(key: Key, data: Data)

  datatype State = State(objects: map<Key, Data>, procs: map<nat, Pc>, done: set<Event>)

  const EMPTY := State(map[], map[], {})

  datatype Action = Begin(p: nat, call: Call) | Act(p: nat) | Crash(p: nat)

  function PcOf(s: State, p: nat): Pc { if p in s.procs then s.procs[p] else Idle }

  function Goto(s: State, p: nat, pc: Pc): State { s.(procs := s.procs[p := pc]) }

  function Return(s: State, p: nat, e: Event): State { Goto(s, p, Idle).(done := s.done + {e}) }

  predicate Finalized(s: State, prefix: string) { Key(prefix, MARKER) in s.objects }

  function Begun(call: Call): Pc {
    match call
    case PutSetMember(prefix, name, data) => if name == MARKER then Idle else ProbeToPut(Key(prefix, name), data)
    case FinalizeSet(prefix) => ProbeToFinalize(prefix)
    case GetSetMember(prefix, name, expected) => ProbeToGet(Key(prefix, name), expected)
  }

  function StepCreate(s: State, p: nat, mode: Mode, key: Key, data: Data): State {
    if mode.Conditional? && key in s.objects then Goto(s, p, Compare(key, data))
    else Return(s.(objects := s.objects[key := data]), p, PutOk(key, data))
  }

  function Step(s: State, p: nat, mode: Mode): State {
    match PcOf(s, p)
    case Idle => s
    case ProbeToPut(key, data) => Goto(s, p, if Finalized(s, key.prefix) then Idle else Create(key, data))
    case ProbeToFinalize(prefix) =>
      Goto(s, p, if Finalized(s, prefix) then Idle else Create(Key(prefix, MARKER), ""))
    case Create(key, data) => StepCreate(s, p, mode, key, data)
    case Compare(key, data) =>
      if key in s.objects && s.objects[key] == data then Return(s, p, PutOk(key, data)) else Goto(s, p, Idle)
    case ProbeToGet(key, expected) => Goto(s, p, if Finalized(s, key.prefix) then Fetch(key, expected) else Idle)
    case Fetch(key, expected) =>
      if key in s.objects && (expected.None? || expected.value == s.objects[key])
      then Return(s, p, ReadOk(key, s.objects[key])) else Goto(s, p, Idle)
  }

  function Apply(s: State, a: Action, mode: Mode): State {
    match a
    case Begin(p, call) => if PcOf(s, p).Idle? then Goto(s, p, Begun(call)) else s
    case Act(p) => Step(s, p, mode)
    case Crash(p) => Goto(s, p, Idle)
  }

  function Run(s: State, actions: seq<Action>, mode: Mode): State
    decreases |actions|
  {
    if actions == [] then s else Run(Apply(s, actions[0], mode), actions[1..], mode)
  }

  // -- conditional creates ------------------------------------------------------------

  ghost predicate Kept(objects: map<Key, Data>, later: map<Key, Data>) {
    forall k :: k in objects ==> k in later && later[k] == objects[k]
  }

  ghost predicate EventTrue(s: State, e: Event) {
    && e.key in s.objects && s.objects[e.key] == e.data
    && (e.ReadOk? ==> Finalized(s, e.key.prefix))
  }

  ghost predicate PcFine(objects: map<Key, Data>, pc: Pc) {
    match pc
    case Fetch(key, _) => Key(key.prefix, MARKER) in objects
    case Create(key, data) => key.name == MARKER ==> data == ""
    case Compare(key, data) => key in objects && (key.name == MARKER ==> data == "")
    case ProbeToPut(key, _) => key.name != MARKER
    case _ => true
  }

  ghost predicate MarkersEmpty(objects: map<Key, Data>) {
    forall k :: k in objects && k.name == MARKER ==> objects[k] == ""
  }

  ghost predicate Inv(s: State) {
    && (forall e :: e in s.done ==> EventTrue(s, e))
    && (forall p :: p in s.procs ==> PcFine(s.objects, s.procs[p]))
    && MarkersEmpty(s.objects)
  }

  /** Any move of one caller that at most creates an absent object and reports something true. */
  lemma MoveKeepsInv(s: State, t: State, p: nat, e: Event)
    requires Inv(s) && t.procs == s.procs[p := PcOf(t, p)] && PcFine(t.objects, PcOf(t, p))
    requires Kept(s.objects, t.objects) && MarkersEmpty(t.objects)
    requires t.done == s.done || (t.done == s.done + {e} && EventTrue(t, e))
    ensures Inv(t)
  {
    forall x | x in t.done ensures EventTrue(t, x) { if x in s.done { assert EventTrue(s, x); } }
    forall q | q in t.procs ensures PcFine(t.objects, t.procs[q]) {
      if q != p { assert PcFine(s.objects, s.procs[q]); }
    }
  }

  lemma StepKeepsInv(s: State, p: nat)
    requires Inv(s) && p in s.procs
    ensures Inv(Step(s, p, Conditional)) && Kept(s.objects, Step(s, p, Conditional).objects)
    ensures s.done <= Step(s, p, Conditional).done
  {
    assert PcFine(s.objects, s.procs[p]);
    var t := Step(s, p, Conditional);
    match s.procs[p]
    case Idle =>
    case Create(key, data) => MoveKeepsInv(s, t, p, PutOk(key, data));
    case Compare(key, data) => MoveKeepsInv(s, t, p, PutOk(key, data));
    case Fetch(key, _) => MoveKeepsInv(s, t, p, ReadOk(key, if key in s.objects then s.objects[key] else ""));
    case ProbeToPut(key, data) => MoveKeepsInv(s, t, p, PutOk(key, data));
    case ProbeToGet(key, _) => MoveKeepsInv(s, t, p, PutOk(key, ""));
    case ProbeToFinalize(prefix) => MoveKeepsInv(s, t, p, PutOk(Key(prefix, MARKER), ""));
  }

  lemma ActionKeepsInv(s: State, a: Action)
    requires Inv(s)
    ensures Inv(Apply(s, a, Conditional)) && Kept(s.objects, Apply(s, a, Conditional).objects)
    ensures s.done <= Apply(s, a, Conditional).done
  {
    match a
    case Begin(p, call) =>
      if PcOf(s, p).Idle? { MoveKeepsInv(s, Goto(s, p, Begun(call)), p, PutOk(Key("", ""), "")); }
    case Act(p) => if p in s.procs { StepKeepsInv(s, p); }
    case Crash(p) => MoveKeepsInv(s, Goto(s, p, Idle), p, PutOk(Key("", ""), ""));
  }

  lemma {:induction false} RunKeepsInv(s: State, actions: seq<Action>)
    requires Inv(s)
    ensures Inv(Run(s, actions, Conditional)) && Kept(s.objects, Run(s, actions, Conditional).objects)
    ensures s.done <= Run(s, actions, Conditional).done
    decreases |actions|
  {
    if actions != [] {
      ActionKeepsInv(s, actions[0]);
      RunKeepsInv(Apply(s, actions[0], Conditional), actions[1..]);
    }
  }

  ghost predicate Reachable(s: State) {
    exists actions :: s == Run(EMPTY, actions, Conditional)
  }

  lemma ReachableInv(s: State)
    requires Reachable(s)
    ensures Inv(s)
  {
    var actions :| s == Run(EMPTY, actions, Conditional);
    RunKeepsInv(EMPTY, actions);
  }

  /** Once written, a member's bytes never change, whoever races; and what a call reported stays true. */
  lemma MembersNeverChange(s: State, actions: seq<Action>, k: Key)
    requires Reachable(s) && k in s.objects
    ensures k in Run(s, actions, Conditional).objects && Run(s, actions, Conditional).objects[k] == s.objects[k]
  {
    ReachableInv(s);
    RunKeepsInv(s, actions);
  }

  /** A successful put means exactly those bytes are stored; a successful read returned exactly
      them, from a finalized set; so all successful calls on a member agree. */
  lemma SuccessfulCallsAgree(s: State, a: Event, b: Event)
    requires Reachable(s) && a in s.done && b in s.done && a.key == b.key
    ensures a.data == b.data && a.key in s.objects && s.objects[a.key] == a.data
    ensures a.ReadOk? ==> Finalized(s, a.key.prefix)
  {
    ReachableInv(s);
    assert EventTrue(s, a) && EventTrue(s, b);
  }

  /** A member that was put before is found by every reader that saw the marker, at any later time. */
  lemma ReaderFindsWhatWasPut(s: State, actions: seq<Action>, e: Event, p: nat)
    requires Reachable(s) && e in s.done && e.PutOk?
    requires PcOf(Run(s, actions, Conditional), p) in {Fetch(e.key, None), Fetch(e.key, Some(e.data))}
    ensures ReadOk(e.key, e.data) in Step(Run(s, actions, Conditional), p, Conditional).done
  {
    ReachableInv(s);
    RunKeepsInv(s, actions);
    assert EventTrue(Run(s, actions, Conditional), e);
  }

  // -- when a finalized set is frozen ------------------------------------------------------

  /** Whoever is past a probe into this set would find its object there already and, where creates
      overwrite, would write the very bytes that are stored. */
  ghost predicate NothingToChange(s: State, prefix: string, mode: Mode) {
    forall p :: p in s.procs && s.procs[p].Create? && s.procs[p].key.prefix == prefix ==>
      HarmlessCreate(s, s.procs[p], mode)
  }

  predicate HarmlessCreate(s: State, pc: Pc, mode: Mode)
    requires pc.Create?
  {
    pc.key in s.objects && (mode.Overwriting? ==> s.objects[pc.key] == pc.data)
  }

  /** The set has the same members with the same bytes in both states. */
  ghost predicate SameSet(s: State, t: State, prefix: string) {
    forall k: Key :: k.prefix == prefix ==>
      (k in t.objects <==> k in s.objects) && (k in s.objects ==> t.objects[k] == s.objects[k])
  }

  ghost predicate Frozen(s: State, prefix: string, mode: Mode) {
    forall actions :: SameSet(s, Run(s, actions, mode), prefix)
  }

  lemma StepOnFrozenSet(s: State, p: nat, prefix: string, mode: Mode)
    requires Finalized(s, prefix) && NothingToChange(s, prefix, mode) && p in s.procs
    ensures SameSet(s, Step(s, p, mode), prefix) && NothingToChange(Step(s, p, mode), prefix, mode)
  {
    if s.procs[p].Create? && s.procs[p].key.prefix == prefix { assert HarmlessCreate(s, s.procs[p], mode); }
    var t := Step(s, p, mode);
    forall q | q in t.procs && t.procs[q].Create? && t.procs[q].key.prefix == prefix
      ensures HarmlessCreate(t, t.procs[q], mode)
    {
      assert q != p && HarmlessCreate(s, s.procs[q], mode);
    }
  }

  lemma ActionOnFrozenSet(s: State, a: Action, prefix: string, mode: Mode)
    requires Finalized(s, prefix) && NothingToChange(s, prefix, mode)
    ensures SameSet(s, Apply(s, a, mode), prefix) && NothingToChange(Apply(s, a, mode), prefix, mode)
  {
    if a.Act? && a.p in s.procs {
      StepOnFrozenSet(s, a.p, prefix, mode);
    } else {
      var t := Apply(s, a, mode);
      forall q | q in t.procs && t.procs[q].Create? && t.procs[q].key.prefix == prefix
        ensures HarmlessCreate(t, t.procs[q], mode)
      {
        assert HarmlessCreate(s, s.procs[q], mode);
      }
    }
  }

  lemma {:induction false} RunOnFrozenSet(s: State, actions: seq<Action>, prefix: string, mode: Mode)
    requires Finalized(s, prefix) && NothingToChange(s, prefix, mode)
    ensures SameSet(s, Run(s, actions, mode), prefix)
    decreases |actions|
  {
    if actions != [] {
      var next := Apply(s, actions[0], mode);
      ActionOnFrozenSet(s, actions[0], prefix, mode);
      assert Key(prefix, MARKER) in next.objects;
      RunOnFrozenSet(next, actions[1..], prefix, mode);
    }
  }

  /** Exactly when the marker closes a set, in both kinds of store and for any number of callers: a
      finalized set keeps its members and their bytes in every continuation if and only if nobody is
      past a probe into it with something to change. */
  lemma FrozenExactlyWhen(s: State, prefix: string, mode: Mode)
    requires Finalized(s, prefix)
    ensures NothingToChange(s, prefix, mode) <==> Frozen(s, prefix, mode)
  {
    if NothingToChange(s, prefix, mode) {
      forall actions ensures SameSet(s, Run(s, actions, mode), prefix) { RunOnFrozenSet(s, actions, prefix, mode); }
    } else {
      var p :| p in s.procs && s.procs[p].Create? && s.procs[p].key.prefix == prefix
               && !HarmlessCreate(s, s.procs[p], mode);
      var t := Step(s, p, mode);
      assert Run(s, [Act(p)], mode) == Run(t, [Act(p)][1..], mode) == t;
      assert !SameSet(s, t, prefix);
    }
  }

  /** Nobody is past the probe of a put into this set. */
  ghost predicate NoPutUnderway(s: State, prefix: string) {
    forall p :: p in s.procs && s.procs[p].Create? ==> s.procs[p].key.prefix != prefix
  }

  /** In particular a finalized set without a put underway never gains or loses a member. */
  lemma FinalizedSetIsFrozen(s: State, actions: seq<Action>, k: Key)
    requires Finalized(s, k.prefix) && NoPutUnderway(s, k.prefix)
    ensures k in Run(s, actions, Conditional).objects <==> k in s.objects
    ensures k in s.objects ==> Run(s, actions, Conditional).objects[k] == s.objects[k]
  {
    FrozenExactlyWhen(s, k.prefix, Conditional);
    assert SameSet(s, Run(s, actions, Conditional), k.prefix);
  }

  /** Without that condition the marker does not close the set: a put that probed before the marker
      was there still creates its member afterwards. */
  lemma LateMemberAppears(prefix: string, name: string, data: Data) returns (s: State)
    requires name != MARKER
    ensures Reachable(s) && Finalized(s, prefix) && Key(prefix, name) !in s.objects
    ensures Key(prefix, name) in Apply(s, Act(1), Conditional).objects && !NothingToChange(s, prefix, Conditional)
  {
    assert Run(EMPTY, [], Conditional) == EMPTY;
    s := EMPTY;
    s := OneMore(s, Begin(1, PutSetMember(prefix, name, data)), Conditional);
    s := OneMore(s, Act(1), Conditional);
    s := OneMore(s, Begin(2, FinalizeSet(prefix)), Conditional);
    s := OneMore(s, Act(2), Conditional);
    s := OneMore(s, Act(2), Conditional);
  }

  ghost predicate ReachableIn(s: State, mode: Mode) {
    exists actions :: s == Run(EMPTY, actions, mode)
  }

  lemma {:induction false} RunOneMore(s: State, actions: seq<Action>, a: Action, mode: Mode)
    ensures Run(s, actions + [a], mode) == Apply(Run(s, actions, mode), a, mode)
    decreases |actions|
  {
    if actions == [] {
      assert (actions + [a])[1..] == [];
    } else {
      assert (actions + [a])[1..] == actions[1..] + [a];
      RunOneMore(Apply(s, actions[0], mode), actions[1..], a, mode);
    }
  }

  lemma OneMore(s: State, a: Action, mode: Mode) returns (t: State)
    requires ReachableIn(s, mode)
    ensures t == Apply(s, a, mode) && ReachableIn(t, mode) && (mode.Conditional? ==> Reachable(t))
  {
    var actions :| s == Run(EMPTY, actions, mode);
    RunOneMore(EMPTY, actions, a, mode);
    t := Apply(s, a, mode);
    assert t == Run(EMPTY, actions + [a], mode);
  }

  // -- the local file store ------------------------------------------------------------

  ghost predicate OnlyBy(actions: seq<Action>, p: nat) {
    forall i :: 0 <= i < |actions| ==> actions[i].p == p
  }

  ghost predicate Alone(s: State, p: nat) {
    forall q :: q in s.procs && q != p ==> s.procs[q].Idle?
  }

  /** Whoever is past a probe got there while the set is still not finalized. */
  ghost predicate ProbedOpen(s: State) {
    forall q :: q in s.procs && s.procs[q].Create? ==> !Finalized(s, s.procs[q].key.prefix)
  }

  /** Then overwriting is harmless, whoever calls from there on: the finalized set never changes. */
  lemma ProbedOpenKeepsFinalizedSets(s: State, actions: seq<Action>, k: Key)
    requires ProbedOpen(s) && Finalized(s, k.prefix)
    ensures var t := Run(s, actions, Overwriting);
            (k in t.objects <==> k in s.objects) && (k in s.objects ==> t.objects[k] == s.objects[k])
  {
    FrozenExactlyWhen(s, k.prefix, Overwriting);
    assert SameSet(s, Run(s, actions, Overwriting), k.prefix);
  }

  /** A single writer is never past a probe into a set that it finalized. */
  lemma {:induction false} SingleWriterStaysOpen(s: State, actions: seq<Action>, p: nat)
    requires Alone(s, p) && ProbedOpen(s) && OnlyBy(actions, p)
    ensures Alone(Run(s, actions, Overwriting), p) && ProbedOpen(Run(s, actions, Overwriting))
    decreases |actions|
  {
    if actions != [] {
      var next := Apply(s, actions[0], Overwriting);
      assert Alone(next, p) && ProbedOpen(next);
      assert OnlyBy(actions[1..], p);
      SingleWriterStaysOpen(next, actions[1..], p);
    }
  }

  /** So a set that a single writer finalized stays as it is, whoever else calls afterwards. */
  lemma SingleWriterKeepsFinalizedSets(before: seq<Action>, p: nat, after: seq<Action>, k: Key)
    requires OnlyBy(before, p) && Finalized(Run(EMPTY, before, Overwriting), k.prefix)
    ensures var s := Run(EMPTY, before, Overwriting);
            var t := Run(s, after, Overwriting);
            (k in t.objects <==> k in s.objects) && (k in s.objects ==> t.objects[k] == s.objects[k])
  {
    SingleWriterStaysOpen(EMPTY, before, p);
    ProbedOpenKeepsFinalizedSets(Run(EMPTY, before, Overwriting), after, k);
  }

  lemma BothProbed(key: Key, a: Data, b: Data) returns (s: State)
    requires key.name != MARKER
    ensures ReachableIn(s, Overwriting) && s == State(map[], map[1 := Create(key, b), 2 := Create(key, a)], {})
  {
    assert Run(EMPTY, [], Overwriting) == EMPTY;
    s := OneMore(EMPTY, Begin(1, PutSetMember(key.prefix, key.name, b)), Overwriting);
    s := OneMore(s, Act(1), Overwriting);
    s := OneMore(s, Begin(2, PutSetMember(key.prefix, key.name, a)), Overwriting);
    s := OneMore(s, Act(2), Overwriting);
  }

  lemma FirstFinalizes(key: Key, a: Data, b: Data) returns (s: State)
    requires key.name != MARKER
    ensures ReachableIn(s, Overwriting)
    ensures s.objects == map[key := a, Key(key.prefix, MARKER) := ""] && s.procs == map[1 := Create(key, b), 2 := Idle]
  {
    s := BothProbed(key, a, b);
    s := OneMore(s, Act(2), Overwriting);
    assert s.objects == map[key := a] && s.procs == map[1 := Create(key, b), 2 := Idle];
    s := OneMore(s, Begin(2, FinalizeSet(key.prefix)), Overwriting);
    s := OneMore(s, Act(2), Overwriting);
    s := OneMore(s, Act(2), Overwriting);
  }

  /** With a second writer it is not: bytes that a reader already got from a finalized set are
      replaced by the next step of a writer that probed too early. */
  lemma TwoWritersOverwrite(key: Key, a: Data, b: Data) returns (s: State)
    requires key.name != MARKER && a != b
    ensures ReachableIn(s, Overwriting) && ReadOk(key, a) in s.done && Finalized(s, key.prefix)
    ensures var t := Apply(s, Act(1), Overwriting); key in t.objects && t.objects[key] == b
    ensures !NothingToChange(s, key.prefix, Overwriting)
  {
    s := FirstFinalizes(key, a, b);
    s := OneMore(s, Begin(2, GetSetMember(key.prefix, key.name, None)), Overwriting);
    s := OneMore(s, Act(2), Overwriting);
    assert s.procs == map[1 := Create(key, b), 2 := Fetch(key, None)];
    s := OneMore(s, Act(2), Overwriting);
    assert PcOf(s, 1) == Create(key, b);
  }

  // -- the store as an object ------------------------------------------------------------

  datatype StoreError = ReservedName | AlreadyFinalized | WriteOnceConflict | NotFinalized | NotFound | Integrity

  /** One undisturbed call: the machine's steps of a single caller until it returns. */
  function Undisturbed(objects: map<Key, Data>, mode: Mode, call: Call): State {
    var s := Goto(State(objects, map[], {}), 0, Begun(call));
    Step(Step(Step(s, 0, mode), 0, mode), 0, mode)
  }

  class Store {
    var objects: map<Key, Data>
    const mode: Mode

    constructor (mode: Mode)
      ensures objects == map[] && this.mode == mode
    {
      this.mode := mode;
      objects := map[];
    }

    /** The create request: refused at an existing key, unless the store overwrites. */
    method PutBytes(key: Key, data: Data) returns (r: Result<(), StoreError>)
      modifies this
      ensures r.Failure? <==> mode.Conditional? && key in old(objects)
      ensures objects == if r.Success? then old(objects)[key := data] else old(objects)
      ensures r.Failure? ==> r.error == WriteOnceConflict
    {
      if mode.Conditional? && key in objects {
        return Failure(WriteOnceConflict);
      }
      objects := objects[key := data];
      return Success(());
    }

    /** Repeating the very same bytes is fine, anything else is a conflict. */
    method RawPut(key: Key, data: Data) returns (r: Result<(), StoreError>)
      modifies this
      ensures r.Success? <==> mode.Overwriting? || key !in old(objects) || old(objects)[key] == data
      ensures objects == if r.Success? then old(objects)[key := data] else old(objects)
    {
      r := PutBytes(key, data);
      if r.Failure? && objects[key] == data {
        assert objects == objects[key := data];
        r := Success(());
      }
    }

    method PutSetMember(prefix: string, name: string, data: Data) returns (r: Result<(), StoreError>)
      modifies this
      ensures var t := Undisturbed(old(objects), mode, Call.PutSetMember(prefix, name, data));
              objects == t.objects && PcOf(t, 0).Idle? && (r.Success? <==> PutOk(Key(prefix, name), data) in t.done)
      ensures var key := Key(prefix, name);
              && (r.Success? <==>
                    && name != "_FINALIZED" && Key(prefix, "_FINALIZED") !in old(objects)
                    && (mode.Overwriting? || key !in old(objects) || old(objects)[key] == data))
              && objects == if r.Success? then old(objects)[key := data] else old(objects)
    {
      if name == MARKER {
        return Failure(ReservedName);
      }
      if Key(prefix, MARKER) in objects {
        return Failure(AlreadyFinalized);
      }
      r := RawPut(Key(prefix, name), data);
    }

    method FinalizeSet(prefix: string) returns (r: Result<(), StoreError>)
      modifies this
      ensures var t := Undisturbed(old(objects), mode, Call.FinalizeSet(prefix));
              objects == t.objects && PcOf(t, 0).Idle? && r.Success? && Key(prefix, MARKER) in objects
      ensures objects == if Key(prefix, "_FINALIZED") in old(objects) then old(objects)
                         else old(objects)[Key(prefix, "_FINALIZED") := ""]
    {
      if Key(prefix, MARKER) in objects {
        return Success(());
      }
      r := RawPut(Key(prefix, MARKER), "");
    }

    method GetSetMember(prefix: string, name: string, expected: Option<Data>) returns (r: Result<Data, StoreError>)
      ensures var t := Undisturbed(objects, mode, Call.GetSetMember(prefix, name, expected));
              t.objects == objects && PcOf(t, 0).Idle?
              && (r.Success? ==> ReadOk(Key(prefix, name), r.value) in t.done) && (r.Failure? ==> t.done == {})
      ensures r.Failure? && r.error == NotFinalized <==> Key(prefix, MARKER) !in objects
      ensures var key := Key(prefix, name);
              && (r.Success? <==> && Key(prefix, "_FINALIZED") in objects && key in objects
                                  && (expected.None? || objects[key] == expected.value))
              && (r.Success? ==> r.value == objects[key])
    {
      if Key(prefix, MARKER) !in objects {
        return Failure(NotFinalized);
      }
      var key := Key(prefix, name);
      if key !in objects {
        return Failure(NotFound);
      }
      if expected.Some? && objects[key] != expected.value {
        return Failure(Integrity);
      }
      return Success(objects[key]);
    }
  }
}
