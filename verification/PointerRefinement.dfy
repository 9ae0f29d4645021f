/** The finalizers of `PointerBinding` are callers of `SetStore`: every run of them is a run of puts,
    reads and finalizations, one prefix an epoch (`epoch_prefix` in vidaio/authority/finalizer.py), so
    what holds of the set convention holds of their log files. */
module PointerRefinement {
  import opened Wrappers
  import P = PointerBinding
  import S = SetStore

  // -- keys ------------------------------------------------------------------------------

  const LOG := "log.json"

  function SetOf(e: int): string { "finalized/epoch=" + P.Decimal(e) }

  function Member(e: int): S.Key { S.Key(SetOf(e), LOG) }

  function Marker(e: int): S.Key { S.Key(SetOf(e), S.MARKER) }

  /** `set_member_key`. */
  function Path(k: S.Key): string { k.prefix + "/" + k.name }

  /** The number that a string of digits reads as. */
  function ReadDigits(s: string): int {
    if s == [] then 0 else 10 * ReadDigits(s[..|s| - 1]) + (s[|s| - 1] as int - '0' as int)
  }

  lemma {:induction false} DigitsReadBack(n: nat)
    ensures ReadDigits(P.Decimal(n)) == n && P.Decimal(n) != [] && P.Decimal(n)[0] != '-'
    decreases n
  {
    if n < 10 {
      assert P.Decimal(n)[..0] == [];
    } else {
      DigitsReadBack(n / 10);
      var last := P.Decimal(n % 10);
      assert |last| == 1;
      assert P.Decimal(n)[..|P.Decimal(n)| - 1] == P.Decimal(n / 10);
    }
  }

  /** No two epochs share a set. */
  lemma SetsDiffer(a: int, b: int)
    requires SetOf(a) == SetOf(b)
    ensures a == b
  {
    var da, db := P.Decimal(a), P.Decimal(b);
    assert SetOf(a)[|"finalized/epoch="|..] == da && SetOf(b)[|"finalized/epoch="|..] == db;
    DigitsReadBack(if a < 0 then -a else a);
    DigitsReadBack(if b < 0 then -b else b);
    if a < 0 && b < 0 { assert da[1..] == P.Decimal(-a) && db[1..] == P.Decimal(-b); }
  }

  // -- the simulation ----------------------------------------------------------------------

  /** The bytes of a log determine it. */
  ghost predicate Injective(bytes: P.Document -> S.Data) {
    forall a, b :: bytes(a) == bytes(b) ==> a == b
  }

  /** What a finalizer is doing at the store. */
  function Shown(pc: P.Pc, bytes: P.Document -> S.Data): S.Pc {
    match pc
    case Idle => S.Pc.Idle
    case Probe(_) => S.Pc.Idle
    case ReProbe(e) => S.ProbeToGet(Member(e), None)
    case ReFetch(e) => S.Fetch(Member(e), None)
    case ProbeToPut(doc) => S.Pc.ProbeToPut(Member(doc.epochId), bytes(doc))
    case CreateMember(doc) => S.Create(Member(doc.epochId), bytes(doc))
    case CompareMember(doc) => S.Compare(Member(doc.epochId), bytes(doc))
    case ProbeToMark(doc) => S.ProbeToFinalize(SetOf(doc.epochId))
    case CreateMarker(doc) => S.Create(Marker(doc.epochId), "")
    case Record(_) => S.Pc.Idle
  }

  /** Log and marker of an epoch are what is stored under its keys. */
  ghost predicate EpochAgrees(s: P.State, u: S.State, bytes: P.Document -> S.Data, e: int) {
    && (Member(e) in u.objects <==> e in s.logs)
    && (e in s.logs ==> u.objects[Member(e)] == bytes(s.logs[e]))
    && (Marker(e) in u.objects <==> e in s.markers)
    && (e in s.markers ==> u.objects[Marker(e)] == "")
  }

  ghost predicate CallerAgrees(s: P.State, u: S.State, bytes: P.Document -> S.Data, p: nat) {
    S.PcOf(u, p) == Shown(P.PcOf(s, p), bytes)
  }

  ghost predicate Agrees(s: P.State, u: S.State, bytes: P.Document -> S.Data) {
    (forall e :: EpochAgrees(s, u, bytes, e)) && (forall p :: CallerAgrees(s, u, bytes, p))
  }

  /** The requests that one action of a finalizer makes. */
  function Requests(s: P.State, a: P.Action, bytes: P.Document -> S.Data): seq<S.Action> {
    match a
    case Begin(_, _) => []
    case Other(_) => []
    case Crash(p) => [S.Action.Crash(p)]
    case Act(p) =>
      (match P.PcOf(s, p)
       case Idle => []
       case Record(_) => []
       case Probe(doc) =>
         var e := doc.epochId;
         [S.Action.Begin(p, if e in s.markers then S.GetSetMember(SetOf(e), LOG, None)
                            else S.PutSetMember(SetOf(e), LOG, bytes(doc)))]
       case CreateMember(doc) =>
         if doc.epochId in s.logs then [S.Action.Act(p)] else ThenFinalize(p, doc.epochId)
       case CompareMember(doc) =>
         if doc.epochId in s.logs && s.logs[doc.epochId] == doc then ThenFinalize(p, doc.epochId)
         else [S.Action.Act(p)]
       case CreateMarker(doc) =>
         if doc.epochId in s.markers then [S.Action.Act(p), S.Action.Act(p)] else [S.Action.Act(p)]
       case _ => [S.Action.Act(p)])
  }

  function ThenFinalize(p: nat, e: int): seq<S.Action> {
    [S.Action.Act(p), S.Action.Begin(p, S.FinalizeSet(SetOf(e)))]
  }

  function Obeyed(u: S.State, a: S.Action): S.State { S.Apply(u, a, S.Conditional) }

  lemma RunOne(u: S.State, a: S.Action)
    ensures S.Run(u, [a], S.Conditional) == Obeyed(u, a)
  {
    assert [a][1..] == [];
  }

  lemma RunTwo(u: S.State, a: S.Action, b: S.Action)
    ensures S.Run(u, [a, b], S.Conditional) == Obeyed(Obeyed(u, a), b)
  {
    assert [a, b][1..] == [b];
    RunOne(Obeyed(u, a), b);
  }

  /** One caller moves and nothing is written. */
  lemma MoveAgrees(s: P.State, u: S.State, t: P.State, v: S.State, p: nat, bytes: P.Document -> S.Data)
    requires Agrees(s, u, bytes) && t.logs == s.logs && t.markers == s.markers && v.objects == u.objects
    requires t.procs == s.procs[p := P.PcOf(t, p)] && v.procs == u.procs[p := S.PcOf(v, p)]
    requires S.PcOf(v, p) == Shown(P.PcOf(t, p), bytes)
    ensures Agrees(t, v, bytes)
  {
    forall e ensures EpochAgrees(t, v, bytes, e) { assert EpochAgrees(s, u, bytes, e); }
    forall q ensures CallerAgrees(t, v, bytes, q) { assert CallerAgrees(s, u, bytes, q); }
  }

  /** A finalizer moves between two points at which it is in no call of the store. */
  lemma RestAgrees(s: P.State, u: S.State, t: P.State, p: nat, bytes: P.Document -> S.Data)
    requires Agrees(s, u, bytes) && t.logs == s.logs && t.markers == s.markers
    requires t.procs == s.procs[p := P.PcOf(t, p)]
    requires Shown(P.PcOf(t, p), bytes) == Shown(P.PcOf(s, p), bytes) == S.Pc.Idle
    ensures Agrees(t, u, bytes)
  {
    forall e ensures EpochAgrees(t, u, bytes, e) { assert EpochAgrees(s, u, bytes, e); }
    forall q ensures CallerAgrees(t, u, bytes, q) { assert CallerAgrees(s, u, bytes, q); }
  }

  /** The store is not the index. */
  lemma IndexAgrees(s: P.State, u: S.State, t: P.State, bytes: P.Document -> S.Data)
    requires Agrees(s, u, bytes) && t == s.(db := t.db)
    ensures Agrees(t, u, bytes)
  {
    forall e ensures EpochAgrees(t, u, bytes, e) { assert EpochAgrees(s, u, bytes, e); }
    forall q ensures CallerAgrees(t, u, bytes, q) { assert CallerAgrees(s, u, bytes, q); }
  }

  /** The log of an epoch is written. */
  lemma WriteAgrees(s: P.State, u: S.State, t: P.State, v: S.State, doc: P.Document, bytes: P.Document -> S.Data)
    requires Agrees(s, u, bytes) && t == s.(logs := s.logs[doc.epochId := doc])
    requires v == u.(objects := u.objects[Member(doc.epochId) := bytes(doc)])
    ensures Agrees(t, v, bytes)
  {
    forall e ensures EpochAgrees(t, v, bytes, e) {
      if Member(e) == Member(doc.epochId) { SetsDiffer(e, doc.epochId); }
      assert EpochAgrees(s, u, bytes, e);
    }
    forall q ensures CallerAgrees(t, v, bytes, q) { assert CallerAgrees(s, u, bytes, q); }
  }

  /** The marker of an epoch is written. */
  lemma MarkAgrees(s: P.State, u: S.State, t: P.State, v: S.State, e: int, bytes: P.Document -> S.Data)
    requires Agrees(s, u, bytes) && t == s.(markers := s.markers + {e})
    requires v == u.(objects := u.objects[Marker(e) := ""])
    ensures Agrees(t, v, bytes)
  {
    forall x ensures EpochAgrees(t, v, bytes, x) {
      if Marker(x) == Marker(e) { SetsDiffer(x, e); }
      assert EpochAgrees(s, u, bytes, x);
    }
    forall q ensures CallerAgrees(t, v, bytes, q) { assert CallerAgrees(s, u, bytes, q); }
  }

  lemma CreateMemberAgrees(s: P.State, u: S.State, p: nat, doc: P.Document, bytes: P.Document -> S.Data)
    requires Agrees(s, u, bytes) && P.PcOf(s, p) == P.CreateMember(doc)
    ensures Agrees(P.Step(s, p), S.Run(u, Requests(s, P.Act(p), bytes), S.Conditional), bytes)
  {
    var v := Obeyed(u, S.Action.Act(p));
    assert CallerAgrees(s, u, bytes, p) && EpochAgrees(s, u, bytes, doc.epochId);
    if doc.epochId in s.logs {
      RunOne(u, S.Action.Act(p));
      MoveAgrees(s, u, P.Step(s, p), v, p, bytes);
    } else {
      var finalize := S.Action.Begin(p, S.FinalizeSet(SetOf(doc.epochId)));
      RunTwo(u, S.Action.Act(p), finalize);
      var written := s.(logs := s.logs[doc.epochId := doc]);
      var there := u.(objects := u.objects[Member(doc.epochId) := bytes(doc)]);
      WriteAgrees(s, u, written, there, doc, bytes);
      MoveAgrees(written, there, P.Step(s, p), Obeyed(v, finalize), p, bytes);
    }
  }

  lemma CompareMemberAgrees(s: P.State, u: S.State, p: nat, doc: P.Document, bytes: P.Document -> S.Data)
    requires Agrees(s, u, bytes) && P.PcOf(s, p) == P.CompareMember(doc) && Injective(bytes)
    ensures Agrees(P.Step(s, p), S.Run(u, Requests(s, P.Act(p), bytes), S.Conditional), bytes)
  {
    var v := Obeyed(u, S.Action.Act(p));
    assert CallerAgrees(s, u, bytes, p) && EpochAgrees(s, u, bytes, doc.epochId);
    if doc.epochId in s.logs && s.logs[doc.epochId] == doc {
      var finalize := S.Action.Begin(p, S.FinalizeSet(SetOf(doc.epochId)));
      RunTwo(u, S.Action.Act(p), finalize);
      MoveAgrees(s, u, P.Step(s, p), Obeyed(v, finalize), p, bytes);
    } else {
      RunOne(u, S.Action.Act(p));
      MoveAgrees(s, u, P.Step(s, p), v, p, bytes);
    }
  }

  lemma CreateMarkerAgrees(s: P.State, u: S.State, p: nat, doc: P.Document, bytes: P.Document -> S.Data)
    requires Agrees(s, u, bytes) && P.PcOf(s, p) == P.CreateMarker(doc)
    ensures Agrees(P.Step(s, p), S.Run(u, Requests(s, P.Act(p), bytes), S.Conditional), bytes)
  {
    var e, v := doc.epochId, Obeyed(u, S.Action.Act(p));
    assert CallerAgrees(s, u, bytes, p) && EpochAgrees(s, u, bytes, e);
    if e in s.markers {
      RunTwo(u, S.Action.Act(p), S.Action.Act(p));
      assert s.markers + {e} == s.markers;
      MoveAgrees(s, u, P.Step(s, p), Obeyed(v, S.Action.Act(p)), p, bytes);
    } else {
      RunOne(u, S.Action.Act(p));
      var marked, there := s.(markers := s.markers + {e}), u.(objects := u.objects[Marker(e) := ""]);
      MarkAgrees(s, u, marked, there, e, bytes);
      MoveAgrees(marked, there, P.Step(s, p), v, p, bytes);
    }
  }

  /** A probe of the marker or a read: at most the caller moves. */
  lemma LookAgrees(s: P.State, u: S.State, p: nat, e: int, bytes: P.Document -> S.Data)
    requires Agrees(s, u, bytes)
    requires match P.PcOf(s, p)
             case Probe(doc) => true
             case ReProbe(x) => x == e
             case ReFetch(x) => true
             case ProbeToPut(doc) => doc.epochId == e
             case ProbeToMark(doc) => doc.epochId == e
             case _ => false
    ensures Agrees(P.Step(s, p), S.Run(u, Requests(s, P.Act(p), bytes), S.Conditional), bytes)
  {
    var request := Requests(s, P.Act(p), bytes)[0];
    assert Requests(s, P.Act(p), bytes) == [request];
    assert CallerAgrees(s, u, bytes, p) && EpochAgrees(s, u, bytes, e);
    RunOne(u, request);
    MoveAgrees(s, u, P.Step(s, p), S.Run(u, [request], S.Conditional), p, bytes);
  }

  lemma StepAgrees(s: P.State, u: S.State, p: nat, bytes: P.Document -> S.Data)
    requires Agrees(s, u, bytes) && Injective(bytes)
    ensures Agrees(P.Step(s, p), S.Run(u, Requests(s, P.Act(p), bytes), S.Conditional), bytes)
  {
    match P.PcOf(s, p)
    case Idle =>
    case Record(_) => RestAgrees(s, u, P.Step(s, p), p, bytes);
    case CreateMember(doc) => CreateMemberAgrees(s, u, p, doc, bytes);
    case CompareMember(doc) => CompareMemberAgrees(s, u, p, doc, bytes);
    case CreateMarker(doc) => CreateMarkerAgrees(s, u, p, doc, bytes);
    case Probe(doc) => LookAgrees(s, u, p, doc.epochId, bytes);
    case ReProbe(e) => LookAgrees(s, u, p, e, bytes);
    case ReFetch(e) => LookAgrees(s, u, p, e, bytes);
    case ProbeToPut(doc) => LookAgrees(s, u, p, doc.epochId, bytes);
    case ProbeToMark(doc) => LookAgrees(s, u, p, doc.epochId, bytes);
  }

  /** Every action of the finalizers is a run of the set convention, mostly of one request or none. */
  lemma ActionAgrees(s: P.State, u: S.State, a: P.Action, bytes: P.Document -> S.Data)
    requires Agrees(s, u, bytes) && Injective(bytes)
    ensures Agrees(P.Apply(s, a), S.Run(u, Requests(s, a, bytes), S.Conditional), bytes)
  {
    match a
    case Act(p) => StepAgrees(s, u, p, bytes);
    case Crash(p) =>
      RunOne(u, S.Action.Crash(p));
      MoveAgrees(s, u, P.Apply(s, a), Obeyed(u, S.Action.Crash(p)), p, bytes);
    case Begin(p, doc) =>
      if P.PcOf(s, p).Idle? { RestAgrees(s, u, P.Apply(s, a), p, bytes); }
    case Other(st) => IndexAgrees(s, u, P.Apply(s, a), bytes);
  }

  lemma {:induction false} RunJoins(u: S.State, a: seq<S.Action>, b: seq<S.Action>)
    ensures S.Run(u, a + b, S.Conditional) == S.Run(S.Run(u, a, S.Conditional), b, S.Conditional)
    decreases |a|
  {
    if a == [] {
      assert a + b == b;
    } else {
      assert (a + b)[0] == a[0] && (a + b)[1..] == a[1..] + b;
      RunJoins(Obeyed(u, a[0]), a[1..], b);
    }
  }

  function AllRequests(s: P.State, actions: seq<P.Action>, bytes: P.Document -> S.Data): seq<S.Action>
    decreases |actions|
  {
    if actions == [] then []
    else Requests(s, actions[0], bytes) + AllRequests(P.Apply(s, actions[0]), actions[1..], bytes)
  }

  lemma {:induction false} RunAgrees(s: P.State, u: S.State, actions: seq<P.Action>, bytes: P.Document -> S.Data)
    requires Agrees(s, u, bytes) && Injective(bytes)
    ensures Agrees(P.Run(s, actions), S.Run(u, AllRequests(s, actions, bytes), S.Conditional), bytes)
    decreases |actions|
  {
    if actions != [] {
      var now, next := Requests(s, actions[0], bytes), P.Apply(s, actions[0]);
      ActionAgrees(s, u, actions[0], bytes);
      RunAgrees(next, S.Run(u, now, S.Conditional), actions[1..], bytes);
      RunJoins(u, now, AllRequests(next, actions[1..], bytes));
    }
  }

  /** Every reachable state of the finalizers, with crashes and retries, is one of the set convention:
      logs are members, markers are markers, and every finalizer is inside the call it makes. */
  lemma RefinesSetStore(s: P.State, bytes: P.Document -> S.Data)
    requires P.Reachable(s) && Injective(bytes)
    ensures exists u :: S.Reachable(u) && Agrees(s, u, bytes)
  {
    var actions :| s == P.Run(P.EMPTY, actions);
    RunAgrees(P.EMPTY, S.EMPTY, actions, bytes);
    var requests := AllRequests(P.EMPTY, actions, bytes);
    assert S.Reachable(S.Run(S.EMPTY, requests, S.Conditional));
  }

  /** So the pointer of an indexed epoch is that of the bytes that every reader of its set gets, at any
      later time and whoever else uses the store. */
  lemma ReadersGetTheIndexedLog(s: P.State, u: S.State, later: seq<S.Action>, e: int, bytes: P.Document -> S.Data)
    requires P.Reachable(s) && S.Reachable(u) && Agrees(s, u, bytes) && e in s.db.epochs
    ensures var v := S.Run(u, later, S.Conditional);
            && e in s.logs && s.db.epochs[e].pointer == P.PointerOf(s.logs[e])
            && s.db.epochs[e].pointer.snapshotKey == Path(Member(e))
            && S.Finalized(v, SetOf(e)) && Member(e) in v.objects && v.objects[Member(e)] == bytes(s.logs[e])
  {
    P.PointerBindsStoredBytes(s, [], e);
    assert EpochAgrees(s, u, bytes, e);
    S.MembersNeverChange(u, later, Member(e));
    S.MembersNeverChange(u, later, Marker(e));
  }
}
