/** The update state machine (`Autoupdater` in vidaio/autoupdater/service.py): polls, the CI gate, the
    bounded retry envelope, the persisted version and restarts. What the version source, the CI gate,
    the update command, the disk and a shutdown do are parameters of each event. */
module Autoupdater {
  import opened Wrappers
  import opened VersionOrder

  datatype Config = Config(allowDowngrade: bool, hasCommand: bool, requireCi: bool, retryAttempts: nat)

  /** One attempt: the CI verification before it, the command, whether the state file could be
      written afterwards, and whether a shutdown came while waiting for the next attempt. */
  datatype Attempt = Attempt(ci: bool, ok: bool, written: bool, stopping: bool)

  /** The fields of the object, the state file, and the versions the command was run for. */
  datatype Memory = Memory(
    lastApplied: Option<string>, pending: Option<string>, failed: Option<string>, refused: Option<string>,
    stateFile: Option<string>, ran: seq<string>)

  datatype Event =
    | Poll(observed: Option<string>, gate: bool, attempts: nat -> Attempt, written: bool)
    | Restart(localVersion: Option<string>)

  // -- the transitions ------------------------------------------------------------------

  function Persisted(m: Memory, version: string, written: bool): Memory {
    if written then m.(stateFile := Some(version)) else m
  }

  /** `_apply_update` from attempt `n` (counted from 0) on. */
  function Applied(cfg: Config, m: Memory, version: string, attempts: nat -> Attempt, n: nat): Memory
    decreases cfg.retryAttempts - n
  {
    if n >= cfg.retryAttempts then m.(failed := Some(version))
    else
      var a := attempts(n);
      if cfg.requireCi && !a.ci then m
      else
        var m' := m.(ran := m.ran + [version]);
        if a.ok then
          Persisted(m'.(lastApplied := Some(version), pending := None, failed := None, refused := None),
                    version, a.written)
        else if n + 1 < cfg.retryAttempts && a.stopping then m'
        else Applied(cfg, m', version, attempts, n + 1)
  }

  function Polled(cfg: Config, m: Memory, observed: Option<string>, gate: bool, attempts: nat -> Attempt,
                  written: bool): Memory {
    if observed.None? then m
    else
      var v := observed.value;
      if m.lastApplied.None? then Persisted(m.(lastApplied := Some(v)), v, written)
      else if v == m.lastApplied.value then m.(pending := None)
      else if Compare(v, m.lastApplied.value) < 0 && !cfg.allowDowngrade then m.(refused := Some(v))
      else
        var m' := m.(pending := Some(v));
        if !cfg.hasCommand || m.failed == Some(v) || (cfg.requireCi && !gate) then m'
        else Applied(cfg, m', v, attempts, 0)
  }

  /** A new process: the state file if there is one, else the version file of the deployment. */
  function Restarted(m: Memory, localVersion: Option<string>): Memory {
    Memory(if m.stateFile.Some? then m.stateFile else localVersion, None, None, None, m.stateFile, m.ran)
  }

  function Happens(cfg: Config, m: Memory, e: Event): Memory {
    match e
    case Poll(observed, gate, attempts, written) => Polled(cfg, m, observed, gate, attempts, written)
    case Restart(localVersion) => Restarted(m, localVersion)
  }

  function Run(cfg: Config, m: Memory, events: seq<Event>): Memory
    decreases |events|
  {
    if events == [] then m else Run(cfg, Happens(cfg, m, events[0]), events[1..])
  }

  // -- the object ---------------------------------------------------------------------------

  class Updater {
    const cfg: Config
    var lastApplied: Option<string>
    var pending: Option<string>
    var failed: Option<string>
    var refused: Option<string>
    var stateFile: Option<string>
    var ran: seq<string>

    function Content(): Memory
      reads this
    {
      Memory(lastApplied, pending, failed, refused, stateFile, ran)
    }

    constructor (cfg: Config, state: Option<string>, localVersion: Option<string>)
      ensures this.cfg == cfg
      ensures Content() == Restarted(Memory(None, None, None, None, state, []), localVersion)
    {
      this.cfg := cfg;
      stateFile, ran := state, [];
      lastApplied := if state.Some? then state else localVersion;
      pending, failed, refused := None, None, None;
    }

    method PersistState(version: string, written: bool)
      modifies this`stateFile
      ensures Content() == Persisted(old(Content()), version, written)
    {
      if written {
        stateFile := Some(version);
      }
    }

    method PollOnce(observed: Option<string>, gate: bool, attempts: nat -> Attempt, written: bool)
      modifies this
      ensures Content() == Polled(cfg, old(Content()), observed, gate, attempts, written)
    {
      if observed.None? {
        return;
      }
      var v := observed.value;
      if lastApplied.None? {
        lastApplied := Some(v);
        PersistState(v, written);
        return;
      }
      if v == lastApplied.value {
        pending := None;
        return;
      }
      var direction := CompareVersions(v, lastApplied.value);
      if direction < 0 && !cfg.allowDowngrade {
        refused := Some(v);
        return;
      }
      pending := Some(v);
      if !cfg.hasCommand {
        return;
      }
      if failed == Some(v) {
        return;
      }
      if cfg.requireCi && !gate {
        return;
      }
      ApplyUpdate(v, attempts);
    }

    method ApplyUpdate(version: string, attempts: nat -> Attempt)
      modifies this
      ensures Content() == Applied(cfg, old(Content()), version, attempts, 0)
    {
      var n := 0;
      while n < cfg.retryAttempts
        invariant n <= cfg.retryAttempts
        invariant Applied(cfg, Content(), version, attempts, n) == Applied(cfg, old(Content()), version, attempts, 0)
      {
        var a := attempts(n);
        if cfg.requireCi && !a.ci {
          return;
        }
        ran := ran + [version];
        if a.ok {
          lastApplied, pending, failed, refused := Some(version), None, None, None;
          PersistState(version, a.written);
          return;
        }
        if n + 1 < cfg.retryAttempts && a.stopping {
          return;
        }
        n := n + 1;
      }
      failed := Some(version);
    }
  }

  // -- no way down ------------------------------------------------------------------------------

  predicate AtLeast(later: Option<string>, earlier: Option<string>) {
    earlier.Some? ==> later.Some? && Compare(later.value, earlier.value) >= 0
  }

  /** What is persisted is never above what runs. */
  predicate Inv(m: Memory) { AtLeast(m.lastApplied, m.stateFile) }

  lemma AtLeastChains(a: Option<string>, b: Option<string>, c: Option<string>)
    requires AtLeast(b, a) && AtLeast(c, b)
    ensures AtLeast(c, a)
  {
    if a.Some? {
      CompareIsTotal(a.value, b.value);
      CompareIsTotal(b.value, c.value);
      CompareIsTotal(a.value, c.value);
      CompareIsTransitive(a.value, b.value, c.value);
    }
  }

  lemma AtLeastItself(a: Option<string>)
    ensures AtLeast(a, a)
  {
    if a.Some? { CompareIsTotal(a.value, a.value); }
  }

  lemma {:induction false} ApplyGoesUp(cfg: Config, m: Memory, version: string, attempts: nat -> Attempt, n: nat)
    requires Inv(m) && AtLeast(Some(version), m.lastApplied)
    ensures var t := Applied(cfg, m, version, attempts, n);
            Inv(t) && AtLeast(t.stateFile, m.stateFile) && AtLeast(t.lastApplied, m.lastApplied)
    decreases cfg.retryAttempts - n
  {
    AtLeastItself(m.stateFile);
    AtLeastItself(m.lastApplied);
    AtLeastItself(Some(version));
    AtLeastChains(m.stateFile, m.lastApplied, Some(version));
    if n < cfg.retryAttempts && !(cfg.requireCi && !attempts(n).ci) && !attempts(n).ok {
      ApplyGoesUp(cfg, m.(ran := m.ran + [version]), version, attempts, n + 1);
    }
  }

  lemma PollGoesUp(cfg: Config, m: Memory, observed: Option<string>, gate: bool, attempts: nat -> Attempt,
                   written: bool)
    requires Inv(m) && !cfg.allowDowngrade
    ensures var t := Polled(cfg, m, observed, gate, attempts, written);
            Inv(t) && AtLeast(t.stateFile, m.stateFile) && AtLeast(t.lastApplied, m.lastApplied)
  {
    AtLeastItself(m.stateFile);
    AtLeastItself(m.lastApplied);
    AtLeastItself(observed);
    if observed.Some? && m.lastApplied.Some? && Compare(observed.value, m.lastApplied.value) >= 0 {
      ApplyGoesUp(cfg, m.(pending := observed), observed.value, attempts, 0);
    }
  }

  /** With downgrades off the persisted version never goes down: over any run of polls, failed
      attempts, failed writes, withdrawn pushes and restarts. */
  lemma {:induction false} PersistedNeverGoesDown(cfg: Config, m: Memory, events: seq<Event>)
    requires Inv(m) && !cfg.allowDowngrade
    ensures Inv(Run(cfg, m, events)) && AtLeast(Run(cfg, m, events).stateFile, m.stateFile)
    decreases |events|
  {
    AtLeastItself(m.stateFile);
    if events != [] {
      var next := Happens(cfg, m, events[0]);
      match events[0] {
        case Poll(observed, gate, attempts, written) => PollGoesUp(cfg, m, observed, gate, attempts, written);
        case Restart(localVersion) =>
      }
      PersistedNeverGoesDown(cfg, next, events[1..]);
      AtLeastChains(m.stateFile, next.stateFile, Run(cfg, next, events[1..]).stateFile);
    }
  }

  /** So it is from the first start of a process on, between any two moments of its history: whatever
      state and version files it finds, and whatever happened before the earlier moment. */
  lemma NeverDownBetweenAnyTwoMoments(cfg: Config, state: Option<string>, localVersion: Option<string>,
                                      before: seq<Event>, after: seq<Event>)
    requires !cfg.allowDowngrade
    ensures var m := Run(cfg, Restarted(Memory(None, None, None, None, state, []), localVersion), before);
            AtLeast(m.stateFile, state) && AtLeast(Run(cfg, m, after).stateFile, m.stateFile)
  {
    var first := Restarted(Memory(None, None, None, None, state, []), localVersion);
    AtLeastItself(state);
    PersistedNeverGoesDown(cfg, first, before);
    PersistedNeverGoesDown(cfg, Run(cfg, first, before), after);
  }

  // -- never on first sight, never without CI, never twice in vain ------------------------------------

  /** A process that knows no version and polls a source that has none yet. */
  predicate Blind(e: Event) {
    match e
    case Poll(observed, _, _, _) => observed.None?
    case Restart(localVersion) => localVersion.None?
  }

  lemma {:induction false} BlindChangesNothing(cfg: Config, m: Memory, events: seq<Event>)
    requires m.lastApplied.None? && m.stateFile.None? && forall i :: 0 <= i < |events| ==> Blind(events[i])
    ensures Run(cfg, m, events).lastApplied.None? && Run(cfg, m, events).stateFile.None?
    ensures Run(cfg, m, events).ran == m.ran
    decreases |events|
  {
    if events != [] {
      assert Blind(events[0]);
      BlindChangesNothing(cfg, Happens(cfg, m, events[0]), events[1..]);
    }
  }

  /** Without any baseline the first observation is adopted and persisted, and no command has run. */
  lemma FirstSightAdopts(cfg: Config, blind: seq<Event>, version: string, gate: bool, attempts: nat -> Attempt,
                         local: Option<string>)
    requires forall i :: 0 <= i < |blind| ==> Blind(blind[i])
    ensures var m := Run(cfg, Memory(None, None, None, None, None, []), blind);
            var t := Happens(cfg, m, Poll(Some(version), gate, attempts, true));
            && t.ran == [] && t.lastApplied == Some(version) && t.stateFile == Some(version)
            && Restarted(t, local).lastApplied == Some(version)
  {
    BlindChangesNothing(cfg, Memory(None, None, None, None, None, []), blind);
  }

  /** The commands that one poll runs: at most the retry budget, all for the observed version, each
      right after a CI pass if that is required, and none if the version is what runs already, is
      refused as a downgrade, or has failed for good. */
  lemma CommandsOfAPoll(cfg: Config, m: Memory, observed: Option<string>, gate: bool, attempts: nat -> Attempt,
                        written: bool)
    ensures var t := Polled(cfg, m, observed, gate, attempts, written);
            && m.ran <= t.ran && |t.ran| - |m.ran| <= cfg.retryAttempts
            && (m.ran < t.ran ==>
                  && cfg.hasCommand && observed.Some? && m.lastApplied.Some? && observed != m.lastApplied
                  && observed != m.failed && (cfg.allowDowngrade || Compare(observed.value, m.lastApplied.value) >= 0)
                  && (cfg.requireCi ==> gate))
            && (forall i :: |m.ran| <= i < |t.ran| ==> Some(t.ran[i]) == observed)
            && (cfg.requireCi ==> forall i :: 0 <= i < |t.ran| - |m.ran| ==> attempts(i).ci)
            && (forall i :: 0 <= i < |t.ran| - |m.ran| - 1 ==> !attempts(i).ok && !attempts(i).stopping)
  {
    if observed.Some? {
      CommandsOfApply(cfg, m.(pending := observed), observed.value, attempts, 0);
    }
  }

  lemma {:induction false} CommandsOfApply(cfg: Config, m: Memory, version: string, attempts: nat -> Attempt, n: nat)
    requires n <= cfg.retryAttempts
    ensures var t := Applied(cfg, m, version, attempts, n);
            && m.ran <= t.ran && |t.ran| - |m.ran| <= cfg.retryAttempts - n
            && (forall i :: |m.ran| <= i < |t.ran| ==> t.ran[i] == version)
            && (cfg.requireCi ==> forall i :: n <= i < n + |t.ran| - |m.ran| ==> attempts(i).ci)
            && (forall i :: n <= i < n + |t.ran| - |m.ran| - 1 ==> !attempts(i).ok && !attempts(i).stopping)
    decreases cfg.retryAttempts - n
  {
    if n < cfg.retryAttempts && !(cfg.requireCi && !attempts(n).ci) && !attempts(n).ok
       && !(n + 1 < cfg.retryAttempts && attempts(n).stopping)
    {
      CommandsOfApply(cfg, m.(ran := m.ran + [version]), version, attempts, n + 1);
    }
  }

  /** A version is only marked failed after the whole budget was spent on it. */
  lemma {:induction false} FailedMeansBudgetSpent(cfg: Config, m: Memory, version: string, attempts: nat -> Attempt,
                                                  n: nat)
    requires n <= cfg.retryAttempts && m.failed != Some(version)
    ensures var t := Applied(cfg, m, version, attempts, n);
            t.failed == Some(version) <==>
              forall i :: n <= i < cfg.retryAttempts ==>
                && (cfg.requireCi ==> attempts(i).ci) && !attempts(i).ok
                && !(i + 1 < cfg.retryAttempts && attempts(i).stopping)
    decreases cfg.retryAttempts - n
  {
    if n < cfg.retryAttempts { FailedMeansBudgetSpent(cfg, m.(ran := m.ran + [version]), version, attempts, n + 1); }
  }

  // -- and it does update --------------------------------------------------------------------------

  /** An observed version that may be applied: another one than runs, no refused downgrade, not failed
      for good, with a command to run and past the CI gate. */
  predicate Eligible(cfg: Config, m: Memory, v: string, gate: bool) {
    && m.lastApplied.Some? && m.lastApplied.value != v && (cfg.allowDowngrade || 0 <= Compare(v, m.lastApplied.value))
    && cfg.hasCommand && m.failed != Some(v) && (cfg.requireCi ==> gate)
  }

  /** The retry loop gets from attempt `n` to attempt `k` and runs its command. */
  predicate Reaches(cfg: Config, attempts: nat -> Attempt, n: nat, k: nat) {
    && n <= k < cfg.retryAttempts
    && (cfg.requireCi ==> forall i :: n <= i <= k ==> attempts(i).ci)
    && forall i :: n <= i < k ==> !attempts(i).ok && !attempts(i).stopping
  }

  function Times(v: string, n: nat): seq<string> { seq(n, i => v) }

  lemma OneMoreTime(ran: seq<string>, v: string, n: nat)
    ensures ran + [v] + Times(v, n) == ran + Times(v, n + 1)
  {}

  /** The poll runs a command exactly for an eligible version with a budget and, where it is required, a
      CI pass before the first attempt. */
  lemma CommandRunsExactlyWhen(cfg: Config, m: Memory, observed: Option<string>, gate: bool, attempts: nat -> Attempt,
                               written: bool)
    ensures Polled(cfg, m, observed, gate, attempts, written).ran != m.ran <==>
              && observed.Some? && Eligible(cfg, m, observed.value, gate)
              && 0 < cfg.retryAttempts && (cfg.requireCi ==> attempts(0).ci)
  {
    if observed.Some? && Eligible(cfg, m, observed.value, gate) && 0 < cfg.retryAttempts {
      CommandsOfApply(cfg, m.(pending := observed), observed.value, attempts, 0);
      if cfg.requireCi ==> attempts(0).ci {
        FirstAttemptRuns(cfg, m.(pending := observed), observed.value, attempts);
      }
    }
  }

  lemma FirstAttemptRuns(cfg: Config, m: Memory, version: string, attempts: nat -> Attempt)
    requires 0 < cfg.retryAttempts && (cfg.requireCi ==> attempts(0).ci)
    ensures m.ran + [version] <= Applied(cfg, m, version, attempts, 0).ran
  {
    CommandsOfApply(cfg, m.(ran := m.ran + [version]), version, attempts, 1);
  }

  /** What is left when the first successful attempt `k` is reached: the version runs, is persisted if the
      state file could be written, and nothing is pending, failed or refused any more. */
  predicate Updated(m: Memory, v: string, k: nat, written: bool, t: Memory) {
    && t.lastApplied == Some(v) && t.pending.None? && t.failed.None? && t.refused.None?
    && t.stateFile == (if written then Some(v) else m.stateFile) && t.ran == m.ran + Times(v, k + 1)
  }

  lemma ReachedSuccessUpdates(cfg: Config, m: Memory, v: string, gate: bool, attempts: nat -> Attempt, written: bool,
                              k: nat)
    requires Eligible(cfg, m, v, gate) && Reaches(cfg, attempts, 0, k) && attempts(k).ok
    ensures Updated(m, v, k, attempts(k).written, Polled(cfg, m, Some(v), gate, attempts, written))
  {
    SuccessApplies(cfg, m.(pending := Some(v)), v, attempts, 0, k);
  }

  lemma {:induction false} SuccessApplies(cfg: Config, m: Memory, v: string, attempts: nat -> Attempt, n: nat, k: nat)
    requires Reaches(cfg, attempts, n, k) && attempts(k).ok
    ensures Updated(m, v, k - n, attempts(k).written, Applied(cfg, m, v, attempts, n))
    decreases k - n
  {
    if n < k {
      SuccessApplies(cfg, m.(ran := m.ran + [v]), v, attempts, n + 1, k);
      OneMoreTime(m.ran, v, k - n);
    } else {
      assert Times(v, 1) == [v];
    }
  }

  /** Without one, an eligible version stays pending, whatever runs and is persisted stays, and the version
      is marked failed exactly when the whole budget was spent in vain. */
  lemma NoSuccessLeavesPending(cfg: Config, m: Memory, v: string, gate: bool, attempts: nat -> Attempt, written: bool)
    requires Eligible(cfg, m, v, gate) && forall k: nat :: Reaches(cfg, attempts, 0, k) ==> !attempts(k).ok
    ensures var t := Polled(cfg, m, Some(v), gate, attempts, written);
            && t == m.(pending := Some(v), failed := t.failed, ran := t.ran)
            && (t.failed == Some(v) || t.failed == m.failed)
            && (t.failed == Some(v) <==>
                  cfg.retryAttempts == 0 || (&& Reaches(cfg, attempts, 0, cfg.retryAttempts - 1)
                                             && !attempts(cfg.retryAttempts - 1).ok))
  {
    FailureApplies(cfg, m.(pending := Some(v)), v, attempts, 0);
    FailedMeansBudgetSpent(cfg, m.(pending := Some(v)), v, attempts, 0);
  }

  lemma {:induction false} FailureApplies(cfg: Config, m: Memory, v: string, attempts: nat -> Attempt, n: nat)
    requires n <= cfg.retryAttempts && forall k: nat :: Reaches(cfg, attempts, n, k) ==> !attempts(k).ok
    ensures var t := Applied(cfg, m, v, attempts, n);
            t == m.(failed := t.failed, ran := t.ran) && (t.failed == Some(v) || t.failed == m.failed)
    decreases cfg.retryAttempts - n
  {
    if n < cfg.retryAttempts && !(cfg.requireCi && !attempts(n).ci) {
      assert Reaches(cfg, attempts, n, n);
      if !(n + 1 < cfg.retryAttempts && attempts(n).stopping) {
        forall k: nat | Reaches(cfg, attempts, n + 1, k) ensures !attempts(k).ok {
          assert Reaches(cfg, attempts, n, k);
        }
        FailureApplies(cfg, m.(ran := m.ran + [v]), v, attempts, n + 1);
      }
    }
  }

  /** The observed version is below the running one, and that is not allowed. */
  predicate WouldGoDown(cfg: Config, m: Memory, observed: Option<string>) {
    && observed.Some? && m.lastApplied.Some? && observed != m.lastApplied
    && !cfg.allowDowngrade && Compare(observed.value, m.lastApplied.value) < 0
  }

  /** What a poll does with a version that is not eligible, field by field. */
  lemma OtherPolls(cfg: Config, m: Memory, observed: Option<string>, gate: bool, attempts: nat -> Attempt,
                   written: bool)
    requires observed.Some? ==> !Eligible(cfg, m, observed.value, gate)
    ensures var t := Polled(cfg, m, observed, gate, attempts, written);
            && t.ran == m.ran && t.failed == m.failed
            && (t.lastApplied == if m.lastApplied.None? then observed else m.lastApplied)
            && (t.stateFile == if m.lastApplied.None? && observed.Some? && written then observed else m.stateFile)
            && (t.refused == if WouldGoDown(cfg, m, observed) then observed else m.refused)
            && (t.pending == if observed.None? || m.lastApplied.None? || WouldGoDown(cfg, m, observed) then m.pending
                             else if observed == m.lastApplied then None else observed)
  {}

  /** A restart knows the state file, or else the deployed version, and nothing else. */
  lemma RestartReads(m: Memory, localVersion: Option<string>)
    ensures var t := Restarted(m, localVersion);
            && t.stateFile == m.stateFile && t.ran == m.ran && t.pending.None? && t.failed.None? && t.refused.None?
            && (m.stateFile.Some? ==> t.lastApplied == m.stateFile)
            && (m.stateFile.None? ==> t.lastApplied == localVersion)
  {}
}
