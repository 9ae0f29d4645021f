/** The shared commitment-writer lane (vidaio/chain/anchor_writer.py): one advisory lock and one
    fsynced fence file naming the authority hash that is still unresolved. */
module WriterLane {
  import opened Wrappers
  import opened EpochIndex

  /** The fence file. Its pid and time fields only serve the operator and are dropped. */
  datatype Marker = Marker(txid: TxHash, epochId: int, netuid: int, logDigest: Digest, evidence: Evidence)

  /** An unresolved fence admits only the caller that came for that very hash. */
  predicate Admits(fence: Option<Marker>, txid: Option<TxHash>) {
    fence.None? || txid == Some(fence.value.txid)
  }

  function WithMark(fence: Option<Marker>, marker: Marker): Result<Option<Marker>, AnchorError> {
    if fence.None? then Success(Some(marker))
    else if fence.value.txid == marker.txid then Success(fence)
    else Failure(LanePending)
  }

  function WithoutMark(fence: Option<Marker>, txid: TxHash): Result<Option<Marker>, AnchorError> {
    if fence.None? || fence.value.txid == txid then Success(None) else Failure(LanePending)
  }

  class Lane {
    var fence: Option<Marker>
    var holder: Option<nat>

    constructor ()
      ensures fence.None? && holder.None?
    {
      fence, holder := None, None;
    }

    /** Polls for the lock until the deadline and then reads the fence; a refusal gives the lock back.
        `polls` is how often the deadline lets the caller try again, `freed` after how many of these
        the other task has given the lock back, if it does. */
    method Acquire(task: nat, txid: Option<TxHash>, polls: nat, freed: Option<nat>) returns (r: Result<(), AnchorError>)
      modifies this`holder
      ensures var gets := old(holder).None? || (freed.Some? && freed.value <= polls);
              && (r.Success? <==> gets && Admits(fence, txid))
              && (r.Failure? ==> r.error == if gets then LanePending else LaneTimeout)
              && holder == if r.Success? then Some(task) else if gets then None else old(holder)
    {
      var poll := 0;
      while holder.Some? && (freed.None? || poll < freed.value)
        invariant holder == old(holder) && poll <= polls
        invariant freed.Some? ==> poll <= freed.value || old(holder).None?
        decreases polls - poll
      {
        if poll == polls {
          return Failure(LaneTimeout);
        }
        poll := poll + 1;
      }
      holder := Some(task);
      if fence.Some? && txid != Some(fence.value.txid) {
        holder := None;
        return Failure(LanePending);
      }
      return Success(());
    }

    method Release(task: nat)
      modifies this`holder
      ensures holder == if old(holder) == Some(task) then None else old(holder)
    {
      if holder == Some(task) {
        holder := None;
      }
    }

    method Mark(task: nat, marker: Marker) returns (r: Result<(), AnchorError>)
      modifies this`fence
      ensures match WithMark(old(fence), marker)
              case Success(after) =>
                if holder == Some(task) then fence == after && r.Success? else fence == old(fence) && r.Failure?
              case Failure(_) => fence == old(fence) && r.Failure?
    {
      if holder != Some(task) {
        return Failure(LaneTimeout);
      }
      if fence.Some? {
        return if fence.value.txid == marker.txid then Success(()) else Failure(LanePending);
      }
      fence := Some(marker);
      return Success(());
    }

    method Clear(task: nat, txid: TxHash) returns (r: Result<(), AnchorError>)
      modifies this`fence
      ensures match WithoutMark(old(fence), txid)
              case Success(after) =>
                if holder == Some(task) then fence == after && r.Success? else fence == old(fence) && r.Failure?
              case Failure(_) => fence == old(fence) && r.Failure?
    {
      if holder != Some(task) {
        return Failure(LaneTimeout);
      }
      if fence.None? {
        return Success(());
      }
      if fence.value.txid != txid {
        return Failure(LanePending);
      }
      fence := None;
      return Success(());
    }
  }
}
