/**
 * The snapshot diff of `main()`: the ids of the previously saved games and
 * of the current feed, the added and removed ids, and the gate that decides
 * whether the rest of the run (enrichment, Firestore read, merge, writes)
 * happens at all.
 */
module SnapshotDiff {
  import opened Wrappers
  import opened Values

  /** `k` is the first record whose id cannot be taken. */
  ghost predicate FirstBadId(games: seq<Record>, k: int) {
    && 0 <= k < |games|
    && IdOf(games[k]).Failure?
    && forall j :: 0 <= j < k ==> IdOf(games[j]).Success?
  }

  /** `{g["gamerpower_id"] for g in games}`: the set of ids, or the error
      raised by the first record whose id is missing or unhashable. */
  function IdSet(games: seq<Record>): (r: Result<set<Value>, RunError>)
    ensures r.Success? <==> forall i :: 0 <= i < |games| ==> IdOf(games[i]).Success?
    ensures r.Success? ==>
      forall id :: id in r.value <==> exists i :: 0 <= i < |games| && IdOf(games[i]) == Success(id)
    ensures r.Failure? ==> exists k :: FirstBadId(games, k) && r.error == IdOf(games[k]).error
  {
    if |games| == 0 then Success({})
    else
      var id :- IdOf(games[0]);
      var rest :- IdSet(games[1..]);
      assert forall i :: 1 <= i < |games| ==> games[i] == games[1..][i - 1];
      Success({id} + rest)
  }

  /** The two id sets `main()` derives: ids new in the feed, and ids gone
      from it. */
  datatype Diff = Diff(added: set<Value>, removed: set<Value>)

  /** `added_ids = new_ids - old_ids`, `removed_ids = old_ids - new_ids`.
      The contract determines the result completely: the added ids are new
      to the old snapshot, the removed ids are absent from the new one, and
      patching either snapshot with the diff gives the other. */
  function DiffIds(oldIds: set<Value>, newIds: set<Value>): (d: Diff)
    ensures d.added !! oldIds && d.removed !! newIds
    ensures d.added !! d.removed
    ensures (oldIds - d.removed) + d.added == newIds
    ensures (newIds - d.added) + d.removed == oldIds
  {
    Diff(newIds - oldIds, oldIds - newIds)
  }

  /** `if added_ids or removed_ids:` (a Python set is true when non-empty). */
  predicate Changed(d: Diff) {
    d.added != {} || d.removed != {}
  }

  /** The gate opens exactly when the two snapshots' id sets differ. */
  lemma GateOpensIffIdsDiffer(oldIds: set<Value>, newIds: set<Value>)
    ensures Changed(DiffIds(oldIds, newIds)) <==> oldIds != newIds
  {
  }

  /** The diff is exactly the ids of one side that the other lacks. */
  lemma DiffMembership(oldIds: set<Value>, newIds: set<Value>, id: Value)
    ensures id in DiffIds(oldIds, newIds).added <==> id in newIds && id !in oldIds
    ensures id in DiffIds(oldIds, newIds).removed <==> id in oldIds && id !in newIds
  {
  }

  /** Added, removed and retained ids partition the union of both
      snapshots. */
  lemma DiffPartitionsUnion(oldIds: set<Value>, newIds: set<Value>)
    ensures DiffIds(oldIds, newIds).added + DiffIds(oldIds, newIds).removed + (oldIds * newIds)
            == oldIds + newIds
    ensures DiffIds(oldIds, newIds).added !! oldIds * newIds
    ensures DiffIds(oldIds, newIds).removed !! oldIds * newIds
  {
  }
}
