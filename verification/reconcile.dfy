/**
 * The reconciliation step of `main()` end to end: the id diff and its
 * gate, the enrichment filter, the id-keyed index of the games saved in
 * Firestore, and the per-record merge that yields `final_games`. That list
 * is written to the local JSON file and to a Firestore collection other
 * than the one the saved games are read from.
 */
module Reconcile {
  import opened Wrappers
  import opened Values
  import opened SnapshotDiff
  import opened FieldMerge
  import opened Enrichment

  /** `games[i]` is the last record in `games` whose id is `id`. */
  ghost predicate LastWithId(games: seq<Record>, id: Value, i: int) {
    && 0 <= i < |games|
    && IdOf(games[i]) == Success(id)
    && forall j :: i < j < |games| ==> IdOf(games[j]) != Success(id)
  }

  /** Every entry of the index is filed under its own id. */
  ghost predicate KeyedById(index: map<Value, Record>) {
    forall id :: id in index ==> IdOf(index[id]) == Success(id)
  }

  /** `{g["gamerpower_id"]: g for g in games}`: every id of the list is a
      key, filed under it is the LAST record with that id, and a record
      without a usable id raises the error of the first such record. */
  function IndexById(games: seq<Record>): (r: Result<map<Value, Record>, RunError>)
    ensures r.Success? <==> forall i :: 0 <= i < |games| ==> IdOf(games[i]).Success?
    ensures r.Failure? ==> exists k :: FirstBadId(games, k) && r.error == IdOf(games[k]).error
    ensures r.Success? ==> forall i :: 0 <= i < |games| ==> IdOf(games[i]).value in r.value
    ensures r.Success? ==>
      forall id :: id in r.value ==> exists i :: LastWithId(games, id, i) && r.value[id] == games[i]
  {
    if |games| == 0 then Success(map[])
    else
      var n := |games| - 1;
      var prefix := IndexById(games[..n]);
      if prefix.Failure? then
        PrefixFailure(games, n);
        Failure(prefix.error)
      else match IdOf(games[n])
        case Failure(e) =>
          assert FirstBadId(games, n) by { PrefixSuccess(games, n); }
          Failure(e)
        case Success(id) =>
          assert games == games[..n] + [games[n]];
          IndexExtend(games[..n], games[n], prefix.value, id, prefix.value[id := games[n]]);
          Success(prefix.value[id := games[n]])
  }

  /** The first bad record of a prefix is the first bad record of the
      whole list. */
  lemma PrefixFailure(games: seq<Record>, n: int)
    requires 0 <= n <= |games|
    requires exists k :: FirstBadId(games[..n], k)
    ensures exists k :: FirstBadId(games, k) && IdOf(games[k]).error == IdOf(games[..n][k]).error
  {
  }

  /** Every record of a successfully indexed prefix has a usable id. */
  lemma PrefixSuccess(games: seq<Record>, n: int)
    requires 0 <= n <= |games|
    requires forall i :: 0 <= i < n ==> IdOf(games[..n][i]).Success?
    ensures forall i :: 0 <= i < n ==> IdOf(games[i]).Success?
  {
    assert forall i :: 0 <= i < n ==> games[..n][i] == games[i];
  }

  /** Filing the last record under its id extends the index of the prefix
      to the index of the whole list. */
  lemma IndexExtend(prefix: seq<Record>, last: Record, index: map<Value, Record>, id: Value,
                    extended: map<Value, Record>)
    requires IdOf(last) == Success(id)
    requires extended == index[id := last]
    requires forall i :: 0 <= i < |prefix| ==> IdOf(prefix[i]).Success? && IdOf(prefix[i]).value in index
    requires forall other :: other in index ==>
      exists i :: LastWithId(prefix, other, i) && index[other] == prefix[i]
    ensures forall i :: 0 <= i < |prefix + [last]| ==>
      IdOf((prefix + [last])[i]).Success? && IdOf((prefix + [last])[i]).value in extended
    ensures forall other :: other in extended ==>
      exists i :: LastWithId(prefix + [last], other, i) && extended[other] == (prefix + [last])[i]
  {
    var games := prefix + [last];
    var n := |prefix|;
    assert forall i :: 0 <= i < n ==> games[i] == prefix[i];
    assert LastWithId(games, id, n);
    forall other | other in extended
      ensures exists i :: LastWithId(games, other, i) && extended[other] == games[i]
    {
      if other != id {
        var i :| LastWithId(prefix, other, i) && index[other] == prefix[i];
        assert LastWithId(games, other, i);
      }
    }
  }

  /** The index files every record under its own id. */
  lemma IndexIsKeyedById(games: seq<Record>)
    requires IndexById(games).Success?
    ensures KeyedById(IndexById(games).value)
  {
  }

  /** With unique ids, the index holds every record under its id. */
  lemma IndexOfUniqueIds(games: seq<Record>, i: int)
    requires IndexById(games).Success?
    requires forall a, b :: 0 <= a < b < |games| ==> IdOf(games[a]) != IdOf(games[b])
    requires 0 <= i < |games|
    ensures IndexById(games).value[IdOf(games[i]).value] == games[i]
  {
  }

  /** `final_games`: each enriched record merged with the saved record of
      its id when there is one, otherwise passed through unchanged; one
      output per input, in the same order. A record without a usable id
      raises the error of the first such record. */
  function FinalGames(enriched: seq<Record>, index: map<Value, Record>): (r: Result<seq<Record>, RunError>)
    ensures r.Success? <==> forall i :: 0 <= i < |enriched| ==> IdOf(enriched[i]).Success?
    ensures r.Failure? ==> exists k :: FirstBadId(enriched, k) && r.error == IdOf(enriched[k]).error
    ensures r.Success? ==> |r.value| == |enriched|
    ensures r.Success? ==> forall i :: 0 <= i < |enriched| && IdOf(enriched[i]).value !in index ==>
      r.value[i] == enriched[i]
    ensures r.Success? ==> forall i :: 0 <= i < |enriched| && IdOf(enriched[i]).value in index ==>
      r.value[i] == MergeRecord(enriched[i], index[IdOf(enriched[i]).value])
  {
    if |enriched| == 0 then Success([])
    else
      var game := enriched[0];
      var id :- IdOf(game);
      var rest :- FinalGames(enriched[1..], index);
      assert forall i :: 1 <= i < |enriched| ==> enriched[i] == enriched[1..][i - 1];
      Success([if id in index then MergeRecord(game, index[id]) else game] + rest)
  }

  /** Merging never changes a record's id when the saved record is filed
      under that id. */
  lemma MergeKeepsId(game: Record, existing: Record)
    requires IdOf(game).Success? && IdOf(existing) == IdOf(game)
    ensures IdOf(MergeRecord(game, existing)) == IdOf(game)
  {
  }

  /** `final_games` lists the same ids as `enriched_games`, in the same
      order, and each record keeps exactly its enriched record's fields. */
  lemma FinalGamesKeepIdsAndFields(enriched: seq<Record>, index: map<Value, Record>)
    requires KeyedById(index)
    requires FinalGames(enriched, index).Success?
    ensures forall i :: 0 <= i < |enriched| ==>
      IdOf(FinalGames(enriched, index).value[i]) == IdOf(enriched[i])
      && FinalGames(enriched, index).value[i].Keys == enriched[i].Keys
  {
  }

  /** Running the merge over its own output against the same saved games
      changes nothing. */
  lemma FinalGamesIdempotent(enriched: seq<Record>, index: map<Value, Record>)
    requires KeyedById(index)
    requires FinalGames(enriched, index).Success?
    ensures FinalGames(FinalGames(enriched, index).value, index) == FinalGames(enriched, index)
  {
    var out := FinalGames(enriched, index).value;
    FinalGamesKeepIdsAndFields(enriched, index);
    var again := FinalGames(out, index);
    assert again.Success?;
    forall i | 0 <= i < |out|
      ensures again.value[i] == out[i]
    {
      var id := IdOf(enriched[i]).value;
      if id in index {
        MergeIdempotent(enriched[i], index[id]);
      }
    }
  }

  /** What a run does after the diff: nothing, or save `games` to
      Firestore and to the local JSON file. */
  datatype Outcome = Skipped | Saved(games: seq<Record>)

  /** `main()` from the id diff to the writes. `feed` is the fetched offer
      list, `local` the list read from the local JSON file, `stored` the
      `games` list of the Firestore document (empty when the document or
      the field is missing); `lookup` stands for the catalog lookup of an
      offer and `combine` for the combination of an offer with its catalog
      data. */
  function Run(feed: seq<Record>, local: seq<Record>, stored: seq<Record>,
               lookup: Record -> Option<Record>, combine: (Record, Record) -> Record)
    : (r: Result<Outcome, RunError>)
    ensures r == Success(Skipped) <==>
      IdSet(local).Success? && IdSet(feed).Success? && IdSet(local).value == IdSet(feed).value
    ensures r.Success? && r.value.Saved? ==>
      && EnrichAll(feed, lookup, combine).Success?
      && IndexById(stored).Success?
      && FinalGames(EnrichAll(feed, lookup, combine).value, IndexById(stored).value) == Success(r.value.games)
    ensures IdSet(local).Failure? ==> r == Failure(IdSet(local).error)
    ensures IdSet(local).Success? && IdSet(feed).Failure? ==> r == Failure(IdSet(feed).error)
    ensures IdSet(local).Success? && IdSet(feed).Success? && IdSet(local).value != IdSet(feed).value ==>
      r == (if EnrichAll(feed, lookup, combine).Failure? then Failure(EnrichAll(feed, lookup, combine).error)
            else if IndexById(stored).Failure? then Failure(IndexById(stored).error)
            else if FinalGames(EnrichAll(feed, lookup, combine).value, IndexById(stored).value).Failure?
            then Failure(FinalGames(EnrichAll(feed, lookup, combine).value, IndexById(stored).value).error)
            else Success(Saved(FinalGames(EnrichAll(feed, lookup, combine).value, IndexById(stored).value).value)))
  {
    var oldIds :- IdSet(local);
    var newIds :- IdSet(feed);
    var diff := DiffIds(oldIds, newIds);
    GateOpensIffIdsDiffer(oldIds, newIds);
    if !Changed(diff) then Success(Skipped)
    else
      var enriched :- EnrichAll(feed, lookup, combine);
      var index :- IndexById(stored);
      var final :- FinalGames(enriched, index);
      Success(Saved(final))
  }

  /** A skipped run neither looks anything up nor reads Firestore: its
      outcome does not depend on the lookup, the combination or the saved
      games. */
  lemma SkippedRunReadsNothing(feed: seq<Record>, local: seq<Record>,
                               stored: seq<Record>, lookup: Record -> Option<Record>, combine: (Record, Record) -> Record,
                               stored': seq<Record>, lookup': Record -> Option<Record>, combine': (Record, Record) -> Record)
    requires Run(feed, local, stored, lookup, combine) == Success(Skipped)
    ensures Run(feed, local, stored', lookup', combine') == Success(Skipped)
  {
  }

  /** A saved run writes one record per enriched offer, in feed order, with
      the enriched record's id and fields. */
  lemma SavedGamesFollowEnrichment(feed: seq<Record>, local: seq<Record>, stored: seq<Record>,
                                   lookup: Record -> Option<Record>, combine: (Record, Record) -> Record)
    requires Run(feed, local, stored, lookup, combine).Success?
    requires Run(feed, local, stored, lookup, combine).value.Saved?
    ensures var enriched := EnrichAll(feed, lookup, combine).value;
            var saved := Run(feed, local, stored, lookup, combine).value.games;
            && |saved| == |enriched|
            && forall i :: 0 <= i < |saved| ==> IdOf(saved[i]) == IdOf(enriched[i]) && saved[i].Keys == enriched[i].Keys
  {
  }

  /** The combination of an offer with its catalog data keeps the offer's
      id field. */
  ghost predicate CombineKeepsId(combine: (Record, Record) -> Record) {
    forall g, d :: IdKey in g ==> IdKey in combine(g, d) && combine(g, d)[IdKey] == g[IdKey]
  }

  /** Some offer with the same id as `feed[i]` has catalog data. */
  ghost predicate IdCarried(feed: seq<Record>, lookup: Record -> Option<Record>, i: int)
    requires 0 <= i < |feed|
  {
    exists j :: 0 <= j < |feed| && Enriched(lookup(feed[j])) && IdOf(feed[j]) == IdOf(feed[i])
  }

  /** The ids of the enriched records are the ids of the offers with
      catalog data. */
  lemma EnrichedIds(feed: seq<Record>, lookup: Record -> Option<Record>, combine: (Record, Record) -> Record,
                    id: Value)
    requires CombineKeepsId(combine)
    requires forall j :: 0 <= j < |feed| ==> IdOf(feed[j]).Success?
    requires EnrichAll(feed, lookup, combine).Success?
    ensures (exists i :: 0 <= i < |EnrichAll(feed, lookup, combine).value|
                         && IdOf(EnrichAll(feed, lookup, combine).value[i]) == Success(id))
            <==> exists j :: 0 <= j < |feed| && Enriched(lookup(feed[j])) && IdOf(feed[j]) == Success(id)
  {
    var enriched := EnrichAll(feed, lookup, combine).value;
    if i :| 0 <= i < |enriched| && IdOf(enriched[i]) == Success(id) {
      assert enriched[i] in enriched;
      var j :| 0 <= j < |feed| && Enriched(lookup(feed[j])) && enriched[i] == combine(feed[j], lookup(feed[j]).value);
      assert IdOf(feed[j]).Success?;
      assert IdOf(feed[j]) == Success(id);
    }
    if j :| 0 <= j < |feed| && Enriched(lookup(feed[j])) && IdOf(feed[j]) == Success(id) {
      var x := combine(feed[j], lookup(feed[j]).value);
      assert x in enriched;
      var i :| 0 <= i < |enriched| && enriched[i] == x;
      assert IdOf(enriched[i]) == Success(id);
    }
  }

  /** Running again on an unchanged feed, after the saved list was written
      to the local JSON file, is skipped exactly when every offer's id is
      carried by some offer that got catalog data. An offer dropped for
      lack of catalog data, with no other offer of its id, therefore
      reopens the gate on the next run with the same feed. */
  lemma RerunSkipsIffEveryIdKept(feed: seq<Record>, local: seq<Record>, stored: seq<Record>,
                                 lookup: Record -> Option<Record>, combine: (Record, Record) -> Record,
                                 stored': seq<Record>, lookup': Record -> Option<Record>,
                                 combine': (Record, Record) -> Record)
    requires CombineKeepsId(combine)
    requires Run(feed, local, stored, lookup, combine).Success?
    requires Run(feed, local, stored, lookup, combine).value.Saved?
    ensures Run(feed, Run(feed, local, stored, lookup, combine).value.games, stored', lookup', combine')
              == Success(Skipped)
            <==> forall i :: 0 <= i < |feed| ==> IdCarried(feed, lookup, i)
  {
    var final := Run(feed, local, stored, lookup, combine).value.games;
    var enriched := EnrichAll(feed, lookup, combine).value;
    SavedGamesFollowEnrichment(feed, local, stored, lookup, combine);
    assert IdSet(feed).Success?;
    var feedIds := IdSet(feed).value;
    assert IdSet(final).Success?;
    var finalIds := IdSet(final).value;
    forall id
      ensures id in finalIds <==>
              exists j :: 0 <= j < |feed| && Enriched(lookup(feed[j])) && IdOf(feed[j]) == Success(id)
    {
      EnrichedIds(feed, lookup, combine, id);
      if id in finalIds {
        var i :| 0 <= i < |final| && IdOf(final[i]) == Success(id);
        assert IdOf(enriched[i]) == Success(id);
      }
      if i :| 0 <= i < |enriched| && IdOf(enriched[i]) == Success(id) {
        assert IdOf(final[i]) == Success(id);
      }
    }
    if forall i :: 0 <= i < |feed| ==> IdCarried(feed, lookup, i) {
      forall id | id in feedIds
        ensures id in finalIds
      {
        var i :| 0 <= i < |feed| && IdOf(feed[i]) == Success(id);
        assert IdCarried(feed, lookup, i);
      }
      assert finalIds == feedIds;
    } else {
      var i :| 0 <= i < |feed| && !IdCarried(feed, lookup, i);
      var id := IdOf(feed[i]).value;
      assert id in feedIds;
      assert id !in finalIds;
    }
  }
}
