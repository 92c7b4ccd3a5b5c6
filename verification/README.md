# Free-game catalog reconciliation

A Dafny model of the reconciliation step of `main()` in `update_freebies.py`
(push-service). Each run fetches the current list of free-game offers from
GamerPower, compares its offer ids (`gamerpower_id`) with those of the list
saved in a local JSON file by the last run that wrote its result
(`update_freebies.py:65-66`), and stops when nothing was
added or removed. Otherwise it enriches every offer with IGDB catalog data,
dropping offers for which the catalog has nothing. It then merges each
enriched record with the record of the same id saved in Firestore and writes
the result to the local JSON file and to Firestore. The Firestore write goes
to collection `test` (`update_freebies.py:65`), while the saved games are
read from collection `all_freebies` (`:33`), so a later run does not read
back what this run wrote to Firestore. The merge always refreshes the feed-owned fields. For every other
field the fresh record has, it keeps a filled-in saved value, so a hand edit
that leaves a non-blank value survives; clearing such a field by hand to
`None`, `""`, `[]` or `{}` does not, because the fresh value then wins. Fields that only the saved record has are dropped,
so a field added by hand under a key the enrichment does not produce is lost.

Modules, one per part of the step:

- `Wrappers` (`wrappers.dfy`): `Option` and `Result`.
- `Values` (`values.dfy`): JSON-like values, game records as maps, the
  "blank" test of the merge, and id extraction with its Python errors
  (`KeyError` for a missing id, `TypeError` for an unhashable one).
- `SnapshotDiff` (`snapshot_diff.dfy`): id sets, added/removed ids, the gate.
- `FieldMerge` (`field_merge.dfy`): the per-record merge policy, as a map
  comprehension and as the key-by-key loop of the source.
- `Enrichment` (`enrichment.dfy`): the filter that keeps offers with catalog
  data, in feed order.
- `Reconcile` (`reconcile.dfy`): the id index of the saved games, the list
  merge, and `Run`, the whole step from the id diff to the write decision.

The catalog lookup (title normalisation plus the IGDB query) and the
function that combines an offer with its catalog data are not part of this
model. They are parameters: `lookup: Record -> Option<Record>` and
`combine: (Record, Record) -> Record`. The fetched feed, the local JSON list
and the Firestore `games` list are inputs. The two writes are the `Saved`
outcome.

The always-refreshed field set is `expiry_date`, `worth`, `store`,
`open_giveaway_url` and `reminder_sent` (`update_freebies.py:45`), so
a saved `reminder_sent` never survives a fresh one. No notification is decided, because the
notification calls are commented out. Offers without catalog data are
dropped, and the run reports the rest as strict-match games (`:68`).

## Model

| member | source | states |
|---|---|---|
| Values.ZeroAndFalseAreNotBlank | update_freebies.py:48 | only `None`, `""`, `[]` and `{}` are blank; `0`, `False`, `" "` and `[None]` are kept as recorded values |
| Values.IdOf | update_freebies.py:39-40 | taking `g["gamerpower_id"]` for hashing, as also at :6-7 and :35: a missing key is a `KeyError` on `gamerpower_id`, a list or dict id is a `TypeError`, and otherwise the id is the field's value |
| SnapshotDiff.IdSet | update_freebies.py:6-7 | the id set holds exactly the ids of the list's records; it fails exactly when some record has no usable id, with the error of the first such record |
| SnapshotDiff.DiffIds | update_freebies.py:8-9 | added ids are disjoint from the old set, removed ids from the new set, and each snapshot is the other patched with the diff |
| SnapshotDiff.DiffMembership | update_freebies.py:8-9 | an id is added iff it is new and not old, removed iff it is old and not new |
| SnapshotDiff.DiffPartitionsUnion | update_freebies.py:6-9 | added, removed and retained ids partition the union of both snapshots |
| SnapshotDiff.GateOpensIffIdsDiffer | update_freebies.py:14 | the gate opens exactly when the old and new id sets differ |
| FieldMerge.MergeRecord | update_freebies.py:42-51 | the merged record has exactly the fresh record's keys, and each value is the fresh or the saved value of that key |
| FieldMerge.MergeFieldsLoop | update_freebies.py:42-51 | the key-by-key loop builds the same record as the comprehension, over the fresh record's keys |
| FieldMerge.VolatileFieldsRefreshed | update_freebies.py:44-46 | a volatile field always takes the fresh value |
| FieldMerge.ManualEditsKept | update_freebies.py:47-49 | a non-volatile field with a non-blank saved value keeps the saved value, even against a blank fresh value |
| FieldMerge.BlankFieldsFilled | update_freebies.py:50-51 | a non-volatile field missing or blank in the saved record takes the fresh value |
| FieldMerge.MergeKeepsSavedIff | update_freebies.py:44-51 | where fresh and saved values differ, the saved one is kept iff the field is non-volatile and the saved value is non-blank |
| FieldMerge.SavedOnlyFieldsDropped | update_freebies.py:42-43 | a field the fresh record lacks is absent from the merged record, whatever the saved record holds under it |
| FieldMerge.MergeIdempotent | update_freebies.py:42-51 | merging the merged record again against the same saved record changes nothing |
| FieldMerge.MergeWithItself | update_freebies.py:42-51 | merging a record against an identical saved record returns it unchanged |
| FieldMerge.MergeOverBlankIsFresh | update_freebies.py:47-51 | a saved record blank on every non-volatile field leaves the fresh record unchanged |
| FieldMerge.CuratedNoteExample | update_freebies.py:44-51 | a curated note survives a blank fresh note while the expiry date is refreshed |
| Enrichment.EnrichAll | update_freebies.py:22-28 | the enriched list holds exactly the combined records of offers whose lookup returned a non-empty result, no longer than the feed; a missing title is a `KeyError` |
| Enrichment.EnrichAppend | update_freebies.py:22-28 | enriching a concatenated feed gives the concatenated results, so feed order is kept |
| Enrichment.EnrichOne | update_freebies.py:23-28 | one offer yields its combined record if its lookup counts and nothing otherwise |
| Enrichment.NothingEnrichedDropsAll | update_freebies.py:26-28 | offers with no catalog data are all dropped |
| Enrichment.AllEnrichedKeepsAll | update_freebies.py:23-28 | when every lookup counts, no offer is dropped |
| Reconcile.IndexById | update_freebies.py:35 | every id of the saved list is a key and maps to the last record with that id; the first record without a usable id raises its error |
| Reconcile.IndexIsKeyedById | update_freebies.py:35 | every index entry is filed under its own id |
| Reconcile.IndexOfUniqueIds | update_freebies.py:35 | with unique ids, every saved record is found under its id |
| Reconcile.FinalGames | update_freebies.py:37-54 | one output per enriched record, in order: merged with the saved record of its id, or passed through unchanged when there is none; a record without a usable id raises its error |
| Reconcile.MergeKeepsId | update_freebies.py:39-52 | merging with the saved record of the same id keeps the id |
| Reconcile.FinalGamesKeepIdsAndFields | update_freebies.py:37-54 | the final list has the enriched list's ids in the same order, each with the enriched record's keys |
| Reconcile.FinalGamesIdempotent | update_freebies.py:37-54 | re-merging the final list against the same saved games returns it unchanged |
| Reconcile.Run | update_freebies.py:6-66 | a run raises the local list's id error first, then the feed's; it is skipped exactly when both id sets can be taken and are equal; when they differ it raises the first error of enrichment, indexing and merging in that order, and otherwise saves the merge of the enriched list against the saved-games index |
| Reconcile.SkippedRunReadsNothing | update_freebies.py:14-71 | a skipped run's outcome depends neither on the lookup nor on the Firestore games |
| Reconcile.SavedGamesFollowEnrichment | update_freebies.py:22-66 | the written list has one record per enriched offer, in feed order, with its id and fields |
| Reconcile.EnrichedIds | update_freebies.py:23-28 | the enriched records carry exactly the ids of the offers that got catalog data, given that combining keeps the id |
| Reconcile.RerunSkipsIffEveryIdKept | update_freebies.py:4-66 | after a save, a rerun on the same feed is skipped iff every offer's id belongs to some offer that got catalog data |

The last row shows a consequence of the code, assuming that
`read_local_json` (`:4`) returns exactly the list that `write_local_json`
(`:66`) stored on the previous run; neither body is part of this model, and
the lemma builds the assumption in by passing the saved list as the next
run's local list. The gate compares the feed
against the saved list, and the saved list lacks offers that were dropped for
want of catalog data. So an offer that gets no catalog data, and shares its id with no enriched
offer, makes the next run with the same feed repeat the enrichment and the
Firestore read.

## Left out

- `fetch_gamerpower_games`, `read_local_json`, `write_local_json` and the Firestore client calls (`update_freebies.py:3-4`, `:33-34`, `:65-66`): network and file I/O. Their results are the inputs `feed`, `local` and `stored`, and the writes are the `Saved` outcome. The two Firestore collections differ: the saved games are read from `all_freebies` (`:33`) but the result is written to `test` (`:65`), so this run's Firestore write is never the next run's Firestore read. The model takes the read list as the input `stored` and does not model either collection.
- `normalize_title`, `fetch_igdb_data` and `merge_game_data`: their source is not part of this model. The model takes them as the pure parameters `lookup` and `combine`, so their side effects and errors are not modelled (rate limiting and network failures among them).
- Reconcile.RerunSkipsIffEveryIdKept: assumes that `merge_game_data` keeps the offer's `gamerpower_id`, because its source is not available.
- The commented-out notification and expiry-reminder calls (`:57-62`) and all `print` logging: there is no behaviour to model.
- Dictionary key order: records are maps, so the order of keys in the written JSON is not modelled.
- Python's cross-type equality of ids (`1 == True == 1.0`): ids are compared structurally.
- Errors other than a missing key or an unhashable id, such as an entry of a list that is not a dictionary.
