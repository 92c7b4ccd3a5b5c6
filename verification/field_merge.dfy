/**
 * The field-merge policy of `main()`: a freshly enriched game record is
 * reconciled with the record of the same id already saved in Firestore.
 * Feed-owned fields are always refreshed; every other field of the fresh
 * record keeps a non-blank saved value, so a hand edit that leaves a
 * non-blank value survives re-enrichment, while a field cleared by hand
 * takes the fresh value again. Fields only the saved record has are dropped.
 */
module FieldMerge {
  import opened Values

  /** The fields that always take the fresh value. */
  const Volatile: set<string> :=
    {"expiry_date", "worth", "store", "open_giveaway_url", "reminder_sent"}

  /** The value the merge picks for `key`, whose fresh value is `freshValue`. */
  function PickField(key: string, freshValue: Value, existing: Record): Value {
    if key in Volatile then freshValue
    else if key in existing && !IsBlank(existing[key]) then existing[key]
    else freshValue
  }

  /** The merged record for `game` against the saved record `existing`:
      it has exactly the fresh record's fields (saved-only fields are not
      carried over), and every value comes from one of the two records. */
  function MergeRecord(game: Record, existing: Record): (m: Record)
    ensures m.Keys == game.Keys
    ensures forall k :: k in m ==> m[k] == game[k] || (k in existing && m[k] == existing[k])
  {
    map k | k in game :: PickField(k, game[k], existing)
  }

  /** The loop of `main()` that builds `merged` one key of `game` at a time
      computes the same record as the map comprehension. */
  method MergeFieldsLoop(game: Record, existing: Record) returns (merged: Record)
    ensures merged.Keys == game.Keys
    ensures merged == MergeRecord(game, existing)
  {
    merged := map[];
    var todo := game.Keys;
    while todo != {}
      invariant todo <= game.Keys
      invariant merged.Keys == game.Keys - todo
      invariant forall k :: k in merged ==> merged[k] == PickField(k, game[k], existing)
      decreases todo
    {
      var key :| key in todo;
      var value := game[key];
      var picked: Value;
      if key in Volatile {
        picked := value;
      } else if key in existing && !IsBlank(existing[key]) {
        picked := existing[key];
      } else {
        picked := value;
      }
      assert picked == PickField(key, value, existing);
      merged := merged[key := picked];
      todo := todo - {key};
    }
    var spec := MergeRecord(game, existing);
    assert merged.Keys == spec.Keys;
    assert forall k :: k in merged ==> merged[k] == spec[k];
  }

  /** A volatile field takes the fresh value, whatever was saved. */
  lemma VolatileFieldsRefreshed(game: Record, existing: Record, k: string)
    requires k in game && k in Volatile
    ensures MergeRecord(game, existing)[k] == game[k]
  {
  }

  /** A non-volatile field whose saved value is not blank keeps the saved
      value, even when the fresh value is blank or different. */
  lemma ManualEditsKept(game: Record, existing: Record, k: string)
    requires k in game && k !in Volatile
    requires k in existing && !IsBlank(existing[k])
    ensures MergeRecord(game, existing)[k] == existing[k]
  {
  }

  /** A non-volatile field that is missing or blank in the saved record
      takes the fresh value. */
  lemma BlankFieldsFilled(game: Record, existing: Record, k: string)
    requires k in game && k !in Volatile
    requires k !in existing || IsBlank(existing[k])
    ensures MergeRecord(game, existing)[k] == game[k]
  {
  }

  /** A field that only the saved record has, such as a note added by hand
      under a key the enrichment does not produce, is not carried over. */
  lemma SavedOnlyFieldsDropped(game: Record, existing: Record, k: string)
    requires k in existing && k !in game
    ensures k !in MergeRecord(game, existing)
  {
  }

  /** Merging the merged record again against the same saved record
      changes nothing. */
  lemma MergeIdempotent(game: Record, existing: Record)
    ensures MergeRecord(MergeRecord(game, existing), existing) == MergeRecord(game, existing)
  {
  }

  /** A record merged against an identical saved record is unchanged. */
  lemma MergeWithItself(r: Record)
    ensures MergeRecord(r, r) == r
  {
  }

  /** When the saved record holds nothing for any non-volatile field of the
      fresh record, the merge returns the fresh record. */
  lemma MergeOverBlankIsFresh(game: Record, existing: Record)
    requires forall k :: k in game && k !in Volatile && k in existing ==> IsBlank(existing[k])
    ensures MergeRecord(game, existing) == game
  {
  }

  /** The saved record's non-blank, non-volatile fields that the game
      record also has are exactly the fields where the merge keeps the
      saved value rather than the fresh one (when the two differ). */
  lemma MergeKeepsSavedIff(game: Record, existing: Record, k: string)
    requires k in game && k in existing && game[k] != existing[k]
    ensures MergeRecord(game, existing)[k] == existing[k]
            <==> k !in Volatile && !IsBlank(existing[k])
  {
  }

  /** A curated note survives a re-enrichment that brings a blank note,
      while the expiry date is refreshed. */
  lemma CuratedNoteExample()
    ensures MergeRecord(
              map["expiry_date" := Str("2024-06-01"), "notes" := Str("")],
              map["expiry_date" := Str("2024-01-01"), "notes" := Str("curated text")])
            == map["expiry_date" := Str("2024-06-01"), "notes" := Str("curated text")]
  {
  }
}
