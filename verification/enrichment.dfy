/**
 * The enrichment filter of `main()`: each feed offer is looked up in the
 * game catalog and, when the lookup returns something, combined with the
 * catalog data into an enriched record; offers without catalog data are
 * dropped. The lookup (title normalisation plus the catalog query) and the
 * combination are not part of this model and are taken as parameters.
 */
module Enrichment {
  import opened Wrappers
  import opened Values

  /** `if igdb_data:` -- a lookup result counts only when it is present and
      not an empty dictionary. */
  predicate Enriched(x: Option<Record>) {
    x.Some? && x.value != map[]
  }

  /** The enriched record an offer contributes: none, or one. */
  function Contribution(offer: Record, lookup: Record -> Option<Record>,
                        combine: (Record, Record) -> Record): seq<Record>
  {
    if Enriched(lookup(offer)) then [combine(offer, lookup(offer).value)] else []
  }

  /** `enriched_games`: one combined record per offer whose lookup result
      counts, in feed order; a `KeyError` if some offer has no title. */
  function EnrichAll(feed: seq<Record>, lookup: Record -> Option<Record>,
                     combine: (Record, Record) -> Record): (r: Result<seq<Record>, RunError>)
    ensures r.Failure? <==> exists i :: 0 <= i < |feed| && TitleKey !in feed[i]
    ensures r.Failure? ==> r.error == MissingKey(TitleKey)
    ensures r.Success? ==> |r.value| <= |feed|
    ensures r.Success? ==>
      forall x :: x in r.value <==>
        exists i :: 0 <= i < |feed| && Enriched(lookup(feed[i])) && x == combine(feed[i], lookup(feed[i]).value)
  {
    if |feed| == 0 then Success([])
    else if TitleKey !in feed[0] then Failure(MissingKey(TitleKey))
    else
      var rest :- EnrichAll(feed[1..], lookup, combine);
      assert forall i :: 1 <= i < |feed| ==> feed[i] == feed[1..][i - 1];
      Success(Contribution(feed[0], lookup, combine) + rest)
  }

  /** Enrichment of a concatenated feed is the concatenation of the
      enrichments: the filter keeps feed order. */
  lemma {:induction false} EnrichAppend(a: seq<Record>, b: seq<Record>, lookup: Record -> Option<Record>,
                                        combine: (Record, Record) -> Record)
    requires EnrichAll(a, lookup, combine).Success? && EnrichAll(b, lookup, combine).Success?
    ensures EnrichAll(a + b, lookup, combine)
            == Success(EnrichAll(a, lookup, combine).value + EnrichAll(b, lookup, combine).value)
  {
    if |a| == 0 {
      assert a + b == b;
      assert EnrichAll(a, lookup, combine).value == [];
      assert EnrichAll(a + b, lookup, combine) == EnrichAll(b, lookup, combine);
      assert EnrichAll(b, lookup, combine) == Success(EnrichAll(b, lookup, combine).value);
      assert [] + EnrichAll(b, lookup, combine).value == EnrichAll(b, lookup, combine).value;
    } else {
      assert (a + b)[1..] == a[1..] + b;
      EnrichAppend(a[1..], b, lookup, combine);
      var ra := EnrichAll(a[1..], lookup, combine).value;
      var rb := EnrichAll(b, lookup, combine).value;
      assert Contribution(a[0], lookup, combine) + (ra + rb)
             == (Contribution(a[0], lookup, combine) + ra) + rb;
    }
  }

  /** A single offer yields its combined record when its lookup counts, and
      is dropped otherwise. */
  lemma EnrichOne(offer: Record, lookup: Record -> Option<Record>, combine: (Record, Record) -> Record)
    requires TitleKey in offer
    ensures Enriched(lookup(offer)) ==>
              EnrichAll([offer], lookup, combine) == Success([combine(offer, lookup(offer).value)])
    ensures !Enriched(lookup(offer)) ==> EnrichAll([offer], lookup, combine) == Success([])
  {
    assert [offer][1..] == [];
    assert EnrichAll([offer][1..], lookup, combine) == Success([]);
    var c := Contribution(offer, lookup, combine);
    assert EnrichAll([offer], lookup, combine) == Success(c + []);
    assert c + [] == c;
  }

  /** Offers whose lookup never counts contribute nothing. */
  lemma {:induction false} NothingEnrichedDropsAll(feed: seq<Record>, lookup: Record -> Option<Record>,
                                                   combine: (Record, Record) -> Record)
    requires forall i :: 0 <= i < |feed| ==> TitleKey in feed[i] && !Enriched(lookup(feed[i]))
    ensures EnrichAll(feed, lookup, combine) == Success([])
  {
    if |feed| > 0 {
      NothingEnrichedDropsAll(feed[1..], lookup, combine);
    }
  }

  /** When every offer's lookup counts, nothing is dropped. */
  lemma {:induction false} AllEnrichedKeepsAll(feed: seq<Record>, lookup: Record -> Option<Record>,
                                               combine: (Record, Record) -> Record)
    requires forall i :: 0 <= i < |feed| ==> TitleKey in feed[i] && Enriched(lookup(feed[i]))
    ensures EnrichAll(feed, lookup, combine).Success?
    ensures |EnrichAll(feed, lookup, combine).value| == |feed|
  {
    if |feed| > 0 {
      AllEnrichedKeepsAll(feed[1..], lookup, combine);
    }
  }
}
