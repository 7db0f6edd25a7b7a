/** The client-side artefact store's automatic summarisation: the getters
    that summarise the artefact list, and the actions that start and stop
    auto-processing, pick newly processed documents for summarisation and
    adapt the polling interval to the workload.

    The polling timer is the boolean `polling` (whether a timer handle is
    held); the background summarisation requests and notifications are not
    part of this model. */
module ArtefactStore {
  import opened Common

  /** The fields of an artefact row that auto-processing reads or writes. */
  datatype Artefact = Artefact(id: int, status: string, summarized: string, isSummarizing: bool)

  const DefaultPollingIntervalMs: int := 10000

  // ---------------------------------------------------------------------------
  // Getters
  // ---------------------------------------------------------------------------

  predicate Unprocessed(a: Artefact)
  {
    a.status != "processed"
  }

  predicate Processing(a: Artefact)
  {
    a.status == "processing"
  }

  predicate Unsummarized(a: Artefact)
  {
    a.status == "processed" && a.summarized == "No"
  }

  predicate Complete(a: Artefact)
  {
    a.status == "processed" && a.summarized == "Yes"
  }

  /** A processed, unsummarised document that is neither being summarised
      nor was tried before. */
  predicate NeedsSummary(a: Artefact, summarizingDocs: set<int>, attemptedSummarizations: set<int>)
  {
    Unsummarized(a) && a.id !in summarizingDocs && a.id !in attemptedSummarizations
  }

  /** `pendingSummarizations`. */
  function PendingSummarizations(artefacts: seq<Artefact>, summarizingDocs: set<int>, attemptedSummarizations: set<int>)
    : (r: seq<Artefact>)
    ensures forall a :: a in r <==> a in artefacts && NeedsSummary(a, summarizingDocs, attemptedSummarizations)
    ensures |r| <= |artefacts|
  {
    Filter(artefacts, (a: Artefact) => NeedsSummary(a, summarizingDocs, attemptedSummarizations))
  }

  /** `allDocumentsProcessed`: no document has a status other than `processed`. */
  function AllDocumentsProcessed(artefacts: seq<Artefact>): (r: bool)
    ensures r <==> forall i :: 0 <= i < |artefacts| ==> !Unprocessed(artefacts[i])
  {
    var unprocessed := Filter(artefacts, Unprocessed);
    assert unprocessed != [] ==> unprocessed[0] in artefacts;
    |unprocessed| == 0
  }

  /** `allDocumentsSummarized`: no processed document still says `No`. */
  function AllDocumentsSummarized(artefacts: seq<Artefact>): (r: bool)
    ensures r <==> forall i :: 0 <= i < |artefacts| ==> !Unsummarized(artefacts[i])
  {
    var unsummarized := Filter(artefacts, Unsummarized);
    assert unsummarized != [] ==> unsummarized[0] in artefacts;
    |unsummarized| == 0
  }

  /** Both getters hold on an empty list. */
  lemma NothingToProcess()
    ensures AllDocumentsProcessed([]) && AllDocumentsSummarized([])
    ensures PendingSummarizations([], {}, {}) == []
  {
  }

  datatype Progress = Progress(processed: nat, total: nat, percentage: int)

  /** `processingProgress`: documents that are processed and summarised, out
      of all documents, with the share rounded half up to a whole percentage. */
  function ProcessingProgress(artefacts: seq<Artefact>): (r: Progress)
    ensures r.total == |artefacts| && r.processed <= r.total
    ensures r.processed == CountIf(artefacts, Complete)
    ensures r.total == 0 ==> r.percentage == 0
    ensures r.total > 0 ==>
      2 * r.total * r.percentage - r.total <= 200 * r.processed < 2 * r.total * r.percentage + r.total
    ensures 0 <= r.percentage <= 100
  {
    var total := |artefacts|;
    var processed := CountIf(artefacts, Complete);
    var percentage := if total > 0 then RoundedPercentage(processed, total) else 0;
    Progress(processed, total, percentage)
  }

  /** `Math.round(part / whole * 100)` in exact arithmetic: the whole
      number nearest to the share, halves rounded up. */
  function RoundedPercentage(part: nat, whole: nat): (p: int)
    requires 0 < whole && part <= whole
    ensures 2 * whole * p - whole <= 200 * part < 2 * whole * p + whole
    ensures 0 <= p <= 100
  {
    var p := (200 * part + whole) / (2 * whole);
    DivBounds(200 * part + whole, 2 * whole);
    MulBelow(2 * whole, p, 101);
    MulBelow(2 * whole, -1, p);
    p
  }

  lemma DivBounds(n: int, d: int)
    requires d > 0
    ensures d * (n / d) <= n < d * (n / d) + d
  {
  }

  lemma MulBelow(d: int, a: int, b: int)
    requires d > 0
    ensures d * a < d * b <==> a < b
  {
    if a < b {
      assert d * b - d * a == d * (b - a);
    } else {
      assert d * a - d * b == d * (a - b);
    }
  }

  // ---------------------------------------------------------------------------
  // Selection of newly processed documents
  // ---------------------------------------------------------------------------

  /** `list.find(d => d.id === id)`: the first document holding `id`. */
  function FindById(list: seq<Artefact>, id: int): (r: Option<Artefact>)
    ensures r.None? <==> forall i :: 0 <= i < |list| ==> list[i].id != id
    ensures r.Some? ==> r.value in list && r.value.id == id
    ensures r.Some? ==> exists k :: 0 <= k < |list| && list[k] == r.value && forall j :: 0 <= j < k ==> list[j].id != id
  {
    if list == [] then None
    else if list[0].id == id then Some(list[0])
    else FindById(list[1..], id)
  }

  /** `list.findIndex(d => d.id === id)`: the first position holding `id`, or -1. */
  function FindIndexById(list: seq<Artefact>, id: int): (r: int)
    ensures -1 <= r < |list|
    ensures r == -1 <==> forall i :: 0 <= i < |list| ==> list[i].id != id
    ensures r >= 0 ==> list[r].id == id && forall i :: 0 <= i < r ==> list[i].id != id
  {
    if list == [] then -1
    else if list[0].id == id then 0
    else
      var rest := FindIndexById(list[1..], id);
      if rest == -1 then -1 else rest + 1
  }

  /** A current document that was in the previous list with another status
      and has now become processed, unsummarised and untouched. */
  predicate NewlyProcessed(previousDocs: seq<Artefact>, doc: Artefact, summarizingDocs: set<int>, attemptedSummarizations: set<int>)
  {
    var previous := FindById(previousDocs, doc.id);
    && previous.Some?
    && previous.value.status != "processed"
    && NeedsSummary(doc, summarizingDocs, attemptedSummarizations)
  }

  /** `newlyProcessedDocs`: the current documents that became processed, in order. */
  function NewlyProcessedDocs(previousDocs: seq<Artefact>, currentDocs: seq<Artefact>,
                              summarizingDocs: set<int>, attemptedSummarizations: set<int>): (r: seq<Artefact>)
    ensures forall d :: d in r <==> d in currentDocs && NewlyProcessed(previousDocs, d, summarizingDocs, attemptedSummarizations)
  {
    Filter(currentDocs, (d: Artefact) => NewlyProcessed(previousDocs, d, summarizingDocs, attemptedSummarizations))
  }

  /** The ids of `docs`. */
  function Ids(docs: seq<Artefact>): set<int>
  {
    if docs == [] then {} else Ids(docs[..|docs| - 1]) + {docs[|docs| - 1].id}
  }

  /** An id is in `Ids(docs)` exactly when some document carries it. */
  lemma {:induction false} IdsMembers(docs: seq<Artefact>, x: int)
    ensures x in Ids(docs) <==> exists k :: 0 <= k < |docs| && docs[k].id == x
  {
    if docs != [] {
      var init := docs[..|docs| - 1];
      IdsMembers(init, x);
      if exists k :: 0 <= k < |docs| && docs[k].id == x {
        var k :| 0 <= k < |docs| && docs[k].id == x;
        if k < |init| {
          assert init[k] == docs[k];
        }
      }
      if exists k :: 0 <= k < |init| && init[k].id == x {
        var k :| 0 <= k < |init| && init[k].id == x;
        assert docs[k] == init[k];
      }
    }
  }

  lemma IdsSnoc(docs: seq<Artefact>, k: nat)
    requires k < |docs|
    ensures Ids(docs[..k + 1]) == Ids(docs[..k]) + {docs[k].id}
  {
    assert docs[..k + 1][..k] == docs[..k];
  }

  /** Position `i` holds the first artefact with its id. */
  predicate FirstWithId(list: seq<Artefact>, i: nat)
    requires i < |list|
  {
    forall j :: 0 <= j < i ==> list[j].id != list[i].id
  }

  /** The artefact list with the first artefact of each id in `ids` flagged
      as being summarised. */
  predicate Flagged(before: seq<Artefact>, after: seq<Artefact>, ids: set<int>)
  {
    && |after| == |before|
    && forall i :: 0 <= i < |before| ==>
         after[i] == if before[i].id in ids && FirstWithId(before, i) then before[i].(isSummarizing := true) else before[i]
  }

  // ---------------------------------------------------------------------------
  // The store
  // ---------------------------------------------------------------------------

  class Store {
    var artefacts: seq<Artefact>
    var isAutoProcessingEnabled: bool
    var polling: bool
    var summarizingDocs: set<int>
    var attemptedSummarizations: set<int>
    var pollingIntervalMs: int
    const minPollingIntervalMs: int := 5000
    const maxPollingIntervalMs: int := 60000

    /** The polling interval stays within its bounds. */
    predicate Valid()
      reads this
    {
      minPollingIntervalMs <= pollingIntervalMs <= maxPollingIntervalMs
    }

    /** The initial state: nothing loaded, auto-processing off, 10 seconds. */
    constructor()
      ensures artefacts == [] && !isAutoProcessingEnabled && !polling
      ensures summarizingDocs == {} && attemptedSummarizations == {}
      ensures pollingIntervalMs == DefaultPollingIntervalMs
      ensures Valid()
    {
      artefacts := [];
      isAutoProcessingEnabled := false;
      polling := false;
      summarizingDocs := {};
      attemptedSummarizations := {};
      pollingIntervalMs := DefaultPollingIntervalMs;
    }

    /** `stopAutoProcessing`: turns auto-processing off, drops the timer and
      forgets the documents being summarised, but remembers which were tried. */
    method StopAutoProcessing()
      modifies this
      ensures !isAutoProcessingEnabled && !polling
      ensures summarizingDocs == {}
      ensures attemptedSummarizations == old(attemptedSummarizations)
      ensures artefacts == old(artefacts) && pollingIntervalMs == old(pollingIntervalMs)
    {
      isAutoProcessingEnabled := false;
      if polling {
        polling := false;
      }
      summarizingDocs := {};
    }

    /** `checkForNewlyProcessedDocuments(previousDocs, currentDocs)`: when
      auto-processing is on, every newly processed document is recorded as
      being summarised and as attempted, and the first artefact with its id
      is flagged. */
    method CheckForNewlyProcessedDocuments(previousDocs: seq<Artefact>, currentDocs: seq<Artefact>)
      returns (picked: seq<Artefact>)
      modifies this
      ensures picked == if old(isAutoProcessingEnabled)
        then NewlyProcessedDocs(previousDocs, currentDocs, old(summarizingDocs), old(attemptedSummarizations)) else []
      ensures !old(isAutoProcessingEnabled) ==> artefacts == old(artefacts)
      ensures summarizingDocs == old(summarizingDocs) + Ids(picked)
      ensures attemptedSummarizations == old(attemptedSummarizations) + Ids(picked)
      ensures Flagged(old(artefacts), artefacts, Ids(picked))
      ensures isAutoProcessingEnabled == old(isAutoProcessingEnabled) && polling == old(polling)
      ensures pollingIntervalMs == old(pollingIntervalMs)
    {
      if !isAutoProcessingEnabled {
        return [];
      }
      picked := NewlyProcessedDocs(previousDocs, currentDocs, summarizingDocs, attemptedSummarizations);
      for k := 0 to |picked|
        invariant summarizingDocs == old(summarizingDocs) + Ids(picked[..k])
        invariant attemptedSummarizations == old(attemptedSummarizations) + Ids(picked[..k])
        invariant Flagged(old(artefacts), artefacts, Ids(picked[..k]))
        invariant isAutoProcessingEnabled == old(isAutoProcessingEnabled) && polling == old(polling)
        invariant pollingIntervalMs == old(pollingIntervalMs)
      {
        IdsSnoc(picked, k);
        FlagStep(old(artefacts), artefacts, Ids(picked[..k]), picked[k].id, FindIndexById(artefacts, picked[k].id));
        StartSummarizing(picked[k].id);
      }
      assert picked[..|picked|] == picked;
    }

    /** One document picked for summarisation: its id joins both sets and
      the first artefact with that id is flagged. */
    method StartSummarizing(id: int)
      modifies this
      ensures summarizingDocs == old(summarizingDocs) + {id}
      ensures attemptedSummarizations == old(attemptedSummarizations) + {id}
      ensures var idx := FindIndexById(old(artefacts), id);
        artefacts == if idx == -1 then old(artefacts) else old(artefacts)[idx := old(artefacts)[idx].(isSummarizing := true)]
      ensures isAutoProcessingEnabled == old(isAutoProcessingEnabled) && polling == old(polling)
      ensures pollingIntervalMs == old(pollingIntervalMs)
    {
      summarizingDocs := summarizingDocs + {id};
      attemptedSummarizations := attemptedSummarizations + {id};
      var idx := FindIndexById(artefacts, id);
      if idx != -1 {
        artefacts := artefacts[idx := artefacts[idx].(isSummarizing := true)];
      }
    }

    /** `adjustPollingInterval`: poll faster under a high workload, slower
      under a low one, within the bounds. The interval is compared with
      itself after the update, so the restart of the timer never happens. */
    method AdjustPollingInterval() returns (restarted: bool)
      modifies this
      ensures var unprocessed := CountIf(old(artefacts), Unprocessed);
              var processing := CountIf(old(artefacts), Processing);
        && (unprocessed > 10 || processing > 5 ==>
              pollingIntervalMs == Max(minPollingIntervalMs, old(pollingIntervalMs) - 2000))
        && (!(unprocessed > 10 || processing > 5) && unprocessed < 3 && processing == 0 ==>
              pollingIntervalMs == Min(maxPollingIntervalMs, old(pollingIntervalMs) + 3000))
        && (!(unprocessed > 10 || processing > 5) && !(unprocessed < 3 && processing == 0) ==>
              pollingIntervalMs == old(pollingIntervalMs))
      ensures old(Valid()) ==> Valid()
      ensures !restarted
      ensures polling == old(polling) && isAutoProcessingEnabled == old(isAutoProcessingEnabled)
      ensures artefacts == old(artefacts)
      ensures summarizingDocs == old(summarizingDocs) && attemptedSummarizations == old(attemptedSummarizations)
    {
      var unprocessedCount := CountIf(artefacts, Unprocessed);
      var processingCount := CountIf(artefacts, Processing);
      if unprocessedCount > 10 || processingCount > 5 {
        pollingIntervalMs := Max(minPollingIntervalMs, pollingIntervalMs - 2000);
      } else if unprocessedCount < 3 && processingCount == 0 {
        pollingIntervalMs := Min(maxPollingIntervalMs, pollingIntervalMs + 3000);
      }
      var currentInterval := pollingIntervalMs;
      restarted := polling && Abs(currentInterval - pollingIntervalMs) > 2000;
      // Clearing the timer and calling `startPolling` leaves a timer exactly
      // when auto-processing is on.
      polling := if restarted then isAutoProcessingEnabled else polling;
    }

    /** `resetAutoProcessing`: stops, forgets both id sets, clears every
      artefact's summarising flag and goes back to the default interval. */
    method ResetAutoProcessing()
      modifies this
      ensures !isAutoProcessingEnabled && !polling
      ensures summarizingDocs == {} && attemptedSummarizations == {}
      ensures |artefacts| == |old(artefacts)|
      ensures forall i :: 0 <= i < |artefacts| ==> artefacts[i] == old(artefacts)[i].(isSummarizing := false)
      ensures pollingIntervalMs == DefaultPollingIntervalMs && Valid()
    {
      StopAutoProcessing();
      summarizingDocs := {};
      attemptedSummarizations := {};
      artefacts := seq(|artefacts|, i requires 0 <= i < |artefacts| reads this => artefacts[i].(isSummarizing := false));
      pollingIntervalMs := DefaultPollingIntervalMs;
    }
  }

  function Abs(x: int): int
  {
    if x < 0 then -x else x
  }

  /** Flagging the first artefact with one more id extends the flagging. */
  lemma FlagStep(original: seq<Artefact>, after: seq<Artefact>, ids: set<int>, id: int, idx: int)
    requires -1 <= idx < |after|
    requires idx == -1 ==> forall i :: 0 <= i < |after| ==> after[i].id != id
    requires idx >= 0 ==> after[idx].id == id && forall i :: 0 <= i < idx ==> after[i].id != id
    requires Flagged(original, after, ids)
    ensures idx == -1 ==> Flagged(original, after, ids + {id})
    ensures idx >= 0 ==> Flagged(original, after[idx := after[idx].(isSummarizing := true)], ids + {id})
  {
    assert forall j :: 0 <= j < |original| ==> after[j].id == original[j].id;
    if idx >= 0 {
      var next := after[idx := after[idx].(isSummarizing := true)];
      forall i | 0 <= i < |original|
        ensures next[i] == if original[i].id in ids + {id} && FirstWithId(original, i)
                           then original[i].(isSummarizing := true) else original[i]
      {
        if i == idx {
          assert FirstWithId(original, i);
        } else if original[i].id == id {
          assert idx < i;
          assert !FirstWithId(original, i);
        }
      }
    }
  }
}
