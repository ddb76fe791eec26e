/** The indexer that rebuilds its store from events alone, fetching again every manifest that is still needed. */
module OpenIndexing {
  import opened Wrappers
  import opened EventOrder
  import opened ProtocolEvents
  import opened Projection
  import opened ManifestLifecycle
  import opened Rebuild
  import opened Suppression
  import opened ReplaySource
  import opened MemoryStore

  datatype Disposition = Good | Pending | Terminal(code: string)

  function DispositionOf(l: Ledger, c: Coordinate): Disposition {
    if c in l.terminal then Terminal(l.terminal[c])
    else if c in l.pending then Disposition.Pending
    else Good
  }

  /** The item that the indexer builds for a recorded event with this disposition. */
  function ItemFor(l: Ledger, found: set<Coordinate>, fetch: Event -> Option<Manifest>, e: Event): Item {
    var c := CoordinateOf(e.pos);
    match DispositionOf(l, c)
    case Terminal(code) => Item(e, Quarantine(code))
    case _ => if c in found then Item(e, Suppress) else Item(e, Accept(fetch(e)))
  }

  function ItemsFor(l: Ledger, found: set<Coordinate>, fetch: Event -> Option<Manifest>,
                    ordered: seq<Event>): (items: seq<Item>)
    ensures |items| == |ordered|
    ensures forall i :: 0 <= i < |ordered| ==> items[i] == ItemFor(l, found, fetch, ordered[i])
  {
    seq(|ordered|, i requires 0 <= i < |ordered| => ItemFor(l, found, fetch, ordered[i]))
  }

  // ----- What the indexer relies on -----

  /** Some later event makes the manifest of the i-th item unnecessary. */
  ghost predicate IsSuperseded(items: seq<Item>, i: int)
    requires 0 <= i < |items|
  {
    exists j :: i < j < |items| && Supersedes(items[j].event, items[i].event)
  }

  /** Fetching a manifest again gives the one that was accepted, as long as no later event supersedes it. */
  ghost predicate FetchesAgain(items: seq<Item>, fetch: Event -> Option<Manifest>) {
    forall i :: 0 <= i < |items| && items[i].treatment.Accept? && !IsSuperseded(items, i) ==>
      items[i].treatment == Accept(fetch(items[i].event))
  }

  /** The store is where a run without pending manifests took it, and the events are its log, in some order. */
  ghost predicate Settled(pda: Derivations, s: State, ops: seq<Op>, supplied: seq<Event>,
                          fetch: Event -> Option<Manifest>) {
    && s == Run(pda, ops) && OpsMatch(ops) && OrderlyLog(s.ledger.log) && s.ledger.pending == {}
    && Unambiguous(PositionsOf(s.ledger.log, EventPosition)) && multiset(supplied) == multiset(s.ledger.log)
    && FetchesAgain(Execute(pda, ops).items, fetch)
  }

  lemma SortedLog(pda: Derivations, s: State, ops: seq<Op>, supplied: seq<Event>, fetch: Event -> Option<Manifest>)
    requires Settled(pda, s, ops, supplied, fetch)
    ensures Sort(supplied, EventPosition) == s.ledger.log && DistinctEvents(s.ledger.log) && s.ledger.pending == {}
    ensures Unambiguous(PositionsOf(supplied, EventPosition))
    ensures EventsOf(Execute(pda, ops).items) == s.ledger.log
    ensures LedgerMatches(s.ledger, Execute(pda, ops).items) && DistinctItems(Execute(pda, ops).items)
  {
    hide Ingest, Perform, CoordinateOf, Before, FetchesAgain, ConsistentPosts, Unambiguous, LedgerMatches,
      DistinctItems,
      ItemsMatch;
    var items, log := Execute(pda, ops).items, s.ledger.log;
    RunIsReplay(pda, ops);
    ReplayLedger(pda, items);
    LoggedEvents(s.ledger, items);
    SortsToLog(log, supplied);
  }

  lemma LoggedEvents(l: Ledger, items: seq<Item>)
    requires LedgerMatches(l, items) && DistinctItems(items)
    ensures EventsOf(items) == l.log && DistinctEvents(l.log)
  {
    hide CoordinateOf;
    assert forall i, j :: 0 <= i < j < |items| ==> ItemCoordinate(items[i]) != ItemCoordinate(items[j]);
  }

  lemma SortsToLog(log: seq<Event>, supplied: seq<Event>)
    requires DistinctEvents(log) && InCanonicalOrder(log) && Unambiguous(PositionsOf(log, EventPosition))
    requires multiset(supplied) == multiset(log)
    ensures Sort(supplied, EventPosition) == log && Unambiguous(PositionsOf(supplied, EventPosition))
  {
    hide CoordinateOf, Before, Unambiguous;
    SortIsCanonical(log, supplied, EventPosition);
    SortedUnique(Sort(log, EventPosition), log, EventPosition);
    PermutationOrderable(log, supplied, EventPosition);
  }

  /** Good events have an accepted manifest, and terminal ones a rejected one with the recorded code. */
  lemma SettledTreatment(l: Ledger, full: seq<Item>, i: nat)
    requires LedgerMatches(l, full) && DistinctItems(full) && l.pending == {} && i < |full|
    requires !full[i].treatment.Suppress?
    ensures var c := ItemCoordinate(full[i]);
            if c in l.terminal then full[i].treatment == Quarantine(l.terminal[c])
            else full[i].treatment.Accept? && c in AcceptedIn(l)
  {
    hide CoordinateOf;
    ItemRepeats(l, full, i);
    assert l.log[i] == full[i].event;
  }

  /** An event that the scan does not find has no later event that supersedes it, so its manifest is fetched again. */
  lemma SettledItem(l: Ledger, full: seq<Item>, found: map<Coordinate, Justification>,
                    fetch: Event -> Option<Manifest>, i: nat)
    requires LedgerMatches(l, full) && DistinctItems(full) && l.pending == {} && FetchesAgain(full, fetch)
    requires ScannedFrom(EventsOf(full), AcceptedIn(l), 0, found) && i < |full| && !full[i].treatment.Suppress?
    ensures ItemFor(l, found.Keys, fetch, full[i].event) == Withhold(full, found.Keys)[i]
  {
    hide CoordinateOf, Supersedes, NextSuperseder, LedgerMatches, AcceptedIn, DistinctItems;
    SettledTreatment(l, full, i);
    var log := EventsOf(full);
    assert ScannedAt(log, AcceptedIn(l), i, found);
    FoundAreAccepted(log, AcceptedIn(l), found);
    if ItemCoordinate(full[i]) in found {
      AcceptedIsGood(l, ItemCoordinate(full[i]));
    }
    if ItemCoordinate(full[i]) !in found && full[i].treatment.Accept? {
      forall j | i < j < |full| ensures !Supersedes(full[j].event, full[i].event) {
        assert log[j] == full[j].event && log[i] == full[i].event;
      }
    }
  }

  lemma AcceptedIsGood(l: Ledger, c: Coordinate)
    requires c in AcceptedIn(l)
    ensures c !in l.terminal && c !in l.pending
  {
  }

  lemma SettledItems(l: Ledger, full: seq<Item>, found: map<Coordinate, Justification>,
                     fetch: Event -> Option<Manifest>)
    requires LedgerMatches(l, full) && DistinctItems(full) && l.pending == {} && FetchesAgain(full, fetch)
    requires ScannedFrom(EventsOf(full), AcceptedIn(l), 0, found)
    requires forall i :: 0 <= i < |full| ==> !full[i].treatment.Suppress?
    ensures ItemsFor(l, found.Keys, fetch, EventsOf(full)) == Withhold(full, found.Keys)
  {
    hide ItemFor, FetchesAgain, LedgerMatches, ScannedFrom;
    forall i | 0 <= i < |full| ensures ItemFor(l, found.Keys, fetch, full[i].event) == Withhold(full, found.Keys)[i] {
      SettledItem(l, full, found, fetch, i);
    }
  }

  lemma FoundAreAccepted(ordered: seq<Event>, accepted: set<Coordinate>, found: map<Coordinate, Justification>)
    requires ScannedFrom(ordered, accepted, 0, found)
    ensures found.Keys <= accepted
  {
    hide CoordinateOf;
    forall c | c in found ensures c in accepted {
      var i :| 0 <= i < |ordered| && CoordinateOf(ordered[i].pos) == c;
      assert ScannedAt(ordered, accepted, i, found);
    }
  }

  lemma WithheldItemsRebuild(l: Ledger, full: seq<Item>, found: map<Coordinate, Justification>)
    requires LedgerMatches(l, full) && DistinctItems(full) && l.pending == {} && found.Keys <= AcceptedIn(l)
    ensures RepeatsLedger(l, Withhold(full, found.Keys))
  {
  }

  lemma WithheldKeys(full: seq<Item>, found: map<Coordinate, Justification>, ordered: seq<Event>,
                     accepted: set<Coordinate>)
    requires ScannedFrom(ordered, accepted, 0, found) && EventsOf(full) == ordered
    requires forall i :: 0 <= i < |full| ==> !full[i].treatment.Suppress?
    ensures CanonicalSuppressions(ordered, SuppressedKeys(Withhold(full, found.Keys)), found)
  {
    hide CoordinateOf, NextSuperseder;
    var cut := Withhold(full, found.Keys);
    forall k | 0 <= k < |ordered| ensures IsCanonicalAt(ordered, k, SuppressedKeys(cut), found) {
      if CoordinateOf(ordered[k].pos) in SuppressedKeys(cut) {
        var i :| 0 <= i < |cut| && cut[i].treatment.Suppress? && ItemCoordinate(cut[i]) == CoordinateOf(ordered[k].pos);
        assert ScannedAt(ordered, accepted, k, found);
      }
    }
  }

  lemma SortedItems(items: seq<Item>, log: seq<Event>)
    requires EventsOf(items) == log && InCanonicalOrder(log) && DistinctItems(items)
    requires Unambiguous(PositionsOf(log, EventPosition))
    ensures Sort(items, ItemPosition) == items && Sort(log, EventPosition) == log
    ensures Unambiguous(PositionsOf(items, ItemPosition))
  {
    hide CoordinateOf, Before, Unambiguous;
    assert PositionsOf(items, ItemPosition) == PositionsOf(log, EventPosition);
    assert forall i, j :: 0 <= i < j < |items| ==> ItemCoordinate(items[i]) != ItemCoordinate(items[j]);
    assert forall i, j :: 0 <= i < j < |log| ==> Before(log[i].pos, log[j].pos);
    assert Sorted(PositionsOf(log, EventPosition));
    SortSorts(items, ItemPosition);
    SortedUnique(Sort(items, ItemPosition), items, ItemPosition);
    SortSorts(log, EventPosition);
    SortedUnique(Sort(log, EventPosition), log, EventPosition);
  }

  /** The items that the indexer builds are accepted by the store, and their replay serves what the store serves. */
  lemma BuiltItemsRestore(pda: Derivations, s: State, ops: seq<Op>, supplied: seq<Event>,
                          fetch: Event -> Option<Manifest>,
                          found: map<Coordinate, Justification>)
    requires Settled(pda, s, ops, supplied, fetch)
    requires ScannedFrom(s.ledger.log, AcceptedIn(s.ledger), 0, found)
    ensures var items := ItemsFor(s.ledger, found.Keys, fetch, s.ledger.log);
            && MayRebuild(s.ledger, items, found)
            && Replay(pda, Sort(items, ItemPosition)).Ok?
            && var t := Replay(pda, Sort(items, ItemPosition)).value;
               t == s.(content := t.content) && ServesTheSame(s.content, t.content)
  {
    hide Ingest, Perform, Replay, Execute, CoordinateOf, ScannedFrom, Unambiguous, ServesTheSame, CanonicalSuppressions,
      RepeatsLedger, OrderlyLog, LedgerMatches, AcceptedIn;
    var full := Execute(pda, ops).items;
    var cut := Withhold(full, found.Keys);
    SortedLog(pda, s, ops, supplied, fetch);
    FoundAreAccepted(s.ledger.log, AcceptedIn(s.ledger), found);
    RunsNeverSuppress(pda, ops);
    SettledItems(s.ledger, full, found, fetch);
    WithheldItemsRebuild(s.ledger, full, found);
    OpenRebuildServesTheSame(pda, ops, found);
    CutIsInOrder(full, cut, s.ledger.log);
    WithheldKeys(full, found, s.ledger.log, AcceptedIn(s.ledger));
  }

  lemma CutIsInOrder(full: seq<Item>, cut: seq<Item>, log: seq<Event>)
    requires |full| == |cut| && (forall i :: 0 <= i < |full| ==> cut[i].event == full[i].event)
    requires EventsOf(full) == log && DistinctItems(full) && OrderlyLog(log)
    requires Unambiguous(PositionsOf(log, EventPosition))
    ensures EventsOf(cut) == log && DistinctItems(cut)
    ensures Sort(cut, ItemPosition) == cut && Sort(log, EventPosition) == log
    ensures Unambiguous(PositionsOf(cut, ItemPosition))
  {
    hide CoordinateOf, Before, Unambiguous, ConsistentPosts;
    assert EventsOf(cut) == log;
    assert DistinctItems(cut) by {
      assert forall i, j :: 0 <= i < j < |full| ==> ItemCoordinate(full[i]) != ItemCoordinate(full[j]);
    }
    SortedItems(cut, log);
  }

  // ----- The indexer -----

  class OpenIndexer {
    const projection: MemoryProjectionStore
    const fetch: Event -> Option<Manifest>

    constructor (projection: MemoryProjectionStore, fetch: Event -> Option<Manifest>)
      ensures this.projection == projection && this.fetch == fetch
    {
      this.projection := projection;
      this.fetch := fetch;
    }

    /** What the store knows about the manifest of an event. */
    method ManifestEventDisposition(e: Event) returns (r: Outcome<Disposition>)
      ensures var recorded := Lookup(projection.events, CoordinateOf(e.pos));
              r == if recorded.None? then Err(StaleEvent)
                   else if recorded.value != e then Err(EventConflict)
                   else Ok(DispositionOf(projection.LedgerPart(), CoordinateOf(e.pos)))
    {
      var recorded := Lookup(projection.events, CoordinateOf(e.pos));
      if recorded.None? {
        return Err(StaleEvent);
      }
      if recorded.value != e {
        return Err(EventConflict);
      }
      r := Ok(DispositionOf(projection.LedgerPart(), CoordinateOf(e.pos)));
    }

    /** The accepted ones among recorded events; fails when an event is not recorded as given. */
    method AcceptedEvents(ordered: seq<Event>) returns (r: Outcome<set<Coordinate>>)
      ensures ordered == projection.events && DistinctEvents(ordered) ==> r == Ok(AcceptedIn(projection.LedgerPart()))
    {
      hide CoordinateOf;
      var accepted: set<Coordinate> := {};
      for i := 0 to |ordered|
        invariant accepted == set e | e in ordered[..i]
                  && DispositionOf(projection.LedgerPart(), CoordinateOf(e.pos)).Good? :: CoordinateOf(e.pos)
      {
        var disposition := ManifestEventDisposition(ordered[i]);
        if disposition.Err? {
          if ordered == projection.events && DistinctEvents(ordered) {
            LookupFinds(ordered, i);
          }
          return Err(disposition.error);
        }
        if disposition.value.Good? {
          accepted := accepted + {CoordinateOf(ordered[i].pos)};
        }
      }
      assert ordered[..|ordered|] == ordered;
      if ordered == projection.events {
        GoodIsAccepted(projection.LedgerPart());
      }
      r := Ok(accepted);
    }

    /** One item for every event; fails when a manifest is pending. */
    method BuildItems(ordered: seq<Event>, found: map<Coordinate, Justification>) returns (r: Outcome<seq<Item>>)
      ensures r.Ok? ==> r.value == ItemsFor(projection.LedgerPart(), found.Keys, fetch, ordered)
      ensures projection.pendingEvents == {} ==> r.Ok?
    {
      hide CoordinateOf;
      var items: seq<Item> := [];
      for i := 0 to |ordered|
        invariant |items| == i
        invariant forall j :: 0 <= j < i ==> items[j] == ItemFor(projection.LedgerPart(), found.Keys, fetch, ordered[j])
      {
        var c := CoordinateOf(ordered[i].pos);
        var disposition := DispositionOf(projection.LedgerPart(), c);
        match disposition {
          case Terminal(code) => items := items + [Item(ordered[i], Quarantine(code))];
          case Pending => return Err(ManifestRequired);
          case Good =>
            if c in found {
              items := items + [Item(ordered[i], Suppress)];
            } else {
              items := items + [Item(ordered[i], Accept(fetch(ordered[i])))];
            }
        }
      }
      assert items == ItemsFor(projection.LedgerPart(), found.Keys, fetch, ordered);
      r := Ok(items);
    }

    /**
     Rebuilds the store from its raw events. When no manifest is pending, and fetching gives what was accepted wherever
     no later event supersedes it, this succeeds for every order in which the events are supplied, and what the store
     serves does not change.
     */
    method Rebuild(supplied: seq<Event>, ghost ops: seq<Op>) returns (r: Result<(), RebuildFault>)
      modifies projection
      ensures Settled(projection.pda, old(projection.Model()), ops, supplied, fetch) ==>
                && r.Ok?
                && projection.Model() == old(projection.Model()).(content := projection.ContentPart())
                && ServesTheSame(old(projection.ContentPart()), projection.ContentPart())
      ensures r.Err? ==> projection.Model() == old(projection.Model())
    {
      hide Settled, ScannedFrom, MayRebuild, Replay, ServesTheSame, AcceptedIn, Unambiguous;
      ghost var s := projection.Model();
      if Settled(projection.pda, s, ops, supplied, fetch) {
        SortedLog(projection.pda, s, ops, supplied, fetch);
      }
      var unambiguous := AssertUnambiguousEventOrder(PositionsOfEvents(supplied));
      if !unambiguous {
        return Err(Ambiguous);
      }
      var ordered := Sort(supplied, EventPosition);
      var accepted := AcceptedEvents(ordered);
      if accepted.Err? {
        return Err(Faulty(accepted.error));
      }
      var found := DeriveAcceptedManifestSuppressions(ordered, accepted.value);
      var items := BuildItems(ordered, found);
      if items.Err? {
        return Err(Faulty(items.error));
      }
      if Settled(projection.pda, s, ops, supplied, fetch) {
        BuiltItemsRestore(projection.pda, s, ops, supplied, fetch, found);
      }
      r := projection.RebuildProjection(items.value, found);
    }
  }

  lemma GoodIsAccepted(l: Ledger)
    ensures AcceptedIn(l) == set e | e in l.log && DispositionOf(l, CoordinateOf(e.pos)).Good? :: CoordinateOf(e.pos)
  {
  }

  lemma {:induction false} LookupFinds(log: seq<Event>, i: nat)
    requires DistinctEvents(log) && i < |log|
    ensures Lookup(log, CoordinateOf(log[i].pos)) == Some(log[i])
  {
  }

  function PositionsOfEvents(events: seq<Event>): (ps: seq<Position>)
    ensures ps == PositionsOf(events, EventPosition)
  {
    seq(|events|, i requires 0 <= i < |events| => events[i].pos)
  }
}
