/** What the store demands of the items it is asked to rebuild itself from. */
module ReplaySource {
  import opened Wrappers
  import opened EventOrder
  import opened ProtocolEvents
  import opened Projection
  import opened ManifestLifecycle
  import opened Rebuild
  import opened Suppression

  datatype RebuildFault = Ambiguous | Faulty(fault: Fault)

  function EventPosition(e: Event): Position {
    e.pos
  }

  function TerminalCode(l: Ledger, c: Coordinate): Option<string> {
    if c in l.terminal then Some(l.terminal[c]) else None
  }

  function CodeOf(t: Treatment): Option<string> {
    if t.Quarantine? then Some(t.code) else None
  }

  /** The item repeats what the ledger knows about an event. */
  predicate Repeats(l: Ledger, e: Event, item: Item) {
    && item.event == e
    && CodeOf(item.treatment) == TerminalCode(l, CoordinateOf(e.pos))
    && (item.treatment.Defer? <==> CoordinateOf(e.pos) in l.pending)
  }

  ghost predicate IsRepeated(l: Ledger, e: Event, items: seq<Item>) {
    exists k :: 0 <= k < |items| && Repeats(l, e, items[k])
  }

  ghost predicate RepeatsLedger(l: Ledger, items: seq<Item>) {
    && |items| == |l.log|
    && forall i :: 0 <= i < |l.log| ==> IsRepeated(l, l.log[i], items)
  }

  function SuppressedKeys(items: seq<Item>): (keys: set<Coordinate>)
    ensures forall c ::
              c in keys <==>
              (exists i :: 0 <= i < |items| && items[i].treatment.Suppress? && ItemCoordinate(items[i]) == c)
  {
    set i | 0 <= i < |items| && items[i].treatment.Suppress? :: ItemCoordinate(items[i])
  }

  /** The nearest later event that supersedes the k-th one is the given justification. */
  ghost predicate Justifies(ordered: seq<Event>, k: int, why: Justification)
    requires 0 <= k < |ordered|
  {
    && why.reason == ReasonFor(ordered[k])
    && exists j :: NextSuperseder(ordered, k, j) && why.suppressor == CoordinateOf(ordered[j].pos)
  }

  ghost predicate IsCanonicalAt(ordered: seq<Event>, k: int, suppressed: set<Coordinate>, reasons: map<Coordinate,
                                Justification>)
    requires 0 <= k < |ordered|
  {
    var c := CoordinateOf(ordered[k].pos);
    c in suppressed ==> c in reasons && Justifies(ordered, k, reasons[c])
  }

  /** Every manifest that the items leave out is left out for the reason that the order of events gives. */
  ghost predicate CanonicalSuppressions(ordered: seq<Event>, suppressed: set<Coordinate>, reasons: map<Coordinate,
                                        Justification>) {
    forall k :: 0 <= k < |ordered| ==> IsCanonicalAt(ordered, k, suppressed, reasons)
  }

  ghost predicate MayRebuild(l: Ledger, items: seq<Item>, reasons: map<Coordinate, Justification>) {
    && DistinctItems(items) && RepeatsLedger(l, items)
    && CanonicalSuppressions(Sort(EventsOf(items), EventPosition), SuppressedKeys(items), reasons)
    && Unambiguous(PositionsOf(items, ItemPosition))
  }

  /** The derived justifications are the only ones. */
  lemma DerivedIsCanonical(ordered: seq<Event>, suppressed: set<Coordinate>, found: map<Coordinate, Justification>,
                           k: int,
                           why: Justification)
    requires DistinctEvents(ordered) && ScannedFrom(ordered, suppressed, 0, found) && 0 <= k < |ordered|
    requires CoordinateOf(ordered[k].pos) in suppressed
    ensures Justifies(ordered, k, why)
       <==> CoordinateOf(ordered[k].pos) in found && found[CoordinateOf(ordered[k].pos)] == why
  {
    hide CoordinateOf, Supersedes;
    var c := CoordinateOf(ordered[k].pos);
    assert ScannedAt(ordered, suppressed, k, found);
    if c in found {
      var j :| NextSuperseder(ordered, k, j) && found[c].suppressor == CoordinateOf(ordered[j].pos);
      forall i | NextSuperseder(ordered, k, i) ensures i == j {
        NextIsUnique(ordered, k, i, j);
      }
    }
  }

  lemma NextIsUnique(ordered: seq<Event>, k: int, i: int, j: int)
    requires NextSuperseder(ordered, k, i) && NextSuperseder(ordered, k, j)
    ensures i == j
  {
  }

  // ----- Permutations -----

  lemma DistinctSorted(events: seq<Event>)
    requires forall i, j :: 0 <= i < j < |events| ==> CoordinateOf(events[i].pos) != CoordinateOf(events[j].pos)
    ensures DistinctEvents(Sort(events, EventPosition))
  {
    hide CoordinateOf;
    var sorted := Sort(events, EventPosition);
    forall i, j | 0 <= i < j < |sorted| ensures CoordinateOf(sorted[i].pos) != CoordinateOf(sorted[j].pos) {
      MultisetMember(sorted, events, i);
      MultisetMember(sorted, events, j);
      var i', j' :| 0 <= i' < |events| && events[i'] == sorted[i] && 0 <= j' < |events| && events[j'] == sorted[j];
      if i' == j' {
        RepeatedMember(sorted, i, j);
        assert forall k :: 0 <= k < |events| && k != i' ==> events[k] != events[i'] by {
          assert forall k :: 0 <= k < i' ==> CoordinateOf(events[k].pos) != CoordinateOf(events[i'].pos);
          assert forall k :: i' < k < |events| ==> CoordinateOf(events[i'].pos) != CoordinateOf(events[k].pos);
        }
        OnceInSequence(events, i');
      }
    }
  }

  lemma OnceInSequence<T>(xs: seq<T>, i: nat)
    requires i < |xs| && forall k :: 0 <= k < |xs| && k != i ==> xs[k] != xs[i]
    ensures multiset(xs)[xs[i]] == 1
  {
    assert xs == xs[..i] + [xs[i]] + xs[i + 1..];
    assert xs[i] !in xs[..i] && xs[i] !in xs[i + 1..];
  }

  lemma DistinctSortedItems(items: seq<Item>)
    requires DistinctItems(items)
    ensures DistinctItems(Sort(items, ItemPosition))
  {
    hide CoordinateOf;
    var sorted := Sort(items, ItemPosition);
    forall i, j | 0 <= i < j < |sorted| ensures ItemCoordinate(sorted[i]) != ItemCoordinate(sorted[j]) {
      MultisetMember(sorted, items, i);
      MultisetMember(sorted, items, j);
      var i', j' :| 0 <= i' < |items| && items[i'] == sorted[i] && 0 <= j' < |items| && items[j'] == sorted[j];
      if i' == j' {
        RepeatedMember(sorted, i, j);
        OnceAmongItems(items, i');
      }
    }
  }

  lemma OnceAmongItems(items: seq<Item>, i: nat)
    requires DistinctItems(items) && i < |items|
    ensures multiset(items)[items[i]] == 1
  {
    hide CoordinateOf;
    forall k | 0 <= k < |items| && k != i ensures items[k] != items[i] {
      assert k < i ==> ItemCoordinate(items[k]) != ItemCoordinate(items[i]);
      assert i < k ==> ItemCoordinate(items[i]) != ItemCoordinate(items[k]);
    }
    OnceInSequence(items, i);
  }

  lemma NotReplayedYet(pda: Derivations, items: seq<Item>, i: nat)
    requires DistinctItems(items) && i < |items| && Replay(pda, items[..i]).Ok?
    ensures Lookup(Replay(pda, items[..i]).value.ledger.log, ItemCoordinate(items[i])).None?
  {
    hide Ingest, CoordinateOf;
    ReplayLedger(pda, items[..i]);
    var log := Replay(pda, items[..i]).value.ledger.log;
    forall k | 0 <= k < |log| ensures CoordinateOf(log[k].pos) != ItemCoordinate(items[i]) {
      assert ItemCoordinate(items[k]) != ItemCoordinate(items[i]);
    }
  }

  /** A replay that fails at some item fails. */
  lemma {:induction false} FailsForGood(pda: Derivations, items: seq<Item>, n: nat)
    requires n <= |items| && Replay(pda, items[..n]).Err?
    ensures Replay(pda, items).Err?
    decreases |items|
  {
    hide Ingest;
    if n < |items| {
      assert items[..|items| - 1][..n] == items[..n];
      FailsForGood(pda, items[..|items| - 1], n);
    } else {
      assert items[..n] == items;
    }
  }

  function PositionsOfItems(items: seq<Item>): (ps: seq<Position>)
    ensures ps == PositionsOf(items, ItemPosition)
  {
    seq(|items|, i requires 0 <= i < |items| => items[i].event.pos)
  }

  // ----- A store rebuilt from its own log -----

  lemma ItemRepeats(l: Ledger, items: seq<Item>, i: nat)
    requires LedgerMatches(l, items) && DistinctItems(items) && i < |items|
    ensures i < |l.log| && Repeats(l, l.log[i], items[i])
  {
  }

  lemma SuppliedRepeats(l: Ledger, items: seq<Item>, supplied: seq<Item>)
    requires LedgerMatches(l, items) && DistinctItems(items) && multiset(supplied) == multiset(items)
    ensures RepeatsLedger(l, supplied)
  {
    hide CoordinateOf, Repeats;
    assert |multiset(supplied)| == |supplied| && |multiset(items)| == |items|;
    forall i | 0 <= i < |l.log| ensures IsRepeated(l, l.log[i], supplied) {
      ItemRepeats(l, items, i);
      MultisetMember(items, supplied, i);
      var k :| 0 <= k < |supplied| && supplied[k] == items[i];
      assert Repeats(l, l.log[i], supplied[k]);
    }
  }

  /** No operation of the store leaves a manifest out. */
  lemma {:induction false} RunsNeverSuppress(pda: Derivations, ops: seq<Op>)
    ensures forall i :: 0 <= i < |Execute(pda, ops).items| ==> !Execute(pda, ops).items[i].treatment.Suppress?
  {
    hide Perform, CoordinateOf;
    if ops != [] {
      RunsNeverSuppress(pda, ops[..|ops| - 1]);
    }
  }

  lemma DistinctPermutation(items: seq<Item>, supplied: seq<Item>)
    requires DistinctItems(items) && multiset(supplied) == multiset(items)
    ensures DistinctItems(supplied)
  {
    hide CoordinateOf;
    forall i, j | 0 <= i < j < |supplied| ensures ItemCoordinate(supplied[i]) != ItemCoordinate(supplied[j]) {
      MultisetMember(supplied, items, i);
      MultisetMember(supplied, items, j);
      var i', j' :| 0 <= i' < |items| && items[i'] == supplied[i] && 0 <= j' < |items| && items[j'] == supplied[j];
      if i' == j' {
        RepeatedMember(supplied, i, j);
        OnceAmongItems(items, i');
      }
    }
  }

  /**
   Supplied with the events of any run and the treatments that their manifests got, in any order, the store accepts
   them, and the rebuilt projection is the one it has.
   */
  lemma RunItemsRebuild(pda: Derivations, ops: seq<Op>, supplied: seq<Item>, reasons: map<Coordinate, Justification>)
    requires OpsMatch(ops) && OrderlyLog(Run(pda, ops).ledger.log)
    requires Unambiguous(PositionsOf(Execute(pda, ops).items, ItemPosition))
    requires multiset(supplied) == multiset(Execute(pda, ops).items)
    ensures MayRebuild(Run(pda, ops).ledger, supplied, reasons)
    ensures Replay(pda, Sort(supplied, ItemPosition)) == Ok(Run(pda, ops))
  {
    hide Perform, Ingest, Unambiguous, CoordinateOf, OrderlyLog, RepeatsLedger, LedgerMatches;
    var items := Execute(pda, ops).items;
    RunIsReplay(pda, ops);
    ReplayLedger(pda, items);
    RunsNeverSuppress(pda, ops);
    SuppliedRepeats(Run(pda, ops).ledger, items, supplied);
    DistinctPermutation(items, supplied);
    NoneSuppressed(items, supplied);
    OrderableRun(items);
    PermutationOrderable(items, supplied, ItemPosition);
    RebuildRestores(pda, ops, supplied);
  }

  lemma NoneSuppressed(items: seq<Item>, supplied: seq<Item>)
    requires forall i :: 0 <= i < |items| ==> !items[i].treatment.Suppress?
    requires multiset(supplied) == multiset(items)
    ensures SuppressedKeys(supplied) == {}
  {
    forall k | 0 <= k < |supplied| ensures !supplied[k].treatment.Suppress? {
      MultisetMember(supplied, items, k);
    }
  }

  lemma OrderableRun(items: seq<Item>)
    requires DistinctItems(items) && Unambiguous(PositionsOf(items, ItemPosition))
    ensures Orderable(items, ItemPosition)
  {
  }
}
