/**
 Positions of finalized events within one network, the comparator that orders them, and the guard
 that decides whether a log can be ordered at all.
 */
module EventOrder {
  import opened Wrappers

  /** Where an event was finalized. The transaction index may be missing from the source. */
  datatype Position = Position(slot: nat, transactionIndex: Option<nat>, signature: string, logIndex: nat)

  /** The identity of an event within its network. */
  datatype Coordinate = Coordinate(signature: string, logIndex: nat)

  function CoordinateOf(p: Position): Coordinate {
    Coordinate(p.signature, p.logIndex)
  }

  // ----- Comparing strings -----

  ghost predicate Injective<T(!new)>(rank: T -> int) {
    forall x, y :: rank(x) == rank(y) ==> x == y
  }

  /** The order of the first difference, or of the lengths. */
  function CompareBy<T>(left: seq<T>, right: seq<T>, rank: T -> int): int {
    if left == [] && right == [] then 0
    else if left == [] then -1
    else if right == [] then 1
    else if rank(left[0]) < rank(right[0]) then -1
    else if rank(left[0]) > rank(right[0]) then 1
    else CompareBy(left[1..], right[1..], rank)
  }

  lemma {:induction false} CompareByEqual<T(!new)>(left: seq<T>, right: seq<T>, rank: T -> int)
    requires Injective(rank)
    ensures CompareBy(left, right, rank) == 0 <==> left == right
  {
    if left != [] && right != [] && rank(left[0]) == rank(right[0]) {
      CompareByEqual(left[1..], right[1..], rank);
      assert left == [left[0]] + left[1..] && right == [right[0]] + right[1..];
    }
  }

  lemma {:induction false} CompareByAntisymmetric<T>(left: seq<T>, right: seq<T>, rank: T -> int)
    ensures CompareBy(left, right, rank) < 0 <==> CompareBy(right, left, rank) > 0
  {
    if left != [] && right != [] && rank(left[0]) == rank(right[0]) {
      CompareByAntisymmetric(left[1..], right[1..], rank);
    }
  }

  lemma {:induction false} CompareByTransitive<T>(a: seq<T>, b: seq<T>, c: seq<T>, rank: T -> int)
    requires CompareBy(a, b, rank) < 0 && CompareBy(b, c, rank) < 0
    ensures CompareBy(a, c, rank) < 0
  {
    if a != [] && b != [] && c != [] && rank(a[0]) == rank(b[0]) == rank(c[0]) {
      CompareByTransitive(a[1..], b[1..], c[1..], rank);
    }
  }

  function CharRank(c: char): int {
    c as int
  }

  /** The order in which the comparison operators of the source put strings. */
  function CompareStrings(left: string, right: string): (c: int)
    ensures c == 0 <==> left == right
  {
    CompareByEqual(left, right, CharRank);
    CompareBy(left, right, CharRank)
  }

  lemma CompareStringsAntisymmetric(left: string, right: string)
    ensures CompareStrings(left, right) < 0 <==> CompareStrings(right, left) > 0
  {
    CompareByAntisymmetric(left, right, CharRank);
  }

  lemma CompareStringsTransitive(a: string, b: string, c: string)
    requires CompareStrings(a, b) < 0 && CompareStrings(b, c) < 0
    ensures CompareStrings(a, c) < 0
  {
    CompareByTransitive(a, b, c, CharRank);
  }

  // ----- Comparing positions -----

  /** Slot first, then both transaction indexes when they are known and differ, then signature and log index. */
  function Compare(left: Position, right: Position): int {
    if left.slot != right.slot then
      if left.slot < right.slot then -1 else 1
    else if && left.transactionIndex.Some? && right.transactionIndex.Some?
            && left.transactionIndex != right.transactionIndex then
      left.transactionIndex.value - right.transactionIndex.value
    else
      var signature := CompareStrings(left.signature, right.signature);
      if signature == 0 then left.logIndex - right.logIndex else signature
  }

  predicate Before(left: Position, right: Position) {
    Compare(left, right) < 0
  }

  lemma CompareAntisymmetric(left: Position, right: Position)
    ensures Before(left, right) <==> Compare(right, left) > 0
    ensures Compare(left, right) == 0 <==> Compare(right, left) == 0
  {
    CompareStringsAntisymmetric(left.signature, right.signature);
    CompareStringsAntisymmetric(right.signature, left.signature);
  }

  // ----- The ambiguity guard -----

  /** Whether the guard tolerates two positions in one log. */
  predicate Compatible(p: Position, q: Position) {
    p.slot == q.slot ==>
      if p.signature == q.signature then p.transactionIndex == q.transactionIndex
      else p.transactionIndex.Some? && q.transactionIndex.Some? && p.transactionIndex != q.transactionIndex
  }

  ghost predicate Unambiguous(log: seq<Position>) {
    forall i, j :: 0 <= i < |log| && 0 <= j < |log| ==> Compatible(log[i], log[j])
  }

  ghost predicate DistinctCoordinates(log: seq<Position>) {
    forall i, j :: 0 <= i < j < |log| ==> CoordinateOf(log[i]) != CoordinateOf(log[j])
  }

  /** The transactions that the first i events of a log put into one slot. */
  ghost predicate SlotTableOf(log: seq<Position>, i: nat, table: map<nat, map<string, Option<nat>>>)
    requires i <= |log|
  {
    && (forall k :: 0 <= k < i ==>
          && log[k].slot in table
          && log[k].signature in table[log[k].slot]
          && table[log[k].slot][log[k].signature] == log[k].transactionIndex)
    && (forall slot, signature :: slot in table && signature in table[slot] ==>
          exists k :: 0 <= k < i && log[k].slot == slot && log[k].signature == signature)
  }

  /** The first loop of the guard: one transaction index per transaction, gathered by slot. */
  method TransactionsBySlot(log: seq<Position>)
    returns (agreed: bool, table: map<nat, map<string, Option<nat>>>)
    ensures agreed ==> SlotTableOf(log, |log|, table)
    ensures !agreed ==> !Unambiguous(log)
  {
    table := map[];
    for i := 0 to |log|
      invariant SlotTableOf(log, i, table)
    {
      var p := log[i];
      var transactions := if p.slot in table then table[p.slot] else map[];
      if p.signature in transactions && transactions[p.signature] != p.transactionIndex {
        ghost var k :| 0 <= k < i && log[k].slot == p.slot && log[k].signature == p.signature;
        assert !Compatible(log[k], log[i]);
        return false, table;
      }
      ghost var before := table;
      table := table[p.slot := transactions[p.signature := p.transactionIndex]];
      forall slot, signature | slot in table && signature in table[slot]
        ensures exists k :: 0 <= k < i + 1 && log[k].slot == slot && log[k].signature == signature
      {
        if slot == p.slot && signature == p.signature {
          assert log[i].slot == slot;
        } else {
          assert slot in before && signature in before[slot];
          var k :| 0 <= k < i && log[k].slot == slot && log[k].signature == signature;
          assert 0 <= k < i + 1;
        }
      }
    }
    return true, table;
  }

  /** The guard accepts exactly the logs whose positions are pairwise compatible. */
  method AssertUnambiguousEventOrder(log: seq<Position>) returns (accepted: bool)
    ensures accepted <==> Unambiguous(log)
  {
    var agreed, table := TransactionsBySlot(log);
    if !agreed {
      return false;
    }
    var slots := table.Keys;
    while slots != {}
      invariant slots <= table.Keys
      invariant forall j, k :: 0 <= j < |log| && 0 <= k < |log| && log[j].slot !in slots
                  ==> Compatible(log[j], log[k])
      decreases slots
    {
      var slot :| slot in slots;
      var distinct := IndexesDistinct(table[slot]);
      if !distinct {
        ghost var s, t :| SlotConflict(table[slot], s, t);
        ghost var j :| 0 <= j < |log| && log[j].slot == slot && log[j].signature == s;
        ghost var k :| 0 <= k < |log| && log[k].slot == slot && log[k].signature == t;
        assert !Compatible(log[j], log[k]);
        return false;
      }
      SlotCompatible(log, table, slot);
      slots := slots - {slot};
    }
    return true;
  }

  lemma SlotCompatible(log: seq<Position>, table: map<nat, map<string, Option<nat>>>, slot: nat)
    requires SlotTableOf(log, |log|, table)
    requires slot in table && forall s, t :: !SlotConflict(table[slot], s, t)
    ensures forall j, k :: 0 <= j < |log| && 0 <= k < |log| && log[j].slot == slot ==> Compatible(log[j], log[k])
  {
    forall j, k | 0 <= j < |log| && 0 <= k < |log| && log[j].slot == slot
      ensures Compatible(log[j], log[k])
    {
      if log[k].slot == slot {
        assert !SlotConflict(table[slot], log[j].signature, log[k].signature);
      }
    }
  }

  /** Two different transactions of one slot whose indexes do not order them. */
  ghost predicate SlotConflict(transactions: map<string, Option<nat>>, s: string, t: string) {
    && s in transactions && t in transactions && s != t
    && (transactions[s].None? || transactions[t].None? || transactions[s] == transactions[t])
  }

  /** The guard's inner loop over the transactions of one slot. */
  method IndexesDistinct(transactions: map<string, Option<nat>>) returns (distinct: bool)
    ensures distinct <==> forall s, t :: !SlotConflict(transactions, s, t)
  {
    if |transactions| <= 1 {
      forall s, t ensures !SlotConflict(transactions, s, t) {
        if s in transactions && t in transactions && s != t {
          assert {s, t} <= transactions.Keys;
          assert |{s, t}| == 2;
          SubsetSize({s, t}, transactions.Keys);
        }
      }
      return true;
    }
    var usedIndexes: set<nat> := {};
    var remaining := transactions.Keys;
    while remaining != {}
      invariant remaining <= transactions.Keys
      invariant forall s :: s in transactions && s !in remaining ==>
                  transactions[s].Some? && transactions[s].value in usedIndexes
      invariant forall n :: n in usedIndexes ==>
                  exists s :: s in transactions && s !in remaining && transactions[s] == Some(n)
      invariant forall s, t :: s in transactions && s !in remaining && t in transactions && t !in remaining
                  ==> !SlotConflict(transactions, s, t)
      decreases remaining
    {
      var signature :| signature in remaining;
      if transactions[signature].None? {
        OtherMember(transactions.Keys, signature);
        ghost var other :| other in transactions.Keys && other != signature;
        assert SlotConflict(transactions, signature, other);
        return false;
      }
      var index := transactions[signature].value;
      if index in usedIndexes {
        ghost var other :| other in transactions && other !in remaining && transactions[other] == Some(index);
        assert SlotConflict(transactions, signature, other);
        return false;
      }
      usedIndexes := usedIndexes + {index};
      remaining := remaining - {signature};
    }
    return true;
  }

  lemma SubsetSize<T>(small: set<T>, large: set<T>)
    requires small <= large
    ensures |small| <= |large|
  {
    assert large == small + (large - small);
  }

  lemma OtherMember<T>(s: set<T>, x: T)
    requires x in s && |s| > 1
    ensures exists y :: y in s && y != x
  {
    assert s == {x} + (s - {x});
    var y :| y in s - {x};
  }

  // ----- The comparator orders every log that passes the guard -----

  /** Transitivity needs the guard on the three positions only. */
  lemma BeforeTransitive(a: Position, b: Position, c: Position)
    requires Compatible(a, b) && Compatible(b, c) && Compatible(a, c)
    requires Before(a, b) && Before(b, c)
    ensures Before(a, c)
  {
  }

  /** Different coordinates of one log are always ordered, one way and not the other. */
  lemma BeforeTotal(p: Position, q: Position)
    requires Compatible(p, q) && CoordinateOf(p) != CoordinateOf(q)
    ensures Before(p, q) <==> !Before(q, p)
  {
  }

  /** On a log that passes the guard, the comparator is a strict total order of the coordinates. */
  lemma StrictTotalOrder(log: seq<Position>)
    requires Unambiguous(log) && DistinctCoordinates(log)
    ensures forall i, j :: 0 <= i < |log| && 0 <= j < |log| && i != j ==>
              (Before(log[i], log[j]) <==> !Before(log[j], log[i]))
    ensures forall i, j, k :: 0 <= i < |log| && 0 <= j < |log| && 0 <= k < |log|
                              && Before(log[i], log[j]) && Before(log[j], log[k])
              ==> Before(log[i], log[k])
  {
    forall i, j | 0 <= i < |log| && 0 <= j < |log| && i != j
      ensures Before(log[i], log[j]) <==> !Before(log[j], log[i])
    {
      BeforeTotal(log[if i < j then i else j], log[if i < j then j else i]);
    }
    forall i, j, k | 0 <= i < |log| && 0 <= j < |log| && 0 <= k < |log|
                     && Before(log[i], log[j]) && Before(log[j], log[k])
      ensures Before(log[i], log[k])
    {
      BeforeTransitive(log[i], log[j], log[k]);
    }
  }

  /** Without the guard the comparator has cycles: each of these comes before the next, around the circle. */
  lemma MissingIndexBreaksTransitivity()
    ensures var a := Position(1, Some(1), "c", 0);
            var b := Position(1, Some(2), "a", 0);
            var c := Position(1, None, "b", 0);
            Before(a, b) && Before(b, c) && Before(c, a) && !Before(a, c) && !Unambiguous([a, b, c])
  {
    var a, b, c := Position(1, Some(1), "c", 0), Position(1, Some(2), "a", 0), Position(1, None, "b", 0);
    assert !Compatible([a, b, c][0], [a, b, c][2]);
  }

  // ----- Sorting what carries a position -----

  ghost function PositionsOf<T>(xs: seq<T>, at: T -> Position): (ps: seq<Position>)
    ensures |ps| == |xs| && forall i :: 0 <= i < |xs| ==> ps[i] == at(xs[i])
  {
    seq(|xs|, i requires 0 <= i < |xs| => at(xs[i]))
  }

  ghost predicate Sorted(log: seq<Position>) {
    forall i, j :: 0 <= i < j < |log| ==> Before(log[i], log[j])
  }

  /** A log that can be ordered, and no event twice. */
  ghost predicate Orderable<T>(xs: seq<T>, at: T -> Position) {
    Unambiguous(PositionsOf(xs, at)) && DistinctCoordinates(PositionsOf(xs, at))
  }

  function Insert<T>(x: T, sorted: seq<T>, at: T -> Position): (r: seq<T>)
    ensures multiset(r) == multiset(sorted) + multiset{x}
  {
    if sorted == [] || Before(at(x), at(sorted[0])) then [x] + sorted
    else
      assert sorted == [sorted[0]] + sorted[1..];
      [sorted[0]] + Insert(x, sorted[1..], at)
  }

  /** What sorting with the comparator gives. */
  function Sort<T>(xs: seq<T>, at: T -> Position): (r: seq<T>)
    ensures multiset(r) == multiset(xs)
  {
    if xs == [] then []
    else
      assert xs == [xs[0]] + xs[1..];
      Insert(xs[0], Sort(xs[1..], at), at)
  }

  lemma MultisetMember<T>(a: seq<T>, b: seq<T>, i: nat)
    requires multiset(a) == multiset(b) && i < |a|
    ensures exists j :: 0 <= j < |b| && b[j] == a[i]
  {
    assert a[i] in multiset(b);
  }

  lemma {:induction false} InsertSorts<T>(x: T, sorted: seq<T>, at: T -> Position)
    requires Sorted(PositionsOf(sorted, at))
    requires forall i :: 0 <= i < |sorted| ==>
               Compatible(at(x), at(sorted[i])) && CoordinateOf(at(x)) != CoordinateOf(at(sorted[i]))
    requires Unambiguous(PositionsOf(sorted, at))
    ensures Sorted(PositionsOf(Insert(x, sorted, at), at))
  {
    if sorted != [] {
      var head, rest := sorted[0], sorted[1..];
      var ps := PositionsOf(sorted, at);
      assert PositionsOf(rest, at) == ps[1..];
      if Before(at(x), at(head)) {
        forall i | 0 <= i < |sorted| ensures Before(at(x), ps[i]) {
          if i > 0 {
            assert Compatible(ps[0], ps[i]) && Before(ps[0], ps[i]);
            BeforeTransitive(at(x), ps[0], ps[i]);
          }
        }
      } else {
        InsertSorts(x, rest, at);
        BeforeTotal(at(x), at(head));
        var tail := Insert(x, rest, at);
        forall i | 0 <= i < |tail| ensures Before(at(head), at(tail[i])) {
          assert tail[i] in multiset(rest) + multiset{x};
          if tail[i] != x {
            assert tail[i] in rest;
            var j :| 0 <= j < |rest| && rest[j] == tail[i];
            assert Before(ps[0], ps[j + 1]);
          }
        }
        var result := [head] + tail;
        var rs := PositionsOf(result, at);
        forall i, j | 0 <= i < j < |rs| ensures Before(rs[i], rs[j]) {
          if i > 0 {
            assert Before(PositionsOf(tail, at)[i - 1], PositionsOf(tail, at)[j - 1]);
          }
        }
      }
    }
  }

  lemma OrderableParts<T>(xs: seq<T>, at: T -> Position, i: nat, j: nat)
    requires Orderable(xs, at) && i < |xs| && j < |xs|
    ensures Compatible(at(xs[i]), at(xs[j]))
    ensures i != j ==> CoordinateOf(at(xs[i])) != CoordinateOf(at(xs[j]))
  {
  }

  /** Being orderable does not depend on the order in which the events are given. */
  lemma PermutationOrderable<T>(xs: seq<T>, permuted: seq<T>, at: T -> Position)
    requires Orderable(xs, at) && multiset(xs) == multiset(permuted)
    ensures Orderable(permuted, at)
  {
    var ps := PositionsOf(permuted, at);
    forall i, j | 0 <= i < |permuted| && 0 <= j < |permuted|
      ensures Compatible(ps[i], ps[j]) && (i < j ==> CoordinateOf(ps[i]) != CoordinateOf(ps[j]))
    {
      MultisetMember(permuted, xs, i);
      MultisetMember(permuted, xs, j);
      var i', j' :| 0 <= i' < |xs| && xs[i'] == permuted[i] && 0 <= j' < |xs| && xs[j'] == permuted[j];
      OrderableParts(xs, at, i', j');
      if i < j && i' == j' {
        RepeatedMember(permuted, i, j);
        UniqueInOrderable(xs, at, i');
      }
    }
  }

  lemma RepeatedMember<T>(s: seq<T>, i: nat, j: nat)
    requires i < j < |s| && s[i] == s[j]
    ensures multiset(s)[s[i]] >= 2
  {
    assert s == s[..i] + [s[i]] + s[i + 1..j] + [s[j]] + s[j + 1..];
  }

  lemma UniqueInOrderable<T>(xs: seq<T>, at: T -> Position, i: nat)
    requires Orderable(xs, at) && i < |xs|
    ensures multiset(xs)[xs[i]] == 1
  {
    assert xs == xs[..i] + [xs[i]] + xs[i + 1..];
    forall j | 0 <= j < |xs| && j != i ensures xs[j] != xs[i] {
      OrderableParts(xs, at, i, j);
    }
    assert xs[i] !in xs[..i] && xs[i] !in xs[i + 1..];
  }

  lemma {:induction false} SortSorts<T>(xs: seq<T>, at: T -> Position)
    requires Orderable(xs, at)
    ensures Sorted(PositionsOf(Sort(xs, at), at))
  {
    if xs != [] {
      var rest := xs[1..];
      forall i, j | 0 <= i < |rest| && 0 <= j < |rest|
        ensures Compatible(at(rest[i]), at(rest[j]))
        ensures i != j ==> CoordinateOf(at(rest[i])) != CoordinateOf(at(rest[j]))
      {
        OrderableParts(xs, at, i + 1, j + 1);
      }
      SortSorts(rest, at);
      var sorted := Sort(rest, at);
      PermutationOrderable(rest, sorted, at);
      forall i | 0 <= i < |sorted|
        ensures Compatible(at(xs[0]), at(sorted[i])) && CoordinateOf(at(xs[0])) != CoordinateOf(at(sorted[i]))
      {
        MultisetMember(sorted, rest, i);
        var j :| 0 <= j < |rest| && rest[j] == sorted[i];
        OrderableParts(xs, at, 0, j + 1);
      }
      InsertSorts(xs[0], sorted, at);
    }
  }

  lemma FirstOfSorted<T>(a: seq<T>, b: seq<T>, at: T -> Position)
    requires Sorted(PositionsOf(a, at)) && Sorted(PositionsOf(b, at)) && multiset(a) == multiset(b)
    requires a != [] && b != []
    ensures a[0] == b[0]
  {
    MultisetMember(a, b, 0);
    var k :| 0 <= k < |b| && b[k] == a[0];
    MultisetMember(b, a, 0);
    var j :| 0 <= j < |a| && a[j] == b[0];
    if k != 0 {
      assert Before(PositionsOf(b, at)[0], PositionsOf(b, at)[k]);
      if j != 0 {
        assert Before(PositionsOf(a, at)[0], PositionsOf(a, at)[j]);
        CompareAntisymmetric(at(a[0]), at(b[0]));
      }
    }
  }

  lemma TailMultiset<T>(s: seq<T>)
    requires s != []
    ensures multiset(s[1..]) == multiset(s) - multiset{s[0]}
  {
    assert s == [s[0]] + s[1..];
  }

  lemma SortedTail<T>(s: seq<T>, at: T -> Position)
    requires s != [] && Sorted(PositionsOf(s, at))
    ensures Sorted(PositionsOf(s[1..], at))
  {
    hide Before;
    assert PositionsOf(s[1..], at) == PositionsOf(s, at)[1..];
  }

  lemma {:induction false} SortedUnique<T>(a: seq<T>, b: seq<T>, at: T -> Position)
    requires Sorted(PositionsOf(a, at)) && Sorted(PositionsOf(b, at)) && multiset(a) == multiset(b)
    ensures a == b
  {
    hide Sorted, PositionsOf;
    assert |multiset(a)| == |a| && |multiset(b)| == |b|;
    if a != [] {
      FirstOfSorted(a, b, at);
      TailMultiset(a);
      TailMultiset(b);
      SortedTail(a, at);
      SortedTail(b, at);
      SortedUnique(a[1..], b[1..], at);
      assert a == [a[0]] + a[1..] && b == [b[0]] + b[1..];
    }
  }

  /** Every permutation of a log that passes the guard sorts to one and the same ascending log. */
  lemma SortIsCanonical<T>(xs: seq<T>, permuted: seq<T>, at: T -> Position)
    requires Orderable(xs, at) && multiset(xs) == multiset(permuted)
    ensures Sorted(PositionsOf(Sort(xs, at), at)) && Sort(permuted, at) == Sort(xs, at)
  {
    SortSorts(xs, at);
    PermutationOrderable(xs, permuted, at);
    SortSorts(permuted, at);
    SortedUnique(Sort(xs, at), Sort(permuted, at), at);
  }
}
