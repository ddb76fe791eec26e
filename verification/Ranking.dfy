/** Greedy feed ranking: each item is scored against what was chosen before it, and the best one is chosen next. */
module Ranking {
  import opened Wrappers
  import opened EventOrder

  /** Identifiers come from callers, so they are any sequences of UTF-16 code units, unpaired surrogates included. */
  type CodeUnit = n: int | 0 <= n < 0x1_0000
  type Text = seq<CodeUnit>

  function UnitRank(u: CodeUnit): int {
    u
  }

  function CompareText(left: Text, right: Text): (c: int)
    ensures c == 0 <==> left == right
  {
    CompareByEqual(left, right, UnitRank);
    CompareBy(left, right, UnitRank)
  }

  /** What ranking reads of a feed item, besides what the scoring function reads. Topics are normalized. */
  datatype FeedItem = FeedItem(id: Text, authorId: string, topics: seq<string>, duplicateClusterId: Option<string>,
    publishedAt: int, text: string, sensitiveRisk: real)

  // ----- What was chosen so far -----

  type Counts = map<string, nat>

  datatype Context = Context(authors: Counts, topics: Counts, duplicates: Counts)

  const NOTHING_CHOSEN := Context(map[], map[], map[])

  function CountIn(counts: Counts, key: string): nat {
    if key in counts then counts[key] else 0
  }

  function Increment(counts: Counts, key: string): Counts {
    counts[key := CountIn(counts, key) + 1]
  }

  function IncrementAll(counts: Counts, keys: set<string>): Counts {
    map k | k in counts.Keys + keys :: CountIn(counts, k) + (if k in keys then 1 else 0)
  }

  function TopicSet(item: FeedItem): set<string> {
    set t | t in item.topics
  }

  function WithChosen(context: Context, item: FeedItem): Context {
    Context(Increment(context.authors, item.authorId), IncrementAll(context.topics, TopicSet(item)),
            if item.duplicateClusterId.Some? then Increment(context.duplicates, item.duplicateClusterId.value)
            else context.duplicates)
  }

  /** Counts an item into a context; a topic that an item repeats is counted once. */
  method AddToRankingContext(context: Context, item: FeedItem) returns (next: Context)
    ensures next == WithChosen(context, item)
  {
    var topics := context.topics;
    var remaining := TopicSet(item);
    while remaining != {}
      invariant remaining <= TopicSet(item)
      invariant topics == IncrementAll(context.topics, TopicSet(item) - remaining)
      decreases remaining
    {
      var topic :| topic in remaining;
      topics := Increment(topics, topic);
      remaining := remaining - {topic};
    }
    assert TopicSet(item) - {} == TopicSet(item);
    next := Context(Increment(context.authors, item.authorId), topics,
                    if item.duplicateClusterId.Some? then Increment(context.duplicates, item.duplicateClusterId.value)
                    else context.duplicates);
  }

  function ContextOf(chosen: seq<FeedItem>): Context {
    if chosen == [] then NOTHING_CHOSEN
    else WithChosen(ContextOf(chosen[..|chosen| - 1]), chosen[|chosen| - 1])
  }

  // ----- The context counts what was chosen, in whatever order -----

  datatype Feature = Author(name: string) | Topic(name: string) | Duplicate(name: string)

  predicate Has(item: FeedItem, f: Feature) {
    match f
    case Author(a) => item.authorId == a
    case Topic(t) => t in item.topics
    case Duplicate(d) => item.duplicateClusterId == Some(d)
  }

  function Counted(context: Context, f: Feature): nat {
    match f
    case Author(a) => CountIn(context.authors, a)
    case Topic(t) => CountIn(context.topics, t)
    case Duplicate(d) => CountIn(context.duplicates, d)
  }

  /** How many of the items have a feature. */
  function Tally(items: seq<FeedItem>, f: Feature): nat {
    if items == [] then 0
    else Tally(items[..|items| - 1], f) + if Has(items[|items| - 1], f) then 1 else 0
  }

  predicate AllPositive(context: Context) {
    && (forall k :: k in context.authors ==> context.authors[k] > 0)
    && (forall k :: k in context.topics ==> context.topics[k] > 0)
    && (forall k :: k in context.duplicates ==> context.duplicates[k] > 0)
  }

  lemma CountedAfter(context: Context, item: FeedItem, f: Feature)
    ensures Counted(WithChosen(context, item), f) == Counted(context, f) + if Has(item, f) then 1 else 0
  {
  }

  /** The context is the tally of what was chosen, feature by feature. */
  lemma {:induction false} ContextTallies(chosen: seq<FeedItem>, f: Feature)
    ensures Counted(ContextOf(chosen), f) == Tally(chosen, f)
  {
    if chosen != [] {
      ContextTallies(chosen[..|chosen| - 1], f);
      CountedAfter(ContextOf(chosen[..|chosen| - 1]), chosen[|chosen| - 1], f);
    }
  }

  lemma {:induction false} ContextPositive(chosen: seq<FeedItem>)
    ensures AllPositive(ContextOf(chosen))
  {
    if chosen != [] {
      ContextPositive(chosen[..|chosen| - 1]);
    }
  }

  lemma {:induction false} TallyConcat(xs: seq<FeedItem>, ys: seq<FeedItem>, f: Feature)
    ensures Tally(xs + ys, f) == Tally(xs, f) + Tally(ys, f)
  {
    if ys == [] {
      assert xs + ys == xs;
    } else {
      assert (xs + ys)[..|xs + ys| - 1] == xs + ys[..|ys| - 1];
      TallyConcat(xs, ys[..|ys| - 1], f);
    }
  }

  function Without<T>(xs: seq<T>, k: nat): (rest: seq<T>)
    requires k < |xs|
    ensures |rest| == |xs| - 1
  {
    xs[..k] + xs[k + 1..]
  }

  lemma WithoutMultiset<T>(xs: seq<T>, k: nat)
    requires k < |xs|
    ensures multiset(xs) == multiset(Without(xs, k)) + multiset{xs[k]}
  {
    assert xs == xs[..k] + [xs[k]] + xs[k + 1..];
  }

  lemma Cancel<T>(x: multiset<T>, y: multiset<T>, common: multiset<T>)
    requires x + common == y + common
    ensures x == y
  {
    assert x == x + common - common && y == y + common - common;
  }

  lemma TallyWithout(xs: seq<FeedItem>, k: nat, f: Feature)
    requires k < |xs|
    ensures Tally(xs, f) == Tally(Without(xs, k), f) + if Has(xs[k], f) then 1 else 0
  {
    assert xs == xs[..k] + [xs[k]] + xs[k + 1..];
    TallyConcat(xs[..k] + [xs[k]], xs[k + 1..], f);
    TallyConcat(xs[..k], [xs[k]], f);
    TallyConcat(xs[..k], xs[k + 1..], f);
  }

  lemma {:induction false} TallyPermutes(xs: seq<FeedItem>, ys: seq<FeedItem>, f: Feature)
    requires multiset(xs) == multiset(ys)
    ensures Tally(xs, f) == Tally(ys, f)
    decreases |xs|
  {
    assert |multiset(xs)| == |xs| && |multiset(ys)| == |ys|;
    if xs != [] {
      MultisetMember(xs, ys, 0);
      var j :| 0 <= j < |ys| && ys[j] == xs[0];
      WithoutMultiset(xs, 0);
      WithoutMultiset(ys, j);
      Cancel(multiset(Without(xs, 0)), multiset(Without(ys, j)), multiset{xs[0]});
      TallyPermutes(Without(xs, 0), Without(ys, j), f);
      TallyWithout(xs, 0, f);
      TallyWithout(ys, j, f);
    }
  }

  lemma SameContext(a: Context, b: Context)
    requires AllPositive(a) && AllPositive(b) && forall f :: Counted(a, f) == Counted(b, f)
    ensures a == b
  {
    forall k ensures (k in a.authors <==> k in b.authors) && CountIn(a.authors, k) == CountIn(b.authors, k) {
      assert Counted(a, Author(k)) == Counted(b, Author(k));
    }
    forall k ensures (k in a.topics <==> k in b.topics) && CountIn(a.topics, k) == CountIn(b.topics, k) {
      assert Counted(a, Topic(k)) == Counted(b, Topic(k));
    }
    forall k ensures (k in a.duplicates <==> k in b.duplicates)
        && CountIn(a.duplicates, k) == CountIn(b.duplicates, k) {
      assert Counted(a, Duplicate(k)) == Counted(b, Duplicate(k));
    }
    assert a.authors == b.authors && a.topics == b.topics && a.duplicates == b.duplicates;
  }

  /** What a later item is scored against does not depend on the order in which the earlier ones were chosen. */
  lemma ContextIgnoresOrder(xs: seq<FeedItem>, ys: seq<FeedItem>)
    requires multiset(xs) == multiset(ys)
    ensures ContextOf(xs) == ContextOf(ys)
  {
    forall f ensures Counted(ContextOf(xs), f) == Counted(ContextOf(ys), f) {
      ContextTallies(xs, f);
      ContextTallies(ys, f);
      TallyPermutes(xs, ys, f);
    }
    ContextPositive(xs);
    ContextPositive(ys);
    SameContext(ContextOf(xs), ContextOf(ys));
  }

  // ----- Which item comes first -----

  type Scoring = (FeedItem, Context) -> real

  /** Newest first, then by identifier. */
  predicate Newer(x: FeedItem, y: FeedItem) {
    x.publishedAt > y.publishedAt || (x.publishedAt == y.publishedAt && CompareText(x.id, y.id) < 0)
  }

  predicate Better(x: FeedItem, y: FeedItem, score: Scoring, context: Context) {
    score(x, context) > score(y, context) || (score(x, context) == score(y, context) && Newer(x, y))
  }

  lemma BetterTotal(x: FeedItem, y: FeedItem, score: Scoring, context: Context)
    requires x.id != y.id
    ensures Better(x, y, score, context) <==> !Better(y, x, score, context)
  {
    CompareByAntisymmetric(x.id, y.id, UnitRank);
    CompareByAntisymmetric(y.id, x.id, UnitRank);
  }

  lemma BetterTransitive(x: FeedItem, y: FeedItem, z: FeedItem, score: Scoring, context: Context)
    requires Better(x, y, score, context) && Better(y, z, score, context)
    ensures Better(x, z, score, context)
  {
    if CompareText(x.id, y.id) < 0 && CompareText(y.id, z.id) < 0 {
      CompareByTransitive(x.id, y.id, z.id, UnitRank);
    }
  }

  ghost predicate UniqueIds(items: seq<FeedItem>) {
    forall i, j :: 0 <= i < j < |items| ==> items[i].id != items[j].id
  }

  /** Each item beats all that come after it, scored against all that come before it. */
  ghost predicate IsGreedy(ranked: seq<FeedItem>, score: Scoring) {
    forall i, j :: 0 <= i < j < |ranked| ==> Better(ranked[i], ranked[j], score, ContextOf(ranked[..i]))
  }

  // ----- The greedy order is unique -----

  lemma SameBest(a: seq<FeedItem>, b: seq<FeedItem>, score: Scoring, context: Context)
    requires a != [] && b != [] && multiset(a) == multiset(b)
    requires forall i :: 0 < i < |a| ==> Better(a[0], a[i], score, context) && a[0].id != a[i].id
    requires forall i :: 0 < i < |b| ==> Better(b[0], b[i], score, context)
    ensures a[0] == b[0]
  {
    hide Better;
    MultisetMember(a, b, 0);
    MultisetMember(b, a, 0);
    var i :| 0 <= i < |b| && b[i] == a[0];
    var j :| 0 <= j < |a| && a[j] == b[0];
    if i > 0 && j > 0 {
      BetterTotal(a[0], b[0], score, context);
    }
  }

  lemma SuffixPermutes<T>(a: seq<T>, b: seq<T>, k: nat)
    requires multiset(a) == multiset(b) && k <= |a| == |b| && a[..k] == b[..k]
    ensures multiset(a[k..]) == multiset(b[k..])
  {
    var p, x, y := a[..k], a[k..], b[k..];
    assert a == p + x && b == p + y;
    assert multiset(x) + multiset(p) == multiset(a) && multiset(y) + multiset(p) == multiset(b);
    Cancel(multiset(x), multiset(y), multiset(p));
  }

  lemma SameNext(a: seq<FeedItem>, b: seq<FeedItem>, score: Scoring, k: nat)
    requires IsGreedy(a, score) && IsGreedy(b, score) && multiset(a) == multiset(b) && UniqueIds(a)
    requires k < |a| && |a| == |b| && a[..k] == b[..k]
    ensures a[k] == b[k]
  {
    hide Better, ContextOf;
    var context := ContextOf(a[..k]);
    SuffixPermutes(a, b, k);
    forall i | 0 < i < |a[k..]| ensures Better(a[k..][0], a[k..][i], score, context) && a[k..][0].id != a[k..][i].id {
      assert Better(a[k], a[k + i], score, context);
    }
    forall i | 0 < i < |b[k..]| ensures Better(b[k..][0], b[k..][i], score, context) {
      assert Better(b[k], b[k + i], score, context);
    }
    SameBest(a[k..], b[k..], score, context);
  }

  lemma {:induction false} SamePrefix(a: seq<FeedItem>, b: seq<FeedItem>, score: Scoring, k: nat)
    requires IsGreedy(a, score) && IsGreedy(b, score) && multiset(a) == multiset(b) && UniqueIds(a)
    requires k <= |a| && |a| == |b|
    ensures a[..k] == b[..k]
  {
    if k > 0 {
      SamePrefix(a, b, score, k - 1);
      SameNext(a, b, score, k - 1);
      assert a[..k] == a[..k - 1] + [a[k - 1]] && b[..k] == b[..k - 1] + [b[k - 1]];
    }
  }

  /** There is only one greedy order of a set of items with distinct identifiers. */
  lemma GreedyIsUnique(a: seq<FeedItem>, b: seq<FeedItem>, score: Scoring)
    requires IsGreedy(a, score) && IsGreedy(b, score) && multiset(a) == multiset(b) && UniqueIds(a)
    ensures a == b
  {
    assert |multiset(a)| == |a| && |multiset(b)| == |b|;
    SamePrefix(a, b, score, |a|);
    assert a[..|a|] == a && b[..|b|] == b;
  }

  /** Newest-first order is the greedy order of a scoring that never distinguishes. */
  lemma ChronologicalIsGreedy(ranked: seq<FeedItem>, score: Scoring)
    requires forall x, y, context :: score(x, context) == score(y, context)
    ensures IsGreedy(ranked, score) <==> forall i, j :: 0 <= i < j < |ranked| ==> Newer(ranked[i], ranked[j])
  {
    forall i, j | 0 <= i < j < |ranked|
      ensures Better(ranked[i], ranked[j], score, ContextOf(ranked[..i])) <==> Newer(ranked[i], ranked[j])
    {
      assert score(ranked[i], ContextOf(ranked[..i])) == score(ranked[j], ContextOf(ranked[..i]));
    }
  }

  // ----- The selection loop -----

  /** An item with the score it had when it was chosen. */
  datatype Scored = Scored(item: FeedItem, total: real)

  function ItemsOf(ranked: seq<Scored>): (items: seq<FeedItem>)
    ensures |items| == |ranked| && forall i :: 0 <= i < |ranked| ==> items[i] == ranked[i].item
  {
    seq(|ranked|, i requires 0 <= i < |ranked| => ranked[i].item)
  }

  ghost predicate ScoredInContext(ranked: seq<Scored>, score: Scoring) {
    forall i :: 0 <= i < |ranked| ==> ranked[i].total == score(ranked[i].item, ContextOf(ItemsOf(ranked)[..i]))
  }

  /** The position of the best of the remaining items, and its score. */
  method SelectBest(remaining: seq<FeedItem>, score: Scoring, context: Context) returns (best: nat, selected: Scored)
    requires remaining != [] && UniqueIds(remaining)
    ensures best < |remaining| && selected == Scored(remaining[best], score(remaining[best], context))
    ensures forall i :: 0 <= i < |remaining| && i != best ==> Better(remaining[best], remaining[i], score, context)
  {
    best := 0;
    selected := Scored(remaining[0], score(remaining[0], context));
    for index := 1 to |remaining|
      invariant best < index && selected == Scored(remaining[best], score(remaining[best], context))
      invariant forall i :: 0 <= i < index && i != best ==> Better(remaining[best], remaining[i], score, context)
    {
      var candidate := Scored(remaining[index], score(remaining[index], context));
      BetterTotal(remaining[best], remaining[index], score, context);
      if candidate.total > selected.total
          || (candidate.total == selected.total && Newer(candidate.item, selected.item)) {
        forall i | 0 <= i < index ensures Better(remaining[index], remaining[i], score, context) {
          if i != best {
            BetterTransitive(remaining[index], remaining[best], remaining[i], score, context);
          }
        }
        best := index;
        selected := candidate;
      }
    }
  }

  lemma WithoutAt<T>(xs: seq<T>, k: nat, i: nat)
    requires k < |xs| && i < |Without(xs, k)|
    ensures Without(xs, k)[i] == xs[if i < k then i else i + 1]
  {
  }

  lemma WithoutUnique(remaining: seq<FeedItem>, k: nat)
    requires k < |remaining| && UniqueIds(remaining)
    ensures UniqueIds(Without(remaining, k))
  {
  }

  /** Everything chosen beats everything that remains, in the context in which it was chosen. */
  ghost predicate BeatsRest(chosen: seq<FeedItem>, remaining: seq<FeedItem>, score: Scoring) {
    forall i, x :: 0 <= i < |chosen| && x in remaining ==> Better(chosen[i], x, score, ContextOf(chosen[..i]))
  }

  lemma RestIsBeaten(chosen: seq<FeedItem>, remaining: seq<FeedItem>, score: Scoring, best: nat, j: nat)
    requires best < |remaining| && BeatsRest(chosen, remaining, score) && j < |Without(remaining, best)|
    requires forall i :: 0 <= i < |remaining| && i != best ==>
               Better(remaining[best], remaining[i], score, ContextOf(chosen))
    ensures forall i :: 0 <= i < |chosen| ==>
              Better(chosen[i], Without(remaining, best)[j], score, ContextOf(chosen[..i]))
    ensures Better(remaining[best], Without(remaining, best)[j], score, ContextOf(chosen))
  {
    hide Better, Without;
    WithoutAt(remaining, best, j);
    assert Without(remaining, best)[j] in remaining;
  }

  lemma ChosenNext(chosen: seq<FeedItem>, remaining: seq<FeedItem>, score: Scoring, best: nat)
    requires best < |remaining| && IsGreedy(chosen, score) && BeatsRest(chosen, remaining, score)
    requires forall i :: 0 <= i < |remaining| && i != best ==>
               Better(remaining[best], remaining[i], score, ContextOf(chosen))
    ensures var next := chosen + [remaining[best]];
            && IsGreedy(next, score) && BeatsRest(next, Without(remaining, best), score)
            && ContextOf(next) == WithChosen(ContextOf(chosen), remaining[best])
  {
    hide Better, Without, WithChosen;
    var rest, next := Without(remaining, best), chosen + [remaining[best]];
    assert next[..|chosen|] == chosen;
    assert forall i :: 0 <= i < |chosen| ==> next[..i] == chosen[..i];
    forall i, x | 0 <= i < |next| && x in rest ensures Better(next[i], x, score, ContextOf(next[..i])) {
      var j :| 0 <= j < |rest| && rest[j] == x;
      RestIsBeaten(chosen, remaining, score, best, j);
    }
    forall i, j | 0 <= i < j < |next| ensures Better(next[i], next[j], score, ContextOf(next[..i])) {
      assert remaining[best] in remaining;
    }
  }

  /** Ranks by choosing the best remaining item, again and again. */
  method RankRecommendations(items: seq<FeedItem>, score: Scoring) returns (ranked: seq<Scored>)
    requires UniqueIds(items)
    ensures multiset(ItemsOf(ranked)) == multiset(items)
    ensures IsGreedy(ItemsOf(ranked), score) && ScoredInContext(ranked, score)
  {
    hide Better, WithChosen, Without;
    var remaining := items;
    ranked := [];
    var context := NOTHING_CHOSEN;
    while remaining != []
      invariant multiset(ItemsOf(ranked)) + multiset(remaining) == multiset(items)
      invariant UniqueIds(remaining) && context == ContextOf(ItemsOf(ranked))
      invariant IsGreedy(ItemsOf(ranked), score) && BeatsRest(ItemsOf(ranked), remaining, score)
      invariant ScoredInContext(ranked, score)
      decreases |remaining|
    {
      var best, selected := SelectBest(remaining, score, context);
      ghost var chosen := ItemsOf(ranked);
      ChosenNext(chosen, remaining, score, best);
      WithoutUnique(remaining, best);
      WithoutMultiset(remaining, best);
      ScoredNext(ranked, selected, score);
      context := AddToRankingContext(context, remaining[best]);
      ranked := ranked + [selected];
      assert ItemsOf(ranked) == chosen + [remaining[best]];
      remaining := Without(remaining, best);
    }
    assert ItemsOf(ranked) + remaining == ItemsOf(ranked);
  }

  lemma ScoredNext(ranked: seq<Scored>, selected: Scored, score: Scoring)
    requires ScoredInContext(ranked, score) && selected.total == score(selected.item, ContextOf(ItemsOf(ranked)))
    ensures ScoredInContext(ranked + [selected], score)
  {
    var next := ranked + [selected];
    assert ItemsOf(next) == ItemsOf(ranked) + [selected.item];
    forall i | 0 <= i < |next| ensures next[i].total == score(next[i].item, ContextOf(ItemsOf(next)[..i])) {
      assert ItemsOf(next)[..i] == ItemsOf(ranked)[..i];
    }
  }

  /** The order in which the items are supplied makes no difference to how they are ranked, nor to their scores. */
  lemma RankingIgnoresInputOrder(items: seq<FeedItem>, permuted: seq<FeedItem>, score: Scoring, a: seq<Scored>,
                                 b: seq<Scored>)
    requires UniqueIds(items) && multiset(items) == multiset(permuted)
    requires multiset(ItemsOf(a)) == multiset(items) && IsGreedy(ItemsOf(a), score) && ScoredInContext(a, score)
    requires multiset(ItemsOf(b)) == multiset(permuted) && IsGreedy(ItemsOf(b), score) && ScoredInContext(b, score)
    ensures a == b
  {
    PermutedIdsUnique(items, ItemsOf(a));
    GreedyIsUnique(ItemsOf(a), ItemsOf(b), score);
    assert |a| == |b|;
    forall i | 0 <= i < |a| ensures a[i] == b[i] {
      assert a[i].item == ItemsOf(a)[i] && b[i].item == ItemsOf(b)[i];
    }
  }

  lemma PermutedIdsUnique(items: seq<FeedItem>, permuted: seq<FeedItem>)
    requires UniqueIds(items) && multiset(items) == multiset(permuted)
    ensures UniqueIds(permuted)
  {
    forall i, j | 0 <= i < j < |permuted| ensures permuted[i].id != permuted[j].id {
      MultisetMember(permuted, items, i);
      MultisetMember(permuted, items, j);
      var i', j' :| 0 <= i' < |items| && items[i'] == permuted[i] && 0 <= j' < |items| && items[j'] == permuted[j];
      if i' == j' {
        RepeatedMember(permuted, i, j);
        OnceOnly(items, i');
      }
    }
  }

  lemma OnceOnly(items: seq<FeedItem>, i: nat)
    requires UniqueIds(items) && i < |items|
    ensures multiset(items)[items[i]] == 1
  {
    assert items == items[..i] + [items[i]] + items[i + 1..];
    assert items[i] !in items[..i] && items[i] !in items[i + 1..];
  }
}
