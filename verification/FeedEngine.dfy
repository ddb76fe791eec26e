/** A feed request: filtering by the viewer's controls, ranking what is left, and handing it out page by page. */
module FeedEngine {
  import opened Wrappers
  import opened Ranking

  // ----- Filtering -----

  datatype Viewer = Viewer(blockedAuthors: seq<string>, mutedAuthors: seq<string>, mutedKeywords: seq<string>,
    sensitiveThreshold: real)

  datatype Verdict = BlockedAuthor | MutedAuthor | MutedKeyword | SensitiveContent | Eligible

  predicate Includes(text: string, keyword: string) {
    keyword <= text || (text != [] && Includes(text[1..], keyword))
  }

  /** The first of the viewer's controls that an item fails. */
  function VerdictOn(viewer: Viewer, item: FeedItem): Verdict {
    if item.authorId in viewer.blockedAuthors then BlockedAuthor
    else if item.authorId in viewer.mutedAuthors then MutedAuthor
    else if exists k :: k in viewer.mutedKeywords && Includes(item.text, k) then MutedKeyword
    else if item.sensitiveRisk > viewer.sensitiveThreshold then SensitiveContent
    else Eligible
  }

  datatype FilterCounts = FilterCounts(blockedAuthor: nat, mutedAuthor: nat, mutedKeyword: nat, sensitiveContent: nat) {
    function Filtered(): nat {
      blockedAuthor + mutedAuthor + mutedKeyword + sensitiveContent
    }
  }

  function WithVerdict(viewer: Viewer, items: seq<FeedItem>, verdict: Verdict): (kept: seq<FeedItem>)
    ensures forall x :: x in kept <==> x in items && VerdictOn(viewer, x) == verdict
  {
    if items == [] then []
    else
      var last := items[|items| - 1];
      assert items == items[..|items| - 1] + [last];
      WithVerdict(viewer, items[..|items| - 1], verdict) + if VerdictOn(viewer, last) == verdict then [last] else []
  }

  lemma VerdictNext(viewer: Viewer, items: seq<FeedItem>, n: nat, verdict: Verdict)
    requires n < |items|
    ensures WithVerdict(viewer, items[..n + 1], verdict)
         == WithVerdict(viewer, items[..n], verdict) + if VerdictOn(viewer, items[n]) == verdict then [items[n]] else []
  {
    assert items[..n + 1][..n] == items[..n];
  }

  /** Keeps the eligible items in order and counts the others; every item is kept or counted, once. */
  method FilterItems(items: seq<FeedItem>, viewer: Viewer) returns (eligible: seq<FeedItem>, counts: FilterCounts)
    ensures eligible == WithVerdict(viewer, items, Eligible)
    ensures counts.blockedAuthor == |WithVerdict(viewer, items, BlockedAuthor)|
    ensures counts.mutedAuthor == |WithVerdict(viewer, items, MutedAuthor)|
    ensures counts.mutedKeyword == |WithVerdict(viewer, items, MutedKeyword)|
    ensures counts.sensitiveContent == |WithVerdict(viewer, items, SensitiveContent)|
    ensures |eligible| + counts.Filtered() == |items|
  {
    hide VerdictOn, WithVerdict;
    eligible := [];
    counts := FilterCounts(0, 0, 0, 0);
    NoVerdicts(viewer);
    for n := 0 to |items|
      invariant eligible == WithVerdict(viewer, items[..n], Eligible)
      invariant counts.blockedAuthor == |WithVerdict(viewer, items[..n], BlockedAuthor)|
      invariant counts.mutedAuthor == |WithVerdict(viewer, items[..n], MutedAuthor)|
      invariant counts.mutedKeyword == |WithVerdict(viewer, items[..n], MutedKeyword)|
      invariant counts.sensitiveContent == |WithVerdict(viewer, items[..n], SensitiveContent)|
    {
      VerdictNext(viewer, items, n, Eligible);
      VerdictNext(viewer, items, n, BlockedAuthor);
      VerdictNext(viewer, items, n, MutedAuthor);
      VerdictNext(viewer, items, n, MutedKeyword);
      VerdictNext(viewer, items, n, SensitiveContent);
      match VerdictOn(viewer, items[n]) {
        case BlockedAuthor => counts := counts.(blockedAuthor := counts.blockedAuthor + 1);
        case MutedAuthor => counts := counts.(mutedAuthor := counts.mutedAuthor + 1);
        case MutedKeyword => counts := counts.(mutedKeyword := counts.mutedKeyword + 1);
        case SensitiveContent => counts := counts.(sensitiveContent := counts.sensitiveContent + 1);
        case Eligible => eligible := eligible + [items[n]];
      }
    }
    assert items[..|items|] == items;
    EveryVerdict(viewer, items);
  }

  lemma {:induction false} EveryVerdict(viewer: Viewer, items: seq<FeedItem>)
    ensures |WithVerdict(viewer, items, BlockedAuthor)| + |WithVerdict(viewer, items, MutedAuthor)|
            + |WithVerdict(viewer, items, MutedKeyword)| + |WithVerdict(viewer, items, SensitiveContent)|
            + |WithVerdict(viewer, items, Eligible)| == |items|
  {
    hide VerdictOn;
    if items != [] {
      EveryVerdict(viewer, items[..|items| - 1]);
    }
  }

  lemma NoVerdicts(viewer: Viewer)
    ensures forall verdict :: WithVerdict(viewer, [], verdict) == []
  {
  }

  // ----- Paging -----

  const MAX_OFFSET := 500
  const MAX_CURSOR_LENGTH := 2_048

  /** What a cursor says. Its text is the base64url form of a JSON object, and decoding is exact. */
  datatype Cursor = Cursor(fingerprint: string, offset: int, previousItemId: Text)

  datatype CursorError = CursorTooLong | InvalidCursor | ForeignCursor | StaleCursor

  // ----- How long the text of a cursor is -----

  predicate IsHighSurrogate(u: CodeUnit) {
    0xD800 <= u <= 0xDBFF
  }

  predicate IsLowSurrogate(u: CodeUnit) {
    0xDC00 <= u <= 0xDFFF
  }

  /** The bytes that one code unit takes inside a JSON string, when it is not part of a surrogate pair. */
  function UnitBytes(u: CodeUnit): nat {
    if u == 0x22 || u == 0x5C || 8 <= u <= 10 || 12 <= u <= 13 then 2
    else if u < 0x20 || IsHighSurrogate(u) || IsLowSurrogate(u) then 6
    else if u < 0x80 then 1
    else if u < 0x800 then 2
    else 3
  }

  /** The bytes of a text inside a JSON string: pairs take four, and unpaired surrogates are escaped. */
  function JsonBytes(text: Text): nat {
    if text == [] then 0
    else if |text| >= 2 && IsHighSurrogate(text[0]) && IsLowSurrogate(text[1]) then 4 + JsonBytes(text[2..])
    else UnitBytes(text[0]) + JsonBytes(text[1..])
  }

  function DecimalDigits(n: nat): nat {
    if n < 10 then 1 else if n < 100 then 2 else 3
  }

  const JSON_FRAME := 103

  /** The number of characters of a cursor: three bytes become four, without padding. */
  function CursorLength(offset: nat, previousItemId: Text): nat {
    ((JSON_FRAME + DecimalDigits(offset) + JsonBytes(previousItemId)) * 4 + 2) / 3
  }

  predicate FitsRequest(offset: nat, previousItemId: Text) {
    CursorLength(offset, previousItemId) <= MAX_CURSOR_LENGTH
  }

  /** No control character, and no surrogate without its partner. */
  predicate IsWellFormedText(text: Text) {
    if text == [] then true
    else if |text| >= 2 && IsHighSurrogate(text[0]) && IsLowSurrogate(text[1]) then IsWellFormedText(text[2..])
    else UnitBytes(text[0]) <= 3 && IsWellFormedText(text[1..])
  }

  lemma {:induction false} WellFormedBytes(text: Text)
    requires IsWellFormedText(text)
    ensures JsonBytes(text) <= 3 * |text|
  {
    if |text| >= 2 && IsHighSurrogate(text[0]) && IsLowSurrogate(text[1]) {
      WellFormedBytes(text[2..]);
    } else if text != [] {
      WellFormedBytes(text[1..]);
    }
  }

  /** The cursor after an item with a well-formed identifier always fits the next request. */
  lemma WellFormedFits(offset: nat, id: Text)
    requires offset <= MAX_OFFSET && |id| <= 256 && IsWellFormedText(id)
    ensures FitsRequest(offset, id)
  {
    WellFormedBytes(id);
  }

  function Surrogates(n: nat): (text: Text)
    ensures |text| == n && forall i :: 0 <= i < n ==> text[i] == 0xD800
  {
    seq(n, _ => 0xD800)
  }

  lemma {:induction false} SurrogateBytes(n: nat)
    ensures JsonBytes(Surrogates(n)) == 6 * n
  {
    if n > 0 {
      SurrogateBytes(n - 1);
      assert Surrogates(n)[1..] == Surrogates(n - 1);
    }
  }

  /** An identifier of 256 unpaired surrogates is short enough for an item, and too long for a cursor. */
  lemma UnpairedSurrogatesDoNotFit(offset: nat)
    ensures |Surrogates(256)| == 256 && !FitsRequest(offset, Surrogates(256))
  {
    SurrogateBytes(256);
  }

  // ----- Cursors and pages -----

  /** The structure that decoding insists on. */
  predicate IsWellFormed(c: Cursor) {
    |c.fingerprint| == 43 && 1 <= c.offset <= MAX_OFFSET && 1 <= |c.previousItemId| <= 256
  }

  /** Where a cursor stands in the ranked list; the request schema refuses one whose text is too long. */
  function CursorOffset(cursor: Option<Cursor>, ranked: seq<Scored>, fingerprint: string): Result<nat, CursorError> {
    if cursor.None? then Ok(0)
    else
      var c := cursor.value;
      if c.offset >= 0 && !FitsRequest(c.offset, c.previousItemId) then Err(CursorTooLong)
      else if !IsWellFormed(c) then Err(InvalidCursor)
      else if c.fingerprint != fingerprint then Err(ForeignCursor)
      else if c.offset > |ranked| || ranked[c.offset - 1].item.id != c.previousItemId then Err(StaleCursor)
      else Ok(c.offset)
  }

  datatype Page = Page(items: seq<Scored>, next: Option<Cursor>)

  function Min(x: nat, y: nat): nat {
    if x < y then x else y
  }

  function PageAt(ranked: seq<Scored>, fingerprint: string, cursor: Option<Cursor>, limit: nat)
    : Result<Page, CursorError>
  {
    var offset :- CursorOffset(cursor, ranked, fingerprint);
    var items := if offset <= |ranked| then ranked[offset..Min(offset + limit, |ranked|)] else [];
    var nextOffset := offset + |items|;
    Ok(Page(items, if nextOffset < |ranked| && items != []
                   then Some(Cursor(fingerprint, nextOffset, items[|items| - 1].item.id))
                   else None))
  }

  /** What the request schema and the hash guarantee. */
  predicate IsRequest(ranked: seq<Scored>, fingerprint: string) {
    && |fingerprint| == 43 && |ranked| <= MAX_OFFSET
    && forall i :: 0 <= i < |ranked| ==> 1 <= |ranked[i].item.id| <= 256
  }

  /** A cursor that stands at an offset of this result. */
  predicate StandsAt(cursor: Option<Cursor>, ranked: seq<Scored>, fingerprint: string, offset: nat) {
    if offset == 0 then cursor.None?
    else
      && offset <= |ranked|
      && cursor == Some(Cursor(fingerprint, offset, ranked[offset - 1].item.id))
  }

  /** The cursor at an offset fits the request that carries it. */
  predicate CursorFits(ranked: seq<Scored>, offset: nat) {
    1 <= offset <= |ranked| ==> FitsRequest(offset, ranked[offset - 1].item.id)
  }

  /** A cursor of this result is accepted if and only if its text is not too long. */
  lemma CursorAccepted(ranked: seq<Scored>, fingerprint: string, cursor: Option<Cursor>, offset: nat)
    requires IsRequest(ranked, fingerprint) && StandsAt(cursor, ranked, fingerprint, offset)
    ensures if CursorFits(ranked, offset) then CursorOffset(cursor, ranked, fingerprint) == Ok(offset)
            else CursorOffset(cursor, ranked, fingerprint) == Err(CursorTooLong)
  {
  }

  /** From an accepted cursor of this result a page continues where the cursor stands, and issues the one at its end. */
  lemma PageContinues(ranked: seq<Scored>, fingerprint: string, cursor: Option<Cursor>, offset: nat, limit: nat)
    requires IsRequest(ranked, fingerprint) && StandsAt(cursor, ranked, fingerprint, offset) && limit >= 1
    ensures PageAt(ranked, fingerprint, cursor, limit).Ok? <==> CursorFits(ranked, offset)
    ensures CursorFits(ranked, offset) ==>
              var page, end := PageAt(ranked, fingerprint, cursor, limit).value, Min(offset + limit, |ranked|);
              && page.items == ranked[offset..end]
              && (page.next.None? <==> end == |ranked|)
              && (page.next.Some? ==> StandsAt(page.next, ranked, fingerprint, end) && offset < end < |ranked|)
  {
    hide FitsRequest;
    CursorAccepted(ranked, fingerprint, cursor, offset);
  }

  /** What a reader gets who follows the cursors, asking for pages of the given sizes, until there is no cursor. */
  function Follow(ranked: seq<Scored>, fingerprint: string, cursor: Option<Cursor>, limits: seq<nat>)
    : Result<seq<Scored>, CursorError>
    decreases |limits|
  {
    if limits == [] then Ok([])
    else
      var page :- PageAt(ranked, fingerprint, cursor, limits[0]);
      if page.next.None? then Ok(page.items)
      else
        var rest :- Follow(ranked, fingerprint, page.next, limits[1..]);
        Ok(page.items + rest)
  }

  function Sum(limits: seq<nat>): nat {
    if limits == [] then 0 else limits[0] + Sum(limits[1..])
  }

  const MAX_LIMIT := 50

  predicate AreLimits(limits: seq<nat>) {
    forall i :: 0 <= i < |limits| ==> 1 <= limits[i] <= MAX_LIMIT
  }

  /** The cursor at every place where a page may end and another one follow. */
  predicate AllCursorsFit(ranked: seq<Scored>) {
    forall offset :: 1 <= offset < |ranked| ==> CursorFits(ranked, offset)
  }

  lemma {:induction false} FollowFrom(ranked: seq<Scored>, fingerprint: string, cursor: Option<Cursor>, offset: nat,
                                      limits: seq<nat>)
    requires IsRequest(ranked, fingerprint) && StandsAt(cursor, ranked, fingerprint, offset)
    requires AllCursorsFit(ranked) && AreLimits(limits) && (offset == 0 || offset < |ranked|)
    ensures Follow(ranked, fingerprint, cursor, limits) == Ok(ranked[offset..Min(offset + Sum(limits), |ranked|)])
    decreases |limits|
  {
    hide PageAt, StandsAt, CursorFits, IsRequest;
    if limits == [] {
      assert ranked[offset..offset] == [];
    } else {
      if offset == 0 {
        NoCursorFits(ranked);
      }
      PageContinues(ranked, fingerprint, cursor, offset, limits[0]);
      assert CursorFits(ranked, offset);
      var page := PageAt(ranked, fingerprint, cursor, limits[0]).value;
      var last := Min(offset + Sum(limits), |ranked|);
      assert Sum(limits) == limits[0] + Sum(limits[1..]);
      if page.next.None? {
        assert page.items == ranked[offset..last];
      } else {
        var middle := offset + limits[0];
        FollowFrom(ranked, fingerprint, page.next, middle, limits[1..]);
        JoinsUp(ranked, offset, middle, last);
      }
    }
  }

  lemma JoinsUp(ranked: seq<Scored>, start: nat, middle: nat, end: nat)
    requires start <= middle <= end <= |ranked|
    ensures ranked[start..middle] + ranked[middle..end] == ranked[start..end]
  {
  }

  lemma NoCursorFits(ranked: seq<Scored>)
    ensures CursorFits(ranked, 0)
  {
  }

  function Ones(n: nat): (limits: seq<nat>)
    ensures |limits| == n && AreLimits(limits)
  {
    seq(n, _ => 1)
  }

  /** Reading one item at a time uses the cursor at every place. */
  lemma {:induction false} OnesUseEveryCursor(ranked: seq<Scored>, fingerprint: string, cursor: Option<Cursor>,
                                              offset: nat, n: nat)
    requires IsRequest(ranked, fingerprint) && StandsAt(cursor, ranked, fingerprint, offset)
    requires offset + n == |ranked| && Follow(ranked, fingerprint, cursor, Ones(n)).Ok?
    ensures forall o :: offset <= o < |ranked| ==> CursorFits(ranked, o)
    decreases n
  {
    hide PageAt, StandsAt, CursorFits;
    if n > 0 {
      PageContinues(ranked, fingerprint, cursor, offset, 1);
      var page := PageAt(ranked, fingerprint, cursor, 1).value;
      assert Ones(n)[1..] == Ones(n - 1);
      if page.next.Some? {
        OnesUseEveryCursor(ranked, fingerprint, page.next, offset + 1, n - 1);
      }
    }
  }

  /** With any page sizes, the pages put together are the ranked list from its start. */
  ghost predicate PagesConcatenate(ranked: seq<Scored>, fingerprint: string) {
    forall limits :: AreLimits(limits) ==>
      Follow(ranked, fingerprint, None, limits) == Ok(ranked[..Min(Sum(limits), |ranked|)])
  }

  /**
   Following cursors with pages of any sizes, every cursor is accepted and the pages put together are the ranked list
   from its start, without a gap or a repetition, if and only if the cursor at every place fits a request.
   */
  lemma PagesAreTheRanking(ranked: seq<Scored>, fingerprint: string)
    requires IsRequest(ranked, fingerprint)
    ensures PagesConcatenate(ranked, fingerprint) <==> AllCursorsFit(ranked)
  {
    hide Follow, CursorFits;
    if AllCursorsFit(ranked) {
      forall limits | AreLimits(limits)
        ensures Follow(ranked, fingerprint, None, limits) == Ok(ranked[..Min(Sum(limits), |ranked|)])
      {
        FollowFrom(ranked, fingerprint, None, 0, limits);
        assert ranked[0..Min(Sum(limits), |ranked|)] == ranked[..Min(Sum(limits), |ranked|)];
      }
    }
    if PagesConcatenate(ranked, fingerprint) {
      assert AreLimits(Ones(|ranked|));
      OnesUseEveryCursor(ranked, fingerprint, None, 0, |ranked|);
    }
  }

  /** With well-formed identifiers it always holds, and enough pages give the whole ranked list. */
  lemma WellFormedPages(ranked: seq<Scored>, fingerprint: string, limits: seq<nat>)
    requires IsRequest(ranked, fingerprint) && AreLimits(limits)
    requires forall i :: 0 <= i < |ranked| ==> IsWellFormedText(ranked[i].item.id)
    ensures Follow(ranked, fingerprint, None, limits) == Ok(ranked[..Min(Sum(limits), |ranked|)])
    ensures |limits| >= |ranked| ==> Follow(ranked, fingerprint, None, limits) == Ok(ranked)
  {
    hide Follow, FitsRequest;
    forall offset | 1 <= offset < |ranked| ensures CursorFits(ranked, offset) {
      WellFormedFits(offset, ranked[offset - 1].item.id);
    }
    PagesAreTheRanking(ranked, fingerprint);
    SumAtLeast(limits);
    assert ranked[..|ranked|] == ranked;
  }

  lemma {:induction false} SumAtLeast(limits: seq<nat>)
    requires AreLimits(limits)
    ensures Sum(limits) >= |limits|
  {
    if limits != [] {
      SumAtLeast(limits[1..]);
    }
  }

  // ----- The whole request -----

  lemma KeptIdsUnique(viewer: Viewer, items: seq<FeedItem>, verdict: Verdict)
    requires UniqueIds(items)
    ensures UniqueIds(WithVerdict(viewer, items, verdict))
  {
    hide VerdictOn;
    if items != [] {
      var earlier := items[..|items| - 1];
      KeptIdsUnique(viewer, earlier, verdict);
      forall x | x in WithVerdict(viewer, earlier, verdict) ensures x.id != items[|items| - 1].id {
        var i :| 0 <= i < |earlier| && earlier[i] == x;
        assert items[i] == x;
      }
    }
  }

  /** The greedy ranking of the eligible items. */
  ghost predicate IsRankingOf(ranked: seq<Scored>, items: seq<FeedItem>, viewer: Viewer, score: Scoring) {
    && multiset(ItemsOf(ranked)) == multiset(WithVerdict(viewer, items, Eligible))
    && IsGreedy(ItemsOf(ranked), score) && ScoredInContext(ranked, score)
  }

  /** There is only one such ranking, whatever the order of the items. */
  lemma RankingIsUnique(items: seq<FeedItem>, viewer: Viewer, score: Scoring, a: seq<Scored>, b: seq<Scored>)
    requires UniqueIds(items) && IsRankingOf(a, items, viewer, score) && IsRankingOf(b, items, viewer, score)
    ensures a == b
  {
    hide VerdictOn, WithVerdict, IsGreedy, ScoredInContext;
    KeptIdsUnique(viewer, items, Eligible);
    RankingIgnoresInputOrder(WithVerdict(viewer, items, Eligible), WithVerdict(viewer, items, Eligible), score, a, b);
  }

  /**
   Filters, ranks by choosing the best again and again, and cuts out of the one ranking of the eligible items the page
   that the cursor asks for.
   */
  method RankFeed(items: seq<FeedItem>, viewer: Viewer, score: Scoring, fingerprint: string, cursor: Option<Cursor>,
                  limit: nat)
    returns (r: Result<Page, CursorError>, eligible: nat, counts: FilterCounts)
    requires UniqueIds(items)
    ensures exists ranked :: IsRankingOf(ranked, items, viewer, score)
    ensures forall ranked :: IsRankingOf(ranked, items, viewer, score) ==>
              r == PageAt(ranked, fingerprint, cursor, limit) && eligible == |ranked|
    ensures eligible + counts.Filtered() == |items|
  {
    hide VerdictOn, WithVerdict, IsGreedy, ScoredInContext;
    var kept;
    kept, counts := FilterItems(items, viewer);
    KeptIdsUnique(viewer, items, Eligible);
    var ordered := RankRecommendations(kept, score);
    assert |multiset(ItemsOf(ordered))| == |multiset(kept)|;
    assert IsRankingOf(ordered, items, viewer, score);
    forall ranked | IsRankingOf(ranked, items, viewer, score) ensures ranked == ordered {
      RankingIsUnique(items, viewer, score, ranked, ordered);
    }
    eligible := |ordered|;
    r := PageAt(ordered, fingerprint, cursor, limit);
  }
}
