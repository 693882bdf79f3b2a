/** Stored helm revisions (internal/helm/refs.go, pagination.go, history.go). */
module Helm {
  // Listing them in bounded pages, the newest of each release, and paging through one release's
  // history.

  import opened Options
  import opened Order

  datatype Ref = Ref(driver: string, namespace_: string, stored: string, name: string, revision: int, status: string)

  const HISTORY_PAGE_SIZE := 10

  // ---------------------------------------------------------------------------
  // The order of revisions
  // ---------------------------------------------------------------------------

  /** `newerRef` puts a before b. */
  predicate Newer(a: Ref, b: Ref) {
    a.revision > b.revision ||
    (a.revision == b.revision &&
     (Below(a.driver, b.driver) || (a.driver == b.driver && Below(a.stored, b.stored))))
  }

  function Insert(one: Ref, sorted: seq<Ref>): seq<Ref> {
    if sorted == [] || !Newer(sorted[0], one) then [one] + sorted else [sorted[0]] + Insert(one, sorted[1..])
  }

  function Sorted(refs: seq<Ref>): (sorted: seq<Ref>)
    ensures |sorted| == |refs|
  {
    if refs == [] then [] else InsertLength(refs[0], Sorted(refs[1..])); Insert(refs[0], Sorted(refs[1..]))
  }

  lemma {:induction false} InsertLength(one: Ref, sorted: seq<Ref>)
    ensures |Insert(one, sorted)| == |sorted| + 1
  {
    if sorted != [] && Newer(sorted[0], one) {
      InsertLength(one, sorted[1..]);
    }
  }

  /** How often a revision is stored. */
  function Count(refs: seq<Ref>, revision: int): nat {
    if refs == [] then 0 else (if refs[0].revision == revision then 1 else 0) + Count(refs[1..], revision)
  }

  lemma {:induction false} InsertCounts(one: Ref, sorted: seq<Ref>, revision: int)
    ensures Count(Insert(one, sorted), revision) == Count([one] + sorted, revision)
  {
    assert ([one] + sorted)[1..] == sorted;
    if sorted != [] && Newer(sorted[0], one) {
      InsertCounts(one, sorted[1..], revision);
      assert ([one] + sorted[1..])[1..] == sorted[1..];
      assert Insert(one, sorted)[1..] == Insert(one, sorted[1..]);
    }
  }

  /** Sorting loses nothing and adds nothing. */
  lemma {:induction false} SortedCounts(refs: seq<Ref>, revision: int)
    ensures Count(Sorted(refs), revision) == Count(refs, revision)
  {
    if refs != [] {
      SortedCounts(refs[1..], revision);
      InsertCounts(refs[0], Sorted(refs[1..]), revision);
      assert ([refs[0]] + Sorted(refs[1..]))[1..] == Sorted(refs[1..]);
    }
  }

  lemma {:induction false} CountedIsThere(refs: seq<Ref>, revision: int)
    ensures Count(refs, revision) > 0 <==> exists i | 0 <= i < |refs| :: refs[i].revision == revision
    ensures forall i, j | 0 <= i < j < |refs| && refs[i].revision == revision && refs[j].revision == revision :: Count(refs, revision) > 1
    ensures Count(refs, revision) > 1 ==> exists i, j | 0 <= i < j < |refs| :: refs[i].revision == revision && refs[j].revision == revision
  {
    if refs != [] {
      CountedIsThere(refs[1..], revision);
      forall i, j | 0 <= i < j < |refs| && refs[i].revision == revision && refs[j].revision == revision ensures Count(refs, revision) > 1 {
        assert refs[1..][j - 1].revision == revision;
        if i > 0 { assert refs[1..][i - 1].revision == revision; }
      }
      if Count(refs, revision) > 1 {
        var i, j := TwoCounted(refs, revision);
      }
      if exists i | 0 <= i < |refs| :: refs[i].revision == revision {
        var i :| 0 <= i < |refs| && refs[i].revision == revision;
        if i > 0 { assert refs[1..][i - 1].revision == revision; }
      }
    }
  }

  lemma {:induction false} TwoCounted(refs: seq<Ref>, revision: int) returns (i: nat, j: nat)
    requires Count(refs, revision) > 1
    ensures i < j < |refs| && refs[i].revision == revision && refs[j].revision == revision
  {
    if refs[0].revision == revision {
      i := 0;
      j := OneCounted(refs[1..], revision);
    } else {
      i, j := TwoCounted(refs[1..], revision);
      i := i + 1;
    }
    j := j + 1;
  }

  lemma {:induction false} OneCounted(refs: seq<Ref>, revision: int) returns (i: nat)
    requires Count(refs, revision) > 0
    ensures i < |refs| && refs[i].revision == revision
  {
    if refs[0].revision == revision {
      i := 0;
    } else {
      i := OneCounted(refs[1..], revision);
      i := i + 1;
    }
  }

  predicate Falling(refs: seq<Ref>) {
    forall i, j | 0 <= i < j < |refs| :: refs[i].revision >= refs[j].revision
  }

  lemma {:induction false} InsertFalls(one: Ref, sorted: seq<Ref>)
    requires Falling(sorted)
    ensures Falling(Insert(one, sorted))
    ensures forall ref :: ref in Insert(one, sorted) <==> ref == one || ref in sorted
  {
    if sorted != [] && Newer(sorted[0], one) {
      InsertFalls(one, sorted[1..]);
      var rest := Insert(one, sorted[1..]);
      forall i | 0 <= i < |rest| ensures sorted[0].revision >= rest[i].revision { assert rest[i] in rest; }
    }
  }

  /** Newest first, and the same refs. */
  lemma {:induction false} SortedFalls(refs: seq<Ref>)
    ensures Falling(Sorted(refs))
    ensures forall ref :: ref in Sorted(refs) <==> ref in refs
  {
    if refs != [] {
      SortedFalls(refs[1..]);
      InsertFalls(refs[0], Sorted(refs[1..]));
    }
  }

  // ---------------------------------------------------------------------------
  // One page of a release's history
  // ---------------------------------------------------------------------------

  datatype Failure = NoRelease | Ambiguous(revision: int)

  datatype Page = Page(refs: seq<Ref>, next: int)

  predicate HasRelease(refs: seq<Ref>) {
    exists i | 0 <= i < |refs| :: refs[i].revision >= 1
  }

  /** This revision is stored more than once. */
  predicate Twice(refs: seq<Ref>, revision: int) {
    Count(refs, revision) > 1
  }

  /** No positive revision is stored twice. */
  ghost predicate Unambiguous(refs: seq<Ref>) {
    forall revision | revision >= 1 :: !Twice(refs, revision)
  }

  predicate Strict(sorted: seq<Ref>) {
    forall i, j | 0 <= i < j < |sorted| && sorted[j].revision >= 1 :: sorted[i].revision > sorted[j].revision
  }

  lemma TwiceIs(refs: seq<Ref>, revision: int)
    ensures Twice(refs, revision) <==>
            exists i, j | 0 <= i < j < |refs| :: refs[i].revision == refs[j].revision == revision
  {
    CountedIsThere(refs, revision);
    if Twice(refs, revision) {
      var i, j := TwoCounted(refs, revision);
    }
  }

  lemma StrictIff(refs: seq<Ref>)
    ensures Strict(Sorted(refs)) <==> Unambiguous(refs)
  {
    var sorted := Sorted(refs);
    SortedFalls(refs);
    forall revision ensures Twice(sorted, revision) <==> Twice(refs, revision) {
      SortedCounts(refs, revision);
    }
    if Unambiguous(refs) {
      forall i, j | 0 <= i < j < |sorted| && sorted[j].revision >= 1 ensures sorted[i].revision > sorted[j].revision {
        TwiceIs(sorted, sorted[j].revision);
      }
    }
    if Strict(sorted) {
      forall revision | revision >= 1 ensures !Twice(sorted, revision) { TwiceIs(sorted, revision); }
    }
  }

  /** The positive revisions up to and including one. */
  function Upto(sorted: seq<Ref>, through: int): seq<Ref> {
    if sorted == [] then []
    else (if 1 <= sorted[0].revision <= through then [sorted[0]] else []) + Upto(sorted[1..], through)
  }

  function Cut(eligible: seq<Ref>): Page {
    if |eligible| <= HISTORY_PAGE_SIZE then Page(eligible, 0)
    else Page(eligible[..HISTORY_PAGE_SIZE], eligible[HISTORY_PAGE_SIZE].revision)
  }

  function Through(sorted: seq<Ref>, through: int): int
    requires sorted != []
  {
    if through < 1 then sorted[0].revision else through
  }

  function PageOf(sorted: seq<Ref>, through: int): Page
    requires sorted != []
  {
    Cut(Upto(sorted, Through(sorted, through)))
  }

  /** The slice is sorted in place by the standard library. */
  method SortRefs(refs: array<Ref>)
    modifies refs
    ensures refs[..] == Sorted(old(refs[..]))
  {
    var sorted := Sorted(refs[..]);
    for i := 0 to refs.Length
      invariant refs[..i] == sorted[..i]
    {
      refs[i] := sorted[i];
    }
  }

  method OneRef(refs: array<Ref>) returns (r: Result<Ref, Failure>)
    modifies refs
    ensures refs[..] == Sorted(old(refs[..]))
    ensures r == Err(NoRelease) <==> !HasRelease(old(refs[..]))
    ensures r.Ok? ==> r.value in old(refs[..]) && !Twice(old(refs[..]), r.value.revision) && r.value == refs[0]
    ensures r.Ok? ==> forall ref | ref in old(refs[..]) :: ref == r.value || ref.revision < r.value.revision
    ensures r.Err? && r != Err(NoRelease) ==>
              r == Err(Ambiguous(refs[0].revision)) && r.error.revision >= 1 && Twice(old(refs[..]), r.error.revision) &&
              forall ref | ref in old(refs[..]) :: ref.revision <= r.error.revision
  {
    ghost var was := refs[..];
    SortedFalls(was);
    if refs.Length == 0 {
      return Err(NoRelease);
    }
    SortRefs(refs);
    assert refs[0] in refs[..];
    SortedHasRelease(was);
    SortedTwice(was, refs[0].revision);
    if refs[0].revision < 1 {
      return Err(NoRelease);
    }
    if refs.Length > 1 && refs[0].revision == refs[1].revision {
      return Err(Ambiguous(refs[0].revision));
    }
    return Ok(refs[0]);
  }

  lemma SortedHasRelease(refs: seq<Ref>)
    requires refs != []
    ensures HasRelease(refs) <==> Sorted(refs)[0].revision >= 1
    ensures forall ref | ref in refs :: ref.revision <= Sorted(refs)[0].revision
  {
    SortedFalls(refs);
    var sorted := Sorted(refs);
    assert sorted[0] in sorted;
    forall ref | ref in refs ensures ref.revision <= sorted[0].revision { assert ref in sorted; }
  }

  lemma SortedTwice(refs: seq<Ref>, revision: int)
    requires refs != [] && revision == Sorted(refs)[0].revision
    ensures Twice(refs, revision) <==> |refs| > 1 && Sorted(refs)[1].revision == revision
    ensures !Twice(refs, revision) ==> forall ref | ref in refs :: ref == Sorted(refs)[0] || ref.revision < revision
  {
    SortedCounts(refs, revision);
    SortedFalls(refs);
    FirstTwice(Sorted(refs), revision);
  }

  lemma FirstTwice(sorted: seq<Ref>, revision: int)
    requires Falling(sorted) && sorted != [] && revision == sorted[0].revision
    ensures Twice(sorted, revision) <==> |sorted| > 1 && sorted[1].revision == revision
    ensures !Twice(sorted, revision) ==> forall ref | ref in sorted :: ref == sorted[0] || ref.revision < revision
  {
    TwiceIs(sorted, revision);
    if Twice(sorted, revision) {
      var i, j := TwoCounted(sorted, revision);
      assert sorted[0].revision >= sorted[1].revision >= sorted[j].revision;
    }
  }

  /** A page, unless the release is not there or some revision of it is stored twice. */
  method SelectHistoryRefs(refs: array<Ref>, through: int) returns (r: Result<Page, Failure>)
    modifies refs
    ensures refs[..] == Sorted(old(refs[..]))
    ensures r == Err(NoRelease) <==> !HasRelease(old(refs[..]))
    ensures r.Ok? <==> HasRelease(old(refs[..])) && Unambiguous(old(refs[..]))
    ensures r.Err? && r.error.Ambiguous? ==> r.error.revision >= 1 && Twice(old(refs[..]), r.error.revision)
    ensures r.Ok? ==> refs.Length > 0 && r.value == PageOf(Sorted(old(refs[..])), through)
  {
    ghost var was := refs[..];
    var latest := OneRef(refs);
    if latest.Err? {
      return Err(latest.error);
    }
    StrictIff(was);
    SortedFalls(was);
    var repeated := Repeated(refs);
    if repeated.Some? {
      SortedCounts(was, repeated.value);
      return Err(Ambiguous(repeated.value));
    }
    var page := CutPage(refs, if through < 1 then latest.value.revision else through);
    return Ok(page);
  }

  /** A positive revision stored twice, in refs that are sorted. */
  method Repeated(refs: array<Ref>) returns (revision: Option<int>)
    requires Falling(refs[..])
    ensures revision.Some? ==> revision.value >= 1 && Twice(refs[..], revision.value)
    ensures revision.None? <==> Strict(refs[..])
  {
    var at := 1;
    while at < refs.Length
      invariant 1 <= at && (at <= refs.Length || refs.Length == 0)
      invariant forall i | 0 < i < at && i < refs.Length :: refs[i].revision > 0 ==> refs[i - 1].revision != refs[i].revision
    {
      if refs[at].revision > 0 && refs[at - 1].revision == refs[at].revision {
        assert refs[..][at - 1].revision == refs[..][at].revision;
        TwiceIs(refs[..], refs[at].revision);
        return Some(refs[at].revision);
      }
      at := at + 1;
    }
    NeighboursApart(refs[..]);
    return None;
  }

  lemma {:induction false} NeighboursApart(sorted: seq<Ref>)
    requires Falling(sorted)
    requires forall i | 0 < i < |sorted| :: sorted[i].revision > 0 ==> sorted[i - 1].revision != sorted[i].revision
    ensures Strict(sorted)
  {
    forall i, j | 0 <= i < j < |sorted| && sorted[j].revision >= 1 ensures sorted[i].revision > sorted[j].revision {
      assert sorted[j - 1].revision > sorted[j].revision;
    }
  }

  lemma UptoStep(sorted: seq<Ref>, through: int, eligible: seq<Ref>, i: nat)
    requires i < |sorted| && Upto(sorted, through) == eligible + Upto(sorted[i..], through)
    ensures var more := if 1 <= sorted[i].revision <= through then eligible + [sorted[i]] else eligible;
            Upto(sorted, through) == more + Upto(sorted[i + 1..], through)
  {
    assert sorted[i..][0] == sorted[i] && sorted[i..][1..] == sorted[i + 1..];
    if 1 <= sorted[i].revision <= through {
      assert eligible + ([sorted[i]] + Upto(sorted[i + 1..], through)) == eligible + [sorted[i]] + Upto(sorted[i + 1..], through);
    }
  }

  lemma CutEarly(eligible: seq<Ref>, rest: seq<Ref>)
    requires |eligible| > HISTORY_PAGE_SIZE
    ensures Cut(eligible + rest) == Cut(eligible)
  {
    assert (eligible + rest)[..HISTORY_PAGE_SIZE] == eligible[..HISTORY_PAGE_SIZE];
  }

  /** The loop stops at the first ref past the page. */
  method CutPage(refs: array<Ref>, through: int) returns (page: Page)
    ensures page == Cut(Upto(refs[..], through))
  {
    var eligible: seq<Ref> := [];
    ghost var sorted := refs[..];
    assert sorted[0..] == sorted;
    var i := 0;
    while i < refs.Length
      invariant 0 <= i <= refs.Length && |eligible| <= HISTORY_PAGE_SIZE
      invariant Upto(sorted, through) == eligible + Upto(sorted[i..], through)
    {
      var ref := refs[i];
      UptoStep(sorted, through, eligible, i);
      i := i + 1;
      if ref.revision > through || ref.revision < 1 {
        continue;
      }
      eligible := eligible + [ref];
      if |eligible| == HISTORY_PAGE_SIZE + 1 {
        CutEarly(eligible, Upto(sorted[i..], through));
        break;
      }
    }
    assert Cut(Upto(sorted, through)) == Cut(eligible);
    if |eligible| <= HISTORY_PAGE_SIZE {
      return Page(eligible, 0);
    }
    return Page(eligible[..HISTORY_PAGE_SIZE], eligible[HISTORY_PAGE_SIZE].revision);
  }

  // ---------------------------------------------------------------------------
  // Following the pages
  // ---------------------------------------------------------------------------

  lemma {:induction false} UptoHolds(sorted: seq<Ref>, through: int, ref: Ref)
    ensures ref in Upto(sorted, through) <==> ref in sorted && 1 <= ref.revision <= through
  {
    if sorted != [] {
      UptoHolds(sorted[1..], through, ref);
    }
  }

  lemma {:induction false} UptoStrict(sorted: seq<Ref>, through: int)
    requires Strict(sorted)
    ensures Strict(Upto(sorted, through))
  {
    if sorted != [] {
      UptoStrict(sorted[1..], through);
      var rest := Upto(sorted[1..], through);
      forall i | 0 <= i < |rest| ensures rest[i] in sorted[1..] { UptoHolds(sorted[1..], through, rest[i]); }
    }
  }

  lemma UptoCons(first: Ref, rest: seq<Ref>, through: int)
    ensures Upto([first] + rest, through) == (if 1 <= first.revision <= through then [first] else []) + Upto(rest, through)
  {
    assert ([first] + rest)[1..] == rest;
  }

  lemma {:induction false} UptoTwice(sorted: seq<Ref>, through: int, nearer: int)
    requires nearer <= through
    ensures Upto(Upto(sorted, through), nearer) == Upto(sorted, nearer)
  {
    if sorted != [] {
      UptoTwice(sorted[1..], through, nearer);
      if 1 <= sorted[0].revision <= through {
        UptoCons(sorted[0], Upto(sorted[1..], through), nearer);
      } else {
        assert Upto(sorted, through) == Upto(sorted[1..], through);
      }
    }
  }

  predicate AllPositive(refs: seq<Ref>) {
    forall i | 0 <= i < |refs| :: refs[i].revision >= 1
  }

  lemma {:induction false} UptoFrom(sorted: seq<Ref>, k: nat)
    requires Strict(sorted) && AllPositive(sorted) && k < |sorted|
    ensures Upto(sorted, sorted[k].revision) == sorted[k..]
  {
    if k > 0 {
      UptoFrom(sorted[1..], k - 1);
      assert sorted[0].revision > sorted[k].revision;
    } else {
      UptoAll(sorted, sorted[0].revision);
    }
  }

  lemma {:induction false} UptoAll(sorted: seq<Ref>, through: int)
    requires AllPositive(sorted) && forall i | 0 <= i < |sorted| :: sorted[i].revision <= through
    ensures Upto(sorted, through) == sorted
  {
    if sorted != [] {
      UptoAll(sorted[1..], through);
    }
  }

  /** What the next page starts with is all the page before left out. */
  lemma NextTakesUp(sorted: seq<Ref>, through: int)
    requires Strict(sorted) && |Upto(sorted, through)| > HISTORY_PAGE_SIZE
    ensures var eligible := Upto(sorted, through);
            1 <= Cut(eligible).next < through && Upto(sorted, Cut(eligible).next) == eligible[HISTORY_PAGE_SIZE..]
    ensures forall ref | ref in Cut(Upto(sorted, through)).refs :: ref.revision > Cut(Upto(sorted, through)).next
  {
    var eligible := Upto(sorted, through);
    UptoStrict(sorted, through);
    forall i | 0 <= i < |eligible| ensures 1 <= eligible[i].revision <= through { UptoHolds(sorted, through, eligible[i]); }
    UptoFrom(eligible, HISTORY_PAGE_SIZE);
    UptoTwice(sorted, through, eligible[HISTORY_PAGE_SIZE].revision);
  }

  /** Two stores that agree about the positive revisions up to one list them alike. */
  lemma SameUpto(a: seq<Ref>, b: seq<Ref>, through: int)
    requires Strict(a) && Strict(b)
    requires forall ref: Ref | 1 <= ref.revision <= through :: ref in a <==> ref in b
    ensures Upto(a, through) == Upto(b, through)
  {
    UptoStrict(a, through);
    UptoStrict(b, through);
    forall ref ensures ref in Upto(a, through) <==> ref in Upto(b, through) {
      UptoHolds(a, through, ref);
      UptoHolds(b, through, ref);
    }
    forall ref | ref in Upto(a, through) ensures ref.revision >= 1 { UptoHolds(a, through, ref); }
    OneFallingList(Upto(a, through), Upto(b, through));
  }

  lemma SomeIn(refs: seq<Ref>)
    ensures refs != [] ==> exists ref :: ref in refs
  {
    if refs != [] {
      assert refs[0] in refs;
    }
  }

  lemma {:induction false} OneFallingList(a: seq<Ref>, b: seq<Ref>)
    requires Strict(a) && Strict(b)
    requires forall ref | ref in a :: ref.revision >= 1
    requires forall ref :: ref in a <==> ref in b
    ensures a == b
  {
    if a == [] {
      SomeIn(b);
    } else {
      assert a[0] in b && b[0] in a;
      assert a[0] == b[0];
      forall ref ensures ref in a[1..] <==> ref in b[1..] {
        if ref in a[1..] { assert ref in b && ref != a[0]; }
        if ref in b[1..] { assert ref in a && ref != b[0]; }
      }
      OneFallingList(a[1..], b[1..]);
    }
  }

  function Concat(pages: seq<Page>): seq<Ref> {
    if pages == [] then [] else pages[0].refs + Concat(pages[1..])
  }

  /** What a store that can be paged through answers. */
  ghost predicate Answers(store: seq<Ref>, through: int, page: Page) {
    store != [] && HasRelease(store) && Unambiguous(store) && page == PageOf(Sorted(store), through)
  }

  ghost predicate Succeeds(store: seq<Ref>, before: Page, page: Page) {
    before.next != 0 && Answers(store, before.next, page)
  }

  /** Pages fetched one after another, each from what the store held by then, following `next`
      until there is none. */
  ghost predicate Following(stores: seq<seq<Ref>>, through: int, pages: seq<Page>) {
    |stores| == |pages| > 0 &&
    Answers(stores[0], through, pages[0]) &&
    (forall i | 0 < i < |pages| :: Succeeds(stores[i], pages[i - 1], pages[i])) &&
    pages[|pages| - 1].next == 0
  }

  /** The store kept everything up to a revision as it was. */
  ghost predicate Kept(store: seq<Ref>, later: seq<Ref>, through: int) {
    forall ref: Ref | 1 <= ref.revision <= through :: ref in store <==> ref in later
  }

  predicate NextsFall(pages: seq<Page>) {
    forall i, j | 0 <= i < j < |pages| :: pages[j].next < pages[i].next
  }

  lemma FallOnFrom(pages: seq<Page>)
    requires |pages| > 1 && NextsFall(pages[1..]) && pages[1..][0].next < pages[0].next
    ensures NextsFall(pages)
  {
    forall i, j | 0 <= i < j < |pages| ensures pages[j].next < pages[i].next {
      assert pages[j] == pages[1..][j - 1];
      if i > 0 { assert pages[i] == pages[1..][i - 1]; }
    }
  }

  lemma FollowingOn(stores: seq<seq<Ref>>, through: int, pages: seq<Page>)
    requires Following(stores, through, pages) && |pages| > 1
    ensures pages[0].next != 0 && Following(stores[1..], pages[0].next, pages[1..])
  {
    var rest, left := pages[1..], stores[1..];
    assert Succeeds(stores[1], pages[1 - 1], pages[1]);
    forall i | 0 < i < |rest| ensures Succeeds(left[i], rest[i - 1], rest[i]) {
      assert Succeeds(stores[i + 1], pages[i + 1 - 1], pages[i + 1]);
    }
  }

  lemma {:induction false} PagesFrom(first: seq<Ref>, stores: seq<seq<Ref>>, through: int, pages: seq<Page>)
    requires Following(stores, through, pages) && through >= 1
    requires Unambiguous(first) && forall i | 0 <= i < |stores| :: Kept(first, stores[i], through)
    ensures Concat(pages) == Upto(Sorted(first), through)
    ensures pages[0].next < through && NextsFall(pages)
    ensures forall i | 0 <= i < |pages| :: |pages[i].refs| <= HISTORY_PAGE_SIZE
    decreases |pages|
  {
    FirstPageFrom(first, stores[0], through);
    assert pages[0] == Cut(Upto(Sorted(first), through));
    if |Upto(Sorted(first), through)| > HISTORY_PAGE_SIZE {
      NextTakesUp(Sorted(first), through);
    }
    if |pages| == 1 {
      assert pages[1..] == [];
    } else {
      var next := pages[0].next;
      FollowingOn(stores, through, pages);
      NextTakesUp(Sorted(first), through);
      forall i | 0 <= i < |stores[1..]| ensures Kept(first, stores[1..][i], next) {
        assert Kept(first, stores[i + 1], through);
      }
      PagesFrom(first, stores[1..], next, pages[1..]);
      FallOnFrom(pages);
    }
  }

  lemma FirstPageFrom(first: seq<Ref>, store: seq<Ref>, through: int)
    requires Unambiguous(first) && Unambiguous(store) && Kept(first, store, through)
    ensures Strict(Sorted(first)) && Upto(Sorted(store), through) == Upto(Sorted(first), through)
  {
    StrictIff(first);
    StrictIff(store);
    SortedFalls(first);
    SortedFalls(store);
    SameUpto(Sorted(first), Sorted(store), through);
  }

  /** Starting without a revision and following `next` to the end yields every revision the
      release had at the first call once, newest first, ten at most to a page and each page
      starting lower, whatever newer revisions are stored between the calls. */
  lemma FollowingYieldsTheHistory(stores: seq<seq<Ref>>, pages: seq<Page>)
    requires Following(stores, 0, pages)
    requires forall i | 0 <= i < |stores| :: Kept(stores[0], stores[i], Sorted(stores[0])[0].revision)
    ensures Strict(Concat(pages)) && AllPositive(Concat(pages))
    ensures forall ref :: ref in Concat(pages) <==> ref in stores[0] && ref.revision >= 1
    ensures NextsFall(pages)
    ensures forall i | 0 <= i < |pages| :: |pages[i].refs| <= HISTORY_PAGE_SIZE
  {
    var sorted := Sorted(stores[0]);
    var latest := sorted[0].revision;
    SortedHasRelease(stores[0]);
    assert Following(stores, latest, pages);
    PagesFrom(stores[0], stores, latest, pages);
    StrictIff(stores[0]);
    SortedFalls(stores[0]);
    UptoStrict(sorted, latest);
    forall ref ensures ref in Concat(pages) <==> ref in stores[0] && ref.revision >= 1 {
      UptoHolds(sorted, latest, ref);
    }
    forall i | 0 <= i < |Concat(pages)| ensures Concat(pages)[i].revision >= 1 {
      UptoHolds(sorted, latest, Concat(pages)[i]);
    }
  }

  /** The pages end: from any store one after another there are at most as many as revisions. */
  function Walk(sorted: seq<Ref>, through: int): (pages: seq<Page>)
    requires Strict(sorted)
    decreases |Upto(sorted, through)|
  {
    var page := Cut(Upto(sorted, through));
    if page.next == 0 || |Upto(sorted, through)| <= HISTORY_PAGE_SIZE then [page]
    else NextTakesUp(sorted, through); [page] + Walk(sorted, page.next)
  }

  lemma {:induction false} WalkEnds(sorted: seq<Ref>, through: int)
    requires Strict(sorted)
    ensures Walk(sorted, through)[|Walk(sorted, through)| - 1].next == 0
    ensures HISTORY_PAGE_SIZE * (|Walk(sorted, through)| - 1) <= |Upto(sorted, through)|
    decreases |Upto(sorted, through)|
  {
    if |Upto(sorted, through)| > HISTORY_PAGE_SIZE {
      NextTakesUp(sorted, through);
      WalkEnds(sorted, Cut(Upto(sorted, through)).next);
    }
  }

  // ---------------------------------------------------------------------------
  // Listing in bounded pages
  // ---------------------------------------------------------------------------

  datatype Error = Forbidden(why: string) | Other(why: string) | RepeatedContinue | TooMany | NoMetadata

  datatype Listed = Listed(items: seq<Ref>, next: string)

  /** What the server answers to a continuation token, the empty one first. `tokens` are all the
      continuation tokens it ever hands out. */
  datatype Server = Server(list: string -> Result<Listed, Error>, tokens: set<string>)

  ghost predicate Bounded(server: Server) {
    forall token :: server.list(token).Ok? && server.list(token).value.next != "" ==>
      server.list(token).value.next in server.tokens
  }

  /** How a chain of pages ends: with the last page, with a token handed out before, or with a
      request that failed. */
  datatype End = Done | Looped | Failed(error: Error)

  /** Every page the server has, in order, read to the end. */
  datatype Chain = Chain(pages: seq<seq<Ref>>, end: End)

  ghost function ChainFrom(server: Server, token: string, seen: set<string>): Chain
    requires Bounded(server)
    decreases server.tokens - seen
  {
    match server.list(token)
    case Err(error) => Chain([], Failed(error))
    case Ok(listed) =>
      if listed.next == "" then Chain([listed.items], Done)
      else if listed.next in seen then Chain([listed.items], Looped)
      else
        var rest := ChainFrom(server, listed.next, seen + {listed.next});
        Chain([listed.items] + rest.pages, rest.end)
  }

  function All(pages: seq<seq<Ref>>): seq<Ref> {
    if pages == [] then [] else pages[0] + All(pages[1..])
  }

  /** Reading to the end of the chain never runs into the limit: nothing is over it, and it is
      not reached while there is still something to ask for. */
  predicate Fits(chain: Chain, limit: nat) {
    |All(chain.pages)| <= limit &&
    (forall i | 0 < i < |chain.pages| :: |All(chain.pages[..i])| < limit) &&
    (chain.end.Failed? && chain.pages != [] ==> |All(chain.pages)| < limit)
  }

  datatype Listing = Listing(items: seq<Ref>, truncated: bool)

  function Take(refs: seq<Ref>, n: nat): seq<Ref> {
    if |refs| <= n then refs else refs[..n]
  }

  function Outcome(chain: Chain, limit: nat): Result<Listing, Error> {
    if !Fits(chain, limit) then Ok(Listing(Take(All(chain.pages), limit), true))
    else match chain.end
      case Done => Ok(Listing(All(chain.pages), false))
      case Looped => Err(RepeatedContinue)
      case Failed(error) => Err(error)
  }

  /** A listing that is not truncated is complete, and a truncated one is full. */
  lemma UntruncatedIsComplete(chain: Chain, limit: nat)
    ensures match Outcome(chain, limit)
      case Ok(listing) =>
        |listing.items| <= limit && listing.items <= All(chain.pages) &&
        (if listing.truncated then |listing.items| == limit else chain.end.Done? && listing.items == All(chain.pages))
      case Err(error) => !chain.end.Done?
    ensures |All(chain.pages)| < limit ==>
              match chain.end
              case Done => Outcome(chain, limit) == Ok(Listing(All(chain.pages), false))
              case Looped => Outcome(chain, limit) == Err(RepeatedContinue)
              case Failed(error) => Outcome(chain, limit) == Err(error)
    ensures |All(chain.pages)| > limit ==> Outcome(chain, limit).Ok?
  {
    forall i | 0 <= i <= |chain.pages| ensures |All(chain.pages[..i])| <= |All(chain.pages)| {
      AllSplits(chain.pages[..i], chain.pages[i..]);
      assert chain.pages == chain.pages[..i] + chain.pages[i..];
    }
  }

  lemma {:induction false} AllSplits(a: seq<seq<Ref>>, b: seq<seq<Ref>>)
    ensures All(a + b) == All(a) + All(b)
  {
    if a == [] {
      assert a + b == b;
    } else {
      AllSplits(a[1..], b);
      assert (a + b)[1..] == a[1..] + b;
    }
  }

  class Paging {
    var token: string
    var seen: set<string>

    constructor ()
      ensures token == "" && seen == {}
    {
      token, seen := "", {};
    }

    method Advance(next: string) returns (more: Result<bool, Error>)
      modifies this
      ensures more == if next == "" then Ok(false) else if next in old(seen) then Err(RepeatedContinue) else Ok(true)
      ensures if more == Ok(true) then token == next && seen == old(seen) + {next} else token == old(token) && seen == old(seen)
    {
      if next == "" {
        return Ok(false);
      }
      if next in seen {
        return Err(RepeatedContinue);
      }
      seen := seen + {next};
      token := next;
      return Ok(true);
    }
  }

  /** What has been read and what is left make the whole chain, and reading on was right. */
  ghost predicate ReadSoFar(server: Server, read: seq<seq<Ref>>, token: string, seen: set<string>, limit: nat)
    requires Bounded(server)
  {
    var rest := ChainFrom(server, token, seen);
    ChainFrom(server, "", {}) == Chain(read + rest.pages, rest.end) &&
    forall i | 0 < i <= |read| :: |All(read[..i])| < limit
  }

  lemma ReadOne(server: Server, read: seq<seq<Ref>>, token: string, seen: set<string>, limit: nat)
    requires Bounded(server) && ReadSoFar(server, read, token, seen, limit) && server.list(token).Ok?
    ensures var listed := server.list(token).value; var chain := ChainFrom(server, "", {});
            var more := read + [listed.items];
            more <= chain.pages && All(more) == All(read) + listed.items && All(more) <= All(chain.pages) &&
            (listed.next == "" ==> chain == Chain(more, Done)) &&
            (listed.next != "" && listed.next in seen ==> chain == Chain(more, Looped)) &&
            (listed.next != "" && listed.next !in seen && |All(more)| < limit ==>
              ReadSoFar(server, more, listed.next, seen + {listed.next}, limit))
  {
    var listed := server.list(token).value;
    var chain := ChainFrom(server, "", {});
    var more := read + [listed.items];
    var rest := ChainFrom(server, token, seen);
    assert read + rest.pages == more + rest.pages[1..];
    AllSplits(read, [listed.items]);
    assert [listed.items][1..] == [] && All([listed.items]) == listed.items;
    AllSplits(more, rest.pages[1..]);
    if listed.next != "" && listed.next !in seen && |All(more)| < limit {
      forall i | 0 < i <= |more| ensures |All(more[..i])| < limit {
        if i <= |read| {
          assert more[..i] == read[..i];
        } else {
          assert more[..i] == more;
        }
      }
    }
  }

  /** Where the listing runs over the limit, or reaches it with more to ask for. */
  lemma CutShort(chain: Chain, more: seq<seq<Ref>>, limit: nat)
    requires more <= chain.pages && |All(more)| >= limit && more != []
    requires |All(more)| > limit || |more| < |chain.pages| || chain.end.Failed?
    ensures !Fits(chain, limit) && Take(All(chain.pages), limit) == All(more)[..limit]
  {
    AllSplits(more, chain.pages[|more|..]);
    assert chain.pages == more + chain.pages[|more|..];
    assert chain.pages[..|more|] == more;
    assert All(chain.pages)[..limit] == All(more)[..limit];
  }

  /** Everything read, with no limit reached on the way. */
  lemma ReadThrough(server: Server, read: seq<seq<Ref>>, token: string, seen: set<string>, limit: nat)
    requires Bounded(server) && ReadSoFar(server, read, token, seen, limit)
    requires server.list(token).Ok? ==> |All(read + [server.list(token).value.items])| <= limit
    requires server.list(token).Ok? ==> server.list(token).value.next == "" || server.list(token).value.next in seen
    ensures Fits(ChainFrom(server, "", {}), limit)
  {
    var chain := ChainFrom(server, "", {});
    if server.list(token).Ok? {
      ReadOne(server, read, token, seen, limit);
    } else {
      assert chain.pages == read;
    }
    forall i | 0 < i < |chain.pages| ensures |All(chain.pages[..i])| < limit {
      assert chain.pages[..i] == read[..i];
    }
    assert read != [] ==> read[..|read|] == read;
  }

  function Asks(listed: Listed, seen: set<string>): bool {
    listed.next != "" && listed.next !in seen
  }

  lemma FailedHere(server: Server, read: seq<seq<Ref>>, token: string, seen: set<string>, limit: nat)
    requires Bounded(server) && ReadSoFar(server, read, token, seen, limit) && server.list(token).Err?
    ensures Outcome(ChainFrom(server, "", {}), limit) == Err(server.list(token).error)
  {
    ReadThrough(server, read, token, seen, limit);
  }

  lemma EndedHere(server: Server, read: seq<seq<Ref>>, token: string, seen: set<string>, limit: nat)
    requires Bounded(server) && ReadSoFar(server, read, token, seen, limit) && server.list(token).Ok?
    requires |All(read)| + |server.list(token).value.items| <= limit && !Asks(server.list(token).value, seen)
    ensures Outcome(ChainFrom(server, "", {}), limit) ==
            if server.list(token).value.next == "" then Ok(Listing(All(read) + server.list(token).value.items, false))
            else Err(RepeatedContinue)
  {
    ReadOne(server, read, token, seen, limit);
    ReadThrough(server, read, token, seen, limit);
  }

  lemma CutHere(server: Server, read: seq<seq<Ref>>, token: string, seen: set<string>, limit: nat)
    requires Bounded(server) && ReadSoFar(server, read, token, seen, limit) && server.list(token).Ok?
    requires var size := |All(read)| + |server.list(token).value.items|;
             size > limit || (size == limit && Asks(server.list(token).value, seen))
    ensures Outcome(ChainFrom(server, "", {}), limit) ==
            Ok(Listing((All(read) + server.list(token).value.items)[..limit], true))
  {
    var chain := ChainFrom(server, "", {});
    ReadOne(server, read, token, seen, limit);
    if Asks(server.list(token).value, seen) {
      MoreToAsk(server, read, token, seen, limit);
    }
    CutShort(chain, read + [server.list(token).value.items], limit);
  }

  lemma MoreToAsk(server: Server, read: seq<seq<Ref>>, token: string, seen: set<string>, limit: nat)
    requires Bounded(server) && ReadSoFar(server, read, token, seen, limit) && server.list(token).Ok?
    requires Asks(server.list(token).value, seen)
    ensures var chain := ChainFrom(server, "", {}); |read| + 1 < |chain.pages| || chain.end.Failed?
  {
    var next := server.list(token).value.next;
    var rest := ChainFrom(server, next, seen + {next});
    assert rest.pages != [] || rest.end.Failed?;
  }

  method ListRefsLimited(server: Server, limit: nat) returns (r: Result<Listing, Error>)
    requires Bounded(server)
    ensures r == Outcome(ChainFrom(server, "", {}), limit)
  {
    var opts := new Paging();
    var items: seq<Ref> := [];
    ghost var read: seq<seq<Ref>> := [];
    while true
      invariant ReadSoFar(server, read, opts.token, opts.seen, limit) && items == All(read) && |items| <= limit
      decreases server.tokens - opts.seen
    {
      ghost var token, seen := opts.token, opts.seen;
      var reply := server.list(opts.token);
      if reply.Err? {
        FailedHere(server, read, token, seen, limit);
        return Err(reply.error);
      }
      var listed := reply.value;
      var available := limit - |items|;
      if |listed.items| > available {
        CutHere(server, read, token, seen, limit);
        items := items + listed.items[..available];
        assert items == (All(read) + listed.items)[..limit];
        return Ok(Listing(items, true));
      }
      items := items + listed.items;
      if !Asks(listed, seen) {
        EndedHere(server, read, token, seen, limit);
      }
      var more := opts.Advance(listed.next);
      if more.Err? {
        return Err(more.error);
      }
      if !more.value {
        return Ok(Listing(items, false));
      }
      if |items| == limit {
        CutHere(server, read, token, seen, limit);
        assert items[..limit] == items;
        return Ok(Listing(items, true));
      }
      ReadOne(server, read, token, seen, limit);
      read := read + [listed.items];
    }
  }

  ghost function Everything(server: Server): seq<Ref>
    requires Bounded(server)
  {
    All(ChainFrom(server, "", {}).pages)
  }

  ghost predicate Readable(server: Server)
    requires Bounded(server)
  {
    ChainFrom(server, "", {}).end.Done?
  }

  /** Every stored revision that matched, or an error: never some of them. */
  method StoredRefs(secrets: Server, maps: Server, limit: nat) returns (r: Result<seq<Ref>, Error>)
    requires Bounded(secrets) && Bounded(maps)
    ensures r.Ok? <==> Readable(secrets) && Readable(maps) && |Everything(secrets)| + |Everything(maps)| <= limit
    ensures r.Ok? ==> r.value == Everything(secrets) + Everything(maps)
  {
    UntruncatedIsComplete(ChainFrom(secrets, "", {}), limit + 1);
    UntruncatedIsComplete(ChainFrom(maps, "", {}), limit + 1);
    var first := ListRefsLimited(secrets, limit + 1);
    if first.Err? {
      return Err(first.error);
    }
    var second := ListRefsLimited(maps, limit + 1);
    if second.Err? {
      return Err(second.error);
    }
    if first.value.truncated || second.value.truncated {
      return Err(TooMany);
    }
    var refs := first.value.items + second.value.items;
    if |refs| > limit {
      return Err(TooMany);
    }
    return Ok(refs);
  }

  // ---------------------------------------------------------------------------
  // Namespace by namespace
  // ---------------------------------------------------------------------------

  /** What listing one namespace after another gives: an error, or the refs of those that allowed it. */
  function Allowed(lists: seq<Result<Listing, Error>>): seq<Ref> {
    if lists == [] then []
    else Allowed(lists[..|lists| - 1]) + if lists[|lists| - 1].Ok? then lists[|lists| - 1].value.items else []
  }

  predicate NoneCut(lists: seq<Result<Listing, Error>>) {
    forall i | 0 <= i < |lists| :: lists[i].Ok? ==> !lists[i].value.truncated
  }

  predicate OnlyForbidden(lists: seq<Result<Listing, Error>>) {
    forall i | 0 <= i < |lists| :: lists[i].Err? ==> lists[i].error.Forbidden?
  }

  lemma {:induction false} AllowedGrows(lists: seq<Result<Listing, Error>>, n: nat)
    requires n <= |lists|
    ensures Allowed(lists[..n]) <= Allowed(lists)
  {
    if n < |lists| {
      var front := lists[..|lists| - 1];
      AllowedGrows(front, n);
      assert front[..n] == lists[..n];
    } else {
      assert lists[..n] == lists;
    }
  }

  /** What has come of the first few namespaces. */
  predicate SoFar(lists: seq<Result<Listing, Error>>, n: nat, items: seq<Ref>, truncated: bool)
    requires n <= |lists|
  {
    items == Allowed(lists[..n]) && (truncated <==> !NoneCut(lists[..n])) && OnlyForbidden(lists[..n])
  }

  lemma OneMoreNamespace(lists: seq<Result<Listing, Error>>, n: nat, items: seq<Ref>, truncated: bool)
    requires n < |lists| && SoFar(lists, n, items, truncated)
    ensures lists[n].Ok? ==>
              SoFar(lists, n + 1, items + lists[n].value.items, truncated || lists[n].value.truncated) &&
              items + lists[n].value.items <= Allowed(lists)
    ensures lists[n].Err? && lists[n].error.Forbidden? ==> SoFar(lists, n + 1, items, truncated)
  {
    AllowedGrows(lists, n + 1);
    SnocTake(lists, n);
    AllowedSnoc(lists[..n], lists[n]);
  }

  lemma SnocTake<T>(items: seq<T>, n: nat)
    requires n < |items|
    ensures items[..n + 1] == items[..n] + [items[n]]
  {}

  lemma AllowedSnoc(front: seq<Result<Listing, Error>>, one: Result<Listing, Error>)
    ensures Allowed(front + [one]) == if one.Ok? then Allowed(front) + one.value.items else Allowed(front)
    ensures NoneCut(front + [one]) <==> NoneCut(front) && (one.Ok? ==> !one.value.truncated)
    ensures OnlyForbidden(front + [one]) <==> OnlyForbidden(front) && (one.Err? ==> one.error.Forbidden?)
  {
    var lists := front + [one];
    assert lists[..|lists| - 1] == front && lists[|front|] == one;
    assert forall i | 0 <= i < |front| :: lists[i] == front[i];
  }

  lemma WholeList(lists: seq<Result<Listing, Error>>, n: nat, items: seq<Ref>, truncated: bool)
    requires n <= |lists| && SoFar(lists, n, items, truncated)
    ensures items <= Allowed(lists) && (truncated ==> !NoneCut(lists))
    ensures n == |lists| ==> items == Allowed(lists) && (truncated <==> !NoneCut(lists)) && OnlyForbidden(lists)
  {
    AllowedGrows(lists, n);
    assert n == |lists| ==> lists[..n] == lists;
  }

  /** The loop over the namespaces; a note says which allowed it. A listing that claims to be
      complete holds all of them, and no more than the limit ever comes back. */
  method EachNamespace(lists: seq<Result<Listing, Error>>, most: nat) returns (r: Result<Listing, Error>, allowed: seq<nat>)
    ensures r.Ok? ==> |r.value.items| <= most && r.value.items <= Allowed(lists)
    ensures r.Ok? && !r.value.truncated ==> r.value.items == Allowed(lists) && NoneCut(lists) && OnlyForbidden(lists)
    ensures r.Ok? && r.value.truncated ==> |r.value.items| == most || !NoneCut(lists)
    ensures r.Err? ==> exists i | 0 <= i < |lists| :: lists[i] == Err(r.error) && !r.error.Forbidden?
    ensures OnlyForbidden(lists) ==> r.Ok?
  {
    var items: seq<Ref>, truncated := [], false;
    allowed := [];
    for at := 0 to |lists|
      invariant SoFar(lists, at, items, truncated) && |items| <= most
    {
      OneMoreNamespace(lists, at, items, truncated);
      var one := lists[at];
      if one.Err? && one.error.Forbidden? {
        continue;
      }
      if one.Err? {
        return Err(one.error), allowed;
      }
      allowed := allowed + [at];
      var available := most - |items|;
      if |one.value.items| > available {
        return Ok(Listing(items + one.value.items[..available], true)), allowed;
      }
      items := items + one.value.items;
      if one.value.truncated {
        truncated := true;
      }
      if |items| == most {
        WholeList(lists, at + 1, items, truncated);
        if at < |lists| - 1 {
          truncated := true;
        }
        return Ok(Listing(items, truncated)), allowed;
      }
    }
    WholeList(lists, |lists|, items, truncated);
    return Ok(Listing(items, truncated)), allowed;
  }

  // ---------------------------------------------------------------------------
  // The newest of each release
  // ---------------------------------------------------------------------------

  function ReleaseKey(ref: Ref): string {
    ref.namespace_ + "/" + ref.name
  }

  /** Of a release's refs, one nothing later exceeds and nothing earlier reaches. */
  predicate IsNewest(refs: seq<Ref>, i: nat)
    requires i < |refs|
  {
    refs[i].name != "" &&
    (forall j | 0 <= j < |refs| && refs[j].name != "" && ReleaseKey(refs[j]) == ReleaseKey(refs[i]) ::
      refs[j].revision <= refs[i].revision && (j < i ==> refs[j].revision < refs[i].revision))
  }

  /** The newest refs under their releases. */
  ghost predicate Newest(refs: seq<Ref>, newest: map<string, Ref>) {
    (forall key | key in newest :: IsNewestOf(refs, key, newest[key])) &&
    forall i | 0 <= i < |refs| && refs[i].name != "" :: ReleaseKey(refs[i]) in newest
  }

  ghost predicate IsNewestOf(refs: seq<Ref>, key: string, ref: Ref) {
    ReleaseKey(ref) == key && exists i: nat | i < |refs| :: refs[i] == ref && IsNewest(refs, i)
  }

  lemma StaysNewest(refs: seq<Ref>, key: string, ref: Ref, more: Ref)
    requires IsNewestOf(refs, key, ref)
    requires more.name == "" || ReleaseKey(more) != key || more.revision <= ref.revision
    ensures IsNewestOf(refs + [more], key, ref)
  {
    var i: nat :| i < |refs| && refs[i] == ref && IsNewest(refs, i);
    assert IsNewest(refs + [more], i);
  }

  lemma BecomesNewest(refs: seq<Ref>, newest: map<string, Ref>, more: Ref)
    requires Newest(refs, newest) && more.name != ""
    requires ReleaseKey(more) in newest ==> newest[ReleaseKey(more)].revision < more.revision
    ensures IsNewestOf(refs + [more], ReleaseKey(more), more)
  {
    var key := ReleaseKey(more);
    forall j | 0 <= j < |refs| && refs[j].name != "" && ReleaseKey(refs[j]) == key
      ensures refs[j].revision < more.revision
    {
      assert IsNewestOf(refs, key, newest[key]);
    }
    assert IsNewest(refs + [more], |refs|);
  }

  method FindNewest(refs: seq<Ref>) returns (newest: map<string, Ref>)
    ensures Newest(refs, newest)
  {
    newest := map[];
    for n := 0 to |refs|
      invariant Newest(refs[..n], newest)
    {
      var ref := refs[n];
      var key := ReleaseKey(ref);
      ghost var before := newest;
      assert refs[..n + 1] == refs[..n] + [ref];
      if ref.name == "" || (key in newest && newest[key].revision >= ref.revision) {
        forall known | known in before { StaysNewest(refs[..n], known, before[known], ref); }
        continue;
      }
      BecomesNewest(refs[..n], newest, ref);
      newest := newest[key := ref];
      forall known | known in before && known != key { StaysNewest(refs[..n], known, before[known], ref); }
    }
    assert refs[..|refs|] == refs;
  }

  /** One ref for every release that has a name: its newest, the first of them when several are. */
  method NewestPerRelease(refs: seq<Ref>) returns (out: seq<Ref>)
    ensures forall k | 0 <= k < |out| :: IsNewestOf(refs, ReleaseKey(out[k]), out[k])
    ensures forall i | 0 <= i < |refs| && refs[i].name != "" :: exists k | 0 <= k < |out| :: ReleaseKey(out[k]) == ReleaseKey(refs[i])
    ensures forall k, l | 0 <= k < l < |out| :: ReleaseKey(out[k]) != ReleaseKey(out[l])
    ensures forall k, ref | 0 <= k < |out| && ref in refs && ref.namespace_ == out[k].namespace_ && ref.name == out[k].name ::
              ref.revision <= out[k].revision
  {
    var newest := FindNewest(refs);
    forall key | key in newest ensures ReleaseKey(newest[key]) == key { assert IsNewestOf(refs, key, newest[key]); }
    out := Collected(newest);
    forall k, ref | 0 <= k < |out| && ref in refs && ref.namespace_ == out[k].namespace_ && ref.name == out[k].name
      ensures ref.revision <= out[k].revision
    {
      NoneIsNewer(refs, out[k], ref);
    }
  }

  lemma NoneIsNewer(refs: seq<Ref>, newest: Ref, ref: Ref)
    requires IsNewestOf(refs, ReleaseKey(newest), newest) && ref in refs
    requires ref.namespace_ == newest.namespace_ && ref.name == newest.name
    ensures ref.revision <= newest.revision
  {
    var i: nat :| i < |refs| && refs[i] == newest && IsNewest(refs, i);
    var j :| 0 <= j < |refs| && refs[j] == ref;
    assert ReleaseKey(refs[j]) == ReleaseKey(refs[i]);
  }

  /** The values of the map, in whatever order it gives them. */
  method Collected(newest: map<string, Ref>) returns (out: seq<Ref>)
    requires forall key | key in newest :: ReleaseKey(newest[key]) == key
    ensures forall k | 0 <= k < |out| :: ReleaseKey(out[k]) in newest && out[k] == newest[ReleaseKey(out[k])]
    ensures forall key | key in newest :: exists k | 0 <= k < |out| :: ReleaseKey(out[k]) == key
    ensures forall k, l | 0 <= k < l < |out| :: ReleaseKey(out[k]) != ReleaseKey(out[l])
  {
    out := [];
    var keys := newest.Keys;
    while keys != {}
      invariant keys <= newest.Keys
      invariant forall k | 0 <= k < |out| ::
        ReleaseKey(out[k]) in newest && ReleaseKey(out[k]) !in keys && out[k] == newest[ReleaseKey(out[k])]
      invariant forall key | key in newest && key !in keys :: newest[key] in out
      invariant forall k, l | 0 <= k < l < |out| :: ReleaseKey(out[k]) != ReleaseKey(out[l])
      decreases keys
    {
      var key :| key in keys;
      out := out + [newest[key]];
      keys := keys - {key};
    }
    forall key | key in newest ensures exists k | 0 <= k < |out| :: ReleaseKey(out[k]) == key {
      assert newest[key] in out;
    }
  }

  /** Namespaces hold no slash, so a key names one release. */
  lemma {:induction false} KeysTellReleasesApart(a: Ref, b: Ref)
    requires '/' !in a.namespace_ && '/' !in b.namespace_
    ensures ReleaseKey(a) == ReleaseKey(b) <==> a.namespace_ == b.namespace_ && a.name == b.name
  {
    if ReleaseKey(a) == ReleaseKey(b) {
      SplitsOnce(a.namespace_, b.namespace_, a.name, b.name);
    }
  }

  lemma {:induction false} SplitsOnce(a: string, b: string, c: string, d: string)
    requires '/' !in a && '/' !in b && a + "/" + c == b + "/" + d
    ensures a == b && c == d
  {
    FirstSlash(a, c);
    FirstSlash(b, d);
    var whole, other := a + "/" + c, b + "/" + d;
    assert whole[..|a|] == a && other[..|b|] == b && whole[|a| + 1..] == c && other[|b| + 1..] == d;
  }

  function SlashAt(text: string): nat {
    if text == [] || text[0] == '/' then 0 else 1 + SlashAt(text[1..])
  }

  lemma {:induction false} FirstSlash(a: string, c: string)
    requires '/' !in a
    ensures SlashAt(a + "/" + c) == |a|
  {
    if a != [] {
      FirstSlash(a[1..], c);
      assert (a + "/" + c)[1..] == a[1..] + "/" + c;
    }
  }
}
