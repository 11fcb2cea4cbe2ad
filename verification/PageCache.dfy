/** The cache of rendered pages: object URLs pinned by leases, the least recently used ones revoked first. */
module PageCache {
  import opened Contracts
  import opened Unicode

  datatype PreviewPage = PreviewPage(pageHash: string, svg: string, widthPt: real, heightPt: real)

  /** URLs are numbered as they are created. */
  datatype CachedPage = CachedPage(page: PreviewPage, url: nat, bytes: nat, users: nat, lastUse: nat)

  /** The entry a lease was given for; `era` counts disposals, which detach all entries. */
  datatype Lease = Lease(pageHash: string, url: nat, era: nat)

  /** `leases` holds the leases not yet released. */
  datatype State = State(
    pages: map<string, CachedPage>, clock: nat, nextUrl: nat, revoked: set<nat>,
    leases: map<nat, Lease>, nextLease: nat, era: nat)

  datatype Budget = Budget(bytes: nat, pages: nat)

  const START: State := State(map[], 0, 0, {}, map[], 0, 0)

  // ---- Specification ----

  ghost function TotalBytes(pages: map<string, CachedPage>): nat {
    if pages == map[] then 0
    else
      var h :| h in pages;
      pages[h].bytes + TotalBytes(pages - {h})
  }

  ghost predicate IsWithin(pages: map<string, CachedPage>, budget: Budget) {
    TotalBytes(pages) <= budget.bytes && |pages| <= budget.pages
  }

  /** The unleased pages, the least recently used first. */
  ghost predicate IsQueue(pages: map<string, CachedPage>, queue: seq<string>) {
    && (forall h :: h in queue <==> h in pages && pages[h].users == 0)
    && (forall i, j :: 0 <= i < j < |queue| ==> queue[i] != queue[j] && pages[queue[i]].lastUse <= pages[queue[j]].lastUse)
  }

  function Dropped(pages: map<string, CachedPage>, queue: seq<string>, k: nat): map<string, CachedPage>
    requires k <= |queue|
  {
    pages - (set h | h in queue[..k])
  }

  /** Before the k-th page goes, a budget does not hold. */
  ghost predicate TooMuchUntil(pages: map<string, CachedPage>, queue: seq<string>, k: nat, budget: Budget)
    requires k <= |queue|
  {
    forall j :: 0 <= j < k ==> !IsWithin(Dropped(pages, queue, j), budget)
  }

  lemma TooMuchStill(pages: map<string, CachedPage>, queue: seq<string>, k: nat, budget: Budget)
    requires k < |queue| && TooMuchUntil(pages, queue, k, budget)
    requires var now := Dropped(pages, queue, k); !(TotalBytes(now) <= budget.bytes && |now| <= budget.pages)
    ensures TooMuchUntil(pages, queue, k + 1, budget)
  {
  }

  /** Exactly as many of the queue are dropped as the budgets demand. */
  ghost predicate StopsAt(pages: map<string, CachedPage>, queue: seq<string>, k: nat, budget: Budget) {
    && k <= |queue| && TooMuchUntil(pages, queue, k, budget)
    && (k == |queue| || IsWithin(Dropped(pages, queue, k), budget))
  }

  ghost predicate IsPruned(before: map<string, CachedPage>, after: map<string, CachedPage>, budget: Budget) {
    exists queue: seq<string>, k: nat :: IsQueue(before, queue) && StopsAt(before, queue, k, budget) && after == Dropped(before, queue, k)
  }

  function Urls(pages: map<string, CachedPage>): set<nat> {
    set h | h in pages :: pages[h].url
  }

  ghost predicate Prunes(before: State, after: State, budget: Budget) {
    && IsPruned(before.pages, after.pages, budget)
    && after == before.(pages := after.pages, revoked := before.revoked + (Urls(before.pages) - Urls(after.pages)))
  }

  predicate Conflicts(st: State, page: PreviewPage) {
    page.pageHash in st.pages && st.pages[page.pageHash].page != page
  }

  function Taken(st: State, page: PreviewPage): State {
    var known := page.pageHash in st.pages;
    var entry := if known then st.pages[page.pageHash] else CachedPage(page, st.nextUrl, Bytes(page.svg), 0, 0);
    st.(pages := st.pages[page.pageHash := entry.(users := entry.users + 1, lastUse := st.clock + 1)],
        clock := st.clock + 1,
        nextUrl := if known then st.nextUrl else st.nextUrl + 1,
        leases := st.leases[st.nextLease := Lease(page.pageHash, entry.url, st.era)],
        nextLease := st.nextLease + 1)
  }

  /** The entry of a lease, if it is still the cached one. */
  predicate IsAttached(st: State, lease: Lease) {
    lease.pageHash in st.pages && st.pages[lease.pageHash].url == lease.url
  }

  function Given(st: State, id: nat): State
    requires id in st.leases
  {
    var lease := st.leases[id];
    var rest := st.(leases := st.leases - {id});
    if IsAttached(st, lease) && st.pages[lease.pageHash].users > 0 then
      var entry := st.pages[lease.pageHash];
      rest.(pages := st.pages[lease.pageHash := entry.(users := entry.users - 1)])
    else rest
  }

  function Disposed(st: State): State {
    st.(pages := map[], revoked := st.revoked + Urls(st.pages), era := st.era + 1)
  }

  // ---- Sums over the cache ----

  lemma {:induction false} TotalWithout(pages: map<string, CachedPage>, h: string)
    requires h in pages
    ensures TotalBytes(pages) == pages[h].bytes + TotalBytes(pages - {h})
    decreases |pages|
  {
    var c :| c in pages && TotalBytes(pages) == pages[c].bytes + TotalBytes(pages - {c});
    if c != h {
      TotalWithout(pages - {c}, h);
      TotalWithout(pages - {h}, c);
      assert pages - {c} - {h} == pages - {h} - {c};
    }
  }

  lemma DroppedNext(pages: map<string, CachedPage>, queue: seq<string>, k: nat)
    requires IsQueue(pages, queue) && k < |queue|
    ensures queue[k] in Dropped(pages, queue, k)
    ensures Dropped(pages, queue, k + 1) == Dropped(pages, queue, k) - {queue[k]}
    ensures |Dropped(pages, queue, k + 1)| == |Dropped(pages, queue, k)| - 1
    ensures TotalBytes(Dropped(pages, queue, k + 1)) == TotalBytes(Dropped(pages, queue, k)) - pages[queue[k]].bytes
  {
    var now := Dropped(pages, queue, k);
    assert queue[..k + 1] == queue[..k] + [queue[k]];
    assert queue[k] in queue;
    assert Dropped(pages, queue, k + 1) == now - {queue[k]};
    assert (now - {queue[k]}).Keys == now.Keys - {queue[k]};
    TotalWithout(now, queue[k]);
  }

  lemma DroppedNone(pages: map<string, CachedPage>, queue: seq<string>, k: nat)
    requires k == 0
    ensures Dropped(pages, queue, k) == pages
  {
    assert (set h | h in queue[..k]) == {};
  }

  /** The pruning loop after k pages: what is left, its size, and which URLs are revoked. */
  ghost predicate IsUnderway(before: State, queue: seq<string>, k: nat, budget: Budget,
                             pages: map<string, CachedPage>, bytes: nat, revoked: set<nat>)
  {
    && k <= |queue| && IsQueue(before.pages, queue)
    && pages == Dropped(before.pages, queue, k) && bytes == TotalBytes(pages)
    && TooMuchUntil(before.pages, queue, k, budget)
    && revoked == before.revoked + (Urls(before.pages) - Urls(pages))
  }

  lemma PruneStarts(before: State, queue: seq<string>, budget: Budget)
    requires IsQueue(before.pages, queue)
    ensures IsUnderway(before, queue, 0, budget, before.pages, TotalBytes(before.pages), before.revoked)
  {
    DroppedNone(before.pages, queue, 0);
  }

  lemma PruneStep(before: State, queue: seq<string>, k: nat, budget: Budget,
                  pages: map<string, CachedPage>, bytes: nat, revoked: set<nat>)
    requires IsUnderway(before, queue, k, budget, pages, bytes, revoked) && k < |queue| && UrlsAreDistinct(before.pages)
    requires !(bytes <= budget.bytes && |pages| <= budget.pages)
    ensures queue[k] in pages && pages[queue[k]].bytes <= bytes
    ensures IsUnderway(before, queue, k + 1, budget, pages - {queue[k]}, bytes - pages[queue[k]].bytes,
                       revoked + {pages[queue[k]].url})
  {
    TooMuchStill(before.pages, queue, k, budget);
    DroppedNext(before.pages, queue, k);
    UrlsWithout(before.pages, pages, queue[k]);
  }

  lemma PruneEnds(before: State, queue: seq<string>, k: nat, budget: Budget,
                  pages: map<string, CachedPage>, bytes: nat, revoked: set<nat>)
    requires IsUnderway(before, queue, k, budget, pages, bytes, revoked)
    requires k == |queue| || (bytes <= budget.bytes && |pages| <= budget.pages)
    ensures Prunes(before, before.(pages := pages, revoked := revoked), budget)
  {
    assert StopsAt(before.pages, queue, k, budget);
  }

  predicate UrlsAreDistinct(pages: map<string, CachedPage>) {
    forall h, g :: h in pages && g in pages && h != g ==> pages[h].url != pages[g].url
  }

  /** Walks the queue, revoking and deleting page by page, until both budgets hold. */
  method Evict(st: State, budget: Budget, queue: seq<string>, total: nat)
    returns (pages: map<string, CachedPage>, revoked: set<nat>)
    requires IsQueue(st.pages, queue) && total == TotalBytes(st.pages) && UrlsAreDistinct(st.pages)
    ensures Prunes(st, st.(pages := pages, revoked := revoked), budget)
  {
    pages, revoked := st.pages, st.revoked;
    var bytes: nat, k: nat := total, 0;
    PruneStarts(st, queue, budget);
    while k < |queue| && !(bytes <= budget.bytes && |pages| <= budget.pages)
      invariant k <= |queue| && IsUnderway(st, queue, k, budget, pages, bytes, revoked)
    {
      PruneStep(st, queue, k, budget, pages, bytes, revoked);
      var page := pages[queue[k]];
      revoked := revoked + {page.url};
      pages := pages - {queue[k]};
      bytes := bytes - page.bytes;
      k := k + 1;
    }
    PruneEnds(st, queue, k, budget, pages, bytes, revoked);
  }

  // ---- The cache ----

  class EnginePageCache {
    const budget: Budget
    var pages: map<string, CachedPage>
    var clock: nat
    var nextUrl: nat
    var revoked: set<nat>
    var leases: map<nat, Lease>
    var nextLease: nat
    var era: nat

    constructor (byteBudget: nat, pageBudget: nat)
      ensures Now() == START && budget == Budget(byteBudget, pageBudget)
    {
      budget := Budget(byteBudget, pageBudget);
      pages, clock, nextUrl, revoked, leases, nextLease, era := map[], 0, 0, {}, map[], 0, 0;
    }

    function Now(): State
      reads this
    {
      State(pages, clock, nextUrl, revoked, leases, nextLease, era)
    }

    method SumBytes() returns (bytes: nat)
      ensures bytes == TotalBytes(pages)
    {
      bytes := 0;
      var rest := pages;
      while rest != map[]
        invariant bytes + TotalBytes(rest) == TotalBytes(pages)
        decreases |rest|
      {
        var h :| h in rest;
        TotalWithout(rest, h);
        assert (rest - {h}).Keys == rest.Keys - {h};
        bytes := bytes + rest[h].bytes;
        rest := rest - {h};
      }
    }

    /** The unleased pages by last use, found one after the other. */
    method Candidates() returns (queue: seq<string>)
      ensures IsQueue(pages, queue)
    {
      queue := [];
      var rest := set h | h in pages && pages[h].users == 0;
      while rest != {}
        invariant forall h :: h in rest ==> h in pages && pages[h].users == 0 && h !in queue
        invariant forall h :: h in pages && pages[h].users == 0 ==> h in rest || h in queue
        invariant forall h :: h in queue ==> h in pages && pages[h].users == 0
        invariant forall i, j :: 0 <= i < j < |queue| ==>
                    queue[i] != queue[j] && pages[queue[i]].lastUse <= pages[queue[j]].lastUse
        invariant forall i, h :: 0 <= i < |queue| && h in rest ==> pages[queue[i]].lastUse <= pages[h].lastUse
        decreases |rest|
      {
        var oldest := Oldest(rest);
        queue := queue + [oldest];
        rest := rest - {oldest};
      }
    }

    method Oldest(among: set<string>) returns (oldest: string)
      requires among != {} && forall h :: h in among ==> h in pages
      ensures oldest in among && forall h :: h in among ==> pages[oldest].lastUse <= pages[h].lastUse
    {
      oldest :| oldest in among;
      var rest := among - {oldest};
      while rest != {}
        invariant oldest in among && rest <= among
        invariant forall h :: h in among - rest ==> pages[oldest].lastUse <= pages[h].lastUse
        decreases |rest|
      {
        var h :| h in rest;
        if pages[h].lastUse < pages[oldest].lastUse {
          oldest := h;
        }
        rest := rest - {h};
      }
      assert among - rest == among;
    }

    method Prune()
      requires UrlsAreDistinct(pages)
      modifies this`pages, this`revoked
      ensures Prunes(old(Now()), Now(), budget)
    {
      var queue := Candidates();
      var bytes := SumBytes();
      pages, revoked := Evict(Now(), budget, queue, bytes);
    }

    method Take(page: PreviewPage) returns (lease: nat)
      requires !Conflicts(Now(), page)
      modifies this
      ensures Now() == Taken(old(Now()), page) && lease == old(nextLease)
    {
      var entry := CachedPage(page, nextUrl, Bytes(page.svg), 0, 0);
      if page.pageHash in pages {
        entry := pages[page.pageHash];
      } else {
        nextUrl := nextUrl + 1;
      }
      clock := clock + 1;
      pages := pages[page.pageHash := entry.(users := entry.users + 1, lastUse := clock)];
      leases := leases[nextLease := Lease(page.pageHash, entry.url, era)];
      lease := nextLease;
      nextLease := nextLease + 1;
    }

    /** None when the page's hash is taken by different contents; the cache is unchanged then. */
    method Acquire(page: PreviewPage) returns (lease: Option<nat>)
      requires IsConsistent(Now())
      modifies this
      ensures if Conflicts(old(Now()), page) then lease == None && Now() == old(Now())
              else lease == Some(old(nextLease)) && Prunes(Taken(old(Now()), page), Now(), budget)
    {
      if page.pageHash in pages && pages[page.pageHash].page != page {
        return None;
      }
      TakenKeeps(Now(), page);
      var id := Take(page);
      Prune();
      return Some(id);
    }

    /** The second release of a lease does nothing. */
    method Release(lease: nat)
      requires IsConsistent(Now())
      modifies this
      ensures if lease !in old(leases) then Now() == old(Now()) else Prunes(Given(old(Now()), lease), Now(), budget)
    {
      if lease !in leases {
        return;
      }
      var l := leases[lease];
      if IsAttached(Now(), l) && pages[l.pageHash].users > 0 {
        pages := pages[l.pageHash := pages[l.pageHash].(users := pages[l.pageHash].users - 1)];
      }
      leases := leases - {lease};
      Prune();
    }

    method Dispose()
      modifies this
      ensures Now() == Disposed(old(Now()))
    {
      revoked := revoked + Urls(pages);
      pages := map[];
      era := era + 1;
    }
  }

  lemma UrlsWithout(before: map<string, CachedPage>, pages: map<string, CachedPage>, h: string)
    requires h in pages && forall g :: g in pages ==> g in before && before[g] == pages[g]
    requires UrlsAreDistinct(before)
    ensures Urls(before) - Urls(pages - {h}) == (Urls(before) - Urls(pages)) + {pages[h].url}
  {
    forall u ensures u in Urls(pages - {h}) <==> u in Urls(pages) && u != pages[h].url {
      if u in Urls(pages) && u != pages[h].url {
        var g :| g in pages && pages[g].url == u;
        assert g in pages - {h};
      }
    }
    assert pages[h].url in Urls(before);
  }

  // ---- Invariants ----

  ghost function LeasesOf(leases: map<nat, Lease>, era: nat, h: string): set<nat> {
    set id | id in leases && leases[id].pageHash == h && leases[id].era == era
  }

  lemma LeasesAfterTake(leases: map<nat, Lease>, era: nat, h: string, id: nat, lease: Lease)
    requires id !in leases && lease.era == era
    ensures LeasesOf(leases[id := lease], era, h) == LeasesOf(leases, era, h) + if lease.pageHash == h then {id} else {}
    ensures id !in LeasesOf(leases, era, h)
  {
  }

  lemma LeasesAfterGive(leases: map<nat, Lease>, era: nat, h: string, id: nat)
    requires id in leases
    ensures LeasesOf(leases - {id}, era, h) == LeasesOf(leases, era, h) - {id}
    ensures id in LeasesOf(leases, era, h) <==> leases[id].pageHash == h && leases[id].era == era
  {
  }

  /** Each page's user count is the number of its leases not released. */
  ghost predicate CountsLeases(st: State) {
    forall h :: h in st.pages ==> HasItsUsers(st, h)
  }

  /** A lease given since the last disposal has its page in the cache, under the same URL. */
  predicate PinsPages(st: State) {
    forall id :: id in st.leases && st.leases[id].era == st.era ==> IsAttached(st, st.leases[id])
  }

  /** A lease from before the last disposal has a URL that is revoked. */
  predicate OldLeasesAreOver(st: State) {
    forall id :: id in st.leases ==>
      st.leases[id].era <= st.era && (st.leases[id].era < st.era ==> st.leases[id].url in st.revoked)
  }

  /** Every URL ever created is either cached, once, or revoked. */
  ghost predicate UrlsAreAccounted(st: State) {
    && UrlsAreDistinct(st.pages)
    && (forall u: nat :: u < st.nextUrl <==> u in st.revoked || u in Urls(st.pages))
    && (forall h :: h in st.pages ==> st.pages[h].url !in st.revoked)
  }

  predicate UsesAreDistinct(st: State) {
    && (forall h :: h in st.pages ==> st.pages[h].lastUse <= st.clock && st.pages[h].page.pageHash == h
                                      && st.pages[h].bytes == Bytes(st.pages[h].page.svg))
    && (forall h, g :: h in st.pages && g in st.pages && h != g ==> st.pages[h].lastUse != st.pages[g].lastUse)
  }

  ghost predicate IsConsistent(st: State) {
    && CountsLeases(st) && PinsPages(st) && OldLeasesAreOver(st) && UrlsAreAccounted(st) && UsesAreDistinct(st)
    && forall id :: id in st.leases ==> id < st.nextLease
  }

  // ---- What pruning does ----

  /** After pruning both budgets hold, or only leased pages remain. */
  lemma BudgetsHoldOrAllAreLeased(before: map<string, CachedPage>, after: map<string, CachedPage>, budget: Budget)
    requires IsPruned(before, after, budget)
    ensures IsWithin(after, budget) || forall h :: h in after ==> after[h].users > 0
  {
    var queue: seq<string>, k: nat :| IsQueue(before, queue) && StopsAt(before, queue, k, budget) && after == Dropped(before, queue, k);
    if k == |queue| {
      assert queue[..k] == queue;
    }
  }

  /** Only unleased pages go, each used no later than every unleased page that stays. */
  lemma LeastRecentlyUsedGoFirst(before: map<string, CachedPage>, after: map<string, CachedPage>, budget: Budget)
    requires IsPruned(before, after, budget)
    ensures forall h :: h in after ==> h in before && after[h] == before[h]
    ensures forall h :: h in before && h !in after ==> before[h].users == 0
    ensures forall h, g :: h in before && h !in after && g in after && after[g].users == 0 ==> before[h].lastUse <= before[g].lastUse
  {
    var queue: seq<string>, k: nat :| IsQueue(before, queue) && StopsAt(before, queue, k, budget) && after == Dropped(before, queue, k);
    forall h | h in before && h !in after ensures before[h].users == 0 && h in queue[..k] {
      assert h in queue;
    }
    forall h, g | h in before && h !in after && g in after && after[g].users == 0
      ensures before[h].lastUse <= before[g].lastUse
    {
      var i :| 0 <= i < k && queue[i] == h;
      var j :| 0 <= j < |queue| && queue[j] == g;
      assert g !in queue[..k];
      assert forall m :: 0 <= m < k ==> queue[m] in queue[..k];
    }
  }

  /** With the page back, a budget would not hold. */
  ghost predicate HadToGo(before: map<string, CachedPage>, after: map<string, CachedPage>, h: string, budget: Budget) {
    h in before && h !in after && !IsWithin(after[h := before[h]], budget)
  }

  /** No page goes while both budgets hold, and pruning stops as soon as they do. */
  lemma NothingGoesWithoutNeed(before: map<string, CachedPage>, after: map<string, CachedPage>, budget: Budget)
    requires IsPruned(before, after, budget) && after != before
    ensures !IsWithin(before, budget)
    ensures exists h :: HadToGo(before, after, h, budget)
  {
    var queue: seq<string>, k: nat :| IsQueue(before, queue) && StopsAt(before, queue, k, budget) && after == Dropped(before, queue, k);
    if k == 0 {
      DroppedNone(before, queue, k);
    }
    DroppedNone(before, queue, 0);
    LastDropped(before, queue, k);
    assert HadToGo(before, after, queue[k - 1], budget);
  }

  lemma LastDropped(before: map<string, CachedPage>, queue: seq<string>, k: nat)
    requires IsQueue(before, queue) && 0 < k <= |queue|
    ensures var h := queue[k - 1];
            h in before && h !in Dropped(before, queue, k) && Dropped(before, queue, k)[h := before[h]] == Dropped(before, queue, k - 1)
  {
    DroppedNext(before, queue, k - 1);
    assert queue[k - 1] in queue;
    PutBack(Dropped(before, queue, k - 1), queue[k - 1]);
  }

  lemma PutBack(pages: map<string, CachedPage>, h: string)
    requires h in pages
    ensures (pages - {h})[h := pages[h]] == pages
  {
  }

  // ---- Every run ----

  lemma PruneKeeps(st: State, after: State, budget: Budget)
    requires IsConsistent(st) && Prunes(st, after, budget)
    ensures IsConsistent(after)
  {
    LeastRecentlyUsedGoFirst(st.pages, after.pages, budget);
    PrunedPins(st, after);
    PrunedUrls(st, after);
  }

  lemma PrunedPins(st: State, after: State)
    requires IsConsistent(st) && after == st.(pages := after.pages, revoked := after.revoked)
    requires forall h :: h in after.pages ==> h in st.pages && after.pages[h] == st.pages[h]
    requires forall h :: h in st.pages && h !in after.pages ==> st.pages[h].users == 0
    ensures PinsPages(after)
  {
    forall id | id in after.leases && after.leases[id].era == after.era ensures IsAttached(after, after.leases[id]) {
      var h := st.leases[id].pageHash;
      assert IsAttached(st, st.leases[id]) && HasItsUsers(st, h);
      assert id in LeasesOf(st.leases, st.era, h);
    }
  }

  lemma PrunedUrls(st: State, after: State)
    requires UrlsAreAccounted(st) && after == st.(pages := after.pages, revoked := st.revoked + (Urls(st.pages) - Urls(after.pages)))
    requires forall h :: h in after.pages ==> h in st.pages && after.pages[h] == st.pages[h]
    ensures UrlsAreAccounted(after)
  {
    forall u: nat | u in Urls(after.pages) ensures u in Urls(st.pages) {
      var h :| h in after.pages && after.pages[h].url == u;
    }
    forall h | h in after.pages ensures after.pages[h].url !in after.revoked {
      assert after.pages[h].url in Urls(after.pages);
    }
  }

  lemma TakenKeeps(st: State, page: PreviewPage)
    requires IsConsistent(st) && !Conflicts(st, page)
    ensures IsConsistent(Taken(st, page))
  {
    TakenCounts(st, page);
    TakenUrls(st, page);
    TakenUses(st, page);
    TakenPins(st, page);
  }

  lemma TakenUses(st: State, page: PreviewPage)
    requires IsConsistent(st) && !Conflicts(st, page)
    ensures UsesAreDistinct(Taken(st, page)) && OldLeasesAreOver(Taken(st, page))
  {
  }

  lemma TakenPins(st: State, page: PreviewPage)
    requires IsConsistent(st) && !Conflicts(st, page)
    ensures PinsPages(Taken(st, page))
  {
    var after := Taken(st, page);
    forall id | id in after.leases && after.leases[id].era == after.era ensures IsAttached(after, after.leases[id]) {
      if id != st.nextLease {
        assert IsAttached(st, st.leases[id]);
      }
    }
  }

  lemma TakenCounts(st: State, page: PreviewPage)
    requires IsConsistent(st) && !Conflicts(st, page)
    ensures CountsLeases(Taken(st, page))
  {
    forall h | h in Taken(st, page).pages ensures HasItsUsers(Taken(st, page), h) {
      TakenCount(st, page, h);
    }
  }

  ghost predicate HasItsUsers(st: State, h: string)
    requires h in st.pages
  {
    st.pages[h].users == |LeasesOf(st.leases, st.era, h)|
  }

  lemma TakenCount(st: State, page: PreviewPage, h: string)
    requires IsConsistent(st) && !Conflicts(st, page) && h in Taken(st, page).pages
    ensures HasItsUsers(Taken(st, page), h)
  {
    var lease := Taken(st, page).leases[st.nextLease];
    LeasesAfterTake(st.leases, st.era, h, st.nextLease, lease);
    if h in st.pages {
      assert HasItsUsers(st, h);
    } else {
      NoLeases(st, h);
    }
  }

  lemma NoLeases(st: State, h: string)
    requires PinsPages(st) && h !in st.pages
    ensures LeasesOf(st.leases, st.era, h) == {}
  {
    if id :| id in LeasesOf(st.leases, st.era, h) {
      assert IsAttached(st, st.leases[id]);
    }
  }

  lemma TakenUrls(st: State, page: PreviewPage)
    requires IsConsistent(st) && !Conflicts(st, page)
    ensures UrlsAreAccounted(Taken(st, page))
  {
    var h := page.pageHash;
    UrlsWith(st.pages, h, Taken(st, page).pages[h]);
    if h in st.pages {
      assert st.pages[h].url in Urls(st.pages);
    } else {
      NewUrl(st);
    }
  }

  lemma NewUrl(st: State)
    requires UrlsAreAccounted(st)
    ensures st.nextUrl !in st.revoked && st.nextUrl !in Urls(st.pages)
    ensures forall g :: g in st.pages ==> st.pages[g].url < st.nextUrl
  {
    forall g | g in st.pages ensures st.pages[g].url < st.nextUrl {
      assert st.pages[g].url in Urls(st.pages);
    }
  }

  lemma UrlsWith(pages: map<string, CachedPage>, h: string, page: CachedPage)
    requires h in pages ==> pages[h].url == page.url
    ensures Urls(pages[h := page]) == Urls(pages) + {page.url}
  {
    var after := pages[h := page];
    forall u ensures u in Urls(after) <==> u in Urls(pages) || u == page.url {
      if u in Urls(pages) {
        var g :| g in pages && pages[g].url == u;
        assert g in after && after[g].url == u;
      }
      assert h in after;
    }
  }

  lemma GivenKeeps(st: State, id: nat)
    requires IsConsistent(st) && id in st.leases
    ensures IsConsistent(Given(st, id))
  {
    GivenAttached(st, id);
    forall h | h in Given(st, id).pages ensures HasItsUsers(Given(st, id), h) {
      GivenCount(st, id, h);
    }
    GivenPins(st, id);
    SameUrls(st.pages, Given(st, id).pages);
  }

  /** A lease of this era has its page with at least one user; an older one has no page. */
  lemma GivenAttached(st: State, id: nat)
    requires IsConsistent(st) && id in st.leases
    ensures var lease := st.leases[id];
            IsAttached(st, lease) && st.pages[lease.pageHash].users > 0 <==> lease.era == st.era
    ensures IsAttached(st, st.leases[id]) <==> st.leases[id].era == st.era
  {
    var lease := st.leases[id];
    if lease.era == st.era {
      LeasesAfterGive(st.leases, st.era, lease.pageHash, id);
      assert IsAttached(st, lease) && HasItsUsers(st, lease.pageHash);
    }
  }

  lemma GivenCount(st: State, id: nat, h: string)
    requires IsConsistent(st) && id in st.leases && h in Given(st, id).pages
    ensures HasItsUsers(Given(st, id), h)
  {
    GivenAttached(st, id);
    LeasesAfterGive(st.leases, st.era, h, id);
    assert HasItsUsers(st, h);
  }

  lemma GivenPins(st: State, id: nat)
    requires IsConsistent(st) && id in st.leases
    ensures PinsPages(Given(st, id))
  {
    var after := Given(st, id);
    forall other | other in after.leases && after.leases[other].era == after.era ensures IsAttached(after, after.leases[other]) {
      assert IsAttached(st, st.leases[other]);
    }
  }

  lemma SameUrls(a: map<string, CachedPage>, b: map<string, CachedPage>)
    requires a.Keys == b.Keys && forall h :: h in a ==> a[h].url == b[h].url
    ensures Urls(a) == Urls(b)
  {
    forall u ensures u in Urls(a) <==> u in Urls(b) {
      if u in Urls(a) {
        var h :| h in a && a[h].url == u;
        assert h in b;
      }
      if u in Urls(b) {
        var h :| h in b && b[h].url == u;
        assert h in a;
      }
    }
  }

  lemma DisposedKeeps(st: State)
    requires IsConsistent(st)
    ensures IsConsistent(Disposed(st))
  {
    var after := Disposed(st);
    assert Urls(after.pages) == {};
    forall id | id in after.leases ensures after.leases[id].url in after.revoked {
      if st.leases[id].era == st.era {
        assert IsAttached(st, st.leases[id]);
        assert st.leases[id].url in Urls(st.pages);
      }
    }
    forall u: nat ensures u < after.nextUrl <==> u in after.revoked {
      assert u < st.nextUrl <==> u in st.revoked || u in Urls(st.pages);
    }
  }

  datatype Action = DoAcquire(page: PreviewPage) | DoRelease(lease: nat) | DoDispose

  ghost predicate Next(st: State, a: Action, after: State, budget: Budget) {
    match a
    case DoAcquire(page) => if Conflicts(st, page) then after == st else Prunes(Taken(st, page), after, budget)
    case DoRelease(id) => if id in st.leases then Prunes(Given(st, id), after, budget) else after == st
    case DoDispose => after == Disposed(st)
  }

  lemma StepKeeps(st: State, a: Action, after: State, budget: Budget)
    requires IsConsistent(st) && Next(st, a, after, budget)
    ensures IsConsistent(after)
  {
    match a
    case DoAcquire(page) =>
      if !Conflicts(st, page) {
        TakenKeeps(st, page);
        PruneKeeps(Taken(st, page), after, budget);
      }
    case DoRelease(id) =>
      if id in st.leases {
        GivenKeeps(st, id);
        PruneKeeps(Given(st, id), after, budget);
      }
    case DoDispose => DisposedKeeps(st);
  }

  ghost predicate Reaches(actions: seq<Action>, st: State, budget: Budget)
    decreases |actions|
  {
    if actions == [] then st == START
    else
      var init, last := actions[..|actions| - 1], actions[|actions| - 1];
      exists m :: Reaches(init, m, budget) && Next(m, last, st, budget)
  }

  /** Over every run of acquire, release and dispose the counts are right and leased URLs are alive. */
  lemma {:induction false} EveryRunIsConsistent(actions: seq<Action>, st: State, budget: Budget)
    requires Reaches(actions, st, budget)
    ensures IsConsistent(st)
    decreases |actions|
  {
    if actions == [] {
      assert Urls(map[]) == {};
    } else {
      var init, last := actions[..|actions| - 1], actions[|actions| - 1];
      var m :| Reaches(init, m, budget) && Next(m, last, st, budget);
      EveryRunIsConsistent(init, m, budget);
      StepKeeps(m, last, st, budget);
    }
  }

  /** A lease not released has a URL that is not revoked, exactly until the cache is disposed of. */
  lemma LeasedUrlIsAlive(actions: seq<Action>, st: State, budget: Budget, id: nat)
    requires Reaches(actions, st, budget) && id in st.leases
    ensures st.leases[id].url in st.revoked <==> st.leases[id].era != st.era
  {
    EveryRunIsConsistent(actions, st, budget);
    if st.leases[id].era == st.era {
      assert IsAttached(st, st.leases[id]);
    }
  }
}
