/** The newest messages of a folder, page by page: the server's own sorting against fetching all. */
module ImapPages {
  import opened Ordering
  import opened ImapLimits

  datatype Header = Header(uid: nat, received: int)

  /** Newest first, ties by descending UID: `sortMessagesByReceived`. */
  predicate Newer(a: Header, b: Header) {
    a.received > b.received || (a.received == b.received && a.uid >= b.uid)
  }

  /** Newest first as `SORT (REVERSE ARRIVAL)` has it: ties stay in ascending order of sequence
      numbers, hence of UIDs (section 3 of RFC 5256). */
  predicate ServerNewer(a: Header, b: Header) {
    a.received > b.received || (a.received == b.received && a.uid <= b.uid)
  }

  predicate LowerUid(a: nat, b: nat) {
    a <= b
  }

  ghost predicate DistinctUids(folder: seq<Header>) {
    forall i, j | 0 <= i < j < |folder| :: folder[i].uid != folder[j].uid
  }

  ghost predicate DistinctArrivals(folder: seq<Header>) {
    forall i, j | 0 <= i < j < |folder| :: folder[i].received != folder[j].received
  }

  /** What a FETCH of those UIDs lists. */
  function Pick(folder: seq<Header>, uids: seq<nat>): seq<Header> {
    if folder == [] then []
    else (if folder[0].uid in uids then [folder[0]] else []) + Pick(folder[1..], uids)
  }

  function Uids(headers: seq<Header>): seq<nat> {
    seq(|headers|, i requires 0 <= i < |headers| => headers[i].uid)
  }

  /** The part of a list that a page covers. */
  function Window<T>(s: seq<T>, skip: nat, limit: nat): seq<T> {
    if skip >= |s| then [] else if skip + limit > |s| then s[skip..] else s[skip..skip + limit]
  }

  // ---- fetching in chunks ----

  lemma {:induction false} PickSplit(folder: seq<Header>, a: seq<nat>, b: seq<nat>)
    requires forall u | u in a :: u !in b
    ensures multiset(Pick(folder, a + b)) == multiset(Pick(folder, a)) + multiset(Pick(folder, b))
  {
    if folder != [] {
      PickSplit(folder[1..], a, b);
      assert folder[0].uid in a + b <==> folder[0].uid in a || folder[0].uid in b;
    }
  }

  lemma {:induction false} PickNone(folder: seq<Header>)
    ensures Pick(folder, []) == []
  {
    if folder != [] {
      PickNone(folder[1..]);
    }
  }

  lemma ChunkAdds(folder: seq<Header>, uids: seq<nat>, messages: seq<Header>, start: nat, end: nat)
    requires NoDuplicates(uids) && start <= end <= |uids|
    requires multiset(messages) == multiset(Pick(folder, uids[..start]))
    ensures multiset(messages + Pick(folder, uids[start..end])) == multiset(Pick(folder, uids[..end]))
  {
    hide Pick;
    PickSplit(folder, uids[..start], uids[start..end]);
    assert uids[..start] + uids[start..end] == uids[..end];
  }

  /** Of the commands from `a` on, before `b`, none failed. */
  ghost predicate AllWell(fails: nat -> bool, a: nat, b: nat) {
    forall k | a <= k < b :: !fails(k)
  }

  /** `fetchHeaderMessagesChunkedWithClient`, on a folder that does not change meanwhile; its fetches
      are the commands from `first` on, and the first that fails ends it. */
  method FetchChunked(folder: seq<Header>, uids: seq<nat>, fails: nat -> bool, first: nat)
    returns (ok: bool, messages: seq<Header>, next: nat)
    requires NoDuplicates(uids)
    ensures first <= next && (ok <==> AllWell(fails, first, next))
    ensures if ok then multiset(messages) == multiset(Pick(folder, uids)) else messages == []
    ensures ok ==> 128 * (next - first - 1) < |uids| <= 128 * (next - first)
  {
    hide Pick, NoDuplicates;
    ok, messages, next := true, [], first;
    var start := 0;
    ghost var done := 0;
    PickNone(folder);
    while start < |uids|
      invariant done == if start < |uids| then start else |uids|
      invariant multiset(messages) == multiset(Pick(folder, uids[..done]))
      invariant ok && first <= next && AllWell(fails, first, next)
      invariant start < |uids| + 128 && start == 128 * (next - first)
    {
      next := next + 1;
      if fails(next - 1) {
        return false, [], next;
      }
      var end := if start + HEADER_FETCH_BATCH_SIZE > |uids| then |uids| else start + HEADER_FETCH_BATCH_SIZE;
      var chunk := uids[start..end];
      ChunkAdds(folder, uids, messages, start, end);
      messages := messages + Pick(folder, chunk);
      done := end;
      start := start + HEADER_FETCH_BATCH_SIZE;
    }
    assert uids[..done] == uids;
  }

  lemma {:induction false} PickAll(folder: seq<Header>, uids: seq<nat>)
    requires forall h | h in folder :: h.uid in uids
    ensures Pick(folder, uids) == folder
  {
    if folder != [] {
      PickAll(folder[1..], uids);
    }
  }

  lemma {:induction false} PickIsOf(folder: seq<Header>, uids: seq<nat>)
    ensures forall h :: h in Pick(folder, uids) <==> h in folder && h.uid in uids
    ensures DistinctUids(folder) ==> DistinctUids(Pick(folder, uids))
  {
    if folder != [] {
      PickIsOf(folder[1..], uids);
      assert folder == [folder[0]] + folder[1..];
      assert forall h | h in folder[1..] :: h in folder;
      if DistinctUids(folder) {
        assert forall i | 0 <= i < |folder[1..]| :: folder[1..][i].uid != folder[0].uid;
      }
    }
  }

  // ---- the two paths ----

  /** The whole folder, newest first, with the client's and with the server's ties. */
  function ByClient(folder: seq<Header>): seq<Header> {
    Sort(folder, Newer)
  }

  function ByServer(folder: seq<Header>): seq<Header> {
    Sort(folder, ServerNewer)
  }

  lemma OrdersAreTotal()
    ensures TotalPreorder(Newer) && TotalPreorder(ServerNewer) && TotalPreorder(LowerUid)
  {
  }

  /** Any arrangement of the same headers sorts to the same list. */
  lemma SortIsCanonical(a: seq<Header>, b: seq<Header>)
    requires multiset(a) == multiset(b)
    ensures ByClient(a) == ByClient(b)
  {
    OrdersAreTotal();
    SortSorts(a, Newer);
    SortSorts(b, Newer);
    SortedUnique(ByClient(a), ByClient(b), Newer);
  }

  lemma SortedFolder(folder: seq<Header>, le: (Header, Header) -> bool)
    requires TotalPreorder(le) && DistinctUids(folder)
    ensures DistinctUids(Sort(folder, le))
  {
    var s := Sort(folder, le);
    SortSorts(folder, le);
    SortKeepsDistinct(folder, le);
    forall i, j | 0 <= i < j < |s| ensures s[i].uid != s[j].uid {
      if s[i].uid == s[j].uid {
        SameUid(folder, s[i], s[j]);
      }
    }
  }

  /** The page that the server path returns. */
  function ServerPage(folder: seq<Header>, skip: nat, limit: nat): seq<Header> {
    ByClient(Window(ByServer(folder), skip, limit))
  }

  /** The page that the fallback returns. */
  function ClientPage(folder: seq<Header>, skip: nat, limit: nat): seq<Header> {
    Window(ByClient(folder), skip, limit)
  }

  /** `latestMessagesInFolderViaGoIMAP`, on a folder that does not change meanwhile. Its commands are
      the connection, the SELECT, the question whether the server sorts, the SORT or SEARCH, and the
      fetches; the first that fails ends it without a page. */
  method LatestMessages(folder: seq<Header>, serverSorts: bool, fails: nat -> bool, skip: nat, limit: nat)
    returns (ok: bool, page: seq<Header>, commands: nat)
    requires DistinctUids(folder)
    ensures ok <==> AllWell(fails, 0, commands)
    ensures ok ==> page == if serverSorts then ServerPage(folder, skip, limit) else ClientPage(folder, skip, limit)
    ensures !ok ==> page == []
    ensures ok ==> Paged(page, |folder|, skip, limit)
  {
    hide Paged, Newer, ServerNewer, Pick, Sort, ByClient, ByServer;
    PagesMean(folder, skip, limit);
    ok, page, commands := false, [], 1;
    if fails(0) {
      return;
    }
    commands := 2;
    if fails(1) {
      return;
    }
    commands := 3;
    if fails(2) {
      return;
    }
    commands := 4;
    if fails(3) {
      return;
    }
    ok := true;
    var ids := if serverSorts then Uids(ByServer(folder)) else Uids(folder);
    LengthsAgree(folder);
    if |ids| == 0 {
      return;
    }
    if serverSorts {
      if skip >= |ids| {
        return;
      }
      var end := if skip + limit > |ids| then |ids| else skip + limit;
      ok, page, commands := SelectedPage(folder, ids, fails, skip, end);
      if ok {
        SelectedIsWindow(folder, skip, limit, page);
      }
      return;
    }
    ok, page, commands := FallbackPage(folder, ids, fails, skip, limit);
  }

  /** The whole folder, fetched and sorted, and the page cut out of it. */
  method FallbackPage(folder: seq<Header>, ids: seq<nat>, fails: nat -> bool, skip: nat, limit: nat)
    returns (ok: bool, page: seq<Header>, next: nat)
    requires DistinctUids(folder) && ids == Uids(folder)
    ensures 4 <= next && (ok <==> AllWell(fails, 4, next))
    ensures page == if ok then ClientPage(folder, skip, limit) else []
  {
    hide Newer, Pick, Sort;
    ok, page, next := FetchChunked(folder, ids, fails, 4);
    if !ok {
      return;
    }
    assert forall i | 0 <= i < |folder| :: ids[i] == folder[i].uid;
    PickAll(folder, ids);
    SortIsCanonical(page, folder);
    page := Sort(page, Newer);
    if skip >= |page| {
      page := [];
      return;
    }
    var end := if skip + limit > |page| then |page| else skip + limit;
    page := page[skip..end];
  }

  lemma PagesMean(folder: seq<Header>, skip: nat, limit: nat)
    requires DistinctUids(folder)
    ensures Paged(ServerPage(folder, skip, limit), |folder|, skip, limit)
    ensures Paged(ClientPage(folder, skip, limit), |folder|, skip, limit)
  {
    hide Newer, ServerNewer, Sort, Paged;
    OrdersAreTotal();
    LengthsAgree(folder);
    SortedFolder(folder, Newer);
    SortedFolder(folder, ServerNewer);
    SortSorts(folder, Newer);
    WindowIsPart(ByServer(folder), skip, limit);
    WindowIsPart(ByClient(folder), skip, limit);
    var w := Window(ByServer(folder), skip, limit);
    SortSorts(w, Newer);
    SortedFolder(w, Newer);
    WindowIsSorted(ByClient(folder), skip, limit);
    SortedIsPaged(ServerPage(folder, skip, limit), |folder|, skip, limit);
    SortedIsPaged(ClientPage(folder, skip, limit), |folder|, skip, limit);
  }

  lemma WindowIsPart(s: seq<Header>, skip: nat, limit: nat)
    requires DistinctUids(s)
    ensures var w := Window(s, skip, limit);
      && DistinctUids(w)
      && |w| == if skip >= |s| then 0 else if skip + limit > |s| then |s| - skip else limit
  {
  }

  lemma SortedIsPaged(page: seq<Header>, size: nat, skip: nat, limit: nat)
    requires SortedBy(page, Newer) && DistinctUids(page)
    requires |page| == if skip >= size then 0 else if skip + limit > size then size - skip else limit
    ensures Paged(page, size, skip, limit)
  {
    forall i, j | 0 <= i < j < |page| ensures page[i].received > page[j].received
      || (page[i].received == page[j].received && page[i].uid > page[j].uid) {
      assert Newer(page[i], page[j]);
    }
  }

  /** A page: newest first, ties by descending UID, of the length that `skip` and `limit` leave. */
  ghost predicate Paged(page: seq<Header>, size: nat, skip: nat, limit: nat) {
    && (forall i, j | 0 <= i < j < |page| ::
          page[i].received > page[j].received || (page[i].received == page[j].received && page[i].uid > page[j].uid))
    && |page| == if skip >= size then 0 else if skip + limit > size then size - skip else limit
  }

  /** The first page of the fallback: what is left out is no newer than anything on it. */
  lemma FirstPageIsNewest(folder: seq<Header>, limit: nat, h: Header, p: Header)
    requires h in folder && h !in ClientPage(folder, 0, limit) && p in ClientPage(folder, 0, limit)
    ensures p.received > h.received || (p.received == h.received && p.uid >= h.uid)
  {
    OrdersAreTotal();
    SortSorts(folder, Newer);
    var s := ByClient(folder);
    var i :| 0 <= i < |s| && s[i] == h;
    var page := ClientPage(folder, 0, limit);
    var j :| 0 <= j < |page| && page[j] == p;
    assert forall k | 0 <= k < |page| :: page[k] == s[k];
    assert i >= |page|;
    assert Newer(s[j], s[i]);
  }

  /** `page` holds the messages of those UIDs, newest first. */
  ghost predicate FetchedPage(folder: seq<Header>, uids: seq<nat>, page: seq<Header>) {
    exists selected ::
      && (forall u :: u in selected <==> u in uids)
      && page == ByClient(Pick(folder, selected))
  }

  /** The messages of the selected UIDs, fetched in ascending order and sorted. */
  method SelectedPage(folder: seq<Header>, ids: seq<nat>, fails: nat -> bool, skip: nat, end: nat)
    returns (ok: bool, page: seq<Header>, next: nat)
    requires DistinctUids(folder) && ids == Uids(ByServer(folder)) && skip <= end <= |ids|
    ensures 4 <= next && (ok <==> AllWell(fails, 4, next))
    ensures if ok then FetchedPage(folder, ids[skip..end], page) else page == []
  {
    hide Newer, ServerNewer, Pick, Sort;
    SelectedFacts(folder, ids, skip, end);
    var selected := Sort(ids[skip..end], LowerUid);
    ok, page, next := FetchChunked(folder, selected, fails, 4);
    if !ok {
      return;
    }
    SortIsCanonical(page, Pick(folder, selected));
    page := Sort(page, Newer);
  }

  lemma SelectedIsWindow(folder: seq<Header>, skip: nat, limit: nat, page: seq<Header>)
    requires DistinctUids(folder)
    requires FetchedPage(folder, Window(Uids(ByServer(folder)), skip, limit), page)
    ensures page == ServerPage(folder, skip, limit)
  {
    hide Newer, ServerNewer, Pick, Sort;
    var selected :| (forall u :: u in selected <==> u in Window(Uids(ByServer(folder)), skip, limit))
      && page == ByClient(Pick(folder, selected));
    WindowIsPicked(folder, skip, limit, selected);
    SortIsCanonical(Pick(folder, selected), Window(ByServer(folder), skip, limit));
  }

  lemma LengthsAgree(folder: seq<Header>)
    ensures |ByServer(folder)| == |ByClient(folder)| == |folder|
    ensures ByClient([]) == []
  {
    OrdersAreTotal();
    SortSorts(folder, ServerNewer);
    SortSorts(folder, Newer);
  }

  lemma SelectedFacts(folder: seq<Header>, ids: seq<nat>, skip: nat, end: nat)
    requires DistinctUids(folder) && ids == Uids(ByServer(folder)) && skip <= end <= |ids|
    ensures var s := Sort(ids[skip..end], LowerUid);
      NoDuplicates(s) && forall u :: u in s <==> u in ids[skip..end]
  {
    OrdersAreTotal();
    SortedFolder(folder, ServerNewer);
    SortSorts(ids[skip..end], LowerUid);
    SortKeepsDistinct(ids[skip..end], LowerUid);
  }

  lemma WindowIsPicked(folder: seq<Header>, skip: nat, limit: nat, selected: seq<nat>)
    requires DistinctUids(folder)
    requires forall u :: u in selected <==> u in Window(Uids(ByServer(folder)), skip, limit)
    ensures multiset(Pick(folder, selected)) == multiset(Window(ByServer(folder), skip, limit))
  {
    hide Newer, ServerNewer, Pick, Sort;
    OrdersAreTotal();
    var all := ByServer(folder);
    var w := Window(all, skip, limit);
    SortSorts(folder, ServerNewer);
    SortedFolder(folder, ServerNewer);
    PickIsOf(folder, selected);
    assert Window(Uids(all), skip, limit) == Uids(w);
    forall h ensures h in Pick(folder, selected) <==> h in w {
      if h in folder && h.uid in selected {
        var i :| 0 <= i < |w| && Uids(w)[i] == h.uid;
        SameUid(all, w[i], h);
      }
      if h in w {
        var i :| 0 <= i < |w| && w[i] == h;
        assert Uids(w)[i] == h.uid;
      }
    }
    SameElements(Pick(folder, selected), w);
  }

  lemma SameUid(s: seq<Header>, a: Header, b: Header)
    requires DistinctUids(s) && a in s && b in s && a.uid == b.uid
    ensures a == b
  {
  }

  // ---- when the paths agree ----

  lemma SortedIsItself(s: seq<Header>)
    requires SortedBy(s, Newer)
    ensures ByClient(s) == s
  {
    OrdersAreTotal();
    SortSorts(s, Newer);
    SortedUnique(ByClient(s), s, Newer);
  }

  /** The server path and the fallback give the same page for every skip and limit if and only if no
      two messages arrived at the same time. */
  lemma PathsAgree(folder: seq<Header>)
    requires DistinctUids(folder)
    ensures (forall skip: nat, limit: nat :: ServerPage(folder, skip, limit) == ClientPage(folder, skip, limit))
      <==> DistinctArrivals(folder)
  {
    hide Newer, ServerNewer, Sort, ByServer, ByClient, ServerPage, ClientPage;
    if DistinctArrivals(folder) {
      forall skip: nat, limit: nat ensures ServerPage(folder, skip, limit) == ClientPage(folder, skip, limit) {
        SamePage(folder, skip, limit);
      }
    }
    if forall skip: nat, limit: nat :: ServerPage(folder, skip, limit) == ClientPage(folder, skip, limit) {
      PagesOfOne(folder);
      SameOrderMeansNoTies(folder);
    }
  }

  lemma SamePage(folder: seq<Header>, skip: nat, limit: nat)
    requires DistinctUids(folder) && DistinctArrivals(folder)
    ensures ServerPage(folder, skip, limit) == ClientPage(folder, skip, limit)
  {
    hide Sort;
    OrdersAreTotal();
    SortSorts(folder, Newer);
    SortSorts(folder, ServerNewer);
    NoTies(folder);
    SortedUnique(ByServer(folder), ByClient(folder), Newer);
    WindowIsSorted(ByServer(folder), skip, limit);
    SortedIsItself(Window(ByServer(folder), skip, limit));
  }

  lemma WindowIsSorted(s: seq<Header>, skip: nat, limit: nat)
    requires SortedBy(s, Newer)
    ensures SortedBy(Window(s, skip, limit), Newer)
  {
    hide Newer;
  }

  lemma NoTies(folder: seq<Header>)
    requires DistinctUids(folder) && DistinctArrivals(folder)
    ensures SortedBy(ByServer(folder), Newer)
  {
    OrdersAreTotal();
    var s := ByServer(folder);
    SortSorts(folder, ServerNewer);
    SortedFolder(folder, ServerNewer);
    forall i, j | 0 <= i < j < |s| ensures Newer(s[i], s[j]) {
      assert ServerNewer(s[i], s[j]) && s[i].uid != s[j].uid;
      assert s[i] in folder && s[j] in folder;
      var k :| 0 <= k < |folder| && folder[k] == s[i];
      var l :| 0 <= l < |folder| && folder[l] == s[j];
      assert k != l;
    }
  }

  lemma PagesOfOne(folder: seq<Header>)
    requires forall skip: nat, limit: nat :: ServerPage(folder, skip, limit) == ClientPage(folder, skip, limit)
    ensures ByServer(folder) == ByClient(folder)
  {
    OrdersAreTotal();
    SortSorts(folder, Newer);
    SortSorts(folder, ServerNewer);
    var s, t := ByServer(folder), ByClient(folder);
    forall k | 0 <= k < |s| ensures s[k] == t[k] {
      assert Window(s, k, 1) == [s[k]] && Window(t, k, 1) == [t[k]];
      SortedIsItself([s[k]]);
      assert ServerPage(folder, k, 1) == ClientPage(folder, k, 1);
    }
  }

  lemma SameOrderMeansNoTies(folder: seq<Header>)
    requires DistinctUids(folder) && ByServer(folder) == ByClient(folder)
    ensures DistinctArrivals(folder)
  {
    OrdersAreTotal();
    SortSorts(folder, Newer);
    SortSorts(folder, ServerNewer);
    var s := ByServer(folder);
    forall i, j | 0 <= i < j < |folder| ensures folder[i].received != folder[j].received {
      assert folder[i] in s && folder[j] in s;
      var k :| 0 <= k < |s| && s[k] == folder[i];
      var l :| 0 <= l < |s| && s[l] == folder[j];
      if k < l {
        assert Newer(s[k], s[l]) && ServerNewer(s[k], s[l]);
      } else {
        assert k != l;
        assert Newer(s[l], s[k]) && ServerNewer(s[l], s[k]);
      }
    }
  }

  /** Adjacent pages make up the larger page. */
  lemma AdjacentPages(folder: seq<Header>, skip: nat, first: nat, second: nat)
    ensures ClientPage(folder, skip, first) + ClientPage(folder, skip + first, second)
      == ClientPage(folder, skip, first + second)
  {
    hide Window, Sort, Newer;
    WindowsJoin(ByClient(folder), skip, first, second);
  }

  lemma WindowsJoin(s: seq<Header>, skip: nat, first: nat, second: nat)
    ensures Window(s, skip, first) + Window(s, skip + first, second) == Window(s, skip, first + second)
  {
    if skip + first < |s| && skip + first + second <= |s| {
      assert s[skip..skip + first] + s[skip + first..skip + first + second] == s[skip..skip + first + second];
    }
  }

  /** Two adjacent pages of the server path make up the larger page. */
  ghost predicate Joins(folder: seq<Header>, skip: nat, first: nat, second: nat) {
    ServerPage(folder, skip, first) + ServerPage(folder, skip + first, second)
      == ServerPage(folder, skip, first + second)
  }

  ghost predicate ServerPagesJoin(folder: seq<Header>) {
    forall skip: nat, first: nat, second: nat :: Joins(folder, skip, first, second)
  }

  lemma SmallPages(folder: seq<Header>)
    ensures ServerPage(folder, 0, 0) == []
    ensures forall k: nat | k < |ByServer(folder)| :: ServerPage(folder, k, 1) == [ByServer(folder)[k]]
  {
    hide Newer, ServerNewer, Sort;
    LengthsAgree([]);
    var s := ByServer(folder);
    assert Window(s, 0, 0) == [];
    forall k: nat | k < |s| ensures ServerPage(folder, k, 1) == [s[k]] {
      assert Window(s, k, 1) == [s[k]];
      SortedIsItself([s[k]]);
    }
  }

  lemma {:induction false} JoinedPages(folder: seq<Header>, n: nat)
    requires ServerPagesJoin(folder) && n <= |ByServer(folder)|
    ensures ServerPage(folder, 0, n) == ByServer(folder)[..n]
  {
    hide Newer, ServerNewer, Sort, ByServer, ByClient, Window;
    SmallPages(folder);
    if n > 0 {
      JoinedPages(folder, n - 1);
      assert Joins(folder, 0, n - 1, 1);
    }
  }

  /** On the server path pages join up if and only if no two messages arrived at the same time. */
  lemma ServerPagesJoinUp(folder: seq<Header>)
    requires DistinctUids(folder)
    ensures ServerPagesJoin(folder) <==> DistinctArrivals(folder)
  {
    hide Newer, ServerNewer, Sort, Window;
    PathsAgree(folder);
    if DistinctArrivals(folder) {
      forall skip: nat, first: nat, second: nat
        ensures Joins(folder, skip, first, second)
      {
        AdjacentPages(folder, skip, first, second);
      }
    }
    if ServerPagesJoin(folder) {
      var s := ByServer(folder);
      JoinedPages(folder, |s|);
      WholeWindow(s);
      OrdersAreTotal();
      SortSorts(folder, ServerNewer);
      SortIsCanonical(s, folder);
      assert s[..|s|] == s;
      SameOrderMeansNoTies(folder);
    }
  }

  lemma WholeWindow(s: seq<Header>)
    ensures Window(s, 0, |s|) == s
  {
  }
}
