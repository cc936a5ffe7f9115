/** The sync engine: queueing downloads from listings and change feeds, and executing queued operations. */
module SyncEngine {
  import opened CloudTypes
  import opened SyncQueue

  datatype ChangeList = ChangeList(changes: seq<Change>, cursor: string, hasMore: bool)

  datatype EngineError = SyncFailed

  /** Id and creation time of the n-th operation an engine call creates. */
  datatype Stamp = Stamp(id: string, at: int)

  // ---------- Which downloads a feed asks for ----------

  /** The item to download for one change, if any: deletions, bare changes and folders are skipped. */
  function Wanted(c: Change): seq<CloudItem> {
    if !c.deleted && c.item.Some? && !c.item.value.isFolder then [c.item.value] else []
  }

  function WantedAll(changes: seq<Change>): seq<CloudItem> {
    if changes == [] then [] else WantedAll(changes[..|changes| - 1]) + Wanted(changes[|changes| - 1])
  }

  function FileOnly(item: CloudItem): seq<CloudItem> {
    if item.isFolder then [] else [item]
  }

  function FilesOnly(items: seq<CloudItem>): seq<CloudItem> {
    if items == [] then [] else FilesOnly(items[..|items| - 1]) + FileOnly(items[|items| - 1])
  }

  function DownloadOf(account: AccountId, item: CloudItem, priority: Priority, stamp: Stamp): Operation {
    Operation(stamp.id, account, item.id, item.path, Download, priority, stamp.at, item.size)
  }

  /** The operations created for `items`, stamped in order from number `start` on. */
  function Downloads(account: AccountId, items: seq<CloudItem>, p: Priority, stamps: nat -> Stamp, start: nat): (ops: seq<Operation>)
    ensures |ops| == |items|
  {
    if items == [] then []
    else
      var n := |items| - 1;
      Downloads(account, items[..n], p, stamps, start) + [DownloadOf(account, items[n], p, stamps(start + n))]
  }

  lemma {:induction false} DownloadsConcat(
    account: AccountId, a: seq<CloudItem>, b: seq<CloudItem>, p: Priority, stamps: nat -> Stamp, start: nat)
    ensures Downloads(account, a + b, p, stamps, start) ==
      Downloads(account, a, p, stamps, start) + Downloads(account, b, p, stamps, start + |a|)
    decreases |b|
  {
    if b == [] {
      assert a + b == a;
    } else {
      var ab := a + b;
      assert ab[..|ab| - 1] == a + b[..|b| - 1] && ab[|ab| - 1] == b[|b| - 1];
      DownloadsConcat(account, a, b[..|b| - 1], p, stamps, start);
    }
  }

  lemma DownloadsSnoc(account: AccountId, items: seq<CloudItem>, item: CloudItem, p: Priority, stamps: nat -> Stamp, start: nat)
    ensures Downloads(account, items + [item], p, stamps, start) ==
      Downloads(account, items, p, stamps, start) + [DownloadOf(account, item, p, stamps(start + |items|))]
  {
    assert (items + [item])[..|items + [item]| - 1] == items;
  }

  lemma AddOne(base: multiset<Operation>, ops: seq<Operation>, op: Operation)
    ensures base + multiset(ops + [op]) == base + multiset(ops) + multiset{op}
  {
    assert multiset(ops + [op]) == multiset(ops) + multiset{op};
  }

  lemma AddMany(base: multiset<Operation>, ops: seq<Operation>, more: seq<Operation>)
    ensures base + multiset(ops + more) == base + multiset(ops) + multiset(more)
  {
    assert multiset(ops + more) == multiset(ops) + multiset(more);
  }

  lemma WantedSnoc(changes: seq<Change>, c: Change)
    ensures WantedAll(changes + [c]) == WantedAll(changes) + Wanted(c)
  {
    assert (changes + [c])[..|changes + [c]| - 1] == changes;
  }

  lemma {:induction false} WantedConcat(a: seq<Change>, b: seq<Change>)
    ensures WantedAll(a + b) == WantedAll(a) + WantedAll(b)
    decreases |b|
  {
    if b == [] {
      assert a + b == a;
    } else {
      var init, c := b[..|b| - 1], b[|b| - 1];
      assert b == init + [c] && a + b == a + init + [c];
      WantedConcat(a, init);
      WantedSnoc(a + init, c);
      WantedSnoc(init, c);
    }
  }

  lemma WantedStep(changes: seq<Change>, i: nat)
    requires i < |changes|
    ensures WantedAll(changes[..i + 1]) == WantedAll(changes[..i]) + Wanted(changes[i])
  {
    assert changes[..i + 1][..i] == changes[..i];
  }

  lemma FilesOnlyStep(items: seq<CloudItem>, i: nat)
    requires i < |items|
    ensures FilesOnly(items[..i + 1]) == FilesOnly(items[..i]) + FileOnly(items[i])
  {
    assert items[..i + 1][..i] == items[..i];
  }

  predicate LiveFile(c: Change) {
    !c.deleted && c.item.Some? && !c.item.value.isFolder
  }

  function LiveFiles(changes: seq<Change>): set<int> {
    set i | 0 <= i < |changes| && LiveFile(changes[i])
  }

  lemma LiveFilesStep(changes: seq<Change>)
    requires changes != []
    ensures var n := |changes| - 1;
      && LiveFiles(changes) == LiveFiles(changes[..n]) + (if LiveFile(changes[n]) then {n} else {})
      && n !in LiveFiles(changes[..n])
  {
  }

  /** How many changes of a feed are live files: an independent count of what must be queued. */
  lemma {:induction false} OneDownloadPerLiveFile(changes: seq<Change>)
    ensures |WantedAll(changes)| == |LiveFiles(changes)|
  {
    if changes == [] {
      assert LiveFiles(changes) == {};
    } else {
      OneDownloadPerLiveFile(changes[..|changes| - 1]);
      LiveFilesStep(changes);
    }
  }

  // ---------- What is in the queued operations ----------

  /** Operation `k` of a call downloads exactly this item for this account. */
  predicate IsDownloadOf(op: Operation, account: AccountId, item: CloudItem, p: Priority, stamp: Stamp) {
    && op.fileId == item.id && op.path == item.path && op.size == item.size
    && op.accountId == account && op.kind.Download? && op.priority == p
    && op.id == stamp.id && op.createdAt == stamp.at
  }

  predicate Rising(at: seq<int>) {
    forall j, k :: 0 <= j < k < |at| ==> at[j] < at[k]
  }

  /** `at` are the positions of the live files among the changes, in order. */
  ghost predicate LivePositions(changes: seq<Change>, at: seq<int>) {
    && Rising(at)
    && (forall k :: 0 <= k < |at| ==> 0 <= at[k] < |changes| && LiveFile(changes[at[k]]))
    && (forall i :: 0 <= i < |changes| && LiveFile(changes[i]) ==> i in at)
  }

  /** `at` are the positions of the files, folders left out, among the listed items, in order. */
  ghost predicate FilePositions(items: seq<CloudItem>, at: seq<int>) {
    && Rising(at)
    && (forall k :: 0 <= k < |at| ==> 0 <= at[k] < |items| && !items[at[k]].isFolder)
    && (forall i :: 0 <= i < |items| && !items[i].isFolder ==> i in at)
  }

  /** The operations pair off, in order, with the live files among the changes. */
  ghost predicate PairedWithChanges(
    account: AccountId, ops: seq<Operation>, changes: seq<Change>, at: seq<int>, p: Priority, stamps: nat -> Stamp)
  {
    && |at| == |ops| && LivePositions(changes, at)
    && (forall k :: 0 <= k < |ops| ==> IsDownloadOf(ops[k], account, changes[at[k]].item.value, p, stamps(k)))
  }

  /** The operations pair off, in order, with the files among the listed items. */
  ghost predicate PairedWithItems(
    account: AccountId, ops: seq<Operation>, items: seq<CloudItem>, at: seq<int>, p: Priority, stamps: nat -> Stamp)
  {
    && |at| == |ops| && FilePositions(items, at)
    && (forall k :: 0 <= k < |ops| ==> IsDownloadOf(ops[k], account, items[at[k]], p, stamps(k)))
  }

  lemma {:induction false} DownloadsAre(
    account: AccountId, items: seq<CloudItem>, p: Priority, stamps: nat -> Stamp, k: nat)
    requires k < |items|
    ensures IsDownloadOf(Downloads(account, items, p, stamps, 0)[k], account, items[k], p, stamps(k))
  {
    if k < |items| - 1 {
      DownloadsAre(account, items[..|items| - 1], p, stamps, k);
    }
  }

  /** Positions of the live files, in order. */
  function LiveAt(changes: seq<Change>): seq<int> {
    if changes == [] then []
    else
      var n := |changes| - 1;
      LiveAt(changes[..n]) + (if LiveFile(changes[n]) then [n] else [])
  }

  lemma {:induction false} LiveAtSound(changes: seq<Change>)
    ensures forall k :: 0 <= k < |LiveAt(changes)| ==> 0 <= LiveAt(changes)[k] < |changes| && LiveFile(changes[LiveAt(changes)[k]])
  {
    if changes != [] {
      var n := |changes| - 1;
      LiveAtSound(changes[..n]);
      var before := LiveAt(changes[..n]);
      assert forall k :: 0 <= k < |before| ==> changes[..n][before[k]] == changes[before[k]];
    }
  }

  lemma {:induction false} LiveAtRises(changes: seq<Change>)
    ensures Rising(LiveAt(changes))
  {
    if changes != [] {
      LiveAtRises(changes[..|changes| - 1]);
      LiveAtSound(changes[..|changes| - 1]);
    }
  }

  lemma {:induction false} LiveAtComplete(changes: seq<Change>, i: nat)
    requires i < |changes| && LiveFile(changes[i])
    ensures i in LiveAt(changes)
  {
    if i < |changes| - 1 {
      LiveAtComplete(changes[..|changes| - 1], i);
    }
  }

  lemma {:induction false} LiveAtItems(changes: seq<Change>, k: nat)
    requires k < |LiveAt(changes)|
    ensures |LiveAt(changes)| == |WantedAll(changes)| && 0 <= LiveAt(changes)[k] < |changes| && changes[LiveAt(changes)[k]].item == Some(WantedAll(changes)[k])
  {
    LiveAtSound(changes);
    var n := |changes| - 1;
    LiveAtLength(changes[..n]);
    if k < |LiveAt(changes[..n])| {
      LiveAtItems(changes[..n], k);
    }
  }

  lemma {:induction false} LiveAtLength(changes: seq<Change>)
    ensures |LiveAt(changes)| == |WantedAll(changes)|
  {
    if changes != [] {
      LiveAtLength(changes[..|changes| - 1]);
    }
  }

  /** Positions of the files that are not folders, in order. */
  function FilesAt(items: seq<CloudItem>): seq<int> {
    if items == [] then []
    else
      var n := |items| - 1;
      FilesAt(items[..n]) + (if !items[n].isFolder then [n] else [])
  }

  lemma {:induction false} FilesAtSound(items: seq<CloudItem>)
    ensures forall k :: 0 <= k < |FilesAt(items)| ==> 0 <= FilesAt(items)[k] < |items| && !items[FilesAt(items)[k]].isFolder
  {
    if items != [] {
      var n := |items| - 1;
      FilesAtSound(items[..n]);
      var before := FilesAt(items[..n]);
      assert forall k :: 0 <= k < |before| ==> items[..n][before[k]] == items[before[k]];
    }
  }

  lemma {:induction false} FilesAtRises(items: seq<CloudItem>)
    ensures Rising(FilesAt(items))
  {
    if items != [] {
      FilesAtRises(items[..|items| - 1]);
      FilesAtSound(items[..|items| - 1]);
    }
  }

  lemma {:induction false} FilesAtComplete(items: seq<CloudItem>, i: nat)
    requires i < |items| && !items[i].isFolder
    ensures i in FilesAt(items)
  {
    if i < |items| - 1 {
      FilesAtComplete(items[..|items| - 1], i);
    }
  }

  lemma {:induction false} FilesAtItems(items: seq<CloudItem>, k: nat)
    requires k < |FilesAt(items)|
    ensures |FilesAt(items)| == |FilesOnly(items)| && 0 <= FilesAt(items)[k] < |items| && items[FilesAt(items)[k]] == FilesOnly(items)[k]
  {
    FilesAtSound(items);
    var n := |items| - 1;
    FilesAtLength(items[..n]);
    if k < |FilesAt(items[..n])| {
      FilesAtItems(items[..n], k);
    }
  }

  lemma {:induction false} FilesAtLength(items: seq<CloudItem>)
    ensures |FilesAt(items)| == |FilesOnly(items)|
  {
    if items != [] {
      FilesAtLength(items[..|items| - 1]);
    }
  }

  /** What a feed adds to the queue: one download per live file, of that file, in the feed's order. */
  lemma {:induction false} FeedDownloads(account: AccountId, changes: seq<Change>, p: Priority, stamps: nat -> Stamp)
    ensures PairedWithChanges(
      account, Downloads(account, WantedAll(changes), p, stamps, 0), changes, LiveAt(changes), p, stamps)
  {
    LiveAtSound(changes);
    LiveAtRises(changes);
    LiveAtLength(changes);
    forall i | 0 <= i < |changes| && LiveFile(changes[i]) ensures i in LiveAt(changes) {
      LiveAtComplete(changes, i);
    }
    forall k | 0 <= k < |WantedAll(changes)|
      ensures IsDownloadOf(
        Downloads(account, WantedAll(changes), p, stamps, 0)[k], account, changes[LiveAt(changes)[k]].item.value, p, stamps(k))
    {
      LiveAtItems(changes, k);
      DownloadsAre(account, WantedAll(changes), p, stamps, k);
    }
  }

  /** What a listing adds to the queue: one download per file that is not a folder, in the listing's order. */
  lemma {:induction false} ListingDownloads(account: AccountId, items: seq<CloudItem>, p: Priority, stamps: nat -> Stamp)
    ensures PairedWithItems(account, Downloads(account, FilesOnly(items), p, stamps, 0), items, FilesAt(items), p, stamps)
  {
    FilesAtSound(items);
    FilesAtRises(items);
    FilesAtLength(items);
    forall i | 0 <= i < |items| && !items[i].isFolder ensures i in FilesAt(items) {
      FilesAtComplete(items, i);
    }
    forall k | 0 <= k < |FilesOnly(items)|
      ensures IsDownloadOf(
        Downloads(account, FilesOnly(items), p, stamps, 0)[k], account, items[FilesAt(items)[k]], p, stamps(k))
    {
      FilesAtItems(items, k);
      DownloadsAre(account, FilesOnly(items), p, stamps, k);
    }
  }

  // ---------- Reading a paged feed ----------

  type Feed = seq<Result<ChangeList, EngineError>>

  /** How many replies are consumed successfully before the feed ends or a fetch fails. */
  function PagesRead(feed: Feed): nat
    ensures PagesRead(feed) <= |feed|
    ensures forall i :: 0 <= i < PagesRead(feed) ==> feed[i].Ok?
  {
    if feed == [] || feed[0].Err? then 0
    else if !feed[0].value.hasMore then 1
    else 1 + PagesRead(feed[1..])
  }

  /** The feed was read to a page without successor. */
  predicate Finished(feed: Feed) {
    PagesRead(feed) > 0 && !feed[PagesRead(feed) - 1].value.hasMore
  }

  function ChangesOf(feed: Feed, n: nat): seq<Change>
    requires n <= |feed| && forall i :: 0 <= i < n ==> feed[i].Ok?
  {
    if n == 0 then [] else ChangesOf(feed, n - 1) + feed[n - 1].value.changes
  }

  /** Every page before the last one read had a successor, and reading stops only at the end or at a failure. */
  lemma {:induction false} PagesReadAre(feed: Feed)
    ensures forall i :: 0 <= i < PagesRead(feed) - 1 ==> feed[i].value.hasMore
    ensures !Finished(feed) ==>
      && (forall i :: 0 <= i < PagesRead(feed) ==> feed[i].value.hasMore)
      && (PagesRead(feed) == |feed| || feed[PagesRead(feed)].Err?)
    decreases |feed|
  {
    if feed != [] && feed[0].Ok? && feed[0].value.hasMore {
      PagesReadAre(feed[1..]);
      assert forall i :: 0 < i < |feed| ==> feed[i] == feed[1..][i - 1];
    }
  }

  lemma {:induction false} PagesReadIs(feed: Feed, n: nat)
    requires n <= |feed| && (forall i :: 0 <= i < n ==> feed[i].Ok? && feed[i].value.hasMore)
    ensures n == |feed| || feed[n].Err? ==> PagesRead(feed) == n && !Finished(feed)
    ensures n < |feed| && feed[n].Ok? && !feed[n].value.hasMore ==> PagesRead(feed) == n + 1 && Finished(feed)
  {
    if n > 0 {
      PagesReadIs(feed[1..], n - 1);
      var r := PagesRead(feed[1..]);
      assert r > 0 ==> feed[1..][r - 1] == feed[r];
    }
  }

  /** The first `n` replies are pages with a successor. */
  predicate AllOpen(feed: Feed, n: nat) {
    n <= |feed| && forall i :: 0 <= i < n ==> feed[i].Ok? && feed[i].value.hasMore
  }

  predicate StoppedAt(feed: Feed, n: nat, done: bool) {
    if done then 0 < n <= |feed| && AllOpen(feed, n - 1) && feed[n - 1].Ok? && !feed[n - 1].value.hasMore
    else AllOpen(feed, n) && (n == |feed| || feed[n].Err?)
  }

  lemma StoppedAtIsPagesRead(feed: Feed, n: nat, done: bool)
    requires StoppedAt(feed, n, done)
    ensures n == PagesRead(feed) && done == Finished(feed)
  {
    PagesReadIs(feed, if done then n - 1 else n);
  }

  /** The cursor the n-th request must carry. */
  function CursorFor(cursor: Option<string>, feed: Feed, n: nat): Option<string>
    requires n <= |feed| && forall i :: 0 <= i < n ==> feed[i].Ok?
  {
    if n == 0 then cursor else Some(feed[n - 1].value.cursor)
  }

  /** The cursors of the first `n` requests: the given one, then each page's own. */
  function Asked(cursor: Option<string>, feed: Feed, n: nat): seq<Option<string>>
    requires n <= |feed| + 1 && forall i :: 0 <= i < n - 1 ==> feed[i].Ok?
  {
    if n == 0 then [] else Asked(cursor, feed, n - 1) + [CursorFor(cursor, feed, n - 1)]
  }

  /** Request by request: the first carries the given cursor, each later one the cursor of the page before it. */
  lemma {:induction false} AskedAre(cursor: Option<string>, feed: Feed, n: nat, k: nat)
    requires k < n <= |feed| + 1 && forall i :: 0 <= i < n - 1 ==> feed[i].Ok?
    ensures |Asked(cursor, feed, n)| == n
    ensures Asked(cursor, feed, n)[k] == if k == 0 then cursor else Some(feed[k - 1].value.cursor)
  {
    if k < n - 1 {
      AskedAre(cursor, feed, n - 1, k);
    } else if n > 1 {
      AskedAre(cursor, feed, n - 1, 0);
    }
  }

  /** Before request number `n`: which cursor is next and which have been sent. */
  predicate AskingAt(cursor: Option<string>, feed: Feed, n: nat, current: Option<string>, asked: seq<Option<string>>) {
    AllOpen(feed, n) && current == CursorFor(cursor, feed, n) && asked == Asked(cursor, feed, n)
  }

  lemma AskNext(cursor: Option<string>, feed: Feed, n: nat, current: Option<string>, asked: seq<Option<string>>)
    requires AskingAt(cursor, feed, n, current, asked)
    ensures asked + [current] == Asked(cursor, feed, n + 1)
    ensures n < |feed| && feed[n].Ok? && feed[n].value.hasMore ==>
      AskingAt(cursor, feed, n + 1, Some(feed[n].value.cursor), asked + [current])
  {
  }

  // ---------- Executing ----------

  /** How many of the popped operations were downloads that succeeded. */
  function Successes(ops: seq<Operation>, succeeds: nat -> bool): nat {
    if ops == [] then 0
    else
      var n := |ops| - 1;
      Successes(ops[..n], succeeds) + (if ops[n].kind.Download? && succeeds(n) then 1 else 0)
  }

  function Worked(ops: seq<Operation>, succeeds: nat -> bool): set<int> {
    set k | 0 <= k < |ops| && ops[k].kind.Download? && succeeds(k)
  }

  /** The count is that of the positions at which a download came out and worked. */
  lemma {:induction false} SuccessesCount(ops: seq<Operation>, succeeds: nat -> bool)
    ensures Successes(ops, succeeds) == |Worked(ops, succeeds)|
  {
    if ops == [] {
      assert Worked(ops, succeeds) == {};
    } else {
      var n := |ops| - 1;
      SuccessesCount(ops[..n], succeeds);
      var before := Worked(ops[..n], succeeds);
      assert n !in before;
      assert Worked(ops, succeeds) == before + (if ops[n].kind.Download? && succeeds(n) then {n} else {});
    }
  }

  lemma {:induction false} PopsSnoc(heap: multiset<Operation>, ops: seq<Operation>, mid: multiset<Operation>, op: Operation)
    requires Pops(heap, ops, mid) && First(op, mid)
    ensures Pops(heap, ops + [op], mid - multiset{op})
    decreases |ops|
  {
    if ops == [] {
      assert [op][1..] == [];
    } else {
      PopsSnoc(heap - multiset{ops[0]}, ops[1..], mid, op);
      assert (ops + [op])[1..] == ops[1..] + [op] && (ops + [op])[0] == ops[0];
    }
  }

  lemma {:induction false} PopsCount(heap: multiset<Operation>, ops: seq<Operation>, rest: multiset<Operation>)
    requires Pops(heap, ops, rest)
    ensures |heap| == |ops| + |rest|
  {
    PopsCharacterised(heap, ops, rest);
    assert |multiset(ops)| == |ops|;
  }

  /** Where an execution stands: what was popped, what is left, and how many downloads worked. */
  ghost predicate Executed(
    h0: multiset<Operation>, popped: seq<Operation>, heap: multiset<Operation>,
    executed: nat, limit: nat, succeeds: nat -> bool) {
    && Pops(h0, popped, heap)
    && executed == Successes(popped, succeeds) <= limit
    && forall k :: 0 <= k < |popped| ==> Successes(popped[..k], succeeds) < limit
  }

  lemma ExecuteOne(
    h0: multiset<Operation>, popped: seq<Operation>, heap: multiset<Operation>,
    executed: nat, limit: nat, succeeds: nat -> bool, op: Operation)
    requires Executed(h0, popped, heap, executed, limit, succeeds) && executed < limit && First(op, heap)
    ensures var worked := op.kind.Download? && succeeds(|popped|);
      Executed(h0, popped + [op], heap - multiset{op}, if worked then executed + 1 else executed, limit, succeeds)
    ensures |heap - multiset{op}| < |heap|
  {
    PopsSnoc(h0, popped, heap, op);
    var more := popped + [op];
    assert more[..|popped|] == popped;
    assert forall k :: 0 <= k < |popped| ==> more[..k] == popped[..k];
  }

  const USIZE_MAX: nat := 0xFFFF_FFFF_FFFF_FFFF

  function Limit(max: Option<nat>): nat {
    if max.Some? then max.value else USIZE_MAX
  }

  class Engine {
    const account: AccountId
    const queue: Queue

    constructor (account: AccountId, queue: Queue)
      ensures this.account == account && this.queue == queue
    {
      this.account, this.queue := account, queue;
    }

    /** Queues downloads for `more` (none or one item) on top of those already queued for `items`. */
    method QueueMore(
      more: seq<CloudItem>, p: Priority, stamps: nat -> Stamp, start: nat, count: nat,
      ghost items: seq<CloudItem>, ghost base: multiset<Operation>) returns (count': nat)
      requires |more| <= 1 && count == |items|
      requires queue.heap == base + multiset(Downloads(account, items, p, stamps, start))
      modifies queue
      ensures count' == |items + more|
      ensures queue.heap == base + multiset(Downloads(account, items + more, p, stamps, start))
    {
      count' := count + |more|;
      if more == [] {
        assert items + more == items;
        return;
      }
      var op := DownloadOf(account, more[0], p, stamps(start + count));
      assert more == [more[0]];
      ghost var queued := Downloads(account, items, p, stamps, start);
      ghost var all := Downloads(account, items + more, p, stamps, start);
      assert all == queued + [op] by { DownloadsSnoc(account, items, more[0], p, stamps, start); }
      Push(op, base, queued, all);
    }

    method Push(op: Operation, ghost base: multiset<Operation>, ghost queued: seq<Operation>, ghost all: seq<Operation>)
      requires queue.heap == base + multiset(queued) && all == queued + [op]
      modifies queue
      ensures queue.heap == base + multiset(all)
    {
      AddOne(base, queued, op);
      queue.Push(op);
    }

    /**
     Queues a high-priority download per listed file, then asks for a start cursor, which may fail; the
     queue keeps the downloads either way.
     */
    method InitialSync(listing: Result<seq<CloudItem>, EngineError>, start: Result<string, EngineError>, stamps: nat -> Stamp)
      returns (r: Result<nat, EngineError>)
      modifies queue
      ensures listing.Err? ==> r.Err? && queue.heap == old(queue.heap)
      ensures listing.Ok? ==>
        queue.heap == old(queue.heap) + multiset(Downloads(account, FilesOnly(listing.value), High, stamps, 0))
      ensures listing.Ok? ==> exists ops, at ::
        && PairedWithItems(account, ops, listing.value, at, High, stamps)
        && queue.heap == old(queue.heap) + multiset(ops)
        && (r.Ok? ==> r.value == |ops|)
      ensures r.Ok? <==> listing.Ok? && start.Ok?
      ensures r.Ok? ==> r.value == |FilesOnly(listing.value)|
    {
      if listing.Err? {
        return Err(SyncFailed);
      }
      ListingDownloads(account, listing.value, High, stamps);
      var count := QueueListing(listing.value, stamps);
      r := if start.Ok? then Ok(count) else Err(SyncFailed);
    }

    method QueueListing(items: seq<CloudItem>, stamps: nat -> Stamp) returns (count: nat)
      modifies queue
      ensures count == |FilesOnly(items)|
      ensures queue.heap == old(queue.heap) + multiset(Downloads(account, FilesOnly(items), High, stamps, 0))
    {
      count := 0;
      var i := 0;
      while i < |items|
        invariant i <= |items|
        invariant count == |FilesOnly(items[..i])|
        invariant queue.heap == old(queue.heap) + multiset(Downloads(account, FilesOnly(items[..i]), High, stamps, 0))
      {
        FilesOnlyStep(items, i);
        count := QueueMore(FileOnly(items[i]), High, stamps, 0, count, FilesOnly(items[..i]), old(queue.heap));
        i := i + 1;
      }
      assert items[..|items|] == items;
    }

    /** Queues the downloads one page asks for, stamped from number `start` on. */
    method QueuePage(changes: seq<Change>, start: nat, stamps: nat -> Stamp) returns (count: nat)
      modifies queue
      ensures count == |WantedAll(changes)|
      ensures queue.heap == old(queue.heap) + multiset(Downloads(account, WantedAll(changes), Normal, stamps, start))
    {
      count := 0;
      var i := 0;
      while i < |changes|
        invariant i <= |changes|
        invariant count == |WantedAll(changes[..i])|
        invariant queue.heap == old(queue.heap) + multiset(Downloads(account, WantedAll(changes[..i]), Normal, stamps, start))
      {
        WantedStep(changes, i);
        count := QueueMore(Wanted(changes[i]), Normal, stamps, start, count, WantedAll(changes[..i]), old(queue.heap));
        i := i + 1;
      }
      assert changes[..|changes|] == changes;
    }

    /** The downloads of the first `n` pages of a feed. */
    ghost function Queued(feed: Feed, n: nat, stamps: nat -> Stamp): seq<Operation>
      requires n <= |feed| && forall i :: 0 <= i < n ==> feed[i].Ok?
    {
      Downloads(account, WantedAll(ChangesOf(feed, n)), Normal, stamps, 0)
    }

    lemma QueuedOneMore(feed: Feed, n: nat, stamps: nat -> Stamp)
      requires n < |feed| && forall i :: 0 <= i <= n ==> feed[i].Ok?
      ensures var sofar, more := WantedAll(ChangesOf(feed, n)), WantedAll(feed[n].value.changes);
        && |WantedAll(ChangesOf(feed, n + 1))| == |sofar| + |more|
        && Queued(feed, n + 1, stamps) == Queued(feed, n, stamps) + Downloads(account, more, Normal, stamps, |sofar|)
    {
      var sofar, more := WantedAll(ChangesOf(feed, n)), WantedAll(feed[n].value.changes);
      assert WantedAll(ChangesOf(feed, n + 1)) == sofar + more by {
        WantedConcat(ChangesOf(feed, n), feed[n].value.changes);
      }
      DownloadsConcat(account, sofar, more, Normal, stamps, 0);
    }

    /** The heap holds `base` and the downloads of the first `n` pages, `total` of them. */
    ghost predicate QueuedTo(
      feed: Feed, n: nat, total: nat, stamps: nat -> Stamp, base: multiset<Operation>, heap: multiset<Operation>)
    {
      && n <= |feed| && (forall i :: 0 <= i < n ==> feed[i].Ok?)
      && total == |WantedAll(ChangesOf(feed, n))|
      && heap == base + multiset(Queued(feed, n, stamps))
    }

    lemma QueuedNone(feed: Feed, stamps: nat -> Stamp, base: multiset<Operation>)
      ensures QueuedTo(feed, 0, 0, stamps, base, base)
    {
      assert ChangesOf(feed, 0) == [] && Queued(feed, 0, stamps) == [];
    }

    /** Queues page `n` on top of the pages before it. */
    method QueueNextPage(feed: Feed, n: nat, total: nat, stamps: nat -> Stamp, ghost base: multiset<Operation>)
      returns (total': nat)
      requires n < |feed| && forall i :: 0 <= i <= n ==> feed[i].Ok?
      requires QueuedTo(feed, n, total, stamps, base, queue.heap)
      modifies queue
      ensures QueuedTo(feed, n + 1, total', stamps, base, queue.heap)
    {
      QueuedOneMore(feed, n, stamps);
      AddMany(base, Queued(feed, n, stamps), Downloads(account, WantedAll(feed[n].value.changes), Normal, stamps, total));
      var count := QueuePage(feed[n].value.changes, total, stamps);
      total' := total + count;
    }

    /** The loop: `n` pages were read, and `done` says that the last of them had no successor. */
    method ReadFeed(cursor: Option<string>, feed: Feed, stamps: nat -> Stamp)
      returns (n: nat, done: bool, total: nat, ghost asked: seq<Option<string>>)
      modifies queue
      ensures StoppedAt(feed, n, done) && n <= |feed| && forall i :: 0 <= i < n ==> feed[i].Ok?
      ensures QueuedTo(feed, n, total, stamps, old(queue.heap), queue.heap)
      ensures asked == Asked(cursor, feed, if done then n else n + 1)
    {
      var current := cursor;
      n, done, total, asked := 0, false, 0, [];
      QueuedNone(feed, stamps, queue.heap);
      while true
        invariant n <= |feed| && !done
        invariant AskingAt(cursor, feed, n, current, asked)
        invariant QueuedTo(feed, n, total, stamps, old(queue.heap), queue.heap)
        decreases |feed| - n
      {
        AskNext(cursor, feed, n, current, asked);
        asked := asked + [current];
        if n == |feed| || feed[n].Err? {
          return;
        }
        total := QueueNextPage(feed, n, total, stamps, old(queue.heap));
        current := Some(feed[n].value.cursor);
        done := !feed[n].value.hasMore;
        n := n + 1;
        if done {
          return;
        }
      }
    }

    /**
     Reads the feed page by page from `cursor`. `n` is how many pages were read, and `asked` records the
     cursors sent: the given one first, then each page's own. What is queued pairs off with the live files of
     the pages read. On success the count and the last page's cursor are returned.
     */
    method RefreshSync(cursor: Option<string>, feed: Feed, stamps: nat -> Stamp)
      returns (r: Result<(nat, string), EngineError>, ghost n: nat, ghost asked: seq<Option<string>>)
      modifies queue
      ensures n == PagesRead(feed) && n <= |feed| && forall i :: 0 <= i < n ==> feed[i].Ok?
      ensures queue.heap == old(queue.heap) + multiset(Queued(feed, n, stamps))
      ensures exists ops, at ::
        && PairedWithChanges(account, ops, ChangesOf(feed, n), at, Normal, stamps)
        && queue.heap == old(queue.heap) + multiset(ops)
        && (r.Ok? ==> r.value.0 == |ops|)
      ensures r.Ok? <==> Finished(feed)
      ensures r.Ok? ==> n > 0 && r.value == (|WantedAll(ChangesOf(feed, n))|, feed[n - 1].value.cursor)
      ensures asked == Asked(cursor, feed, if r.Ok? then n else n + 1)
    {
      var pages, done, total;
      pages, done, total, asked := ReadFeed(cursor, feed, stamps);
      n := pages;
      StoppedAtIsPagesRead(feed, n, done);
      FeedDownloads(account, ChangesOf(feed, n), Normal, stamps);
      r := if done then Ok((total, feed[pages - 1].value.cursor)) else Err(SyncFailed);
    }

    /**
     Pops and executes operations until the queue is empty or `max` downloads have succeeded. `succeeds(i)`
     says whether the i-th popped operation's download works. `popped` records what came out.
     */
    method ExecuteOperations(max: Option<nat>, succeeds: nat -> bool)
      returns (executed: nat, ghost popped: seq<Operation>)
      modifies queue
      ensures Pops(old(queue.heap), popped, queue.heap)
      ensures executed == Successes(popped, succeeds)
      ensures executed <= Limit(max)
      ensures queue.heap == multiset{} || executed == Limit(max)
      ensures max.Some? ==> executed <= max.value && (executed < max.value ==> queue.heap == multiset{})
      ensures max.None? && executed < USIZE_MAX ==> queue.heap == multiset{}
      ensures forall k :: 0 <= k < |popped| ==> Successes(popped[..k], succeeds) < Limit(max)
    {
      executed, popped := 0, [];
      var limit := Limit(max);
      var count := 0;
      while executed < limit
        invariant count == |popped|
        invariant Executed(old(queue.heap), popped, queue.heap, executed, limit, succeeds)
        decreases |queue.heap|
      {
        ghost var before := queue.heap;
        var operation := queue.Pop();
        if operation.Err? {
          break;
        }
        ExecuteOne(old(queue.heap), popped, before, executed, limit, succeeds, operation.value);
        popped := popped + [operation.value];
        if operation.value.kind.Download? && succeeds(count) {
          executed := executed + 1;
        }
        count := count + 1;
      }
    }
  }

  /**
   What one execution does, for every queue and every pattern of outcomes: nothing is lost, operations
   come out in the order `list` shows (up to equals), and it stops early only at the limit.
   */
  lemma {:induction false} ExecutionFollowsList(
    before: multiset<Operation>, popped: seq<Operation>, after: multiset<Operation>, listed: seq<Operation>,
    executed: nat, limit: nat)
    requires Pops(before, popped, after) && Lists(before, listed)
    requires after == multiset{} || executed == limit
    ensures before == multiset(popped) + after && |before| == |popped| + |after|
    ensures |popped| <= |listed| && Keys(popped) == Keys(listed)[..|popped|]
    ensures executed < limit ==> Keys(popped) == Keys(listed)
  {
    PopsCharacterised(before, popped, after);
    PopsCount(before, popped, after);
    PopsAgreeWithList(before, popped, after, listed);
  }
}
