/** Batching paginated issues: pages of any size in, work batches of 500 out. */
module LabelBatches {
  import opened Options

  const WORK_BATCH_SIZE := 500

  datatype Node = Node(number: int, title: string, body: Option<string>, labels: Option<seq<string>>)

  datatype Item = Item(number: int, title: string, body: string, labels: seq<string>)

  // The answer to one page request; a missing node list counts as empty, a missing total keeps
  // the one known.
  datatype Page = Page(nodes: Option<seq<Node>>, totalCount: Option<int>, hasNextPage: bool)

  datatype Batch = Batch(batchIndex: nat, items: seq<Item>, totalCount: int, fetchedCount: nat)

  function MapNode(n: Node): Item {
    Item(n.number, n.title, if n.body.Some? then n.body.value else "", if n.labels.Some? then n.labels.value else [])
  }

  function MapNodes(nodes: seq<Node>): (r: seq<Item>)
    ensures |r| == |nodes|
    ensures forall i :: 0 <= i < |r| ==> r[i] == MapNode(nodes[i])
  {
    if nodes == [] then [] else MapNodes(nodes[..|nodes| - 1]) + [MapNode(nodes[|nodes| - 1])]
  }

  function PageItems(p: Page): seq<Item> {
    MapNodes(if p.nodes.Some? then p.nodes.value else [])
  }

  function ItemsOf(pages: seq<Page>): seq<Item> {
    if pages == [] then [] else ItemsOf(pages[..|pages| - 1]) + PageItems(pages[|pages| - 1])
  }

  predicate Ends(pages: seq<Page>) {
    exists k :: 0 <= k < |pages| && !pages[k].hasNextPage
  }

  /** The first page without a successor. */
  function LastPage(pages: seq<Page>, from: nat): (r: nat)
    requires from <= |pages| && exists k :: from <= k < |pages| && !pages[k].hasNextPage
    ensures from <= r < |pages| && !pages[r].hasNextPage && forall k :: from <= k < r ==> pages[k].hasNextPage
    decreases |pages| - from
  {
    if pages[from].hasNextPage then LastPage(pages, from + 1) else from
  }

  /** All items up to the last page. */
  function AllItems(pages: seq<Page>): seq<Item>
    requires Ends(pages)
  {
    ItemsOf(pages[..LastPage(pages, 0) + 1])
  }

  function Take(items: seq<Item>, limit: Option<int>): seq<Item> {
    if limit.None? || limit.value >= |items| then items
    else if limit.value <= 0 then [] else items[..limit.value]
  }

  function Concat(batches: seq<Batch>): seq<Item> {
    if batches == [] then [] else Concat(batches[..|batches| - 1]) + batches[|batches| - 1].items
  }

  /** Batches are numbered from 1, every one but the last is full, and none is empty or too big. */
  ghost predicate WellBatched(batches: seq<Batch>) {
    forall i :: 0 <= i < |batches| ==>
      && batches[i].batchIndex == i + 1
      && 0 < |batches[i].items| <= 500
      && (i < |batches| - 1 ==> |batches[i].items| == 500)
  }

  function UpTo(batches: seq<Batch>, i: nat): seq<Batch>
    requires i < |batches|
  {
    batches[..i + 1]
  }

  /** Each batch carries the running total of items handed out. */
  ghost predicate RunningTotals(batches: seq<Batch>) {
    forall i: nat {:trigger UpTo(batches, i)} :: i < |batches| ==> batches[i].fetchedCount == |Concat(UpTo(batches, i))|
  }

  ghost predicate AllFull(batches: seq<Batch>) {
    WellBatched(batches) && RunningTotals(batches) && forall i :: 0 <= i < |batches| ==> |batches[i].items| == WORK_BATCH_SIZE
  }

  lemma ConcatLast(batches: seq<Batch>, b: Batch)
    ensures Concat(batches + [b]) == Concat(batches) + b.items
  {
    assert (batches + [b])[..|batches|] == batches;
  }

  lemma TotalsMore(batches: seq<Batch>, b: Batch)
    requires RunningTotals(batches) && b.fetchedCount == |Concat(batches)| + |b.items|
    ensures RunningTotals(batches + [b])
  {
    var all := batches + [b];
    ConcatLast(batches, b);
    forall i: nat | i < |all| ensures all[i].fetchedCount == |Concat(UpTo(all, i))| {
      if i < |batches| {
        assert UpTo(all, i) == UpTo(batches, i);
      } else {
        assert UpTo(all, i) == all;
      }
    }
  }

  lemma ConcatOneMore(batches: seq<Batch>, b: Batch)
    requires AllFull(batches) && 0 < |b.items| <= WORK_BATCH_SIZE
    requires b.batchIndex == |batches| + 1 && b.fetchedCount == |Concat(batches)| + |b.items|
    ensures Concat(batches + [b]) == Concat(batches) + b.items
    ensures WellBatched(batches + [b]) && RunningTotals(batches + [b])
    ensures |b.items| == WORK_BATCH_SIZE ==> AllFull(batches + [b])
  {
    ConcatLast(batches, b);
    TotalsMore(batches, b);
  }

  lemma {:induction false} ItemsPrefix(pages: seq<Page>, k: nat, n: nat)
    requires k <= n <= |pages|
    ensures ItemsOf(pages[..k]) <= ItemsOf(pages[..n])
    decreases n - k
  {
    if k < n {
      ItemsPrefix(pages, k, n - 1);
      assert pages[..n][..n - 1] == pages[..n - 1];
    }
  }

  /** Stopping inside a page leaves a prefix of all the items. */
  lemma PartOfAll(pages: seq<Page>, page: nat, i: nat)
    requires Ends(pages) && page <= LastPage(pages, 0) && i <= |PageItems(pages[page])|
    ensures ItemsOf(pages[..page]) + PageItems(pages[page])[..i] <= AllItems(pages)
  {
    ItemsPrefix(pages, page + 1, LastPage(pages, 0) + 1);
    OnePageMore(pages, page);
    PartOfPrefix(ItemsOf(pages[..page]), PageItems(pages[page]), AllItems(pages), i);
  }

  lemma PartOfPrefix(before: seq<Item>, items: seq<Item>, all: seq<Item>, i: nat)
    requires before + items <= all && i <= |items|
    ensures before + items[..i] <= all
  {
    assert before + items[..i] == (before + items)[..|before| + i];
  }

  lemma OnePageMore(pages: seq<Page>, page: nat)
    requires page < |pages|
    ensures ItemsOf(pages[..page + 1]) == ItemsOf(pages[..page]) + PageItems(pages[page])
  {
    assert pages[..page + 1][..page] == pages[..page];
  }

  lemma PageFollows(pages: seq<Page>, page: nat)
    requires Ends(pages) && page <= LastPage(pages, 0)
    ensures if pages[page].hasNextPage then page + 1 <= LastPage(pages, 0) else AllItems(pages) == ItemsOf(pages[..page + 1])
  {
  }

  predicate Reached(limit: Option<int>, count: nat) {
    limit.Some? && count >= limit.value
  }

  /** Between page requests: what is taken is a prefix of all the items, and unless the limit is
      reached it is everything on the pages so far. */
  ghost predicate Progress(pages: seq<Page>, limit: Option<int>, page: nat, more: bool, done: seq<Item>)
    requires Ends(pages)
  {
    && done <= AllItems(pages)
    && (limit.Some? ==> |done| <= limit.value || done == [])
    && (!Reached(limit, |done|) && more ==> page <= LastPage(pages, 0) && done == ItemsOf(pages[..page]))
    && (!Reached(limit, |done|) && !more ==> done == AllItems(pages))
  }

  /** The generator's variables, and the items it has taken. */
  datatype Fetch = Fetch(batches: seq<Batch>, results: seq<Item>, totalCount: int, fetchedCount: nat, batchIndex: nat)

  /** The state of the generator between page requests. */
  ghost predicate Between(pages: seq<Page>, limit: Option<int>, page: nat, more: bool, f: Fetch, done: seq<Item>)
    requires Ends(pages)
  {
    && Progress(pages, limit, page, more, done) && Requested(pages, limit, page, more, done)
    && Working(f.batches, f.results, f.batchIndex, done) && AllCounted(pages, f.batches)
    && f.fetchedCount == |done| && f.totalCount == TotalAfter(pages, page)
  }

  lemma NothingTaken(pages: seq<Page>, limit: Option<int>)
    requires Ends(pages)
    ensures Between(pages, limit, 0, true, Fetch([], [], 0, 0, 1), [])
  {
    assert pages[..0] == [];
  }

  lemma PageAnswered(pages: seq<Page>, limit: Option<int>, page: nat, f: Fetch, done: seq<Item>)
    requires Ends(pages) && Between(pages, limit, page, true, f, done) && !Reached(limit, f.fetchedCount)
    ensures page < |pages|
  {
  }

  lemma PageTaken(pages: seq<Page>, limit: Option<int>, page: nat, done: seq<Item>, taken: nat)
    requires Ends(pages) && Progress(pages, limit, page, true, done) && !Reached(limit, |done|)
    requires taken <= |PageItems(pages[page])| && (limit.Some? ==> |done| + taken <= limit.value)
    requires taken == |PageItems(pages[page])| || Reached(limit, |done| + taken)
    ensures Progress(pages, limit, page + 1, pages[page].hasNextPage, done + PageItems(pages[page])[..taken])
  {
    PartOfAll(pages, page, taken);
    var after := done + PageItems(pages[page])[..taken];
    if !Reached(limit, |after|) {
      WholePage(PageItems(pages[page]), taken);
      OnePageMore(pages, page);
      PageFollows(pages, page);
    }
  }

  lemma WholePage(items: seq<Item>, taken: nat)
    requires taken == |items|
    ensures items[..taken] == items
  {
  }

  lemma AllTaken(pages: seq<Page>, limit: Option<int>, page: nat, more: bool, done: seq<Item>)
    requires Ends(pages) && Progress(pages, limit, page, more, done) && (!more || Reached(limit, |done|))
    ensures done == Take(AllItems(pages), limit)
  {
  }

  ghost predicate Working(batches: seq<Batch>, results: seq<Item>, batchIndex: nat, done: seq<Item>) {
    AllFull(batches) && Concat(batches) + results == done && |results| < WORK_BATCH_SIZE && batchIndex == |batches| + 1
  }

  // ---- the total a batch carries ----

  /** The total known after the first p answers. */
  function TotalAfter(pages: seq<Page>, p: nat): int
    requires p <= |pages|
  {
    if p == 0 then 0
    else if pages[p - 1].totalCount.Some? then pages[p - 1].totalCount.value else TotalAfter(pages, p - 1)
  }

  /** The total is that of the last of the first p answers that has one, and 0 when none has. */
  ghost predicate TotalKnown(pages: seq<Page>, p: nat, total: int)
    requires p <= |pages|
  {
    || (total == 0 && forall k :: 0 <= k < p ==> pages[k].totalCount.None?)
    || exists k :: 0 <= k < p && pages[k].totalCount == Some(total) && forall j :: k < j < p ==> pages[j].totalCount.None?
  }

  lemma {:induction false} TotalExactly(pages: seq<Page>, p: nat, total: int)
    requires p <= |pages|
    ensures TotalKnown(pages, p, total) <==> total == TotalAfter(pages, p)
  {
    if p > 0 {
      TotalExactly(pages, p - 1, total);
      if pages[p - 1].totalCount.Some? && TotalKnown(pages, p, total) {
        assert pages[p - 1].totalCount == Some(total);
      } else if pages[p - 1].totalCount.None? && total != 0 {
        assert TotalKnown(pages, p, total) <==> TotalKnown(pages, p - 1, total);
      }
    }
  }

  /** The item that filled the batch is on this page, and the batch carries the total known then. */
  ghost predicate FilledBy(pages: seq<Page>, b: Batch, page: nat)
    requires page < |pages|
  {
    && |ItemsOf(pages[..page])| < b.fetchedCount <= |ItemsOf(pages[..page + 1])|
    && TotalKnown(pages, page + 1, b.totalCount)
  }

  ghost predicate Counted(pages: seq<Page>, b: Batch) {
    exists page: nat :: page < |pages| && FilledBy(pages, b, page)
  }

  ghost predicate AllCounted(pages: seq<Page>, batches: seq<Batch>) {
    forall i :: 0 <= i < |batches| ==> Counted(pages, batches[i])
  }

  /** No page is requested after the first r. */
  predicate Stop(pages: seq<Page>, limit: Option<int>, r: nat)
    requires r <= |pages|
  {
    Reached(limit, |ItemsOf(pages[..r])|) || (r > 0 && !pages[r - 1].hasNextPage)
  }

  /** No stop comes before the first r pages. */
  ghost predicate GoesOn(pages: seq<Page>, limit: Option<int>, r: nat)
    requires r <= |pages|
  {
    r == 0 || (!Stop(pages, limit, r - 1) && GoesOn(pages, limit, r - 1))
  }

  /** After r pages no more are requested, and before they were. */
  ghost predicate Requests(pages: seq<Page>, limit: Option<int>, r: nat)
    requires r <= |pages|
  {
    Stop(pages, limit, r) && GoesOn(pages, limit, r)
  }

  /** A last batch that is not full carries the total known with the last page requested. */
  ghost predicate CountedLast(pages: seq<Page>, limit: Option<int>, b: Batch) {
    exists r: nat :: r <= |pages| && Requests(pages, limit, r) && TotalKnown(pages, r, b.totalCount)
  }

  ghost predicate WellTotalled(pages: seq<Page>, limit: Option<int>, batches: seq<Batch>) {
    forall i :: 0 <= i < |batches| ==>
      if |batches[i].items| == WORK_BATCH_SIZE then Counted(pages, batches[i]) else CountedLast(pages, limit, batches[i])
  }

  /** The batches handed out since carry this total, and running totals above lo up to hi. */
  ghost predicate Emitted(before: seq<Batch>, after: seq<Batch>, totalCount: int, lo: nat, hi: nat) {
    before <= after && forall i :: |before| <= i < |after| ==> after[i].totalCount == totalCount && lo < after[i].fetchedCount <= hi
  }

  lemma CountedMore(pages: seq<Page>, page: nat, before: seq<Batch>, after: seq<Batch>, lo: nat, hi: nat)
    requires page < |pages| && AllCounted(pages, before) && Emitted(before, after, TotalAfter(pages, page + 1), lo, hi)
    requires lo == |ItemsOf(pages[..page])| && hi <= |ItemsOf(pages[..page + 1])|
    ensures AllCounted(pages, after)
  {
    TotalExactly(pages, page + 1, TotalAfter(pages, page + 1));
    forall i | 0 <= i < |after| ensures Counted(pages, after[i]) {
      if i < |before| {
        assert after[i] == before[i];
      } else {
        assert FilledBy(pages, after[i], page);
      }
    }
  }

  /** Every page requested so far had to be. */
  ghost predicate Requested(pages: seq<Page>, limit: Option<int>, page: nat, more: bool, done: seq<Item>) {
    && page <= |pages| && |done| <= |ItemsOf(pages[..page])|
    && (page > 0 ==> more == pages[page - 1].hasNextPage) && (page == 0 ==> more)
    && GoesOn(pages, limit, page)
  }

  lemma RequestedMore(pages: seq<Page>, limit: Option<int>, page: nat, done: seq<Item>, after: seq<Item>)
    requires Requested(pages, limit, page, true, done) && page < |pages| && done == ItemsOf(pages[..page])
    requires !Reached(limit, |done|) && |after| <= |ItemsOf(pages[..page + 1])|
    ensures Requested(pages, limit, page + 1, pages[page].hasNextPage, after)
  {
  }

  lemma LastCounted(pages: seq<Page>, limit: Option<int>, page: nat, more: bool, done: seq<Item>, b: Batch)
    requires Requested(pages, limit, page, more, done) && (!more || Reached(limit, |done|))
    requires b.totalCount == TotalAfter(pages, page)
    ensures CountedLast(pages, limit, b)
  {
    TotalExactly(pages, page, b.totalCount);
    assert Requests(pages, limit, page);
  }

  // ---- what the items are ----

  /** The nodes of all pages, one after the other. */
  function NodesOf(pages: seq<Page>): seq<Node> {
    if pages == [] then []
    else
      var last := pages[|pages| - 1].nodes;
      NodesOf(pages[..|pages| - 1]) + if last.Some? then last.value else []
  }

  /** The item is the node, with an empty body and no labels where the node has none. */
  predicate ItemIs(item: Item, n: Node) {
    && item.number == n.number && item.title == n.title
    && (n.body == Some(item.body) || (n.body.None? && item.body == ""))
    && (n.labels == Some(item.labels) || (n.labels.None? && item.labels == []))
  }

  lemma {:induction false} ItemsMean(pages: seq<Page>)
    ensures |ItemsOf(pages)| == |NodesOf(pages)|
    ensures forall k :: 0 <= k < |ItemsOf(pages)| ==> ItemIs(ItemsOf(pages)[k], NodesOf(pages)[k])
  {
    if pages != [] {
      ItemsMean(pages[..|pages| - 1]);
    }
  }

  /** The items batched are the nodes of the pages up to the last, in order, and as many as the limit
      allows. */
  lemma BatchedNodes(pages: seq<Page>, limit: Option<int>)
    requires Ends(pages)
    ensures var items, nodes := Take(AllItems(pages), limit), NodesOf(pages[..LastPage(pages, 0) + 1]);
      && |items| == (if limit.None? || limit.value > |nodes| then |nodes| else if limit.value > 0 then limit.value else 0)
      && forall k :: 0 <= k < |items| ==> ItemIs(items[k], nodes[k])
  {
    ItemsMean(pages[..LastPage(pages, 0) + 1]);
  }

  /** The generator run to its end; pages[k] is what the k-th request is answered with. */
  method FetchOpenLabelItemBatches(pages: seq<Page>, limit: Option<int>) returns (batches: seq<Batch>)
    requires Ends(pages)
    ensures Concat(batches) == Take(AllItems(pages), limit)
    ensures WellBatched(batches) && RunningTotals(batches) && WellTotalled(pages, limit, batches)
  {
    var f := Fetch([], [], 0, 0, 1);
    var page := 0;
    var more := true;
    ghost var done: seq<Item> := [];
    NothingTaken(pages, limit);
    while more && !Reached(limit, f.fetchedCount)
      invariant Between(pages, limit, page, more, f, done)
      decreases more, |pages| - page
    {
      PageAnswered(pages, limit, page, f, done);
      f, done := TakePage(pages, page, limit, f, done);
      more := pages[page].hasNextPage;
      page := page + 1;
    }
    batches := Finish(pages, limit, page, more, f, done);
  }

  /** After the last page: hand out what is left. */
  method Finish(pages: seq<Page>, limit: Option<int>, ghost page: nat, ghost more: bool, f: Fetch, ghost done: seq<Item>)
      returns (batches: seq<Batch>)
    requires Ends(pages) && Between(pages, limit, page, more, f, done) && (!more || Reached(limit, f.fetchedCount))
    ensures Concat(batches) == Take(AllItems(pages), limit)
    ensures WellBatched(batches) && RunningTotals(batches) && WellTotalled(pages, limit, batches)
  {
    AllTaken(pages, limit, page, more, done);
    batches := Flush(f.batches, f.results, f.batchIndex, f.totalCount, f.fetchedCount, done);
    if |batches| > |f.batches| {
      LastCounted(pages, limit, page, more, done, batches[|f.batches|]);
    }
    TotalledEnd(pages, limit, f.batches, batches);
  }

  lemma TotalledEnd(pages: seq<Page>, limit: Option<int>, full: seq<Batch>, batches: seq<Batch>)
    requires AllFull(full) && AllCounted(pages, full) && full <= batches && |batches| <= |full| + 1
    requires |batches| > |full| ==> |batches[|full|].items| < WORK_BATCH_SIZE && CountedLast(pages, limit, batches[|full|])
    ensures WellTotalled(pages, limit, batches)
  {
    forall i | 0 <= i < |batches|
      ensures if |batches[i].items| == WORK_BATCH_SIZE then Counted(pages, batches[i]) else CountedLast(pages, limit, batches[i])
    {
      if i < |full| {
        FullCounted(pages, full, i);
        assert batches[i] == full[i];
      } else {
        assert i == |full|;
      }
    }
  }

  lemma FullCounted(pages: seq<Page>, full: seq<Batch>, i: nat)
    requires AllFull(full) && AllCounted(pages, full) && i < |full|
    ensures |full[i].items| == WORK_BATCH_SIZE && Counted(pages, full[i])
  {
  }

  /** The last batch, unless nothing is left for it. */
  method Flush(batches0: seq<Batch>, results: seq<Item>, batchIndex: nat, totalCount: int, fetchedCount: nat, ghost done: seq<Item>)
      returns (batches: seq<Batch>)
    requires Working(batches0, results, batchIndex, done) && fetchedCount == |done|
    ensures Concat(batches) == done && WellBatched(batches) && RunningTotals(batches)
    ensures batches == batches0 || batches == batches0 + [Batch(batchIndex, results, totalCount, fetchedCount)]
  {
    batches := batches0;
    if |results| > 0 {
      var batch := Batch(batchIndex, results, totalCount, fetchedCount);
      ConcatOneMore(batches, batch);
      batches := batches + [batch];
    }
  }

  /** One request and its answer. */
  method TakePage(pages: seq<Page>, page: nat, limit: Option<int>, before: Fetch, ghost done0: seq<Item>)
      returns (f: Fetch, ghost done: seq<Item>)
    requires Ends(pages) && Between(pages, limit, page, true, before, done0) && !Reached(limit, before.fetchedCount)
    requires page < |pages|
    ensures Between(pages, limit, page + 1, pages[page].hasNextPage, f, done)
  {
    var pageData := pages[page];
    var totalCount := if pageData.totalCount.Some? then pageData.totalCount.value else before.totalCount;
    ghost var taken;
    var batches, results, fetchedCount, batchIndex;
    batches, results, fetchedCount, batchIndex, taken, done :=
      DrainPage(PageItems(pageData), limit, totalCount, before.batches, before.results, before.fetchedCount,
                before.batchIndex, done0);
    PageTaken(pages, limit, page, done0, taken);
    OnePageMore(pages, page);
    CountedMore(pages, page, before.batches, batches, |done0|, |done|);
    RequestedMore(pages, limit, page, done0, done);
    f := Fetch(batches, results, totalCount, fetchedCount, batchIndex);
  }

  /** The inner loop: one page's items, up to the limit. */
  method DrainPage(items: seq<Item>, limit: Option<int>, totalCount: int, batches0: seq<Batch>, results0: seq<Item>,
                   fetched0: nat, index0: nat, ghost done0: seq<Item>)
      returns (batches: seq<Batch>, results: seq<Item>, fetchedCount: nat, batchIndex: nat, ghost taken: nat, ghost done: seq<Item>)
    requires Working(batches0, results0, index0, done0) && fetched0 == |done0| && !Reached(limit, fetched0)
    ensures Working(batches, results, batchIndex, done) && fetchedCount == |done|
    ensures taken <= |items| && done == done0 + items[..taken]
    ensures limit.Some? ==> fetchedCount <= limit.value
    ensures taken == |items| || Reached(limit, fetchedCount)
    ensures Emitted(batches0, batches, totalCount, |done0|, |done|)
  {
    batches, results, fetchedCount, batchIndex, done := batches0, results0, fetched0, index0, done0;
    taken := 0;
    for i := 0 to |items|
      invariant taken == i && done == done0 + items[..i]
      invariant Working(batches, results, batchIndex, done) && fetchedCount == |done|
      invariant limit.Some? ==> fetchedCount <= limit.value
      invariant Emitted(batches0, batches, totalCount, |done0|, |done|)
    {
      if Reached(limit, fetchedCount) {
        break;
      }
      batches, results, batchIndex := PushItem(items[i], totalCount, fetchedCount + 1, batches, results, batchIndex, done);
      fetchedCount := fetchedCount + 1;
      done := done + [items[i]];
      taken := i + 1;
    }
  }

  /** Add one item and hand out the batch it fills. */
  method PushItem(item: Item, totalCount: int, fetchedCount: nat, batches0: seq<Batch>, results0: seq<Item>, index0: nat,
                  ghost done: seq<Item>)
      returns (batches: seq<Batch>, results: seq<Item>, batchIndex: nat)
    requires Working(batches0, results0, index0, done) && fetchedCount == |done| + 1
    ensures Working(batches, results, batchIndex, done + [item])
    ensures batches == batches0 || batches == batches0 + [Batch(index0, results0 + [item], totalCount, fetchedCount)]
  {
    batches, results, batchIndex := batches0, results0 + [item], index0;
    assert Concat(batches0) + (results0 + [item]) == (Concat(batches0) + results0) + [item];
    if |results| >= WORK_BATCH_SIZE {
      var batch := Batch(batchIndex, results, totalCount, fetchedCount);
      ConcatOneMore(batches, batch);
      batches, results, batchIndex := batches + [batch], [], batchIndex + 1;
    }
  }
}
