/**
 * The collector (main.py): one search-result node is flattened into one
 * repository record, pages of search results are fetched and accumulated
 * until at least 100 records are held or the endpoint reports that no page
 * follows, and the five summary rows are computed from the records.
 *
 * The remote endpoint is a parameter: a total function from the cursor sent
 * with a query to the reply received.  Timestamps are whole seconds since
 * the epoch, and the clock reading `now` is a parameter.
 */
module Collector {
  import opened Wrappers
  import opened Statistics

  /** Records are fetched until at least this many are held. */
  const Target: nat := 100
  /** The only HTTP status the query accepts. */
  const StatusOk: int := 200
  const SecondsPerDay: int := 86400

  datatype Owner = Owner(login: string)
  datatype Language = Language(name: string)

  /** One repository as the search query returns it. */
  datatype RepoNode = RepoNode(
    name: string,
    owner: Owner,
    createdAt: int,
    updatedAt: int,
    primaryLanguage: Option<Language>,
    mergedPullRequests: int,
    releases: int,
    issues: int,
    closedIssues: int,
    stargazerCount: int,
    url: string)

  datatype Edge = Edge(node: RepoNode)

  /** One page of search results with its pagination information. */
  datatype Page = Page(edges: seq<Edge>, endCursor: Option<string>, hasNextPage: bool)

  /** An HTTP reply: its status, its body text and, for status 200, the page it carries. */
  datatype Reply = Reply(status: int, text: string, page: Page)

  /** The remote endpoint: the reply to a query sent with a given cursor. */
  type Endpoint = Option<string> -> Reply

  /** One flat repository record, as written to the records file. */
  datatype Record = Record(
    name: string,
    owner: string,
    url: string,
    stars: int,
    primaryLanguage: Option<string>,
    ageDays: int,
    acceptedPullRequests: int,
    totalReleases: int,
    daysSinceUpdate: int,
    percentClosedIssues: real)

  /** What the collection loop ends with: every record, or the failed query's status and body. */
  datatype Outcome = Collected(repos: seq<Record>) | Failed(status: int, text: string)

  /**
   * Whole days elapsed from `t` to `now`, rounded down as a time
   * difference's day count is.
   */
  function DaysBetween(t: int, now: int): int
  {
    (now - t) / SecondsPerDay
  }

  /** The day count is the whole number of days in the elapsed time, never negative for a past instant. */
  lemma DaysBetweenFloor(t: int, now: int)
    ensures DaysBetween(t, now) * SecondsPerDay <= now - t < (DaysBetween(t, now) + 1) * SecondsPerDay
    ensures t <= now ==> DaysBetween(t, now) >= 0
  {
  }

  /** Share of closed issues in percent, 0 when the repository has no issues. */
  function PercentClosed(closed: int, total: int): real
  {
    if total > 0 then (closed as real) / (total as real) * 100.0 else 0.0
  }

  /** The share is exactly 0 without issues, and otherwise `closed` is that share of `total`. */
  lemma PercentClosedMeaning(closed: int, total: int)
    ensures total <= 0 ==> PercentClosed(closed, total) == 0.0
    ensures total > 0 ==> PercentClosed(closed, total) * (total as real) == (closed as real) * 100.0
  {
  }

  /** A share of closed issues never exceeds the whole. */
  lemma PercentInRange(closed: int, total: int)
    requires 0 <= closed <= total
    ensures 0.0 <= PercentClosed(closed, total) <= 100.0
  {
    if 0 < total {
      QuotientBetween(closed as real, total as real, 0.0, 1.0);
    }
  }

  /** Example: 3 closed issues out of 10 is 30 percent. */
  lemma PercentExample()
    ensures PercentClosed(3, 10) == 30.0
  {
  }

  /** One node becomes one record. */
  function Normalize(node: RepoNode, now: int): Record
  {
    Record(
      node.name,
      node.owner.login,
      node.url,
      node.stargazerCount,
      if node.primaryLanguage.Some? then Some(node.primaryLanguage.value.name) else None,
      DaysBetween(node.createdAt, now),
      node.mergedPullRequests,
      node.releases,
      DaysBetween(node.updatedAt, now),
      PercentClosed(node.closedIssues, node.issues))
  }

  /**
   * The language is absent exactly when the node has none, the names and
   * counts are copied, the ages are whole days before `now`, and the
   * closed-issue share is a percentage.
   */
  lemma NormalizeFacts(node: RepoNode, now: int)
    ensures var r := Normalize(node, now);
            && (r.primaryLanguage.None? <==> node.primaryLanguage.None?)
            && (node.primaryLanguage.Some? ==> r.primaryLanguage == Some(node.primaryLanguage.value.name))
            && r.name == node.name && r.owner == node.owner.login && r.url == node.url
            && r.stars == node.stargazerCount
            && r.acceptedPullRequests == node.mergedPullRequests && r.totalReleases == node.releases
            && r.ageDays == DaysBetween(node.createdAt, now) && r.daysSinceUpdate == DaysBetween(node.updatedAt, now)
            && r.percentClosedIssues == PercentClosed(node.closedIssues, node.issues)
            && (node.createdAt <= now ==> r.ageDays >= 0)
            && (node.updatedAt <= now ==> r.daysSinceUpdate >= 0)
            && (node.issues <= 0 ==> r.percentClosedIssues == 0.0)
            && (0 <= node.closedIssues <= node.issues ==> 0.0 <= r.percentClosedIssues <= 100.0)
  {
    DaysBetweenFloor(node.createdAt, now);
    DaysBetweenFloor(node.updatedAt, now);
    if 0 <= node.closedIssues <= node.issues {
      PercentInRange(node.closedIssues, node.issues);
    }
  }

  /** The records of one page, one per edge, in edge order. */
  function NormalizeEdges(edges: seq<Edge>, now: int): (rs: seq<Record>)
    ensures |rs| == |edges|
    ensures forall i :: 0 <= i < |edges| ==> rs[i] == Normalize(edges[i].node, now)
  {
    if edges == [] then []
    else NormalizeEdges(edges[..|edges| - 1], now) + [Normalize(edges[|edges| - 1].node, now)]
  }

  // ---------------------------------------------------------------------
  // The pages the collector sees: the first query carries no cursor, each
  // later one the end cursor of the page before.

  /** The cursor sent with query number `k` (counting from 0). */
  function CursorAt(fetch: Endpoint, k: nat): Option<string>
  {
    if k == 0 then None else fetch(CursorAt(fetch, k - 1)).page.endCursor
  }

  /** The reply to query number `k`. */
  function ReplyAt(fetch: Endpoint, k: nat): Reply
  {
    fetch(CursorAt(fetch, k))
  }

  /** The number of edges on the first `k` pages. */
  function EdgesBefore(fetch: Endpoint, k: nat): nat
  {
    if k == 0 then 0 else EdgesBefore(fetch, k - 1) + |ReplyAt(fetch, k - 1).page.edges|
  }

  /** The records of the first `k` pages, page after page. */
  function RecordsBefore(fetch: Endpoint, now: int, k: nat): seq<Record>
  {
    if k == 0 then [] else RecordsBefore(fetch, now, k - 1) + NormalizeEdges(ReplyAt(fetch, k - 1).page.edges, now)
  }

  /**
   * Query number `k` is the last one if it fails, if it brings the running
   * total to the target, or if its page says that no page follows.
   */
  predicate StopsAt(fetch: Endpoint, k: nat)
  {
    ReplyAt(fetch, k).status != StatusOk || EdgesBefore(fetch, k + 1) >= Target || !ReplyAt(fetch, k).page.hasNextPage
  }

  /** No query before number `n` is the last one. */
  ghost predicate NoStopBefore(fetch: Endpoint, n: nat)
  {
    forall j :: 0 <= j < n ==> !StopsAt(fetch, j)
  }

  /** Query number `k` is the one the collection loop ends with. */
  ghost predicate IsLastQuery(fetch: Endpoint, k: nat)
  {
    StopsAt(fetch, k) && NoStopBefore(fetch, k)
  }

  /** At most one query is the last one. */
  lemma LastQueryUnique(fetch: Endpoint, k1: nat, k2: nat)
    requires IsLastQuery(fetch, k1) && IsLastQuery(fetch, k2)
    ensures k1 == k2
  {
  }

  /**
   * What collecting ends with when query `k` is the last one: its status
   * and body and no records if it failed; otherwise the records of every
   * page up to and including page `k`.
   */
  function OutcomeAt(fetch: Endpoint, now: int, k: nat): Outcome
  {
    var reply := ReplyAt(fetch, k);
    if reply.status != StatusOk then Failed(reply.status, reply.text)
    else Collected(RecordsBefore(fetch, now, k + 1))
  }

  /** The running total of fetched edges is the number of records held. */
  lemma {:induction false} RecordCount(fetch: Endpoint, now: int, k: nat)
    ensures |RecordsBefore(fetch, now, k)| == EdgesBefore(fetch, k)
  {
    if k > 0 {
      RecordCount(fetch, now, k - 1);
    }
  }

  /** Records once held stay at the front: later pages only append. */
  lemma {:induction false} RecordsPrefix(fetch: Endpoint, now: int, j: nat, k: nat)
    requires j <= k
    ensures RecordsBefore(fetch, now, j) <= RecordsBefore(fetch, now, k)
    decreases k
  {
    if j < k {
      RecordsPrefix(fetch, now, j, k - 1);
      PrefixOfLonger(RecordsBefore(fetch, now, j), RecordsBefore(fetch, now, k - 1), NormalizeEdges(ReplyAt(fetch, k - 1).page.edges, now));
    }
  }

  lemma PrefixOfLonger<T>(a: seq<T>, b: seq<T>, c: seq<T>)
    requires a <= b
    ensures a <= b + c
  {
    assert (b + c)[..|a|] == b[..|a|];
  }

  /**
   * The records are the pages' edges in order: edge `e` of page `j` is
   * normalised into the record right after those of the pages before.
   */
  lemma RecordOfEdge(fetch: Endpoint, now: int, k: nat, j: nat, e: nat)
    requires j < k && e < |ReplyAt(fetch, j).page.edges|
    ensures EdgesBefore(fetch, j) + e < |RecordsBefore(fetch, now, k)|
    ensures RecordsBefore(fetch, now, k)[EdgesBefore(fetch, j) + e] == Normalize(ReplyAt(fetch, j).page.edges[e].node, now)
  {
    var page := NormalizeEdges(ReplyAt(fetch, j).page.edges, now);
    RecordCount(fetch, now, j);
    RecordsPrefix(fetch, now, j + 1, k);
    IndexPastPrefix(RecordsBefore(fetch, now, j), page, RecordsBefore(fetch, now, k), e);
  }

  /** Index `|a| + e` of anything that starts with `a + b` is `b[e]`. */
  lemma IndexPastPrefix<T>(a: seq<T>, b: seq<T>, c: seq<T>, e: nat)
    requires a + b <= c && e < |b|
    ensures |a| + e < |c| && c[|a| + e] == b[e]
  {
    assert (a + b)[|a| + e] == b[e];
  }

  /**
   * When the last query succeeds, its page either reached the target or had
   * no successor, every earlier query succeeded with a successor and stayed
   * below the target, and the records overshoot the target by less than the
   * last page's size: nothing is trimmed.
   */
  lemma CollectedStops(fetch: Endpoint, now: int, k: nat)
    requires IsLastQuery(fetch, k) && OutcomeAt(fetch, now, k).Collected?
    ensures var repos := OutcomeAt(fetch, now, k).repos;
            && |repos| == EdgesBefore(fetch, k + 1)
            && (|repos| >= Target || !ReplyAt(fetch, k).page.hasNextPage)
            && |repos| < Target + |ReplyAt(fetch, k).page.edges|
    ensures forall j :: 0 <= j < k ==>
              ReplyAt(fetch, j).status == StatusOk && ReplyAt(fetch, j).page.hasNextPage && EdgesBefore(fetch, j + 1) < Target
  {
    RecordCount(fetch, now, k + 1);
    forall j | 0 <= j < k
      ensures ReplyAt(fetch, j).status == StatusOk && ReplyAt(fetch, j).page.hasNextPage && EdgesBefore(fetch, j + 1) < Target
    {
      assert !StopsAt(fetch, j);
    }
  }

  /** The inner loop of `main`: one record appended per edge of the page, in edge order. */
  method AppendPage(repos: seq<Record>, edges: seq<Edge>, now: int) returns (extended: seq<Record>)
    ensures extended == repos + NormalizeEdges(edges, now)
  {
    extended := repos;
    for i := 0 to |edges|
      invariant extended == repos + NormalizeEdges(edges[..i], now)
    {
      assert edges[..i + 1][..i] == edges[..i];
      extended := extended + [Normalize(edges[i].node, now)];
    }
    assert edges[..|edges|] == edges;
  }

  /**
   * The collection loop of `main`.  Each query carries the cursor of the
   * page before (none at first); a failed query ends the run with nothing
   * collected; otherwise the page's records are appended one per edge, the
   * running total grows by the page's size, and the loop ends once the
   * total reaches the target or the page has no successor.  The outcome
   * is that of the last query: the first one at which the loop stops.
   *
   * The source loops forever if the endpoint never stops; `last` names a
   * query that would end the loop, so that it is known to end.
   */
  method CollectRepositories(fetch: Endpoint, now: int, ghost last: nat) returns (outcome: Outcome)
    requires StopsAt(fetch, last)
    ensures exists k: nat :: k <= last && IsLastQuery(fetch, k) && outcome == OutcomeAt(fetch, now, k)
  {
    var repos: seq<Record> := [];
    var cursor: Option<string> := None;
    var totalFetched: nat := 0;
    ghost var pages: nat := 0;
    while totalFetched < Target
      invariant pages <= last + 1
      invariant cursor == CursorAt(fetch, pages)
      invariant repos == RecordsBefore(fetch, now, pages)
      invariant totalFetched == EdgesBefore(fetch, pages)
      invariant totalFetched < Target ==> NoStopBefore(fetch, pages)
      invariant totalFetched >= Target ==> 0 < pages && NoStopBefore(fetch, pages - 1)
      invariant 0 < pages ==> ReplyAt(fetch, pages - 1).status == StatusOk
      decreases last + 1 - pages
    {
      var reply := fetch(cursor);
      assert reply == ReplyAt(fetch, pages);
      if reply.status != StatusOk {
        assert IsLastQuery(fetch, pages);
        return Failed(reply.status, reply.text);
      }
      var page := reply.page;
      repos := AppendPage(repos, page.edges, now);
      totalFetched := totalFetched + |page.edges|;
      pages := pages + 1;
      if !page.hasNextPage {
        break;
      }
      assert totalFetched < Target ==> !StopsAt(fetch, pages - 1);
      cursor := page.endCursor;
    }
    outcome := Collected(repos);
    assert IsLastQuery(fetch, pages - 1) && outcome == OutcomeAt(fetch, now, pages - 1);
  }

  // ---------------------------------------------------------------------
  // The summary rows written after collection.

  datatype SummaryRow = SummaryRow(question: string, stats: Summary)

  /** The research questions of the summary file, in the order of its rows. */
  const Questions: seq<string> := [
    "RQ01 - Idade do repositório (dias)",
    "RQ02 - Pull requests aceitas",
    "RQ03 - Total releases",
    "RQ04 - Dias desde última atualização",
    "RQ06 - % Issues fechadas"
  ]

  /** The value of a record that research question `k` is about. */
  function Measure(r: Record, k: nat): real
    requires k < 5
  {
    match k
    case 0 => r.ageDays as real
    case 1 => r.acceptedPullRequests as real
    case 2 => r.totalReleases as real
    case 3 => r.daysSinceUpdate as real
    case 4 => r.percentClosedIssues
  }

  /** The column of research question `k`: one value per record, in record order. */
  function Column(repos: seq<Record>, k: nat): (column: seq<real>)
    requires k < 5
    ensures |column| == |repos|
    ensures forall i :: 0 <= i < |repos| ==> column[i] == Measure(repos[i], k)
  {
    seq(|repos|, i requires 0 <= i < |repos| => Measure(repos[i], k))
  }

  /** One row of the summary file: a research question and the statistics of its column. */
  function Row(question: string, column: seq<real>): (row: SummaryRow)
    ensures row.question == question && row.stats == Summarize(column)
    ensures row.stats == Summary(None, None, None, None) <==> column == []
    ensures column != [] ==> row.stats.min.Some? && row.stats.max.Some? && row.stats.mean.Some? && row.stats.median.Some?
    ensures column != [] ==> row.stats.min.value <= row.stats.mean.value <= row.stats.max.value
    ensures column != [] ==> row.stats.min.value <= row.stats.median.value <= row.stats.max.value
  {
    SummaryRow(question, Summarize(column))
  }

  /**
   * The five summary rows, one per research question in order, each
   * summarising that question's column: all of them empty exactly when
   * there are no records.
   */
  function SummaryTable(repos: seq<Record>): (rows: seq<SummaryRow>)
    ensures |rows| == |Questions|
    ensures forall k :: 0 <= k < |rows| ==> rows[k].question == Questions[k]
    ensures forall k :: 0 <= k < |rows| ==> rows[k].stats == Summarize(Column(repos, k))
    ensures forall k :: 0 <= k < |rows| ==> (rows[k].stats == Summary(None, None, None, None) <==> repos == [])
  {
    seq(5, k requires 0 <= k < 5 => Row(Questions[k], Column(repos, k)))
  }
}
