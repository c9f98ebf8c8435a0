/**
 * The two data steps of the chart script (graficos.py), over the records
 * the collector writes out:
 *
 *  - the language table of `coletar_dados`: records grouped by primary
 *    language (records without one form no group), each group's size and
 *    accepted pull requests added up, rows ordered by group size, largest
 *    first;
 *  - the box-plot data of `grafico_boxplot`: accepted pull requests, in
 *    hundreds, placed in the left-closed intervals with edges
 *    0, 100, ..., 500, and the records kept whose star count is one of the
 *    star counts of the first five records.
 */
module Reporter {
  import opened Wrappers
  import opened Collector

  // ------------------------------------------------------------------
  // Language table
  // ------------------------------------------------------------------

  /** One row of the language file: a language, how many records have it, and their accepted pull requests. */
  datatype LanguageRow = LanguageRow(language: string, repositories: nat, acceptedPulls: int)

  /** How many records have primary language `l`. */
  function CountLanguage(repos: seq<Record>, l: string): nat
  {
    if repos == [] then 0
    else
      var n := |repos| - 1;
      CountLanguage(repos[..n], l) + (if repos[n].primaryLanguage == Some(l) then 1 else 0)
  }

  /** The accepted pull requests of the records with primary language `l`, added up. */
  function PullsOfLanguage(repos: seq<Record>, l: string): int
  {
    if repos == [] then 0
    else
      var n := |repos| - 1;
      PullsOfLanguage(repos[..n], l) + (if repos[n].primaryLanguage == Some(l) then repos[n].acceptedPullRequests else 0)
  }

  /** How many records have a primary language at all. */
  function KnownLanguageCount(repos: seq<Record>): nat
  {
    if repos == [] then 0
    else
      var n := |repos| - 1;
      KnownLanguageCount(repos[..n]) + (if repos[n].primaryLanguage.Some? then 1 else 0)
  }

  /** The accepted pull requests of the records that have a primary language, added up. */
  function KnownLanguagePulls(repos: seq<Record>): int
  {
    if repos == [] then 0
    else
      var n := |repos| - 1;
      KnownLanguagePulls(repos[..n]) + (if repos[n].primaryLanguage.Some? then repos[n].acceptedPullRequests else 0)
  }

  /** A language with no records has no accepted pull requests either. */
  lemma {:induction false} NoRecordsNoPulls(repos: seq<Record>, l: string)
    requires CountLanguage(repos, l) == 0
    ensures PullsOfLanguage(repos, l) == 0
  {
    if repos != [] {
      NoRecordsNoPulls(repos[..|repos| - 1], l);
    }
  }

  ghost predicate Distinct(langs: seq<string>)
  {
    forall i, j :: 0 <= i < j < |langs| ==> langs[i] != langs[j]
  }

  /**
   * The group keys: every primary language of the records once, in order
   * of first appearance; records without a language contribute none.
   */
  function LanguagesOf(repos: seq<Record>): (langs: seq<string>)
    ensures Distinct(langs)
    ensures forall l :: l in langs <==> CountLanguage(repos, l) > 0
  {
    if repos == [] then []
    else
      var n := |repos| - 1;
      var earlier := LanguagesOf(repos[..n]);
      match repos[n].primaryLanguage
      case None => earlier
      case Some(l) => if l in earlier then earlier else earlier + [l]
  }

  /** The aggregate row of language `l`. */
  function RowFor(repos: seq<Record>, l: string): LanguageRow
  {
    LanguageRow(l, CountLanguage(repos, l), PullsOfLanguage(repos, l))
  }

  /** Row `row` holds the size and the accepted pull requests of its own language's group. */
  predicate Tallies(repos: seq<Record>, row: LanguageRow)
  {
    row.repositories == CountLanguage(repos, row.language) && row.acceptedPulls == PullsOfLanguage(repos, row.language)
  }

  function RowsFor(repos: seq<Record>, langs: seq<string>): seq<LanguageRow>
  {
    seq(|langs|, k requires 0 <= k < |langs| => RowFor(repos, langs[k]))
  }

  /** The languages that have a row. */
  function LanguageSet(rows: seq<LanguageRow>): set<string>
  {
    set r | r in rows :: r.language
  }

  ghost predicate UniqueLanguages(rows: seq<LanguageRow>)
  {
    forall i, j :: 0 <= i < j < |rows| ==> rows[i].language != rows[j].language
  }

  function SumCounts(rows: seq<LanguageRow>): int
  {
    if rows == [] then 0 else rows[0].repositories + SumCounts(rows[1..])
  }

  function SumPulls(rows: seq<LanguageRow>): int
  {
    if rows == [] then 0 else rows[0].acceptedPulls + SumPulls(rows[1..])
  }

  /**
   * The groupby/count/sum step, before sorting: one row per language of the
   * records, each language in exactly one row, each row the tally of its
   * language.
   */
  function GroupByLanguage(repos: seq<Record>): (rows: seq<LanguageRow>)
    ensures UniqueLanguages(rows)
    ensures forall l :: l in LanguageSet(rows) <==> CountLanguage(repos, l) > 0
    ensures forall r :: r in rows ==> Tallies(repos, r)
  {
    var langs := LanguagesOf(repos);
    var rows := RowsFor(repos, langs);
    forall l ensures l in LanguageSet(rows) <==> l in langs {
      if l in langs {
        var k :| 0 <= k < |langs| && langs[k] == l;
        assert rows[k] in rows;
      }
    }
    rows
  }

  lemma {:induction false} SumsOfAppend(rows: seq<LanguageRow>, row: LanguageRow)
    ensures SumCounts(rows + [row]) == SumCounts(rows) + row.repositories
    ensures SumPulls(rows + [row]) == SumPulls(rows) + row.acceptedPulls
  {
    if rows != [] {
      assert (rows + [row])[1..] == rows[1..] + [row];
      SumsOfAppend(rows[1..], row);
    }
  }

  /** Appending one record to the data changes the tallies of distinct languages by that record alone. */
  lemma {:induction false} RowsForAppendRecord(repos: seq<Record>, r: Record, langs: seq<string>)
    requires Distinct(langs)
    ensures SumCounts(RowsFor(repos + [r], langs))
         == SumCounts(RowsFor(repos, langs)) + (if r.primaryLanguage.Some? && r.primaryLanguage.value in langs then 1 else 0)
    ensures SumPulls(RowsFor(repos + [r], langs))
         == SumPulls(RowsFor(repos, langs)) + (if r.primaryLanguage.Some? && r.primaryLanguage.value in langs then r.acceptedPullRequests else 0)
  {
    if langs != [] {
      var n := |langs| - 1;
      var m := langs[n];
      var extended := repos + [r];
      assert extended[..|repos|] == repos;
      assert RowsFor(extended, langs) == RowsFor(extended, langs[..n]) + [RowFor(extended, m)];
      assert RowsFor(repos, langs) == RowsFor(repos, langs[..n]) + [RowFor(repos, m)];
      assert langs == langs[..n] + [m];
      assert m !in langs[..n];
      RowsForAppendRecord(repos, r, langs[..n]);
      SumsOfAppend(RowsFor(extended, langs[..n]), RowFor(extended, m));
      SumsOfAppend(RowsFor(repos, langs[..n]), RowFor(repos, m));
    }
  }

  /**
   * The groups' sizes add up to the number of records that have a language,
   * and their accepted pull requests to those records' pull requests:
   * records without a language are dropped, no record is counted twice.
   */
  lemma {:induction false} GroupTotals(repos: seq<Record>)
    ensures SumCounts(GroupByLanguage(repos)) == KnownLanguageCount(repos)
    ensures SumPulls(GroupByLanguage(repos)) == KnownLanguagePulls(repos)
  {
    if repos != [] {
      var n := |repos| - 1;
      var earlier, r := repos[..n], repos[n];
      assert repos == earlier + [r];
      GroupTotals(earlier);
      var langs0 := LanguagesOf(earlier);
      RowsForAppendRecord(earlier, r, langs0);
      match r.primaryLanguage
      case None =>
      case Some(l) =>
        if l !in langs0 {
          var langs := langs0 + [l];
          assert LanguagesOf(repos) == langs;
          assert RowsFor(repos, langs) == RowsFor(repos, langs0) + [RowFor(repos, l)];
          SumsOfAppend(RowsFor(repos, langs0), RowFor(repos, l));
          NoRecordsNoPulls(earlier, l);
        }
    }
  }

  ghost predicate ByCountDescending(rows: seq<LanguageRow>)
  {
    forall i, j :: 0 <= i < j < |rows| ==> rows[i].repositories >= rows[j].repositories
  }

  /** A row at least as large as the head of a descending sequence can go in front of it. */
  lemma PrependDescending(x: LanguageRow, rows: seq<LanguageRow>)
    requires ByCountDescending(rows) && (rows == [] || x.repositories >= rows[0].repositories)
    ensures ByCountDescending([x] + rows)
  {
    var u := [x] + rows;
    forall i, j | 0 <= i < j < |u| ensures u[i].repositories >= u[j].repositories {
      assert u[j] == rows[j - 1];
      if i > 0 {
        assert u[i] == rows[i - 1];
      } else {
        assert rows[0].repositories >= rows[j - 1].repositories;
      }
    }
  }

  /** Inserts a row into a descending sequence of rows, keeping it descending. */
  function InsertRow(x: LanguageRow, rows: seq<LanguageRow>): (r: seq<LanguageRow>)
    requires ByCountDescending(rows)
    ensures |r| == |rows| + 1
    ensures r[0] == if rows == [] || x.repositories >= rows[0].repositories then x else rows[0]
    ensures ByCountDescending(r)
    ensures multiset(r) == multiset(rows) + multiset{x}
    ensures SumCounts(r) == x.repositories + SumCounts(rows)
    ensures SumPulls(r) == x.acceptedPulls + SumPulls(rows)
  {
    if rows == [] || x.repositories >= rows[0].repositories then
      PrependDescending(x, rows);
      [x] + rows
    else
      var tail := InsertRow(x, rows[1..]);
      assert multiset(rows) == multiset{rows[0]} + multiset(rows[1..]) && SumCounts(rows) == rows[0].repositories + SumCounts(rows[1..]) by {
        assert rows == [rows[0]] + rows[1..];
      }
      PrependDescending(rows[0], tail);
      assert ([rows[0]] + tail)[1..] == tail;
      [rows[0]] + tail
  }

  /**
   * `sort_values(by=count, ascending=False)`: a permutation of the rows,
   * ordered by group size, largest first.  Python does not fix the order
   * of rows with equal sizes; this one is a particular choice.
   */
  function SortByCount(rows: seq<LanguageRow>): (r: seq<LanguageRow>)
    ensures ByCountDescending(r)
    ensures multiset(r) == multiset(rows)
    ensures SumCounts(r) == SumCounts(rows) && SumPulls(r) == SumPulls(rows)
  {
    if rows == [] then []
    else
      assert rows == [rows[0]] + rows[1..];
      InsertRow(rows[0], SortByCount(rows[1..]))
  }

  /** In a sequence with unique languages, no row occurs twice. */
  lemma {:induction false} UniqueRowsOnce(rows: seq<LanguageRow>, x: LanguageRow)
    requires UniqueLanguages(rows)
    ensures multiset(rows)[x] <= 1
  {
    if rows != [] {
      assert rows == [rows[0]] + rows[1..];
      UniqueRowsOnce(rows[1..], x);
      if x == rows[0] {
        assert x !in rows[1..] by {
          forall k | 0 <= k < |rows[1..]| ensures rows[1..][k] != x {
            assert rows[1..][k] == rows[k + 1];
          }
        }
      }
    }
  }

  /** A row found at two different positions occurs at least twice. */
  lemma TwiceAtTwoPositions(rows: seq<LanguageRow>, i: int, j: int)
    requires 0 <= i < j < |rows| && rows[i] == rows[j]
    ensures multiset(rows)[rows[i]] >= 2
  {
    assert rows == rows[..j] + rows[j..];
    assert rows[i] == rows[..j][i];
    assert rows[j] == rows[j..][0];
  }

  /**
   * `coletar_dados`: the language table.  Each language of the records has
   * exactly one row and no other language has one; each row holds the
   * number of records with its language and the sum of their accepted pull
   * requests; rows are ordered by that number, largest first; and the
   * numbers add up to the records that have a language.
   */
  function LanguageTable(repos: seq<Record>): (rows: seq<LanguageRow>)
    ensures ByCountDescending(rows)
    ensures UniqueLanguages(rows)
    ensures forall l :: l in LanguageSet(rows) <==> CountLanguage(repos, l) > 0
    ensures forall r :: r in rows ==> Tallies(repos, r)
    ensures SumCounts(rows) == KnownLanguageCount(repos)
    ensures SumPulls(rows) == KnownLanguagePulls(repos)
  {
    var grouped := GroupByLanguage(repos);
    var rows := SortByCount(grouped);
    GroupTotals(repos);
    SameElements(rows, grouped);
    assert LanguageSet(rows) == LanguageSet(grouped);
    PermutedTalliesUnique(repos, grouped, rows);
    rows
  }

  lemma SameElements(a: seq<LanguageRow>, b: seq<LanguageRow>)
    requires multiset(a) == multiset(b)
    ensures forall x :: x in a <==> x in b
  {
    forall x ensures x in a <==> x in b {
      assert x in a <==> x in multiset(a);
      assert x in b <==> x in multiset(b);
    }
  }

  /** Reordering tallies with unique languages keeps the languages unique. */
  lemma PermutedTalliesUnique(repos: seq<Record>, grouped: seq<LanguageRow>, rows: seq<LanguageRow>)
    requires multiset(rows) == multiset(grouped)
    requires UniqueLanguages(grouped)
    requires forall r :: r in rows ==> Tallies(repos, r)
    ensures UniqueLanguages(rows)
  {
    forall i, j | 0 <= i < j < |rows| ensures rows[i].language != rows[j].language {
      if rows[i].language == rows[j].language {
        assert Tallies(repos, rows[i]) && Tallies(repos, rows[j]);
        assert rows[i] == rows[j];
        TwiceAtTwoPositions(rows, i, j);
        UniqueRowsOnce(grouped, rows[i]);
      }
    }
  }

  // ------------------------------------------------------------------
  // Box-plot data
  // ------------------------------------------------------------------

  /** The interval edges of `pd.cut`, in hundreds of accepted pull requests. */
  const PullEdges: seq<real> := [0.0, 100.0, 200.0, 300.0, 400.0, 500.0]

  /**
   * `pd.cut(x, bins=edges, right=False)`: the index of the left-closed,
   * right-open interval [edges[k], edges[k + 1]) holding `x`, or `None`
   * when no interval holds it.
   */
  function Cut(x: real, edges: seq<real>): (bin: Option<nat>)
    ensures bin.Some? ==> bin.value + 1 < |edges| && edges[bin.value] <= x < edges[bin.value + 1]
    ensures bin.None? ==> forall k :: 0 <= k < |edges| - 1 ==> !(edges[k] <= x < edges[k + 1])
  {
    if |edges| < 2 then None
    else if edges[0] <= x < edges[1] then Some(0)
    else
      match Cut(x, edges[1..])
      case Some(k) => Some(k + 1)
      case None =>
        assert forall k :: 1 <= k < |edges| - 1 ==> edges[k] == edges[1..][k - 1] && edges[k + 1] == edges[1..][k];
        None
  }

  /**
   * The interval of a record with `pulls` accepted pull requests, on
   * integers alone: interval k holds exactly the counts from 10000 k up to
   * but excluding 10000 (k + 1), for k from 0 to 4.
   */
  function PullsBucket(pulls: int): (bin: Option<nat>)
    ensures bin.Some? <==> 0 <= pulls < 50000
    ensures bin.Some? ==> bin.value < 5 && 10000 * bin.value <= pulls < 10000 * (bin.value + 1)
  {
    if 0 <= pulls < 50000 then Some(pulls / 10000) else None
  }

  ghost predicate Increasing(edges: seq<real>)
  {
    forall i, j :: 0 <= i < j < |edges| ==> edges[i] < edges[j]
  }

  /** With increasing edges, at most one interval holds `x`, so `Cut` finds exactly that one. */
  lemma CutFinds(x: real, edges: seq<real>, k: nat)
    requires Increasing(edges)
    requires k + 1 < |edges| && edges[k] <= x < edges[k + 1]
    ensures Cut(x, edges) == Some(k)
  {
  }

  lemma PullEdgesFacts()
    ensures |PullEdges| == 6 && Increasing(PullEdges)
    ensures forall k :: 0 <= k < 6 ==> PullEdges[k] == 100.0 * (k as real)
  {
  }

  /** The integer intervals agree with cutting the count in hundreds at the edges 0, 100, ..., 500. */
  lemma BucketAgreesWithCut(pulls: int)
    ensures Cut(pulls as real / 100.0, PullEdges) == PullsBucket(pulls)
  {
    var x := pulls as real / 100.0;
    PullEdgesFacts();
    if 0 <= pulls < 50000 {
      var k := pulls / 10000;
      assert 10000 * k <= pulls < 10000 * (k + 1);
      assert 100.0 * (k as real) <= x < 100.0 * ((k + 1) as real);
      CutFinds(x, PullEdges, k);
    } else {
      assert x < PullEdges[0] || PullEdges[5] <= x;
    }
  }

  /** `df['stars'].head(5)`: the star counts of the first five records, or of all of them when there are fewer. */
  function TopStars(repos: seq<Record>): (top: seq<int>)
    ensures |top| == if |repos| < 5 then |repos| else 5
    ensures forall i :: 0 <= i < |top| ==> top[i] == repos[i].stars
  {
    var m := if |repos| < 5 then |repos| else 5;
    seq(m, i requires 0 <= i < m => repos[i].stars)
  }

  /** `df[df['stars'].isin(top)]`: the records whose star count is in `top`, in their order. */
  function KeepStars(repos: seq<Record>, top: seq<int>): (kept: seq<Record>)
    ensures |kept| <= |repos|
    ensures forall r :: r in kept ==> r in repos && r.stars in top
    ensures forall i :: 0 <= i < |repos| && repos[i].stars in top ==> repos[i] in kept
  {
    if repos == [] then []
    else
      var n := |repos| - 1;
      var earlier := KeepStars(repos[..n], top);
      assert forall i :: 0 <= i < n ==> repos[..n][i] == repos[i];
      if repos[n].stars in top then earlier + [repos[n]] else earlier
  }

  /** Filtering keeps the order: filtering a concatenation concatenates the filtered parts. */
  lemma {:induction false} KeepStarsAppend(a: seq<Record>, b: seq<Record>, top: seq<int>)
    ensures KeepStars(a + b, top) == KeepStars(a, top) + KeepStars(b, top)
  {
    if b != [] {
      var n := |b| - 1;
      assert (a + b)[..|a| + n] == a + b[..n];
      assert (a + b)[|a| + n] == b[n];
      KeepStarsAppend(a, b[..n], top);
    } else {
      assert a + b == a;
    }
  }

  /** Records whose star counts are all in `top` are kept as they are. */
  lemma {:induction false} KeepStarsAll(repos: seq<Record>, top: seq<int>)
    requires forall i :: 0 <= i < |repos| ==> repos[i].stars in top
    ensures KeepStars(repos, top) == repos
  {
    if repos != [] {
      var n := |repos| - 1;
      KeepStarsAll(repos[..n], top);
      assert repos[..n] + [repos[n]] == repos;
    }
  }

  /**
   * The rows of the box plot: every record whose star count equals one of
   * the first five records' star counts.  The first five records are
   * always kept, unchanged and at the front; with ties more than five
   * records are kept.
   */
  function TopStarRecords(repos: seq<Record>): (kept: seq<Record>)
    ensures forall r :: r in kept ==> r in repos && r.stars in TopStars(repos)
    ensures forall i :: 0 <= i < |repos| && repos[i].stars in TopStars(repos) ==> repos[i] in kept
    ensures |TopStars(repos)| <= |kept| && kept[..|TopStars(repos)|] == repos[..|TopStars(repos)|]
  {
    var top := TopStars(repos);
    var m := |top|;
    assert repos == repos[..m] + repos[m..];
    KeepStarsAppend(repos[..m], repos[m..], top);
    forall i | 0 <= i < m ensures repos[..m][i].stars in top {
      assert top[i] == repos[i].stars;
    }
    KeepStarsAll(repos[..m], top);
    KeepStars(repos, top)
  }

  /** One point of the box plot: the interval of the record's accepted pull requests and its star count. */
  datatype BoxPoint = BoxPoint(interval: Option<nat>, stars: int)

  /**
   * `grafico_boxplot`'s data: one point per kept record, in order, holding
   * that record's interval and stars.
   */
  function BoxPlotData(repos: seq<Record>): (points: seq<BoxPoint>)
    ensures |points| == |TopStarRecords(repos)|
    ensures forall i :: 0 <= i < |points| ==>
              var r := TopStarRecords(repos)[i];
              points[i] == BoxPoint(Cut(r.acceptedPullRequests as real / 100.0, PullEdges), r.stars)
  {
    var kept := TopStarRecords(repos);
    forall i | 0 <= i < |kept| {
      BucketAgreesWithCut(kept[i].acceptedPullRequests);
    }
    seq(|kept|, i requires 0 <= i < |kept| => BoxPoint(PullsBucket(kept[i].acceptedPullRequests), kept[i].stars))
  }

  /**
   * The table `grafico_boxplot` receives and extends in place with the
   * columns `pulls_centenas` (accepted pull requests in hundreds) and
   * `pulls_intervalo` (their interval).  Both are empty until added.
   */
  class PopularFrame {
    var rows: seq<Record>
    var pullsHundreds: seq<real>
    var pullsInterval: seq<Option<nat>>

    constructor(rows: seq<Record>)
      ensures this.rows == rows && pullsHundreds == [] && pullsInterval == []
    {
      this.rows := rows;
      pullsHundreds := [];
      pullsInterval := [];
    }

    /** Adds the two columns: one entry per row, the rows themselves unchanged. */
    method AddPullColumns()
      modifies this
      ensures rows == old(rows)
      ensures |pullsHundreds| == |rows| && |pullsInterval| == |rows|
      ensures forall i :: 0 <= i < |rows| ==> pullsHundreds[i] == rows[i].acceptedPullRequests as real / 100.0
      ensures forall i :: 0 <= i < |rows| ==> pullsInterval[i] == Cut(pullsHundreds[i], PullEdges)
      ensures forall i :: 0 <= i < |rows| ==> pullsInterval[i] == PullsBucket(rows[i].acceptedPullRequests)
    {
      var rs := rows;
      var hundreds := seq(|rs|, i requires 0 <= i < |rs| => rs[i].acceptedPullRequests as real / 100.0);
      pullsHundreds := hundreds;
      pullsInterval := seq(|rs|, i requires 0 <= i < |rs| => Cut(hundreds[i], PullEdges));
      forall i | 0 <= i < |rs| {
        BucketAgreesWithCut(rs[i].acceptedPullRequests);
      }
    }
  }

  /** Worked intervals: 15000 pull requests are 150 hundreds, in [100, 200); 50000 and -1 fall outside. */
  lemma BucketExamples()
    ensures PullsBucket(15000) == Some(1)
    ensures PullsBucket(9999) == Some(0)
    ensures PullsBucket(50000) == None && PullsBucket(-1) == None
  {
  }
}
