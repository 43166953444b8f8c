/** The filtered, paginated listing (`findAll`): the aggregation stages it
    assembles, their meaning over the budget collection, and the paging rule. */
module Listing {
  import opened Wrappers
  import opened Calendar
  import opened Records

  /** A query the store rejects: a negative `$skip`, a `$limit` that is not
      positive, or (as written, see `CountAndPageAsWritten`) an empty `$facet`
      sub-pipeline. */
  datatype Error = StorageFailure

  function Min(a: int, b: int): int { if a <= b then a else b }

  /** `{ $addFields: { dateFormatted: { $dateToString: ... } } }, { $match: { dateFormatted: value } }`:
      the documents whose date, rendered in the request's time zone by `render`, is `value`.
      The documents are kept as stored: the `dateFormatted` field the first stage
      adds to each is not part of the model. */
  function FormattedAs(rs: seq<Budget>, render: Instant -> string, value: string): (r: seq<Budget>)
    ensures forall b :: b in r <==> b in rs && render(b.date) == value
    ensures |r| <= |rs|
  {
    if rs == [] then []
    else
      var init, last := rs[..|rs| - 1], rs[|rs| - 1];
      assert rs == init + [last];
      FormattedAs(init, render, value) + (if render(last.date) == value then [last] else [])
  }

  /** The day filter keeps each matching document as many times as its input
      holds it, and no other document. */
  lemma {:induction false} FormattedAsCount(rs: seq<Budget>, render: Instant -> string, value: string)
    ensures forall b :: multiset(FormattedAs(rs, render, value))[b]
                     == if render(b.date) == value then multiset(rs)[b] else 0
  {
    if rs != [] {
      var init, last := rs[..|rs| - 1], rs[|rs| - 1];
      assert rs == init + [last];
      FormattedAsCount(init, render, value);
    }
  }

  predicate NewestFirst(s: seq<Budget>) {
    forall i, j :: 0 <= i < j < |s| ==> s[i].createdAt >= s[j].createdAt
  }

  /** A document created no earlier than the head of a newest-first list can go in front of it. */
  lemma NewestFirstCons(x: Budget, t: seq<Budget>)
    requires NewestFirst(t)
    requires t != [] ==> x.createdAt >= t[0].createdAt
    ensures NewestFirst([x] + t)
  {
    forall i, j | 0 <= i < j < |[x] + t| ensures ([x] + t)[i].createdAt >= ([x] + t)[j].createdAt {
      if i == 0 && j > 1 {
        assert t[0].createdAt >= t[j - 1].createdAt;
      }
    }
  }

  /** The tail of a newest-first list is newest first, and its head is no older than its second element. */
  lemma NewestFirstTail(s: seq<Budget>)
    requires NewestFirst(s) && s != []
    ensures NewestFirst(s[1..])
    ensures |s| > 1 ==> s[0].createdAt >= s[1].createdAt
  {
    forall i, j | 0 <= i < j < |s[1..]| ensures s[1..][i].createdAt >= s[1..][j].createdAt {
      assert s[1..][i] == s[i + 1] && s[1..][j] == s[j + 1];
    }
  }

  /** Place `b` after every document created no later than it. */
  function InsertByCreatedAt(b: Budget, s: seq<Budget>): (r: seq<Budget>)
    requires NewestFirst(s)
    ensures |r| == |s| + 1 && (r[0] == b || (s != [] && r[0] == s[0]))
    ensures NewestFirst(r)
    ensures multiset(r) == multiset(s) + multiset{b}
  {
    if s == [] || s[0].createdAt < b.createdAt then
      NewestFirstCons(b, s);
      [b] + s
    else
      assert s == [s[0]] + s[1..];
      NewestFirstTail(s);
      var rest := InsertByCreatedAt(b, s[1..]);
      NewestFirstCons(s[0], rest);
      [s[0]] + rest
  }

  /** `{ $sort: { createdAt: -1 } }`: newest first; documents created at the same
      time keep their store order. */
  function SortNewestFirst(s: seq<Budget>): (r: seq<Budget>)
    ensures |r| == |s|
    ensures NewestFirst(r)
    ensures multiset(r) == multiset(s)
  {
    if s == [] then []
    else
      assert s == s[..|s| - 1] + [s[|s| - 1]];
      InsertByCreatedAt(s[|s| - 1], SortNewestFirst(s[..|s| - 1]))
  }

  /** The request names a page the store cannot skip to: a negative limit, or a
      positive limit with a page before the first. */
  predicate PagingRejected(limit: int, page: int) {
    limit < 0 || (limit > 0 && page < 1)
  }

  /** Page `page` (counted from 1) of `limit` documents; `limit == 0` means everything. */
  function Page<T>(s: seq<T>, limit: int, page: int): (r: seq<T>)
    requires !PagingRejected(limit, page)
    ensures limit == 0 ==> r == s
    ensures limit > 0 ==> |r| <= limit
    ensures limit > 0 ==> forall i :: 0 <= i < |r| ==>
      0 <= (page - 1) * limit + i < |s| && r[i] == s[(page - 1) * limit + i]
    ensures limit > 0 ==> |r| == if |s| <= (page - 1) * limit then 0
                                 else Min(limit, |s| - (page - 1) * limit)
  {
    if limit == 0 then s
    else
      var skip := (page - 1) * limit;
      assert 0 <= skip by {
        assert page - 1 >= 0 && limit > 0;
      }
      s[Min(skip, |s|)..Min(skip + limit, |s|)]
  }

  /** With 25 matching documents, a limit of 10 and page 2, the listing holds the
      11th to the 20th document. */
  lemma SecondPageOfTwentyFive<T>(s: seq<T>)
    requires |s| == 25
    ensures Page(s, 10, 2) == s[10..20]
  {}

  /** One stage of the aggregation pipeline `findAll` sends to the store. */
  datatype Stage =
    | MatchUser(userId: UserId)
    | MatchFormattedDate(render: Instant -> string, value: string)
    | SortByCreatedAtDesc
    | Skip(count: int)
    | Limit(count: int)

  /** One stage over the documents: only a negative `$skip` or a non-positive `$limit`
      is rejected, and no stage invents or duplicates a document. */
  function Apply(stage: Stage, docs: seq<Budget>): (r: Result<seq<Budget>, Error>)
    ensures r.Failure? <==> (stage.Skip? && stage.count < 0) || (stage.Limit? && stage.count <= 0)
    ensures r.Success? ==> multiset(r.value) <= multiset(docs)
  {
    match stage
    case MatchUser(u) => OwnedByCount(docs, u); Success(OwnedBy(docs, u))
    case MatchFormattedDate(render, value) => FormattedAsCount(docs, render, value); Success(FormattedAs(docs, render, value))
    case SortByCreatedAtDesc => Success(SortNewestFirst(docs))
    case Skip(n) =>
      if n < 0 then Failure(StorageFailure)
      else
        assert docs == docs[..Min(n, |docs|)] + docs[Min(n, |docs|)..];
        Success(docs[Min(n, |docs|)..])
    case Limit(n) =>
      if n <= 0 then Failure(StorageFailure)
      else
        assert docs == docs[..Min(n, |docs|)] + docs[Min(n, |docs|)..];
        Success(docs[..Min(n, |docs|)])
  }

  /** Run the stages in order; the first rejected stage rejects the whole query. */
  function Run(stages: seq<Stage>, docs: seq<Budget>): (r: Result<seq<Budget>, Error>)
    ensures r.Success? ==> multiset(r.value) <= multiset(docs)
    decreases |stages|
  {
    if stages == [] then Success(docs)
    else
      match Apply(stages[0], docs)
      case Failure(e) => Failure(e)
      case Success(next) => Run(stages[1..], next)
  }

  lemma {:induction false} RunAppend(first: seq<Stage>, second: seq<Stage>, docs: seq<Budget>)
    ensures Run(first + second, docs)
         == match Run(first, docs)
            case Failure(e) => Failure(e)
            case Success(mid) => Run(second, mid)
    decreases |first|
  {
    if first == [] {
      assert first + second == second;
    } else {
      assert (first + second)[0] == first[0];
      assert (first + second)[1..] == first[1..] + second;
      match Apply(first[0], docs)
      case Failure(e) =>
      case Success(next) => RunAppend(first[1..], second, next);
    }
  }

  /** `$skip` then `$limit` over the documents: rejected when either count is
      rejected, otherwise the run of at most `limit` documents after the first `skip`. */
  /** The stages `$skip` then `$limit` cut out exactly the requested page, and are
      rejected exactly when the paging request is. */
  lemma SkipThenLimit(docs: seq<Budget>, limit: int, page: int)
    requires limit != 0
    ensures Run([Skip((page - 1) * limit), Limit(limit)], docs)
         == if PagingRejected(limit, page) then Failure(StorageFailure)
            else Success(Page(docs, limit, page))
  {
    var skip := (page - 1) * limit;
    var stages := [Skip(skip), Limit(limit)];
    assert stages[1..] == [Limit(limit)];
    assert stages[1..][1..] == [];
    if limit < 0 {
      if skip >= 0 {
        assert Run(stages, docs) == Run(stages[1..], docs[Min(skip, |docs|)..]);
      }
    } else if page < 1 {
      assert skip < 0 by {
        assert page - 1 < 0;
      }
    } else {
      assert skip >= 0 by {
        assert page - 1 >= 0;
      }
      var rest := docs[Min(skip, |docs|)..];
      var cut := rest[..Min(limit, |rest|)];
      assert cut == docs[Min(skip, |docs|)..Min(skip + limit, |docs|)];
      assert Run(stages[1..][1..], cut) == Success(cut);
      assert Run(stages[1..], rest) == Success(cut);
      assert Run(stages, docs) == Success(cut);
    }
  }

  /** One output row of `$facet` followed by `$unwind` and `$project`. */
  datatype FacetRow = FacetRow(count: nat, data: seq<Budget>)

  /** `$facet` with a counting sub-pipeline and the paging sub-pipeline, then
      `$unwind` of the count: when there was nothing to count, no row at all. */
  function CountAndPage(paging: seq<Stage>, docs: seq<Budget>): (r: Result<seq<FacetRow>, Error>)
    ensures r.Failure? <==> Run(paging, docs).Failure?
    ensures r.Success? ==> |r.value| <= 1 && (r.value == [] <==> docs == [])
    ensures r.Success? && r.value != [] ==> r.value[0].count == |docs|
  {
    match Run(paging, docs)
    case Failure(e) => Failure(e)
    case Success(page) => Success(if docs == [] then [] else [FacetRow(|docs|, page)])
  }

  /** The documents `findAll` lists, before ordering and paging: the user's, and
      with a non-empty day filter only those whose rendered day equals it. */
  function Selected(rs: seq<Budget>, u: UserId, date: string, render: Instant -> string): (r: seq<Budget>)
    ensures forall b :: b in r <==> b in rs && b.userId == u && (date != "" ==> render(b.date) == date)
  {
    var own := OwnedBy(rs, u);
    if date != "" then FormattedAs(own, render, date) else own
  }

  /** The selection holds each of the user's documents that passes the day filter
      as many times as the collection does, and nothing else; so its length is the
      number of such documents. */
  lemma SelectedCount(rs: seq<Budget>, u: UserId, date: string, render: Instant -> string)
    ensures forall b :: multiset(Selected(rs, u, date, render))[b]
                     == if b.userId == u && (date != "" ==> render(b.date) == date) then multiset(rs)[b] else 0
  {
    OwnedByCount(rs, u);
    if date != "" {
      FormattedAsCount(OwnedBy(rs, u), render, date);
    }
  }

  /** The response of `findAll`. Its `budgets` are the stored documents, without
      the `dateFormatted` field a day filter adds. */
  datatype FindAllResult = FindAllResult(budgets: seq<Budget>, totalBudgets: nat, currentPage: int)

  /** The user match alone selects the user's documents. */
  lemma MatchUserRuns(rs: seq<Budget>, u: UserId)
    ensures Run([MatchUser(u)], rs) == Success(OwnedBy(rs, u))
  {
    assert [MatchUser(u)][1..] == [];
  }

  /** The user match followed by the day match selects the user's documents of that day. */
  lemma MatchUserAndDayRuns(rs: seq<Budget>, u: UserId, date: string, render: Instant -> string)
    requires date != ""
    ensures Run([MatchUser(u), MatchFormattedDate(render, date)], rs) == Success(Selected(rs, u, date, render))
  {
    var stages := [MatchUser(u), MatchFormattedDate(render, date)];
    assert stages[1..] == [MatchFormattedDate(render, date)] && stages[1..][1..] == [];
    assert Run(stages[1..], OwnedBy(rs, u)) == Success(FormattedAs(OwnedBy(rs, u), render, date));
  }

  /** The filter stages `findAll` assembles (the user match, then the day match
      when a day is given) followed by the sort produce the selection, newest first. */
  lemma FilterThenSort(filter: seq<Stage>, rs: seq<Budget>, u: UserId, date: string, render: Instant -> string)
    requires filter == if date != "" then [MatchUser(u), MatchFormattedDate(render, date)] else [MatchUser(u)]
    ensures Run(filter + [SortByCreatedAtDesc], rs) == Success(SortNewestFirst(Selected(rs, u, date, render)))
  {
    RunAppend(filter, [SortByCreatedAtDesc], rs);
    if date != "" {
      MatchUserAndDayRuns(rs, u, date, render);
    } else {
      MatchUserRuns(rs, u);
    }
    assert [SortByCreatedAtDesc][1..] == [];
  }

  /** The `$facet` answer to the paging stages `findAll` assembles: rejected exactly
      when the paging request is, otherwise no row for an empty selection and one
      row with the count and the page for any other. */
  lemma CountAndPageOutcome(paging: seq<Stage>, docs: seq<Budget>, limit: int, page: int)
    requires paging == if limit != 0 then [Skip((page - 1) * limit), Limit(limit)] else []
    ensures CountAndPage(paging, docs).Failure? <==> PagingRejected(limit, page)
    ensures CountAndPage(paging, docs).Success? ==>
      CountAndPage(paging, docs).value
      == if docs == [] then [] else [FacetRow(|docs|, Page(docs, limit, page))]
  {
    if limit != 0 {
      SkipThenLimit(docs, limit, page);
    }
  }

  /** The whole query `findAll` sends: the filter stages and the sort yield the
      sorted selection, and `$facet` over it is rejected exactly with the paging
      request, otherwise answering no row or the count and the page. */
  lemma FindAllPipeline(filter: seq<Stage>, paging: seq<Stage>, rs: seq<Budget>, u: UserId,
                        date: string, render: Instant -> string, limit: int, page: int)
    requires filter == if date != "" then [MatchUser(u), MatchFormattedDate(render, date)] else [MatchUser(u)]
    requires paging == if limit != 0 then [Skip((page - 1) * limit), Limit(limit)] else []
    ensures var sorted := Run(filter + [SortByCreatedAtDesc], rs);
      var docs := SortNewestFirst(Selected(rs, u, date, render));
      && sorted == Success(docs)
      && CountAndPage(paging, docs)
         == if PagingRejected(limit, page) then Failure(StorageFailure)
            else Success(if docs == [] then [] else [FacetRow(|docs|, Page(docs, limit, page))])
  {
    FilterThenSort(filter, rs, u, date, render);
    var docs := SortNewestFirst(Selected(rs, u, date, render));
    CountAndPageOutcome(paging, docs, limit, page);
    var answer := CountAndPage(paging, docs);
    if answer.Failure? {
      assert answer.error == StorageFailure;
    }
  }

  /** `$facet` as the query is written: MongoDB refuses a `$facet` whose
      sub-pipeline is empty, and the paging sub-pipeline is empty whenever
      `limit` is 0; any other paging is answered as by `CountAndPage`. */
  function CountAndPageAsWritten(paging: seq<Stage>, docs: seq<Budget>): (r: Result<seq<FacetRow>, Error>)
    ensures r.Failure? <==> paging == [] || Run(paging, docs).Failure?
    ensures r.Success? ==> r.value == if docs == [] then [] else [FacetRow(|docs|, Run(paging, docs).value)]
  {
    if paging == [] then Failure(StorageFailure) else CountAndPage(paging, docs)
  }

  /** With `limit` 0, the query as written is rejected for every user, day and
      collection, whereas the intended reading of the conditional push (no
      paging stages: the whole selection) answers the count and every selected
      document. */
  lemma LimitZeroRejected(paging: seq<Stage>, rs: seq<Budget>, u: UserId,
                          date: string, render: Instant -> string, limit: int, page: int)
    requires limit == 0
    requires paging == if limit != 0 then [Skip((page - 1) * limit), Limit(limit)] else []
    ensures var docs := SortNewestFirst(Selected(rs, u, date, render));
      && CountAndPageAsWritten(paging, docs) == Failure(StorageFailure)
      && CountAndPage(paging, docs) == Success(if docs == [] then [] else [FacetRow(|docs|, docs)])
  {
    var docs := SortNewestFirst(Selected(rs, u, date, render));
    CountAndPageOutcome(paging, docs, limit, page);
  }

  /** Away from `limit` 0 the query as written and the intended one agree. */
  lemma AsWrittenAgreesWithPaging(paging: seq<Stage>, docs: seq<Budget>, limit: int, page: int)
    requires limit != 0
    requires paging == [Skip((page - 1) * limit), Limit(limit)]
    ensures CountAndPageAsWritten(paging, docs) == CountAndPage(paging, docs)
  {}
}
