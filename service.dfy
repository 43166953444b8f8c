/** The budget service over a store that holds the budget collection: the
    operations that change the collection (`create`, `update`, `remove`) and those
    that query it (`findAll`, `findOne`). */
module BudgetService {
  import opened Wrappers
  import opened Calendar
  import opened Records
  import opened Listing
  import opened MonthlySpend

  /** The payload of `create`. */
  datatype NewBudget = NewBudget(name: string, price: int, date: Instant)

  /** The payload of `update`: the fields to overwrite. */
  datatype BudgetPatch = BudgetPatch(name: Option<string>, price: Option<int>, date: Option<Instant>)

  /** A document after `update` at time `stamp`: patched fields replaced, `updatedAt` renewed. */
  function Patched(b: Budget, patch: BudgetPatch, stamp: int): (r: Budget)
    ensures r.id == b.id && r.userId == b.userId && r.createdAt == b.createdAt
  {
    b.(name := if patch.name.Some? then patch.name.value else b.name,
       price := if patch.price.Some? then patch.price.value else b.price,
       date := if patch.date.Some? then patch.date.value else b.date,
       updatedAt := stamp)
  }

  class BudgetStore {
    /** The budget collection, in insertion order. */
    var records: seq<Budget>
    /** The id the next created document receives. */
    var nextId: BudgetId

    /** Ids are unique and all below the next id; every stored date is a real instant. */
    ghost predicate Valid()
      reads this
    {
      UniqueIds(records) && (forall b :: b in records ==> b.id < nextId) && ValidDates(records)
    }

    constructor ()
      ensures Valid() && records == []
    {
      records := [];
      nextId := 0;
    }

    /** `create`: store the entry for the user, then report the current-month sum.
        The store write is not awaited, so whether the sum sees the new entry is a
        race; `saveFirst` says which way it went. `stamp` is the write's clock reading. */
    method Create(entry: NewBudget, userId: UserId, users: Directory, now: Date, stamp: int, saveFirst: bool)
      returns (summary: MonthSummary)
      requires Valid() && ValidDate(now) && ValidInstant(entry.date)
      modifies this
      ensures Valid()
      ensures records == old(records) + [Budget(old(nextId), entry.name, entry.price, entry.date, userId, stamp, stamp)]
      ensures nextId == old(nextId) + 1
      ensures summary == CreateSummary(if saveFirst then records else old(records), users, userId, entry.date, now)
      ensures summary.isCurrentMonth <==> entry.date.local.year == now.year && entry.date.local.month == now.month
      ensures summary.totalBudgetThisMonth
           == if !summary.isCurrentMonth then 0
              else if saveFirst then SpentInMonth(old(records), userId, now.year, now.month) + entry.price
              else SpentInMonth(old(records), userId, now.year, now.month)
    {
      var created := Budget(nextId, entry.name, entry.price, entry.date, userId, stamp, stamp);
      assert Valid() && ValidDates(old(records)) && created.id == nextId;
      CreateSummarySpend(records, users, created, now, saveFirst);
      var seen := records;
      records := records + [created];
      nextId := nextId + 1;
      assert UniqueIds(records) by {
        forall i, j | 0 <= i < j < |records| ensures records[i].id != records[j].id {
          if j == |records| - 1 {
            assert records[i] in old(records);
          } else {
            assert records[i] == old(records)[i] && records[j] == old(records)[j];
          }
        }
      }
      assert ValidDates(records) by {
        forall b | b in records ensures ValidInstant(b.date) {
          if b != created { assert b in old(records); }
        }
      }
      if saveFirst {
        seen := records;
      }
      var start, end := StartOfMonth(now), EndOfMonth(now);
      var isCurrentMonth := Within(entry.date, start, end);
      var total := 0;
      var budgetLimit := None;
      if isCurrentMonth {
        total := TotalOrZero(WindowTotalRows(seen, userId, start, end));
        budgetLimit := BudgetLimitOf(users, userId);
      }
      summary := MonthSummary(total, isCurrentMonth, budgetLimit);
    }

    /** `findAll`: assemble the pipeline (the filter stages, the paging stages when
        `limit` is not 0) and shape the store's answer. */
    method FindAll(limit: int, page: int, date: string, render: Instant -> string, userId: UserId)
      returns (r: Result<FindAllResult, Error>)
      ensures r.Failure? <==> PagingRejected(limit, page)
      ensures r.Success? ==>
        var selected := Selected(records, userId, date, render);
        && r.value.currentPage == page
        && r.value.totalBudgets == |selected|
        && r.value.budgets == Page(SortNewestFirst(selected), limit, page)
    {
      var paging: seq<Stage> := [];
      if limit != 0 {
        paging := paging + [Skip((page - 1) * limit), Limit(limit)];
      }
      var filter: seq<Stage> := [MatchUser(userId)];
      if date != "" {
        filter := filter + [MatchFormattedDate(render, date)];
      }
      FindAllPipeline(filter, paging, records, userId, date, render, limit, page);
      var sorted := Run(filter + [SortByCreatedAtDesc], records);
      var facet := CountAndPage(paging, sorted.value);
      match facet
      case Failure(e) =>
        r := Failure(e);
      case Success(rows) =>
        var count := if rows != [] then rows[0].count else 0;
        var budgets := if rows != [] then rows[0].data else [];
        r := Success(FindAllResult(budgets, count, page));
    }

    /** `findOne`. */
    method FindOne(id: BudgetId) returns (r: Option<Budget>)
      ensures r.Some? ==> r.value in records && r.value.id == id
      ensures r.None? <==> forall b :: b in records ==> b.id != id
    {
      r := FindById(records, id);
    }

    /** `update`: overwrite the patched fields of the document with the id and
        return the new document, or nothing when no document has the id. */
    method Update(id: BudgetId, patch: BudgetPatch, stamp: int) returns (r: Option<Budget>)
      requires Valid() && (patch.date.Some? ==> ValidInstant(patch.date.value))
      modifies this
      ensures Valid() && nextId == old(nextId)
      ensures r.None? <==> FindById(old(records), id).None?
      ensures r.None? ==> records == old(records)
      ensures r.Some? ==> r.value == Patched(FindById(old(records), id).value, patch, stamp)
                          && records == ReplaceById(old(records), id, r.value)
                          && FindById(records, id) == r
    {
      var found := FindById(records, id);
      if found.None? {
        r := None;
      } else {
        var updated := Patched(found.value, patch, stamp);
        ReplaceByIdFinds(records, id, updated);
        assert forall b :: b in ReplaceById(records, id, updated) ==> b in records || b == updated;
        records := ReplaceById(records, id, updated);
        r := Some(updated);
      }
    }

    /** `remove`: delete the document with the id and return it; nothing when no
        document has the id (no error either). */
    method Remove(id: BudgetId) returns (r: Option<Budget>)
      requires Valid()
      modifies this
      ensures Valid() && nextId == old(nextId)
      ensures r == FindById(old(records), id)
      ensures records == WithoutId(old(records), id)
      ensures FindById(records, id) == None
    {
      r := FindById(records, id);
      WithoutIdKeepsUniqueIds(records, id);
      records := WithoutId(records, id);
      assert forall b :: b in records ==> b.id != id;
    }
  }
}
