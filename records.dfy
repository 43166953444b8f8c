/** The budget collection as an in-memory sequence of documents, and the
    filters and price sums the aggregation pipelines of the service compute over it. */
module Records {
  import opened Wrappers
  import opened Calendar

  type BudgetId = nat
  type UserId = nat

  /** A stored expense entry: the fields of the budget schema, the owner, and the
      `createdAt`/`updatedAt` timestamps that `timestamps: true` adds. */
  datatype Budget = Budget(
    id: BudgetId,
    name: string,
    price: int,
    date: Instant,
    userId: UserId,
    createdAt: int,
    updatedAt: int)

  /** The user directory, reduced to what the service reads from it: each
      registered user's monthly budget limit. */
  type Directory = map<UserId, int>

  /** `userService.findById(userId)` followed by `user?.budgetLimit`. */
  function BudgetLimitOf(users: Directory, u: UserId): (limit: Option<int>)
    ensures limit.Some? <==> u in users
    ensures limit.Some? ==> limit.value == users[u]
  {
    if u in users then Some(users[u]) else None
  }

  /** Every stored date is a real instant. */
  predicate ValidDates(rs: seq<Budget>) {
    forall b :: b in rs ==> ValidInstant(b.date)
  }

  /** `{ $match: { userId } }`: the user's documents, in store order. */
  function OwnedBy(rs: seq<Budget>, u: UserId): (r: seq<Budget>)
    ensures forall b :: b in r <==> b in rs && b.userId == u
    ensures |r| <= |rs|
  {
    if rs == [] then []
    else
      var init, last := rs[..|rs| - 1], rs[|rs| - 1];
      assert rs == init + [last];
      OwnedBy(init, u) + (if last.userId == u then [last] else [])
  }

  /** The user match keeps each of the user's documents as many times as the
      collection holds it, and no other document. */
  lemma {:induction false} OwnedByCount(rs: seq<Budget>, u: UserId)
    ensures forall b :: multiset(OwnedBy(rs, u))[b] == if b.userId == u then multiset(rs)[b] else 0
  {
    if rs != [] {
      var init, last := rs[..|rs| - 1], rs[|rs| - 1];
      assert rs == init + [last];
      OwnedByCount(init, u);
    }
  }

  /** `{ $match: { date: { $gte: lo, $lte: hi } } }`: the documents dated in the closed window. */
  function DatedWithin(rs: seq<Budget>, lo: Instant, hi: Instant): (r: seq<Budget>)
    ensures forall b :: b in r <==> b in rs && Within(b.date, lo, hi)
    ensures |r| <= |rs|
  {
    if rs == [] then []
    else
      var init, last := rs[..|rs| - 1], rs[|rs| - 1];
      assert rs == init + [last];
      DatedWithin(init, lo, hi) + (if Within(last.date, lo, hi) then [last] else [])
  }

  /** `{ $sum: '$price' }` over the documents. */
  function PriceOf(rs: seq<Budget>): int {
    if rs == [] then 0 else PriceOf(rs[..|rs| - 1]) + rs[|rs| - 1].price
  }

  /** The sum of `price` over the documents whose date `key` renders as the label `l`. */
  function PriceWhere<L(==)>(rs: seq<Budget>, key: Instant -> L, l: L): int {
    if rs == [] then 0
    else PriceWhere(rs[..|rs| - 1], key, l)
         + (if key(rs[|rs| - 1].date) == l then rs[|rs| - 1].price else 0)
  }

  lemma {:induction false} PriceOfAppend(a: seq<Budget>, b: seq<Budget>)
    ensures PriceOf(a + b) == PriceOf(a) + PriceOf(b)
    decreases |b|
  {
    if b != [] {
      assert (a + b)[..|a + b| - 1] == a + b[..|b| - 1];
      PriceOfAppend(a, b[..|b| - 1]);
    } else {
      assert a + b == a;
    }
  }

  lemma {:induction false} OwnedByAppend(a: seq<Budget>, b: seq<Budget>, u: UserId)
    ensures OwnedBy(a + b, u) == OwnedBy(a, u) + OwnedBy(b, u)
    decreases |b|
  {
    if b != [] {
      assert (a + b)[..|a + b| - 1] == a + b[..|b| - 1];
      OwnedByAppend(a, b[..|b| - 1], u);
    } else {
      assert a + b == a;
    }
  }

  lemma {:induction false} DatedWithinAppend(a: seq<Budget>, b: seq<Budget>, lo: Instant, hi: Instant)
    ensures DatedWithin(a + b, lo, hi) == DatedWithin(a, lo, hi) + DatedWithin(b, lo, hi)
    decreases |b|
  {
    if b != [] {
      assert (a + b)[..|a + b| - 1] == a + b[..|b| - 1];
      DatedWithinAppend(a, b[..|b| - 1], lo, hi);
    } else {
      assert a + b == a;
    }
  }

  /** A single document counts towards a user's window sum exactly when it is the
      user's and dated in the window. */
  lemma OneDocumentInWindow(b: Budget, u: UserId, lo: Instant, hi: Instant)
    ensures PriceOf(DatedWithin(OwnedBy([b], u), lo, hi))
         == if b.userId == u && Within(b.date, lo, hi) then b.price else 0
  {
    assert [b][..0] == [];
    assert OwnedBy([b], u) == if b.userId == u then [b] else [];
    if b.userId == u {
      assert DatedWithin([b], lo, hi) == if Within(b.date, lo, hi) then [b] else [];
    }
  }

  /** Documents of other users never reach the user's selection. */
  lemma {:induction false} OwnedByOthers(rs: seq<Budget>, u: UserId)
    requires forall b :: b in rs ==> b.userId != u
    ensures OwnedBy(rs, u) == []
  {
    if rs != [] {
      assert rs[..|rs| - 1] + [rs[|rs| - 1]] == rs;
      OwnedByOthers(rs[..|rs| - 1], u);
    }
  }

  /** Selecting the user's documents a second time changes nothing. */
  lemma {:induction false} OwnedByIdempotent(rs: seq<Budget>, u: UserId)
    ensures OwnedBy(OwnedBy(rs, u), u) == OwnedBy(rs, u)
  {
    if rs != [] {
      var init, last := rs[..|rs| - 1], rs[|rs| - 1];
      OwnedByIdempotent(init, u);
      OwnedByAppend(OwnedBy(init, u), if last.userId == u then [last] else [], u);
    }
  }

  /** `findById`: the document with the given id, if any. */
  function FindById(rs: seq<Budget>, id: BudgetId): (r: Option<Budget>)
    ensures r.Some? ==> r.value in rs && r.value.id == id
    ensures r.None? <==> forall b :: b in rs ==> b.id != id
  {
    if rs == [] then None
    else if rs[0].id == id then Some(rs[0])
    else FindById(rs[1..], id)
  }

  /** The collection after `findByIdAndDelete`: every document but the one with the id. */
  function WithoutId(rs: seq<Budget>, id: BudgetId): (r: seq<Budget>)
    ensures forall b :: b in r <==> b in rs && b.id != id
  {
    if rs == [] then []
    else
      assert rs == [rs[0]] + rs[1..];
      (if rs[0].id == id then [] else [rs[0]]) + WithoutId(rs[1..], id)
  }

  /** The collection with the document of the given id replaced by `b`. */
  function ReplaceById(rs: seq<Budget>, id: BudgetId, b: Budget): (r: seq<Budget>)
    ensures |r| == |rs|
  {
    seq(|rs|, i requires 0 <= i < |rs| => if rs[i].id == id then b else rs[i])
  }

  /** Replacing by id keeps every document with another id, brings in the
      replacement exactly when some document had the id, and nothing else. */
  lemma ReplaceByIdMembers(rs: seq<Budget>, id: BudgetId, b: Budget)
    ensures forall x :: x in ReplaceById(rs, id, b) ==> x == b || (x in rs && x.id != id)
    ensures forall x :: x in rs && x.id != id ==> x in ReplaceById(rs, id, b)
    ensures b in ReplaceById(rs, id, b) <==> b in rs || exists x :: x in rs && x.id == id
  {
    var r := ReplaceById(rs, id, b);
    forall x | x in rs && x.id != id ensures x in r {
      var i :| 0 <= i < |rs| && rs[i] == x;
      assert r[i] == x;
    }
    if exists x :: x in rs && x.id == id {
      var x :| x in rs && x.id == id;
      var i :| 0 <= i < |rs| && rs[i] == x;
      assert r[i] == b;
    }
  }

  /** No two documents share an id. */
  predicate UniqueIds(rs: seq<Budget>) {
    forall i, j :: 0 <= i < j < |rs| ==> rs[i].id != rs[j].id
  }

  lemma {:induction false} WithoutIdKeepsUniqueIds(rs: seq<Budget>, id: BudgetId)
    requires UniqueIds(rs)
    ensures UniqueIds(WithoutId(rs, id))
  {
    if rs != [] {
      var rest := WithoutId(rs[1..], id);
      assert UniqueIds(rs[1..]) by {
        forall i, j | 0 <= i < j < |rs[1..]| ensures rs[1..][i].id != rs[1..][j].id {
          assert rs[i + 1].id != rs[j + 1].id;
        }
      }
      WithoutIdKeepsUniqueIds(rs[1..], id);
      if rs[0].id != id {
        var r := [rs[0]] + rest;
        forall i, j | 0 <= i < j < |r| ensures r[i].id != r[j].id {
          if i == 0 {
            assert r[j] in rest;
            assert r[j] in rs[1..];
            var k :| 0 <= k < |rs[1..]| && rs[1..][k] == r[j];
            assert rs[0].id != rs[k + 1].id;
          } else {
            assert r[i] == rest[i - 1] && r[j] == rest[j - 1];
          }
        }
      }
    }
  }

  /** Replacing the document with a given id by one with the same id keeps ids
      unique, and the lookup then finds the replacement. */
  lemma ReplaceByIdFinds(rs: seq<Budget>, id: BudgetId, b: Budget)
    requires UniqueIds(rs) && b.id == id && FindById(rs, id).Some?
    ensures UniqueIds(ReplaceById(rs, id, b))
    ensures FindById(ReplaceById(rs, id, b), id) == Some(b)
  {
    var r := ReplaceById(rs, id, b);
    forall i, j | 0 <= i < j < |r| ensures r[i].id != r[j].id {
      assert rs[i].id != rs[j].id;
    }
    ReplaceByIdFindsFirst(rs, id, b);
  }

  /** After the replacement, the front-to-back lookup reaches the replacement. */
  lemma {:induction false} ReplaceByIdFindsFirst(rs: seq<Budget>, id: BudgetId, b: Budget)
    requires b.id == id && FindById(rs, id).Some?
    ensures FindById(ReplaceById(rs, id, b), id) == Some(b)
  {
    var r := ReplaceById(rs, id, b);
    if rs[0].id != id {
      ReplaceByIdFindsFirst(rs[1..], id, b);
      assert r[1..] == ReplaceById(rs[1..], id, b);
    }
  }
}
