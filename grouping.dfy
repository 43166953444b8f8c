/** The `$group` stage keyed by a rendered date label, the `find` lookup of a
    label among the groups, and gap-filling a calendar enumeration with the
    group sums (0 where no group has the label). */
module Grouping {
  import opened Wrappers
  import opened Calendar
  import opened Records

  /** One output document of `$group`: the key `_id` and the summed `price`. */
  datatype Group<L> = Group(id: L, price: int)

  predicate Distinct<L(==)>(s: seq<L>) {
    forall i, j :: 0 <= i < j < |s| ==> s[i] != s[j]
  }

  function Ids<L>(gs: seq<Group<L>>): (ids: seq<L>)
    ensures |ids| == |gs|
  {
    seq(|gs|, i requires 0 <= i < |gs| => gs[i].id)
  }

  /** Accumulate one document into the groups: add its price to the group with
      its key, or open a new group at the end. */
  function AddToGroups<L(==)>(gs: seq<Group<L>>, k: L, p: int): seq<Group<L>>
  {
    if gs == [] then [Group(k, p)]
    else if gs[0].id == k then [Group(k, gs[0].price + p)] + gs[1..]
    else [gs[0]] + AddToGroups(gs[1..], k, p)
  }

  /** `{ $group: { _id: <label of date>, price: { $sum: '$price' } } }` over the documents. */
  function GroupSum<L(==)>(rs: seq<Budget>, key: Instant -> L): seq<Group<L>> {
    if rs == [] then []
    else AddToGroups(GroupSum(rs[..|rs| - 1], key), key(rs[|rs| - 1].date), rs[|rs| - 1].price)
  }

  /** `Array.prototype.find`: the first group whose `_id` equals the label. */
  function Find<L(==)>(gs: seq<Group<L>>, l: L): (r: Option<Group<L>>)
    ensures r.Some? ==> r.value in gs && r.value.id == l
    ensures r.None? <==> forall g :: g in gs ==> g.id != l
  {
    if gs == [] then None
    else if gs[0].id == l then Some(gs[0])
    else Find(gs[1..], l)
  }

  /** The group `find` returns is the first one with the label. */
  lemma {:induction false} FindIsFirst<L>(gs: seq<Group<L>>, l: L, k: int)
    requires 0 <= k < |gs| && gs[k].id == l
    requires forall j :: 0 <= j < k ==> gs[j].id != l
    ensures Find(gs, l) == Some(gs[k])
  {
    if k > 0 {
      FindIsFirst(gs[1..], l, k - 1);
    }
  }

  /** `priceData?.price || 0` */
  function PriceOrZero<L>(found: Option<Group<L>>): int {
    if found.Some? then found.value.price else 0
  }

  /** The data of a series: for each category, the price of its group, or 0 when none has it. */
  function GapFill<L(==)>(gs: seq<Group<L>>, categories: seq<L>): (data: seq<int>)
    ensures |data| == |categories|
  {
    seq(|categories|, i requires 0 <= i < |categories| => PriceOrZero(Find(gs, categories[i])))
  }

  /** Some document of `rs` has a date rendered as `l`. */
  predicate HasLabel<L(==)>(rs: seq<Budget>, key: Instant -> L, l: L) {
    exists b :: b in rs && key(b.date) == l
  }

  function Sum(xs: seq<int>): int {
    if xs == [] then 0 else Sum(xs[..|xs| - 1]) + xs[|xs| - 1]
  }

  lemma {:induction false} FindAddToGroups<L>(gs: seq<Group<L>>, k: L, p: int, l: L)
    ensures Find(AddToGroups(gs, k, p), l)
         == if l == k then Some(Group(k, PriceOrZero(Find(gs, l)) + p)) else Find(gs, l)
  {
    if gs == [] {
      assert AddToGroups(gs, k, p) == [Group(k, p)];
    } else if gs[0].id == k {
      var r := AddToGroups(gs, k, p);
      assert r[0] == Group(k, gs[0].price + p) && r[1..] == gs[1..];
    } else {
      var r := AddToGroups(gs, k, p);
      assert r[0] == gs[0] && r[1..] == AddToGroups(gs[1..], k, p);
      FindAddToGroups(gs[1..], k, p, l);
    }
  }

  lemma {:induction false} AddToGroupsKeepsIdsDistinct<L>(gs: seq<Group<L>>, k: L, p: int)
    requires Distinct(Ids(gs))
    ensures Distinct(Ids(AddToGroups(gs, k, p)))
    ensures forall g :: g in AddToGroups(gs, k, p) ==> g.id == k || g in gs
  {
    if gs != [] && gs[0].id != k {
      assert Distinct(Ids(gs[1..])) by {
        forall i, j | 0 <= i < j < |gs[1..]| ensures Ids(gs[1..])[i] != Ids(gs[1..])[j] {
          assert Ids(gs)[i + 1] != Ids(gs)[j + 1];
        }
      }
      AddToGroupsKeepsIdsDistinct(gs[1..], k, p);
      var r := AddToGroups(gs, k, p);
      forall i, j | 0 <= i < j < |r| ensures Ids(r)[i] != Ids(r)[j] {
        if i == 0 {
          var gj := r[j];
          assert gj in AddToGroups(gs[1..], k, p);
          if gj.id != k {
            assert gj in gs[1..];
            var j' :| 0 <= j' < |gs[1..]| && gs[1..][j'] == gj;
            assert Ids(gs)[0] != Ids(gs)[j' + 1];
          }
        } else {
          assert Ids(r)[i] == Ids(AddToGroups(gs[1..], k, p))[i - 1];
          assert Ids(r)[j] == Ids(AddToGroups(gs[1..], k, p))[j - 1];
        }
      }
    } else if gs != [] {
      var r := AddToGroups(gs, k, p);
      forall i, j | 0 <= i < j < |r| ensures Ids(r)[i] != Ids(r)[j] {
        assert Ids(gs)[i] != Ids(gs)[j];
      }
    }
  }

  /** `$group` yields one group per key. */
  lemma {:induction false} GroupSumIdsDistinct<L>(rs: seq<Budget>, key: Instant -> L)
    ensures Distinct(Ids(GroupSum(rs, key)))
  {
    if rs != [] {
      GroupSumIdsDistinct(rs[..|rs| - 1], key);
      AddToGroupsKeepsIdsDistinct(GroupSum(rs[..|rs| - 1], key), key(rs[|rs| - 1].date), rs[|rs| - 1].price);
    }
  }

  lemma {:induction false} PriceWhereWithoutLabel<L>(rs: seq<Budget>, key: Instant -> L, l: L)
    requires !HasLabel(rs, key, l)
    ensures PriceWhere(rs, key, l) == 0
  {
    if rs != [] {
      assert rs[|rs| - 1] in rs;
      assert !HasLabel(rs[..|rs| - 1], key, l) by {
        forall b | b in rs[..|rs| - 1] ensures key(b.date) != l {
          assert b in rs;
        }
      }
      PriceWhereWithoutLabel(rs[..|rs| - 1], key, l);
    }
  }

  /** A label occurs in `init + [last]` exactly when it occurs in `init` or is the label of `last`. */
  lemma HasLabelSnoc<L>(init: seq<Budget>, last: Budget, key: Instant -> L, l: L)
    ensures HasLabel(init + [last], key, l) <==> HasLabel(init, key, l) || key(last.date) == l
  {
    var rs := init + [last];
    if HasLabel(rs, key, l) && key(last.date) != l {
      var b :| b in rs && key(b.date) == l;
      assert b in init;
    }
    if HasLabel(init, key, l) {
      var b :| b in init && key(b.date) == l;
      assert b in rs;
    }
    assert last in rs;
  }

  /** One accumulation step keeps the lookup in step with the label's price sum. */
  lemma FindGroupSumStep<L>(gs: seq<Group<L>>, init: seq<Budget>, last: Budget, key: Instant -> L, l: L)
    requires Find(gs, l) == if HasLabel(init, key, l) then Some(Group(l, PriceWhere(init, key, l))) else None
    ensures Find(AddToGroups(gs, key(last.date), last.price), l)
         == if HasLabel(init + [last], key, l) then Some(Group(l, PriceWhere(init + [last], key, l))) else None
  {
    var rs := init + [last];
    assert rs[..|rs| - 1] == init && rs[|rs| - 1] == last;
    assert PriceWhere(rs, key, l) == PriceWhere(init, key, l) + (if key(last.date) == l then last.price else 0);
    FindAddToGroups(gs, key(last.date), last.price, l);
    HasLabelSnoc(init, last, key, l);
    if key(last.date) == l && !HasLabel(init, key, l) {
      PriceWhereWithoutLabel(init, key, l);
    }
  }

  /** Looking a label up among the groups finds a group exactly when some document
      carries the label, and that group's price is the sum over those documents. */
  lemma {:induction false} FindGroupSum<L>(rs: seq<Budget>, key: Instant -> L, l: L)
    ensures Find(GroupSum(rs, key), l)
         == if HasLabel(rs, key, l) then Some(Group(l, PriceWhere(rs, key, l))) else None
  {
    if rs != [] {
      var init, last := rs[..|rs| - 1], rs[|rs| - 1];
      assert rs == init + [last];
      FindGroupSum(init, key, l);
      FindGroupSumStep(GroupSum(init, key), init, last, key, l);
    }
  }

  /** Each gap-filled value is the price sum of the documents labelled with its category. */
  lemma GapFillAt<L>(rs: seq<Budget>, key: Instant -> L, categories: seq<L>, i: int)
    requires 0 <= i < |categories|
    ensures GapFill(GroupSum(rs, key), categories)[i] == PriceWhere(rs, key, categories[i])
  {
    FindGroupSum(rs, key, categories[i]);
    if !HasLabel(rs, key, categories[i]) {
      PriceWhereWithoutLabel(rs, key, categories[i]);
    }
  }

  lemma {:induction false} SumPointwise(xs: seq<int>, ys: seq<int>, zs: seq<int>)
    requires |xs| == |ys| == |zs|
    requires forall i :: 0 <= i < |zs| ==> zs[i] == xs[i] + ys[i]
    ensures Sum(zs) == Sum(xs) + Sum(ys)
  {
    if zs != [] {
      var n := |zs| - 1;
      SumPointwise(xs[..n], ys[..n], zs[..n]);
    }
  }

  /** A series of zeros adds up to 0. */
  lemma {:induction false} SumZeros(xs: seq<int>)
    requires forall i :: 0 <= i < |xs| ==> xs[i] == 0
    ensures Sum(xs) == 0
  {
    if xs != [] {
      SumZeros(xs[..|xs| - 1]);
    }
  }

  /** With distinct categories, a single document's price lands in at most one bucket. */
  lemma {:induction false} SumOneBucket<L>(categories: seq<L>, k: L, p: int)
    requires Distinct(categories)
    ensures Sum(seq(|categories|, i requires 0 <= i < |categories| => if categories[i] == k then p else 0))
         == if k in categories then p else 0
  {
    var s := seq(|categories|, i requires 0 <= i < |categories| => if categories[i] == k then p else 0);
    if categories != [] {
      var n := |categories| - 1;
      var init := categories[..n];
      assert Distinct(init);
      SumOneBucket(init, k, p);
      assert s[..n] == seq(|init|, i requires 0 <= i < |init| => if init[i] == k then p else 0);
      assert categories == init + [categories[n]];
      if categories[n] == k {
        assert k !in init;
      }
    }
  }

  /** When every document's label is among distinct categories, the buckets add up
      to the total price of the documents. */
  lemma {:induction false} BucketsAddUp<L>(rs: seq<Budget>, key: Instant -> L, categories: seq<L>)
    requires Distinct(categories)
    requires forall b :: b in rs ==> key(b.date) in categories
    ensures Sum(seq(|categories|, i requires 0 <= i < |categories| => PriceWhere(rs, key, categories[i])))
         == PriceOf(rs)
  {
    var buckets := seq(|categories|, i requires 0 <= i < |categories| => PriceWhere(rs, key, categories[i]));
    if rs == [] {
      SumZeros(buckets);
    } else {
      var init, last := rs[..|rs| - 1], rs[|rs| - 1];
      assert last in rs;
      assert forall b :: b in init ==> b in rs;
      BucketsAddUp(init, key, categories);
      var before := seq(|categories|, i requires 0 <= i < |categories| => PriceWhere(init, key, categories[i]));
      var added := seq(|categories|, i requires 0 <= i < |categories| => if categories[i] == key(last.date) then last.price else 0);
      SumOneBucket(categories, key(last.date), last.price);
      SumPointwise(before, added, buckets);
    }
  }

  /** The gap-filled series sums to the total price of the documents whenever
      every document's label is one of the (distinct) enumerated categories. */
  lemma SeriesTotal<L>(rs: seq<Budget>, key: Instant -> L, categories: seq<L>)
    requires Distinct(categories)
    requires forall b :: b in rs ==> key(b.date) in categories
    ensures Sum(GapFill(GroupSum(rs, key), categories)) == PriceOf(rs)
  {
    var buckets := seq(|categories|, i requires 0 <= i < |categories| => PriceWhere(rs, key, categories[i]));
    forall i | 0 <= i < |categories| ensures GapFill(GroupSum(rs, key), categories)[i] == buckets[i] {
      GapFillAt(rs, key, categories, i);
    }
    assert GapFill(GroupSum(rs, key), categories) == buckets;
    BucketsAddUp(rs, key, categories);
  }
}
