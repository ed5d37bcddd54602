/** src/components/StatsCards.tsx: the four numbers on the stats cards. */
module Stats {
  import opened Inventory

  /** The statuses of the items, in order. */
  function Statuses(items: seq<Item>): (r: seq<string>)
    ensures |r| == |items|
    ensures forall k :: 0 <= k < |items| ==> r[k] == items[k].status
  {
    if items == [] then [] else [items[0].status] + Statuses(items[1..])
  }

  /** `items.filter(item => item.status === wanted).length`. */
  function Count(items: seq<Item>, wanted: string): (n: nat)
    ensures n <= |items|
  {
    if items == [] then 0
    else (if items[0].status == wanted then 1 else 0) + Count(items[1..], wanted)
  }

  /** The count is the number of items carrying exactly that status: the
      multiplicity of the wanted status among the statuses. */
  lemma {:induction false} CountIsMultiplicity(items: seq<Item>, wanted: string)
    ensures Count(items, wanted) == multiset(Statuses(items))[wanted]
  {
    if items != [] {
      CountIsMultiplicity(items[1..], wanted);
      assert Statuses(items) == [items[0].status] + Statuses(items[1..]);
    }
  }

  /** No item of that status, no count; every item of that status, a full
      count. */
  lemma {:induction false} CountExtremes(items: seq<Item>, wanted: string)
    ensures Count(items, wanted) == 0 <==> forall k :: 0 <= k < |items| ==> items[k].status != wanted
    ensures Count(items, wanted) == |items| <==> forall k :: 0 <= k < |items| ==> items[k].status == wanted
  {
    if items != [] {
      CountExtremes(items[1..], wanted);
      assert forall k :: 1 <= k < |items| ==> items[k] == items[1..][k - 1];
    }
  }

  /** The cards' values: total, in stock, low stock, out of stock. */
  datatype Cards = Cards(total: nat, inStock: nat, lowStock: nat, outOfStock: nat)

  function StatsCards(items: seq<Item>): (c: Cards)
    ensures c.total == |items|
    ensures c.inStock <= c.total && c.lowStock <= c.total && c.outOfStock <= c.total
  {
    Cards(|items|, Count(items, IN_STOCK), Count(items, LOW_STOCK), Count(items, OUT_OF_STOCK))
  }

  /** The three status counts never add up to more than the total, and they
      add up to it exactly when every status is one of the three labels. */
  lemma {:induction false} CountsCoverTotal(items: seq<Item>)
    ensures StatsCards(items).inStock + StatsCards(items).lowStock + StatsCards(items).outOfStock <= |items|
    ensures (StatsCards(items).inStock + StatsCards(items).lowStock + StatsCards(items).outOfStock == |items|)
      <==> (forall k :: 0 <= k < |items| ==> items[k].status in Labels())
  {
    if items != [] {
      CountsCoverTotal(items[1..]);
      assert forall k :: 1 <= k < |items| ==> items[k] == items[1..][k - 1];
    }
  }
}
