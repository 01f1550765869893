/**
 * The inventory page's search: items are scored by how many search keywords
 * occur in their lower-cased name, items scoring zero are dropped, and the
 * rest are ordered by descending score with ties kept in inventory order
 * (JavaScript's `Array.prototype.sort` is stable).
 */
module InventorySearch {
  import opened Text

  /**
   * A cost price. The page stores the number a decimal string denotes
   * (`parseFloat`); the model keeps that string.
   */
  datatype Price = Price(decimal: string)

  /** An inventory row as the backend sends it. */
  datatype Item = Item(
    id: int,
    name: string,
    productType: string,
    quantity: int,
    image: string,
    costPrice: Price)

  /**
   * `search.toLowerCase().split(/\s+/).filter(Boolean)`: the search's words,
   * lower-cased. There is at least one exactly when the search is not blank.
   */
  function Keywords(search: string): (r: seq<string>)
    ensures forall k :: 0 <= k < |r| ==> IsWord(r[k])
    ensures r == [] <==> IsBlank(search)
  {
    LowerBlank(search);
    Words(ToLower(search))
  }

  /**
   * The score of a lower-cased name: the number of keywords it contains,
   * duplicates counted, so never more than the number of keywords.
   */
  function Score(nameLower: string, keywords: seq<string>): (r: nat)
    ensures r <= |keywords|
    decreases |keywords|
  {
    if keywords == [] then 0
    else
      var last := keywords[|keywords| - 1];
      Score(nameLower, keywords[..|keywords| - 1]) + (if Contains(nameLower, last) then 1 else 0)
  }

  /** The indices of the keywords that occur in the name. */
  function Hits(nameLower: string, keywords: seq<string>): set<int> {
    set i | 0 <= i < |keywords| && Contains(nameLower, keywords[i])
  }

  /**
   * The score counts the keyword positions that match, so it is at most the
   * number of keywords, and it is positive iff some keyword occurs.
   */
  lemma {:induction false} ScoreCountsHits(nameLower: string, keywords: seq<string>)
    ensures Score(nameLower, keywords) == |Hits(nameLower, keywords)|
    ensures Score(nameLower, keywords) <= |keywords|
    ensures Score(nameLower, keywords) > 0 <==> exists i :: 0 <= i < |keywords| && Contains(nameLower, keywords[i])
    decreases |keywords|
  {
    if keywords != [] {
      var n := |keywords| - 1;
      var init := keywords[..n];
      ScoreCountsHits(nameLower, init);
      var before := Hits(nameLower, init);
      assert forall i :: 0 <= i < n ==> init[i] == keywords[i];
      if Contains(nameLower, keywords[n]) {
        assert Hits(nameLower, keywords) == before + {n};
      } else {
        assert Hits(nameLower, keywords) == before;
      }
      if Score(nameLower, keywords) > 0 && !Contains(nameLower, keywords[n]) {
        var i :| 0 <= i < n && Contains(nameLower, init[i]);
        assert Contains(nameLower, keywords[i]);
      }
    }
  }

  /** The `for` loop that counts the keywords occurring in the name. */
  method MatchCount(nameLower: string, keywords: seq<string>) returns (matchCount: nat)
    ensures matchCount == Score(nameLower, keywords)
  {
    matchCount := 0;
    var k := 0;
    while k < |keywords|
      invariant 0 <= k <= |keywords|
      invariant matchCount == Score(nameLower, keywords[..k])
    {
      assert keywords[..k + 1][..k] == keywords[..k];
      if Contains(nameLower, keywords[k]) {
        matchCount := matchCount + 1;
      }
      k := k + 1;
    }
    assert keywords[..k] == keywords;
  }

  function ItemScore(item: Item, keywords: seq<string>): nat {
    Score(ToLower(item.name), keywords)
  }

  /** An item with its score and its position in the inventory. */
  datatype Scored = Scored(item: Item, matchCount: nat, pos: nat)

  /** `inventory.map(item => ({ item, matchCount }))`, positions made explicit. */
  function ScoreAll(inventory: seq<Item>, keywords: seq<string>): (r: seq<Scored>)
    ensures |r| == |inventory|
    ensures forall i :: 0 <= i < |r| ==> r[i] == Scored(inventory[i], ItemScore(inventory[i], keywords), i)
  {
    seq(|inventory|, i requires 0 <= i < |inventory| => Scored(inventory[i], ItemScore(inventory[i], keywords), i))
  }

  /** `.filter(({ matchCount }) => matchCount > 0)`. */
  function Positive(xs: seq<Scored>): seq<Scored> {
    if xs == [] then []
    else if xs[0].matchCount > 0 then [xs[0]] + Positive(xs[1..])
    else Positive(xs[1..])
  }

  /** The filter keeps exactly the positive entries ... */
  lemma {:induction false} PositiveMembers(xs: seq<Scored>)
    ensures |Positive(xs)| <= |xs|
    ensures forall z :: z in Positive(xs) <==> z in xs && z.matchCount > 0
    decreases |xs|
  {
    if xs != [] {
      PositiveMembers(xs[1..]);
      assert xs == [xs[0]] + xs[1..];
    }
  }

  /** ... in inventory order. */
  lemma {:induction false} PositiveIncreasing(xs: seq<Scored>)
    requires PosIncreasing(xs)
    ensures PosIncreasing(Positive(xs))
    decreases |xs|
  {
    if xs != [] {
      var tail := xs[1..];
      TailIncreasing(xs);
      PositiveIncreasing(tail);
      if xs[0].matchCount > 0 {
        PositiveMembers(tail);
        PrependIncreasing(xs[0], Positive(tail));
      }
    }
  }

  lemma TailIncreasing(xs: seq<Scored>)
    requires xs != [] && PosIncreasing(xs)
    ensures PosIncreasing(xs[1..])
    ensures forall y :: y in xs[1..] ==> xs[0].pos < y.pos
  {
    var tail := xs[1..];
    forall i, j | 0 <= i < j < |tail| ensures tail[i].pos < tail[j].pos {
      assert tail[i] == xs[i + 1] && tail[j] == xs[j + 1];
    }
    forall y | y in tail ensures xs[0].pos < y.pos {
      var k :| 0 <= k < |tail| && tail[k] == y;
      assert tail[k] == xs[k + 1];
    }
  }

  lemma PrependIncreasing(x: Scored, ys: seq<Scored>)
    requires PosIncreasing(ys)
    requires forall y :: y in ys ==> x.pos < y.pos
    ensures PosIncreasing([x] + ys)
  {
    var r := [x] + ys;
    forall i, j | 0 <= i < j < |r| ensures r[i].pos < r[j].pos {
      assert r[j] == ys[j - 1];
      if i > 0 { assert r[i] == ys[i - 1]; }
    }
  }

  predicate PosIncreasing(xs: seq<Scored>) {
    forall i, j :: 0 <= i < j < |xs| ==> xs[i].pos < xs[j].pos
  }

  /** The order `sort((a, b) => b.matchCount - a.matchCount)` produces, ties by position. */
  predicate Before(a: Scored, b: Scored) {
    a.matchCount > b.matchCount || (a.matchCount == b.matchCount && a.pos < b.pos)
  }

  predicate Ordered(xs: seq<Scored>) {
    forall i, j :: 0 <= i < j < |xs| ==> Before(xs[i], xs[j])
  }

  /** Inserts `x` before the first entry that does not score more; nothing is lost or added. */
  function Insert(x: Scored, ys: seq<Scored>): (r: seq<Scored>)
    ensures |r| == |ys| + 1
    ensures multiset(r) == multiset(ys) + multiset{x}
  {
    if ys == [] || x.matchCount >= ys[0].matchCount then [x] + ys
    else
      assert ys == [ys[0]] + ys[1..];
      [ys[0]] + Insert(x, ys[1..])
  }

  /** A stable sort by descending score (insertion sort as reference); it permutes its input. */
  function SortDesc(xs: seq<Scored>): (r: seq<Scored>)
    ensures |r| == |xs|
    ensures multiset(r) == multiset(xs)
  {
    if xs == [] then []
    else
      assert xs == [xs[0]] + xs[1..];
      Insert(xs[0], SortDesc(xs[1..]))
  }

  lemma OrderedTail(ys: seq<Scored>)
    requires ys != [] && Ordered(ys)
    ensures Ordered(ys[1..])
    ensures forall z :: z in ys[1..] ==> Before(ys[0], z)
  {
    var tail := ys[1..];
    forall i, j | 0 <= i < j < |tail| ensures Before(tail[i], tail[j]) {
      assert tail[i] == ys[i + 1] && tail[j] == ys[j + 1];
    }
    forall z | z in tail ensures Before(ys[0], z) {
      var k :| 0 <= k < |tail| && tail[k] == z;
      assert tail[k] == ys[k + 1];
    }
  }

  lemma PrependOrdered(y: Scored, zs: seq<Scored>)
    requires Ordered(zs)
    requires forall z :: z in zs ==> Before(y, z)
    ensures Ordered([y] + zs)
  {
    var r := [y] + zs;
    forall i, j | 0 <= i < j < |r| ensures Before(r[i], r[j]) {
      assert r[j] == zs[j - 1];
      if i > 0 { assert r[i] == zs[i - 1]; }
    }
  }

  /** Inserting an entry that comes later than none of `ys` keeps the order. */
  lemma {:induction false} InsertOrdered(x: Scored, ys: seq<Scored>)
    requires Ordered(ys)
    requires forall y :: y in ys ==> x.pos < y.pos
    ensures Ordered(Insert(x, ys))
    decreases |ys|
  {
    if ys == [] {
      PrependOrdered(x, ys);
    } else {
      OrderedTail(ys);
      assert ys == [ys[0]] + ys[1..];
      if x.matchCount >= ys[0].matchCount {
        forall y | y in ys ensures Before(x, y) {
          if y != ys[0] { assert y in ys[1..] && Before(ys[0], y); }
        }
        PrependOrdered(x, ys);
      } else {
        var tail := ys[1..];
        InsertOrdered(x, tail);
        var ins := Insert(x, tail);
        forall z | z in ins ensures Before(ys[0], z) {
          assert z in multiset(ins);
        }
        PrependOrdered(ys[0], ins);
      }
    }
  }

  /** The sort orders by descending score, ties in position order. */
  lemma {:induction false} SortDescSpec(xs: seq<Scored>)
    requires PosIncreasing(xs)
    ensures Ordered(SortDesc(xs))
    decreases |xs|
  {
    if xs != [] {
      var tail := xs[1..];
      TailIncreasing(xs);
      SortDescSpec(tail);
      var sorted := SortDesc(tail);
      forall y | y in sorted ensures xs[0].pos < y.pos {
        assert y in multiset(sorted);
      }
      InsertOrdered(xs[0], sorted);
    }
  }

  /**
   * The scored, filtered, sorted entries for a non-blank search: no more
   * than the inventory, each scoring above zero, non-increasing in score and
   * with equal scores in inventory order.
   */
  function Ranked(inventory: seq<Item>, keywords: seq<string>): (r: seq<Scored>)
    ensures |r| <= |inventory|
    ensures Ordered(r)
    ensures forall z :: z in r ==> z.matchCount > 0
  {
    var all := ScoreAll(inventory, keywords);
    PositiveIncreasing(all);
    PositiveMembers(all);
    SortDescSpec(Positive(all));
    SortDescPermutes(Positive(all));
    SortDesc(Positive(all))
  }

  function Items(xs: seq<Scored>): (r: seq<Item>)
    ensures |r| == |xs|
    ensures forall i :: 0 <= i < |xs| ==> r[i] == xs[i].item
  {
    seq(|xs|, i requires 0 <= i < |xs| => xs[i].item)
  }

  /**
   * `filteredInventory`: a blank search shows the whole inventory in its
   * order; any other search shows inventory items only, each at most once
   * per position, so never more items than the inventory holds.
   */
  function FilteredInventory(inventory: seq<Item>, search: string): (r: seq<Item>)
    ensures IsBlank(search) ==> r == inventory
    ensures |r| <= |inventory|
    ensures forall x :: x in r ==> x in inventory
  {
    if Trim(search) == [] then inventory
    else
      var ranked := Ranked(inventory, Keywords(search));
      RankedSpec(inventory, Keywords(search));
      ItemsFrom(ranked, inventory);
      Items(ranked)
  }

  /** The items of entries drawn from the inventory are inventory items. */
  lemma ItemsFrom(xs: seq<Scored>, inventory: seq<Item>)
    requires forall z :: z in xs ==> 0 <= z.pos < |inventory| && z.item == inventory[z.pos]
    ensures forall x :: x in Items(xs) ==> x in inventory
  {
    forall x | x in Items(xs) ensures x in inventory {
      var k :| 0 <= k < |xs| && Items(xs)[k] == x;
      assert xs[k] in xs;
    }
  }

  /**
   * For a non-blank search, the result is exactly the inventory entries that
   * score above zero, each once (entries have distinct positions), with each
   * entry's item and score those of its position.
   */
  lemma {:induction false} RankedSpec(inventory: seq<Item>, keywords: seq<string>)
    ensures var r := Ranked(inventory, keywords);
      && (forall i, j :: 0 <= i < j < |r| ==> r[i].pos != r[j].pos)
      && (forall z :: z in r <==>
            0 <= z.pos < |inventory| && z.item == inventory[z.pos]
            && z.matchCount == ItemScore(inventory[z.pos], keywords) && z.matchCount > 0)
  {
    var all := ScoreAll(inventory, keywords);
    var pos := Positive(all);
    assert PosIncreasing(all);
    PositiveIncreasing(all);
    PositiveMembers(all);
    SortDescPermutes(pos);
    ScoreAllMembers(inventory, keywords);
    OrderedDistinct(SortDesc(pos), all);
  }

  /** The sorted sequence has the same length and members as its input, and is ordered. */
  lemma SortDescPermutes(xs: seq<Scored>)
    requires PosIncreasing(xs)
    ensures |SortDesc(xs)| == |xs|
    ensures Ordered(SortDesc(xs))
    ensures forall z :: z in SortDesc(xs) <==> z in xs
  {
    SortDescSpec(xs);
    var r := SortDesc(xs);
    forall z: Scored ensures z in r <==> z in xs {
      assert z in r <==> z in multiset(r);
      assert z in xs <==> z in multiset(xs);
    }
  }

  /** An entry is scored exactly when it is an inventory item at its position with its score. */
  lemma ScoreAllMembers(inventory: seq<Item>, keywords: seq<string>)
    ensures forall z :: z in ScoreAll(inventory, keywords) <==>
      0 <= z.pos < |inventory| && z.item == inventory[z.pos] && z.matchCount == ItemScore(inventory[z.pos], keywords)
  {
    var all := ScoreAll(inventory, keywords);
    forall z | z in all ensures 0 <= z.pos < |inventory| && z == all[z.pos] {
      var k :| 0 <= k < |all| && all[k] == z;
    }
    forall z: Scored | 0 <= z.pos < |inventory| && z.item == inventory[z.pos] && z.matchCount == ItemScore(inventory[z.pos], keywords)
      ensures z in all
    {
      assert all[z.pos] == z;
    }
  }

  /**
   * In an ordered sequence of entries drawn from `all`, where an entry is
   * determined by its position, no two entries share a position.
   */
  lemma OrderedDistinct(r: seq<Scored>, all: seq<Scored>)
    requires Ordered(r)
    requires forall z :: z in r ==> 0 <= z.pos < |all| && z == all[z.pos]
    ensures forall i, j :: 0 <= i < j < |r| ==> r[i].pos != r[j].pos
  {
    forall i, j | 0 <= i < j < |r| ensures r[i].pos != r[j].pos {
      assert r[i] in r && r[j] in r;
      assert Before(r[i], r[j]);
    }
  }
}
