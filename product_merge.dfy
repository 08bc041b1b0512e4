/**
 * The merge of `syncCartWithUser` as its comments describe it: each anonymous line is
 * added to the owned line for the same product, or copied when there is none. Beside
 * it, an input on which the loop as written (whose lookup compares a line with itself)
 * does something else.
 */
module ProductMerge {
  import opened Wrappers
  import opened Repository
  import opened MergeLoop

  /** The quantity held for product `p` over all lines. */
  function QuantityOf(items: seq<LineItem>, p: Id): int
  {
    if items == [] then 0
    else (if items[0].productId == p then items[0].quantity else 0) + QuantityOf(items[1..], p)
  }

  function Contribution(l: LineItem, p: Id): int {
    if l.productId == p then l.quantity else 0
  }

  /** Appending one line adds its contribution. */
  lemma {:induction false} QuantityOfAppend(items: seq<LineItem>, x: LineItem, p: Id)
    ensures QuantityOf(items + [x], p) == QuantityOf(items, p) + Contribution(x, p)
    decreases |items|
  {
    if items != [] {
      assert (items + [x])[1..] == items[1..] + [x];
      QuantityOfAppend(items[1..], x, p);
    }
  }

  /** Replacing the line at `k` swaps its contribution for the new line's. */
  lemma {:induction false} QuantityOfUpdate(items: seq<LineItem>, k: nat, x: LineItem, p: Id)
    requires k < |items|
    ensures QuantityOf(items[k := x], p) == QuantityOf(items, p) - Contribution(items[k], p) + Contribution(x, p)
    decreases |items|
  {
    if k > 0 {
      assert items[k := x][1..] == items[1..][k - 1 := x];
      QuantityOfUpdate(items[1..], k - 1, x, p);
    }
  }

  /** One corrected merge step: add to the line for the same product, or append a copy under `id`. */
  function MergeLine(lines: seq<LineItem>, item: LineItem, id: Id): (r: seq<LineItem>)
    ensures IndexOfProduct(lines, item.productId).Some? ==> |r| == |lines|
    ensures IndexOfProduct(lines, item.productId).None? ==> r == lines + [item.(id := id)]
  {
    match IndexOfProduct(lines, item.productId)
    case Some(k) => lines[k := lines[k].(quantity := lines[k].quantity + item.quantity)]
    case None => lines + [item.(id := id)]
  }

  /** The corrected merge: the owned lines with each anonymous line merged in, in order, new lines under ids from `next` on. */
  function MergeByProduct(lines: seq<LineItem>, anon: seq<LineItem>, next: nat): seq<LineItem>
    decreases |anon|
  {
    if anon == [] then lines
    else MergeByProduct(MergeLine(lines, anon[0], Uuid(next)), anon[1..], next + 1)
  }

  /** One step adds exactly the anonymous line's quantity to its product and leaves every other product's quantity alone. */
  lemma MergeLineQuantity(lines: seq<LineItem>, item: LineItem, id: Id, p: Id)
    ensures QuantityOf(MergeLine(lines, item, id), p) == QuantityOf(lines, p) + Contribution(item, p)
  {
    match IndexOfProduct(lines, item.productId)
    case Some(k) =>
      QuantityOfUpdate(lines, k, lines[k].(quantity := lines[k].quantity + item.quantity), p);
    case None =>
      QuantityOfAppend(lines, item.(id := id), p);
  }

  /** The intended promise ("add two cart quantities together"): every product ends with the sum of both carts' quantities. */
  lemma {:induction false} MergeByProductSums(lines: seq<LineItem>, anon: seq<LineItem>, next: nat, p: Id)
    ensures QuantityOf(MergeByProduct(lines, anon, next), p) == QuantityOf(lines, p) + QuantityOf(anon, p)
    decreases |anon|
  {
    if anon != [] {
      MergeLineQuantity(lines, anon[0], Uuid(next), p);
      MergeByProductSums(MergeLine(lines, anon[0], Uuid(next)), anon[1..], next + 1, p);
    }
  }

  /** A merge step never introduces a second line for a product. */
  lemma MergeLineUnique(lines: seq<LineItem>, item: LineItem, id: Id)
    requires ProductsUnique(lines)
    ensures ProductsUnique(MergeLine(lines, item, id))
  {
    var r := MergeLine(lines, item, id);
    if IndexOfProduct(lines, item.productId).Some? {
      assert forall i :: 0 <= i < |r| ==> r[i].productId == lines[i].productId;
    }
  }

  /** The corrected merge keeps one line per product. */
  lemma {:induction false} MergeByProductUnique(lines: seq<LineItem>, anon: seq<LineItem>, next: nat)
    requires ProductsUnique(lines)
    ensures ProductsUnique(MergeByProduct(lines, anon, next))
    decreases |anon|
  {
    if anon != [] {
      MergeLineUnique(lines, anon[0], Uuid(next));
      MergeByProductUnique(MergeLine(lines, anon[0], Uuid(next)), anon[1..], next + 1);
    }
  }

  /**
   * The loop as written on an owned cart [p2 x1, p1 x1] and an anonymous cart [p1 x2]:
   * the anonymous p1 quantity lands on the p2 line (p2 x3, p1 x1), where the corrected
   * merge gives p2 x1, p1 x3.
   */
  lemma SelfMatchMisroutes()
    ensures var a := LineItem("l1", "p2", "Mug", 500, "", 1);
      var b := LineItem("l2", "p1", "Cap", 700, "", 1);
      var x := LineItem("l3", "p1", "Cap", 700, "", 2);
      var owned := Cart("c1", Some("u1"), [a, b]);
      var s := Store(map["c1" := owned, "c2" := Cart("c2", None, [x])], map["u1" := "c1"], 3);
      var written := [a.(quantity := 3), b];
      var intended := MergeByProduct(owned.items, [x], s.next);
      && MergeWrites(owned, [x]) == [SetQuantity("c1", "l1", 3)]
      && ApplyAll(s, MergeWrites(owned, [x])) == s.(carts := s.carts["c1" := owned.(items := written)])
      && QuantityOf(written, "p1") == 1 && QuantityOf(written, "p2") == 3
      && intended == [a, b.(quantity := 3)]
      && QuantityOf(intended, "p1") == 3 && QuantityOf(intended, "p2") == 1
  {
    var a := LineItem("l1", "p2", "Mug", 500, "", 1);
    var b := LineItem("l2", "p1", "Cap", 700, "", 1);
    var x := LineItem("l3", "p1", "Cap", 700, "", 2);
    var owned := Cart("c1", Some("u1"), [a, b]);
    var s := Store(map["c1" := owned, "c2" := Cart("c2", None, [x])], map["u1" := "c1"], 3);
    assert MergeWrites(owned, [x]) == [SetQuantity("c1", "l1", 3)];
    assert "l2" != "l1";
    assert IdsDistinct(owned.items);
    ApplySetAt(s, owned, 0, 3);
    var written := [a.(quantity := 3), b];
    assert owned.items[0 := owned.items[0].(quantity := 3)] == written;
    assert "p1" != "p2";
    assert written[1..] == [b] && [b][1..] == [];
    assert QuantityOf(written, "p1") == QuantityOf([b], "p1") == 1;
    assert QuantityOf(written, "p2") == 3 + QuantityOf([b], "p2") == 3;
    assert [a, b][1..] == [b];
    assert IndexOfProduct([a, b], "p1") == Some(1);
    assert MergeByProduct(owned.items, [x], s.next) == MergeByProduct(MergeLine([a, b], x, Uuid(3)), [], 4);
    var intended := [a, b.(quantity := 3)];
    assert intended[1..] == [b.(quantity := 3)];
  }
}
