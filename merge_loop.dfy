/**
 * The merge loop of `syncCartWithUser`: one write per anonymous line against the
 * owned cart as it was read before the loop, and what those writes do to the database.
 */
module MergeLoop {
  import opened Wrappers
  import opened Repository

  /** `items.find(matches)`: the first line the callback accepts. */
  function FindFirst(items: seq<LineItem>, matches: LineItem -> bool): (r: Option<LineItem>)
    ensures r.Some? ==> r.value in items && matches(r.value)
    ensures r.None? ==> forall i :: 0 <= i < |items| ==> !matches(items[i])
    ensures items != [] && matches(items[0]) ==> r == Some(items[0])
  {
    if items == [] then None
    else if matches(items[0]) then Some(items[0])
    else FindFirst(items[1..], matches)
  }

  /**
   * The callback of the merge loop's `find`: its parameter shadows the loop's `item`,
   * so it compares a line's product id with that same line's product id.
   */
  function SelfMatch(): LineItem -> bool {
    (item: LineItem) => item.productId == item.productId
  }

  /** Because of the shadowing, the merge loop's lookup always lands on the owned cart's first line. */
  lemma SelfMatchFindsFirst(items: seq<LineItem>)
    ensures FindFirst(items, SelfMatch()) == if items == [] then None else Some(items[0])
  {
  }

  /** The write the merge loop issues for one anonymous line, against the owned cart as read before the loop. */
  function MergeWrite(owned: Cart, item: LineItem): (w: Write)
    ensures w == if owned.items == [] then NewLine(owned.id, item.productId, item.title, item.price, item.image, item.quantity)
                 else SetQuantity(owned.id, owned.items[0].id, owned.items[0].quantity + item.quantity)
  {
    SelfMatchFindsFirst(owned.items);
    match FindFirst(owned.items, SelfMatch())
    case Some(existing) => SetQuantity(owned.id, existing.id, existing.quantity + item.quantity)
    case None => NewLine(owned.id, item.productId, item.title, item.price, item.image, item.quantity)
  }

  /** The writes of the whole merge loop, one per anonymous line, in order. */
  function MergeWrites(owned: Cart, items: seq<LineItem>): (ws: seq<Write>)
    ensures |ws| == |items|
    ensures forall i :: 0 <= i < |items| ==> ws[i] == MergeWrite(owned, items[i])
  {
    seq(|items|, i requires 0 <= i < |items| => MergeWrite(owned, items[i]))
  }

  /** A store in which the merge has `owned` and `anon` to work with. */
  ghost predicate MergeReady(s: Store, u: Id, owned: Cart, anon: Cart) {
    && Valid(s)
    && u in s.owners && s.owners[u] == owned.id && InStore(s, owned)
    && InStore(s, anon) && anon.id != owned.id
  }

  /** Repeated quantity writes to the same line: the last one wins. */
  lemma {:induction false} RepeatedSetQuantity(s: Store, c: Id, l: Id, ws: seq<Write>)
    requires c in s.carts
    requires forall i :: 0 <= i < |ws| ==> ws[i].SetQuantity? && ws[i].cartId == c && ws[i].lineId == l
    ensures ws == [] ==> ApplyAll(s, ws) == s
    ensures ws != [] ==> ApplyAll(s, ws) == Apply(s, ws[|ws| - 1])
    decreases |ws|
  {
    if ws != [] {
      var s1 := Apply(s, ws[0]);
      RepeatedSetQuantity(s1, c, l, ws[1..]);
      if |ws| > 1 {
        var last := ws[|ws| - 1];
        assert ws[1..][|ws[1..]| - 1] == last;
        var items := s.carts[c].items;
        assert WithQuantity(WithQuantity(items, l, ws[0].quantity), l, last.quantity) == WithQuantity(items, l, last.quantity);
      }
    }
  }

  /** The product fields of a line, without its database id. */
  datatype Entry = Entry(productId: Id, title: string, price: int, image: string, quantity: int)

  function EntryOf(l: LineItem): Entry {
    Entry(l.productId, l.title, l.price, l.image, l.quantity)
  }

  /** The lines of a cart without their ids. */
  function Entries(items: seq<LineItem>): (r: seq<Entry>)
    ensures |r| == |items|
    ensures forall i :: 0 <= i < |items| ==> r[i] == EntryOf(items[i])
  {
    seq(|items|, i requires 0 <= i < |items| => EntryOf(items[i]))
  }

  /** `Entries` distributes over concatenation. */
  lemma EntriesAppend(a: seq<LineItem>, b: seq<LineItem>)
    ensures Entries(a + b) == Entries(a) + Entries(b)
  {
    assert forall i :: 0 <= i < |b| ==> (a + b)[|a| + i] == b[i];
  }

  /** The anonymous lines as the copy loop stores them: the same product fields under fresh ids, drawn from `next` on. */
  function Copied(items: seq<LineItem>, next: nat): (r: seq<LineItem>)
    ensures |r| == |items|
    ensures forall i :: 0 <= i < |items| ==> r[i] == items[i].(id := Uuid(next + i))
  {
    seq(|items|, i requires 0 <= i < |items| => items[i].(id := Uuid(next + i)))
  }

  /** The database after `items` are copied, in order, into cart `c`. */
  function AfterCopy(s: Store, c: Id, items: seq<LineItem>): Store
    requires c in s.carts
  {
    s.(carts := s.carts[c := s.carts[c].(items := s.carts[c].items + Copied(items, s.next))], next := s.next + |items|)
  }

  /** One line creation followed by the copy of the rest is the copy of all of them. */
  lemma CopyStep(s: Store, c: Id, x: LineItem, rest: seq<LineItem>)
    requires c in s.carts
    ensures AfterCopy(Apply(s, NewLine(c, x.productId, x.title, x.price, x.image, x.quantity)), c, rest) == AfterCopy(s, c, [x] + rest)
  {
    var before := s.carts[c].items;
    var line := x.(id := Uuid(s.next));
    var s1 := Apply(s, NewLine(c, x.productId, x.title, x.price, x.image, x.quantity));
    assert s1 == s.(carts := s.carts[c := s.carts[c].(items := before + [line])], next := s.next + 1);
    assert [line] + Copied(rest, s.next + 1) == Copied([x] + rest, s.next);
    assert before + [line] + Copied(rest, s.next + 1) == before + Copied([x] + rest, s.next);
  }

  /** The merge loop over an owned cart read as empty issues one line creation per anonymous line. */
  lemma {:induction false} CopyLines(s: Store, owned: Cart, items: seq<LineItem>)
    requires owned.id in s.carts && owned.items == []
    ensures ApplyAll(s, MergeWrites(owned, items)) == AfterCopy(s, owned.id, items)
    decreases |items|
  {
    var c := owned.id;
    var ws := MergeWrites(owned, items);
    if items == [] {
      assert s.carts[c].items + Copied(items, s.next) == s.carts[c].items;
      assert s.carts[c := s.carts[c].(items := s.carts[c].items)] == s.carts;
    } else {
      var x := items[0];
      assert ws[0] == NewLine(c, x.productId, x.title, x.price, x.image, x.quantity);
      assert ws[1..] == MergeWrites(owned, items[1..]);
      CopyLines(Apply(s, ws[0]), owned, items[1..]);
      CopyStep(s, c, x, items[1..]);
      assert [x] + items[1..] == items;
    }
  }

  /** Copied lines keep the line invariant once the counter has moved past them. */
  lemma CopiedLinesOk(items: seq<LineItem>, next: nat)
    requires LinesOk(items, next)
    ensures LinesOk(Copied(items, next), next + |items|)
  {
    var r := Copied(items, next);
    forall i | 0 <= i < |r| ensures |r[i].id| == next + i + 1 && Stored(r[i]) {
      assert Stored(items[i]);
    }
  }

  /** Copying well-formed lines into an empty stored cart keeps the invariant. */
  lemma AfterCopyValid(s: Store, c: Id, items: seq<LineItem>)
    requires Valid(s) && c in s.carts && s.carts[c].items == [] && LinesOk(items, s.next)
    ensures Valid(AfterCopy(s, c, items))
  {
    var b := s.(next := s.next + |items|);
    var copied := Copied(items, s.next);
    ValidBump(s, b.next);
    CopiedLinesOk(items, s.next);
    ValidReplaceLines(b, c, copied);
    AfterCopyOfEmpty(s, c, items);
  }

  /** Copying into a cart with no lines leaves exactly the copies in it. */
  lemma AfterCopyOfEmpty(s: Store, c: Id, items: seq<LineItem>)
    requires c in s.carts && s.carts[c].items == []
    ensures var b := s.(next := s.next + |items|);
      AfterCopy(s, c, items) == b.(carts := b.carts[c := b.carts[c].(items := Copied(items, s.next))])
  {
    assert [] + Copied(items, s.next) == Copied(items, s.next);
  }

  /** Copying keeps the product fields of every line. */
  lemma CopiedEntries(items: seq<LineItem>, next: nat)
    ensures Entries(Copied(items, next)) == Entries(items)
  {
  }

  /** Merging into a cart that already has lines only rewrites its first line's quantity, to the last anonymous quantity added to it. */
  lemma MergeIntoLines(s: Store, owned: Cart, items: seq<LineItem>)
    requires owned.id in s.carts && owned.items != []
    ensures items == [] ==> ApplyAll(s, MergeWrites(owned, items)) == s
    ensures items != [] ==>
              ApplyAll(s, MergeWrites(owned, items)) ==
              Apply(s, SetQuantity(owned.id, owned.items[0].id, owned.items[0].quantity + items[|items| - 1].quantity))
  {
    var ws := MergeWrites(owned, items);
    MergeWritesOnFirst(owned, items);
    RepeatedSetQuantity(s, owned.id, owned.items[0].id, ws);
  }

  /** Against a cart read with lines, every write of the merge loop sets the first line's quantity. */
  lemma MergeWritesOnFirst(owned: Cart, items: seq<LineItem>)
    requires owned.items != []
    ensures var ws := MergeWrites(owned, items);
      forall i :: 0 <= i < |items| ==> ws[i] == SetQuantity(owned.id, owned.items[0].id, owned.items[0].quantity + items[i].quantity)
  {
  }

  /** The database once the merge loop has run and the anonymous cart is deleted. */
  lemma MergeEnd(s: Store, u: Id, owned: Cart, anon: Cart)
    requires MergeReady(s, u, owned, anon)
    ensures var end := ApplyAll(s, MergeWrites(owned, anon.items) + [DropCart(anon.id)]);
      && Valid(end) && anon.id !in end.carts
      && u in end.owners && end.owners[u] == owned.id
  {
    var ws := MergeWrites(owned, anon.items);
    MergeWritesApply(s, owned, anon);
    MergedValid(s, u, owned, anon);
    MergedFrame(s, u, owned, anon);
    var mid := Merged(s, owned, anon);
    ApplyValid(mid, DropCart(anon.id));
    ApplyAllOne(mid, DropCart(anon.id));
    ApplyAllAppend(s, ws, [DropCart(anon.id)]);
    var end := Apply(mid, DropCart(anon.id));
    assert anon.owner != Some(u) by {
      assert s.carts[anon.id].owner.Some? ==> s.owners[s.carts[anon.id].owner.value] == anon.id;
    }
    assert u in end.owners && end.owners[u] == owned.id;
  }

  /** The database after the merge loop, in closed form. */
  function Merged(s: Store, owned: Cart, anon: Cart): Store
    requires owned.id in s.carts
  {
    if owned.items == [] then AfterCopy(s, owned.id, anon.items)
    else if anon.items == [] then s
    else Apply(s, SetQuantity(owned.id, owned.items[0].id, owned.items[0].quantity + anon.items[|anon.items| - 1].quantity))
  }

  /** The merge loop's writes produce `Merged`. */
  lemma MergeWritesApply(s: Store, owned: Cart, anon: Cart)
    requires owned.id in s.carts
    ensures ApplyAll(s, MergeWrites(owned, anon.items)) == Merged(s, owned, anon)
  {
    if owned.items == [] {
      CopyLines(s, owned, anon.items);
    } else {
      MergeIntoLines(s, owned, anon.items);
    }
  }

  /** The merge keeps the owner index and the set of carts, and touches only the owned cart's lines. */
  lemma MergedFrame(s: Store, u: Id, owned: Cart, anon: Cart)
    requires owned.id in s.carts && s.carts[owned.id].owner == Some(u)
    requires anon.id in s.carts && s.carts[anon.id] == anon && anon.id != owned.id
    ensures var s' := Merged(s, owned, anon);
      && s'.owners == s.owners && s'.carts.Keys == s.carts.Keys
      && anon.id in s'.carts && s'.carts[anon.id] == anon
      && owned.id in s'.carts && s'.carts[owned.id].owner == Some(u)
  {
  }

  /** The merge keeps the database invariant. */
  lemma MergedValid(s: Store, u: Id, owned: Cart, anon: Cart)
    requires MergeReady(s, u, owned, anon)
    ensures Valid(Merged(s, owned, anon))
  {
    if owned.items == [] {
      CopiedValid(s, u, owned, anon);
    } else if anon.items != [] {
      AddedValid(s, u, owned, anon);
    }
  }

  lemma CopiedValid(s: Store, u: Id, owned: Cart, anon: Cart)
    requires MergeReady(s, u, owned, anon) && owned.items == []
    ensures Valid(Merged(s, owned, anon))
  {
    assert LinesOk(anon.items, s.next);
    AfterCopyValid(s, owned.id, anon.items);
  }

  lemma AddedValid(s: Store, u: Id, owned: Cart, anon: Cart)
    requires MergeReady(s, u, owned, anon) && owned.items != [] && anon.items != []
    ensures Valid(Merged(s, owned, anon))
  {
    var first := owned.items[0];
    var last := anon.items[|anon.items| - 1];
    var w := SetQuantity(owned.id, first.id, first.quantity + last.quantity);
    assert Merged(s, owned, anon) == Apply(s, w);
    assert Stored(first) && Stored(last);
    ApplyValid(s, w);
  }
}
