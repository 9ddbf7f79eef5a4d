/** How each flat-queue operation shows up in a single price level: its orders and its cached total. */
module LevelFacts {
  import opened ExchangeTypes
  import opened PriceTime
  import opened BookInvariant

  lemma GoneHead(sb: SideBook, leak: int)
    requires sb.queue != []
    ensures Gone(sb, 0, leak) == DropHead(sb, leak)
  {
    assert sb.queue[..0] + sb.queue[0 + 1..] == sb.queue[1..];
  }

  lemma GoneQueue(sb: SideBook, k: nat, leak: int)
    requires k < |sb.queue|
    ensures Gone(sb, k, leak).queue == sb.queue[..k] + sb.queue[k + 1..]
  {
  }

  lemma GoneKeeps(s: Side, sb: SideBook, k: nat, leak: int, now: nat)
    requires k < |sb.queue| && SideInv(s, sb, now)
    ensures SideInv(s, Gone(sb, k, leak), now)
    ensures Ids(Gone(sb, k, leak).queue) == Ids(sb.queue) - {sb.queue[k].id}
    ensures forall x :: x in Gone(sb, k, leak).queue <==> x in sb.queue && x.id != sb.queue[k].id
  {
    hide SideInv, Ids;
    DropKeeps(s, sb, k, leak, now);
    GoneQueue(sb, k, leak);
    SideUnique(s, sb, now);
    DropMembers(sb.queue, k);
  }

  lemma SideUnique(s: Side, sb: SideBook, now: nat)
    requires SideInv(s, sb, now)
    ensures Unique(sb.queue)
  {
  }

  /** The level of order k splits around it. */
  lemma GoneOrders(sb: SideBook, k: nat, leak: int, p: Price)
    requires k < |sb.queue|
    ensures var q := sb.queue; var a, b := At(q[..k], p), At(q[k + 1..], p);
            && At(Gone(sb, k, leak).queue, p) == a + b
            && At(q, p) == a + (if p == q[k].price then [q[k]] else []) + b
  {
    var q := sb.queue;
    AtSplice(q, k, [], p);
    AtSingle(q[k], p);
    assert q[..k] + [] + q[k + 1..] == q[..k] + q[k + 1..];
  }

  lemma GoneTotal(sb: SideBook, k: nat, leak: int, p: Price)
    requires k < |sb.queue|
    ensures p != sb.queue[k].price ==> LevelTotal(Gone(sb, k, leak), p) == LevelTotal(sb, p)
    ensures p == sb.queue[k].price && At(Gone(sb, k, leak).queue, p) != [] ==>
              LevelTotal(Gone(sb, k, leak), p) == Wrap32(LevelTotal(sb, p) - (sb.queue[k].qty - leak))
  {
    var q := sb.queue;
    GoneOrders(sb, k, leak, p);
    if p != q[k].price {
      assert At(Gone(sb, k, leak).queue, p) == At(q, p);
      assert Gone(sb, k, leak).DriftAt(p) == sb.DriftAt(p);
    } else if At(Gone(sb, k, leak).queue, p) != [] {
      var a, b := At(q[..k], p), At(q[k + 1..], p);
      SumConcat(a, b);
      SumConcat(a + [q[k]], b);
      SumConcat(a, [q[k]]);
      assert SumQty([q[k]]) == q[k].qty;
      assert Gone(sb, k, leak).DriftAt(p) == sb.DriftAt(p) + leak;
      Wrap32Add(SumQty(At(q, p)) + sb.DriftAt(p), -(q[k].qty - leak));
    }
  }

  ghost predicate SameIds(a: seq<Resting>, b: seq<Resting>) {
    |a| == |b| && forall i :: 0 <= i < |a| ==> a[i].id == b[i].id
  }

  lemma ResizedLevel(sb: SideBook, k: nat, r: Resting, p: Price)
    requires k < |sb.queue| && r.price == sb.queue[k].price && r.id == sb.queue[k].id
    ensures SameIds(At(sb.queue, p), At(Replaced(sb.queue, k, r), p))
    ensures SumQty(At(Replaced(sb.queue, k, r), p))
         == SumQty(At(sb.queue, p)) + (if p == r.price then r.qty - sb.queue[k].qty else 0)
  {
    var q := sb.queue;
    var a, b := At(q[..k], p), At(q[k + 1..], p);
    AtSplice(q, k, [r], p);
    AtSingle(r, p);
    AtSingle(q[k], p);
    if p == r.price {
      SumConcat(a + [q[k]], b);
      SumConcat(a, [q[k]]);
      SumConcat(a + [r], b);
      SumConcat(a, [r]);
      assert SumQty([q[k]]) == q[k].qty && SumQty([r]) == r.qty;
    }
  }

  /** The head's element was reduced by t; its level was not told yet. */
  ghost function Partial(sb: SideBook, k: nat, t: Quantity): SideBook
    requires k < |sb.queue| && t <= sb.queue[k].qty
  {
    Resize(sb, k, sb.queue[k].qty - t, sb.queue[k].recorded)
  }

  lemma PartialHead(sb: SideBook, t: Quantity)
    requires sb.queue != [] && t <= sb.queue[0].qty
    ensures Partial(sb, 0, t).queue == Shrink(sb, t).queue
    ensures Partial(sb, 0, t).drift == sb.drift[sb.queue[0].price := sb.DriftAt(sb.queue[0].price) + t]
  {
    var h := sb.queue[0];
    assert sb.queue[..0] + [h.(qty := h.qty - t)] + sb.queue[0 + 1..] == [h.(qty := h.qty - t)] + sb.queue[1..];
  }

  /** Telling the level lowers its total by exactly the fill. */
  lemma ShrunkTotal(sb: SideBook, t: Quantity, p: Price)
    requires sb.queue != [] && t <= sb.queue[0].qty
    ensures At(Shrink(sb, t).queue, p) == At(Partial(sb, 0, t).queue, p)
    ensures LevelTotal(Shrink(sb, t), p)
         == if p == sb.queue[0].price then Wrap32(LevelTotal(Partial(sb, 0, t), p) - t)
            else LevelTotal(Partial(sb, 0, t), p)
  {
    hide At;
    PartialHead(sb, t);
    Wrap32Add(SumQty(At(Shrink(sb, t).queue, p)) + sb.DriftAt(p) + t, 0 - t);
  }

  lemma ShrunkInv(s: Side, sb: SideBook, t: Quantity, now: nat)
    requires sb.queue != [] && t <= sb.queue[0].qty
    requires SideInv(s, Partial(sb, 0, t), now)
    ensures SideInv(s, Shrink(sb, t), now)
  {
    hide At, Partial, Shrink;
    PartialHead(sb, t);
    assert Shrink(sb, t).drift == sb.drift by {
      ShrinkDrift(sb, t);
    }
  }

  lemma ShrinkShape(sb: SideBook, t: Quantity)
    requires sb.queue != [] && t <= sb.queue[0].qty
    ensures |Shrink(sb, t).queue| == |sb.queue| && Shrink(sb, t).queue[0].id == sb.queue[0].id
    ensures Shrink(sb, t).queue[0].price == sb.queue[0].price
  {
  }

  lemma DropHeadShorter(sb: SideBook, leak: int)
    requires sb.queue != []
    ensures |DropHead(sb, leak).queue| < |sb.queue|
  {
  }

  lemma ShrinkDrift(sb: SideBook, t: Quantity)
    requires sb.queue != [] && t <= sb.queue[0].qty
    ensures Shrink(sb, t).drift == sb.drift
  {
  }

  /** Zeroing the element first and removing it afterwards leaks its last fill. */
  lemma PartialGone(sb: SideBook)
    requires sb.queue != []
    ensures DropHead(Partial(sb, 0, sb.queue[0].qty), 0) == DropHead(sb, sb.queue[0].qty)
  {
    var h := sb.queue[0];
    PartialHead(sb, h.qty);
    assert Partial(sb, 0, h.qty).queue[1..] == sb.queue[1..];
  }

  /** A resize in place leaves every cached total as it was. */
  lemma ResizedTotal(sb: SideBook, k: nat, qty: Quantity, recorded: Quantity, p: Price)
    requires k < |sb.queue|
    ensures SameIds(At(sb.queue, p), At(Resize(sb, k, qty, recorded).queue, p))
    ensures LevelTotal(Resize(sb, k, qty, recorded), p) == LevelTotal(sb, p)
  {
    var r := sb.queue[k];
    var r' := r.(qty := qty, recorded := recorded);
    assert Replaced(sb.queue, k, r') == Resize(sb, k, qty, recorded).queue;
    ResizedLevel(sb, k, r', p);
  }

  lemma ResizeShape(sb: SideBook, k: nat, qty: Quantity, recorded: Quantity)
    requires k < |sb.queue|
    ensures Resize(sb, k, qty, recorded).queue
         == sb.queue[..k] + [sb.queue[k].(qty := qty, recorded := recorded)] + sb.queue[k + 1..]
    ensures Resize(sb, k, qty, recorded).drift.Keys <= sb.drift.Keys + {sb.queue[k].price}
  {
  }

  lemma DisjointIds(b: Book, s: Side, k: nat)
    requires BookInv(b) && k < |b.On(s).queue|
    ensures b.On(s).queue[k].id in Ids(b.On(s).queue)
    ensures forall r | r in b.On(s.Opposite()).queue :: r.id != b.On(s).queue[k].id
  {
    assert b.On(s).queue[k] in b.On(s).queue;
    assert forall r | r in b.On(s.Opposite()).queue :: r.id in Ids(b.On(s.Opposite()).queue);
  }

  lemma EnqueuedTotal(s: Side, sb: SideBook, r: Resting, p: Price)
    requires Sorted(s, sb.queue)
    ensures LevelTotal(Enqueue(s, sb, r), p)
         == if p == r.price then Wrap32(LevelTotal(sb, p) + r.qty) else LevelTotal(sb, p)
  {
    AtEnqueue(s, sb, r, p);
    if p == r.price {
      SumConcat(At(sb.queue, p), [r]);
      assert SumQty([r]) == r.qty;
      Wrap32Add(SumQty(At(sb.queue, p)) + sb.DriftAt(p), r.qty);
    } else {
      assert At(Enqueue(s, sb, r).queue, p) == At(sb.queue, p);
    }
  }

  lemma EnqueueMembers(s: Side, sb: SideBook, r: Resting)
    ensures forall x :: x in Enqueue(s, sb, r).queue <==> x in sb.queue || x == r
  {
    InsertMembers(sb.queue, Slot(s, sb.queue, r.price), r);
  }

  /** A level that does not exist has an empty queue and total 0. */
  lemma NoLevel(sb: SideBook, p: Price)
    requires Anchored(sb) && At(sb.queue, p) == []
    ensures LevelTotal(sb, p) == 0
  {
  }
}
