/**
 * The breadcrumb trail: one list entry per item, a `/` separator before every item but the
 * first, the last item as plain text and every other item as a link to its URL.
 */
module Breadcrumbs {
  import opened Seqs

  datatype Item = Item(name: string, url: string)

  /** The pieces of the rendered list, in order. */
  datatype Piece = Separator | Link(name: string, href: string) | Current(name: string)

  predicate IsSeparator(p: Piece) {
    p.Separator?
  }

  /** The entry of item `k`: plain text for the last item, a link otherwise. */
  function Entry(items: seq<Item>, k: nat): Piece
    requires k < |items|
  {
    if k == |items| - 1 then Current(items[k].name) else Link(items[k].name, items[k].url)
  }

  /** The pieces of items `k` onwards, each preceded by a separator unless it is the first item. */
  function PiecesFrom(items: seq<Item>, k: nat): seq<Piece>
    requires k <= |items|
    decreases |items| - k
  {
    if k == |items| then []
    else (if k > 0 then [Separator] else []) + [Entry(items, k)] + PiecesFrom(items, k + 1)
  }

  /** The rendered list. */
  function Render(items: seq<Item>): seq<Piece> {
    PiecesFrom(items, 0)
  }

  /** From a later item on, separators and entries alternate, starting with a separator. */
  lemma {:induction false} PiecesFromShape(items: seq<Item>, k: nat)
    requires 0 < k <= |items|
    ensures |PiecesFrom(items, k)| == 2 * (|items| - k)
    ensures forall j :: 0 <= j < |items| - k ==> PiecesFrom(items, k)[2 * j] == Separator
    ensures forall j :: 0 <= j < |items| - k ==> PiecesFrom(items, k)[2 * j + 1] == Entry(items, k + j)
    decreases |items| - k
  {
    if k < |items| {
      PiecesFromShape(items, k + 1);
      var rest := PiecesFrom(items, k + 1);
      assert PiecesFrom(items, k) == [Separator, Entry(items, k)] + rest;
      forall j | 1 <= j < |items| - k
        ensures PiecesFrom(items, k)[2 * j] == Separator
        ensures PiecesFrom(items, k)[2 * j + 1] == Entry(items, k + j)
      {
        assert PiecesFrom(items, k)[2 * j] == rest[2 * (j - 1)];
        assert PiecesFrom(items, k)[2 * j + 1] == rest[2 * (j - 1) + 1];
      }
    }
  }

  /**
   * A non-empty trail has the entries at the even places, in item order, and a separator at
   * every odd place: 2n - 1 pieces for n items.
   */
  lemma RenderShape(items: seq<Item>)
    requires |items| > 0
    ensures |Render(items)| == 2 * |items| - 1
    ensures forall k :: 0 <= k < |items| ==> Render(items)[2 * k] == Entry(items, k)
    ensures forall k :: 1 <= k < |items| ==> Render(items)[2 * k - 1] == Separator
  {
    var rest := PiecesFrom(items, 1);
    assert Render(items) == [Entry(items, 0)] + rest;
    PiecesFromShape(items, 1);
    forall k | 1 <= k < |items|
      ensures Render(items)[2 * k] == Entry(items, k)
      ensures Render(items)[2 * k - 1] == Separator
    {
      assert Render(items)[2 * k] == rest[2 * (k - 1) + 1];
      assert Render(items)[2 * k - 1] == rest[2 * (k - 1)];
    }
  }

  /** The last item is plain text; every other item is a link to its own URL. */
  lemma RenderLastIsCurrent(items: seq<Item>)
    requires |items| > 0
    ensures |Render(items)| == 2 * |items| - 1
    ensures Render(items)[2 * |items| - 2] == Current(items[|items| - 1].name)
    ensures forall k :: 0 <= k < |items| - 1 ==> Render(items)[2 * k] == Link(items[k].name, items[k].url)
  {
    RenderShape(items);
    var last := |items| - 1;
    assert 2 * |items| - 2 == 2 * last;
    assert Render(items)[2 * last] == Entry(items, last);
    forall k | 0 <= k < |items| - 1
      ensures Render(items)[2 * k] == Link(items[k].name, items[k].url)
    {
      assert Render(items)[2 * k] == Entry(items, k);
    }
  }

  /** The separators of the trail: one fewer than the items, and none for an empty trail. */
  lemma {:induction false} SeparatorCount(items: seq<Item>, k: nat)
    requires k <= |items|
    ensures |Filter(PiecesFrom(items, k), IsSeparator)| == if k == 0 && |items| > 0 then |items| - 1 else |items| - k
    decreases |items| - k
  {
    if k < |items| {
      SeparatorCount(items, k + 1);
      var head := (if k > 0 then [Separator] else []) + [Entry(items, k)];
      FilterConcat(head, PiecesFrom(items, k + 1), IsSeparator);
      if k > 0 {
        FilterConcat([Separator], [Entry(items, k)], IsSeparator);
        assert [Separator] + [Entry(items, k)] == [Separator, Entry(items, k)];
      }
      assert Filter([Entry(items, k)], IsSeparator) == [];
    }
  }

  /** n items give max(n - 1, 0) separators. */
  lemma RenderSeparators(items: seq<Item>)
    ensures |Filter(Render(items), IsSeparator)| == if |items| == 0 then 0 else |items| - 1
  {
    SeparatorCount(items, 0);
  }

  /** An empty trail renders nothing. */
  lemma RenderEmpty()
    ensures Render([]) == []
  {
  }

  /** A single item is plain text, with no separator and no link. */
  lemma RenderSingle(item: Item)
    ensures Render([item]) == [Current(item.name)]
  {
    assert PiecesFrom([item], 1) == [];
  }
}
