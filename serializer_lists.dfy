/**
 * The list and table-row emitters of HtmlSerializer. Each appends to the
 * serializer's text builder: the rendering of a child node (what appendNode
 * or appendChildren would append for it) is taken as given, so a child is
 * modelled by its rendered text together with whether it is an `<li>`.
 */
module SerializerLists {
  import opened Strings
  import opened SerializerText

  /** A child of a list: an `<li>` element or any other node, each with its rendering. */
  datatype ListChild = ListItem(text: string) | OtherNode(text: string)

  /** The entries joined with sep between consecutive ones, none before the first or after the last. */
  function Join(entries: seq<string>, sep: string): string
    decreases |entries|
  {
    if entries == [] then ""
    else if |entries| == 1 then entries[0]
    else entries[0] + sep + Join(entries[1..], sep)
  }

  /** Appending one more entry adds a separator only when there was an entry before it. */
  lemma {:induction false} JoinSnoc(entries: seq<string>, sep: string, x: string)
    ensures Join(entries + [x], sep) == Join(entries, sep) + (if entries == [] then "" else sep) + x
    decreases |entries|
  {
    if |entries| == 1 {
      assert entries + [x] == [entries[0], x];
      assert [entries[0], x][1..] == [x];
    } else if |entries| > 1 {
      assert (entries + [x])[1..] == entries[1..] + [x];
      JoinSnoc(entries[1..], sep, x);
    }
  }

  /** Total length of the entries. */
  function TotalLength(entries: seq<string>): nat
    decreases |entries|
  {
    if entries == [] then 0 else |entries[0]| + TotalLength(entries[1..])
  }

  /** Exactly one separator lies between each pair of consecutive entries, and no other. */
  lemma {:induction false} JoinLength(entries: seq<string>, sep: string)
    requires entries != []
    ensures |Join(entries, sep)| == TotalLength(entries) + (|entries| - 1) * |sep|
    decreases |entries|
  {
    if |entries| > 1 {
      JoinLength(entries[1..], sep);
    } else {
      assert entries[1..] == [];
    }
  }

  /** The joined text begins with the first entry and ends with the last. */
  lemma {:induction false} JoinEnds(entries: seq<string>, sep: string)
    requires entries != []
    ensures StartsWith(Join(entries, sep), entries[0])
    ensures EndsWith(Join(entries, sep), entries[|entries| - 1])
    decreases |entries|
  {
    var j := Join(entries, sep);
    if |entries| > 1 {
      JoinEnds(entries[1..], sep);
      var rest := Join(entries[1..], sep);
      var last := entries[|entries| - 1];
      assert j == entries[0] + (sep + rest);
      assert j[..|entries[0]|] == entries[0];
      assert j[|j| - |last|..] == rest[|rest| - |last|..];
    } else {
      assert j == entries[0];
    }
  }

  /** How many `<li>` children there are. */
  function ItemCount(children: seq<ListChild>): (n: nat)
    ensures n <= |children|
    decreases |children|
  {
    if children == [] then 0
    else (if children[0].ListItem? then 1 else 0) + ItemCount(children[1..])
  }

  lemma {:induction false} ItemCountAppend(a: seq<ListChild>, b: seq<ListChild>)
    ensures ItemCount(a + b) == ItemCount(a) + ItemCount(b)
    decreases |a|
  {
    if a == [] {
      assert a + b == b;
    } else {
      assert (a + b)[1..] == a[1..] + b;
      ItemCountAppend(a[1..], b);
    }
  }

  /** The number the counter `i` holds when the child at index k is reached. */
  function Number(children: seq<ListChild>, k: nat): nat
    requires k <= |children|
  {
    ItemCount(children[..k]) + 1
  }

  /**
   * `<li>` children are numbered 1, 2, ... in document order: the counter
   * starts at 1, moves on by one after each `<li>` and stays put after any
   * other child.
   */
  lemma NumberSteps(children: seq<ListChild>, k: nat)
    requires k < |children|
    ensures Number(children, 0) == 1
    ensures children[k].ListItem? ==> Number(children, k + 1) == Number(children, k) + 1
    ensures children[k].OtherNode? ==> Number(children, k + 1) == Number(children, k)
  {
    assert children[..0] == [];
    assert children[..k + 1] == children[..k] + [children[k]];
    ItemCountAppend(children[..k], [children[k]]);
    assert ItemCount([children[k]]) == (if children[k].ListItem? then 1 else 0) + ItemCount([]);
  }

  /** Two `<li>` children never share a number: a later one has a larger number. */
  lemma {:induction false} NumbersIncrease(children: seq<ListChild>, i: nat, j: nat)
    requires i < j < |children| && children[i].ListItem?
    ensures Number(children, i) < Number(children, j)
    decreases j - i
  {
    NumberSteps(children, i);
    if i + 1 < j {
      NumberSteps(children, j - 1);
      NumbersNeverDecrease(children, i + 1, j - 1);
    }
  }

  lemma {:induction false} NumbersNeverDecrease(children: seq<ListChild>, i: nat, j: nat)
    requires i <= j <= |children|
    ensures Number(children, i) <= Number(children, j)
    decreases j - i
  {
    if i < j {
      NumberSteps(children, i);
      NumbersNeverDecrease(children, i + 1, j);
    }
  }

  /** What appendHtmlOrderedList appends for the child at index k. */
  function OrderedEntry(children: seq<ListChild>, k: nat): string
    requires k < |children|
  {
    match children[k]
    case ListItem(text) => NatToString(Number(children, k)) + ". " + text
    case OtherNode(text) => text
  }

  function OrderedEntries(children: seq<ListChild>): (r: seq<string>)
    ensures |r| == |children|
    ensures forall k :: 0 <= k < |r| ==> r[k] == OrderedEntry(children, k)
  {
    seq(|children|, k requires 0 <= k < |children| => OrderedEntry(children, k))
  }

  /** The text appendHtmlOrderedList appends. */
  function OrderedListText(children: seq<ListChild>): string {
    BlockSeparator + Join(OrderedEntries(children), BlockSeparator) + BlockSeparator
  }

  /** The renderings of the children, in order. */
  function Renderings(children: seq<ListChild>): (r: seq<string>)
    ensures |r| == |children|
    ensures forall k :: 0 <= k < |r| ==> r[k] == children[k].text
  {
    seq(|children|, k requires 0 <= k < |children| => children[k].text)
  }

  /** The text appendHtmlUnorderedList appends. */
  function UnorderedListText(children: seq<ListChild>): string {
    BlockSeparator + Join(Renderings(children), BlockSeparator) + BlockSeparator
  }

  /** An ordered list without `<li>` children renders as the unordered list of the same children. */
  lemma OrderedWithoutItemsIsUnordered(children: seq<ListChild>)
    requires forall k :: 0 <= k < |children| ==> children[k].OtherNode?
    ensures OrderedListText(children) == UnorderedListText(children)
  {
    assert OrderedEntries(children) == Renderings(children);
  }

  /** An entry depends only on the children up to and including it. */
  lemma OrderedEntryOfPrefix(children: seq<ListChild>, n: nat, j: nat)
    requires j < n <= |children|
    ensures OrderedEntry(children[..n], j) == OrderedEntry(children, j)
  {
    assert children[..n][j] == children[j];
    assert children[..n][..j] == children[..j];
  }

  /** The ordered entries of a prefix are a prefix of the ordered entries. */
  lemma OrderedEntriesPrefix(children: seq<ListChild>, k: nat)
    requires k < |children|
    ensures OrderedEntries(children[..k + 1]) == OrderedEntries(children[..k]) + [OrderedEntry(children, k)]
  {
    var a := OrderedEntries(children[..k + 1]);
    var b := OrderedEntries(children[..k]) + [OrderedEntry(children, k)];
    forall j | 0 <= j < k + 1
      ensures a[j] == b[j]
    {
      OrderedEntryOfPrefix(children, k + 1, j);
      if j < k {
        OrderedEntryOfPrefix(children, k, j);
      }
    }
  }

  /** One more child adds a separator (unless it is the first) and then its entry. */
  lemma OrderedStep(children: seq<ListChild>, k: nat)
    requires k < |children|
    ensures Join(OrderedEntries(children[..k + 1]), BlockSeparator)
         == Join(OrderedEntries(children[..k]), BlockSeparator) + (if k == 0 then "" else BlockSeparator)
            + OrderedEntry(children, k)
  {
    OrderedEntriesPrefix(children, k);
    JoinSnoc(OrderedEntries(children[..k]), BlockSeparator, OrderedEntry(children, k));
  }

  /** Appending a separator (unless nothing came before) and one more entry extends the joined text. */
  lemma JoinStep(prefix: string, entries: seq<string>, x: string, sep: string, before: string, mid: string, after: string)
    requires before == prefix + Join(entries, sep)
    requires mid == before + (if entries == [] then "" else sep)
    requires after == mid + x
    ensures after == prefix + Join(entries + [x], sep)
  {
    JoinSnoc(entries, sep, x);
  }

  lemma RenderingsPrefix(children: seq<ListChild>, k: nat)
    requires k < |children|
    ensures Renderings(children[..k + 1]) == Renderings(children[..k]) + [children[k].text]
  {
    assert Renderings(children[..k + 1]) == Renderings(children[..k]) + [children[k].text];
  }

  /** The text appendHtmlTableRow appends: the cells' renderings joined by `§tab§`. */
  function TableRowText(cells: seq<string>): string {
    Join(cells, Tab)
  }

  /** The serializer's text builder (`builder_`). */
  class Serializer {
    var builder: string

    constructor()
      ensures builder == ""
    {
      builder := "";
    }

    /** `appendHtmlUnorderedList`: a separator opens and closes the list and sits between the children. */
    method AppendHtmlUnorderedList(children: seq<ListChild>)
      modifies this
      ensures builder == old(builder) + UnorderedListText(children)
    {
      builder := builder + BlockSeparator;
      ghost var prefix := builder;
      var first := true;
      for k := 0 to |children|
        invariant first <==> k == 0
        invariant builder == prefix + Join(Renderings(children[..k]), BlockSeparator)
      {
        if !first {
          builder := builder + BlockSeparator;
        }
        first := false;
        builder := builder + children[k].text;
        RenderingsPrefix(children, k);
        JoinSnoc(Renderings(children[..k]), BlockSeparator, children[k].text);
      }
      assert children[..|children|] == children;
      builder := builder + BlockSeparator;
    }

    /**
     * Lines 458-464: the entry of the child at index k, numbered with the
     * counter i when it is an `<li>`; the counter as it is afterwards.
     */
    method AppendOrderedEntry(children: seq<ListChild>, k: nat, i: nat) returns (next: nat)
      requires k < |children| && i == Number(children, k)
      modifies this
      ensures builder == old(builder) + OrderedEntry(children, k)
      ensures next == Number(children, k + 1)
    {
      NumberSteps(children, k);
      next := i;
      match children[k] {
        case ListItem(text) =>
          builder := builder + NatToString(next);
          next := next + 1;
          builder := builder + ". ";
          builder := builder + text;
          assert builder == old(builder) + (NatToString(i) + ". " + text);
        case OtherNode(text) =>
          builder := builder + text;
      }
    }

    /**
     * `appendHtmlOrderedList`: as the unordered list, with each `<li>` child
     * preceded by its number and ". ".
     */
    method AppendHtmlOrderedList(children: seq<ListChild>)
      modifies this
      ensures builder == old(builder) + OrderedListText(children)
    {
      builder := builder + BlockSeparator;
      ghost var prefix := builder;
      var first := true;
      var i := 1;
      for k := 0 to |children|
        invariant first <==> k == 0
        invariant i == Number(children, k)
        invariant builder == prefix + Join(OrderedEntries(children[..k]), BlockSeparator)
      {
        ghost var before := builder;
        if !first {
          builder := builder + BlockSeparator;
        }
        first := false;
        ghost var mid := builder;
        i := AppendOrderedEntry(children, k, i);
        JoinStep(prefix, OrderedEntries(children[..k]), OrderedEntry(children, k), BlockSeparator, before, mid, builder);
        OrderedEntriesPrefix(children, k);
      }
      assert children[..|children|] == children;
      builder := builder + BlockSeparator;
    }

    /** `appendHtmlTableRow`: a tab between consecutive cells, none before the first. */
    method AppendHtmlTableRow(cells: seq<string>)
      modifies this
      ensures builder == old(builder) + TableRowText(cells)
    {
      ghost var prefix := builder;
      var first := true;
      for k := 0 to |cells|
        invariant first <==> k == 0
        invariant builder == prefix + Join(cells[..k], Tab)
      {
        if !first {
          builder := builder + Tab;
        } else {
          first := false;
        }
        builder := builder + cells[k];
        assert cells[..k + 1] == cells[..k] + [cells[k]];
        JoinSnoc(cells[..k], Tab, cells[k]);
      }
      assert cells[..|cells|] == cells;
    }
  }
}
