/** The shopping-list download: the cart's ingredient rows grouped by
    (ingredient name, measurement unit) with their amounts summed, then
    written as numbered lines under a fixed header. */
module ShoppingList {
  import opened Common
  import opened Numerals

  /** The grouping key: name and unit, not the ingredient's id. */
  datatype Key = Key(name: string, unit: string)

  /** One ingredient row of a recipe in the cart, joined with its ingredient. */
  datatype Item = Item(key: Key, amount: nat)

  /** One group of the aggregate: a key and the summed amount. */
  datatype Group = Group(key: Key, total: nat)

  function ItemKeys(items: seq<Item>): (ks: seq<Key>)
    ensures |ks| == |items| && forall i :: 0 <= i < |items| ==> ks[i] == items[i].key
  {
    if items == [] then [] else ItemKeys(items[..|items| - 1]) + [items[|items| - 1].key]
  }

  function GroupKeys(groups: seq<Group>): (ks: seq<Key>)
    ensures |ks| == |groups| && forall i :: 0 <= i < |groups| ==> ks[i] == groups[i].key
  {
    if groups == [] then [] else [groups[0].key] + GroupKeys(groups[1..])
  }

  /** The sum of the amounts of the items with key `k`. */
  function Total(items: seq<Item>, k: Key): nat {
    if items == [] then 0
    else Total(items[..|items| - 1], k) + (if items[|items| - 1].key == k then items[|items| - 1].amount else 0)
  }

  /** The total of a key over two runs of items is the sum of its totals
      over each. */
  lemma {:induction false} TotalAppend(a: seq<Item>, b: seq<Item>, k: Key)
    ensures Total(a + b, k) == Total(a, k) + Total(b, k)
  {
    if b == [] {
      assert a + b == a;
    } else {
      var ab := a + b;
      assert ab[..|ab| - 1] == a + b[..|b| - 1];
      TotalAppend(a, b[..|b| - 1], k);
    }
  }

  /** The position of `k` in `keys`. */
  function IndexOf(keys: seq<Key>, k: Key): (i: nat)
    requires k in keys
    ensures i < |keys| && keys[i] == k
  {
    if keys[0] == k then 0 else 1 + IndexOf(keys[1..], k)
  }

  /** Adds one item to the groups built so far: to its key's group, or as a
      new group at the end. */
  function AddItem(groups: seq<Group>, it: Item): (r: seq<Group>)
    requires Distinct(GroupKeys(groups))
    ensures Distinct(GroupKeys(r))
    ensures GroupKeys(r) == if it.key in GroupKeys(groups) then GroupKeys(groups) else GroupKeys(groups) + [it.key]
    ensures forall i :: 0 <= i < |r| ==>
      r[i].total == (if i < |groups| then groups[i].total else 0) + (if r[i].key == it.key then it.amount else 0)
  {
    var keys := GroupKeys(groups);
    if it.key in keys then
      var i := IndexOf(keys, it.key);
      BumpKeepsKeys(groups, i, it);
      groups[i := Group(it.key, groups[i].total + it.amount)]
    else
      var r := groups + [Group(it.key, it.amount)];
      assert GroupKeys(r) == keys + [it.key];
      r
  }

  /** Adding to the group of an item's key changes no key, and no other
      group has that key. */
  lemma {:induction false} BumpKeepsKeys(groups: seq<Group>, i: nat, it: Item)
    requires Distinct(GroupKeys(groups)) && i < |groups| && groups[i].key == it.key
    ensures var r := groups[i := Group(it.key, groups[i].total + it.amount)];
      && GroupKeys(r) == GroupKeys(groups)
      && forall j :: 0 <= j < |r| && j != i ==> r[j] == groups[j] && r[j].key != it.key
  {
    var keys := GroupKeys(groups);
    var r := groups[i := Group(it.key, groups[i].total + it.amount)];
    assert GroupKeys(r) == keys;
    forall j | 0 <= j < |r| && j != i ensures r[j].key != it.key {
      assert keys[j] != keys[i];
    }
  }

  /** Folding one more item into the aggregate of the others gives the
      aggregate of all of them. */
  lemma {:induction false} AddItemExtendsAggregate(init: seq<Item>, last: Item, prev: seq<Group>)
    requires Distinct(GroupKeys(prev))
    requires forall k :: k in GroupKeys(prev) <==> k in ItemKeys(init)
    requires forall i :: 0 <= i < |prev| ==> prev[i].total == Total(init, prev[i].key)
    ensures var groups := AddItem(prev, last);
      && (forall k :: k in GroupKeys(groups) <==> k in ItemKeys(init + [last]))
      && (forall i :: 0 <= i < |groups| ==> groups[i].total == Total(init + [last], groups[i].key))
  {
    var items := init + [last];
    var groups := AddItem(prev, last);
    assert items[..|items| - 1] == init;
    assert ItemKeys(items) == ItemKeys(init) + [last.key];
    forall i | 0 <= i < |groups| ensures groups[i].total == Total(items, groups[i].key) {
      if i < |prev| {
        assert GroupKeys(groups)[i] == GroupKeys(prev)[i];
      } else {
        assert last.key !in GroupKeys(prev);
        TotalAbsent(init, last.key);
      }
    }
  }

  /** The `GROUP BY name, unit ... SUM(amount)` of the query, groups in order
      of first appearance (the query fixes no order). */
  function Aggregate(items: seq<Item>): (groups: seq<Group>)
    ensures Distinct(GroupKeys(groups))
    ensures forall k :: k in GroupKeys(groups) <==> k in ItemKeys(items)
    ensures forall i :: 0 <= i < |groups| ==> groups[i].total == Total(items, groups[i].key)
  {
    if items == [] then []
    else
      var init, last := items[..|items| - 1], items[|items| - 1];
      var prev := Aggregate(init);
      AddItemExtendsAggregate(init, last, prev);
      assert init + [last] == items;
      AddItem(prev, last)
  }

  lemma {:induction false} TotalAbsent(items: seq<Item>, k: Key)
    requires k !in ItemKeys(items)
    ensures Total(items, k) == 0
  {
    if items != [] {
      assert ItemKeys(items) == ItemKeys(items[..|items| - 1]) + [items[|items| - 1].key];
      TotalAbsent(items[..|items| - 1], k);
    }
  }

  /** Every key of the items has exactly one group, and that group's total is
      the sum of the amounts of the items with that key. */
  lemma {:induction false} AggregateGroupsEveryKeyOnce(items: seq<Item>, k: Key)
    requires k in ItemKeys(items)
    ensures exists i :: 0 <= i < |Aggregate(items)| && Aggregate(items)[i].key == k
    ensures forall i, j :: 0 <= i < j < |Aggregate(items)| ==> Aggregate(items)[i].key != Aggregate(items)[j].key
    ensures forall i :: 0 <= i < |Aggregate(items)| && Aggregate(items)[i].key == k ==>
      Aggregate(items)[i].total == Total(items, k)
  {
    var gs := Aggregate(items);
    var keys := GroupKeys(gs);
    assert k in keys;
    forall i, j | 0 <= i < j < |gs| ensures gs[i].key != gs[j].key {
      assert keys[i] != keys[j];
    }
    var w :| 0 <= w < |keys| && keys[w] == k;
    assert gs[w].key == k;
    assert exists i :: 0 <= i < |gs| && gs[i].key == k;
  }

  /** The fixed header of the document. */
  const Header: string := "Список покупок:\n\n"

  /** `f'{num}. {name} - {amount} {unit}\n'`. */
  function Line(num: nat, g: Group): string {
    NatToString(num) + ". " + g.key.name + " - " + NatToString(g.total) + " " + g.key.unit + "\n"
  }

  /** The lines of the groups, numbered consecutively from `first`. */
  function Lines(groups: seq<Group>, first: nat): (ls: seq<string>)
    ensures |ls| == |groups| && forall i :: 0 <= i < |groups| ==> ls[i] == Line(first + i, groups[i])
  {
    seq(|groups|, i requires 0 <= i < |groups| => Line(first + i, groups[i]))
  }

  function Concat(ss: seq<string>): string {
    if ss == [] then [] else Concat(ss[..|ss| - 1]) + ss[|ss| - 1]
  }

  /** The text after the header: each group's line, the n-th group
      numbered n. */
  function Body(groups: seq<Group>): string {
    if groups == [] then [] else Body(groups[..|groups| - 1]) + Line(|groups|, groups[|groups| - 1])
  }

  /** The whole document: the header, then the groups' lines. */
  function ShoppingListText(groups: seq<Group>): string {
    Header + Body(groups)
  }

  /** The body is the concatenation of the lines numbered 1..n. */
  lemma {:induction false} BodyIsNumberedLines(groups: seq<Group>)
    ensures Body(groups) == Concat(Lines(groups, 1))
  {
    if groups != [] {
      var init := groups[..|groups| - 1];
      BodyIsNumberedLines(init);
      var ls := Lines(groups, 1);
      assert ls[..|ls| - 1] == Lines(init, 1);
    }
  }

  /** The loop of `download_shopping_cart`: after the header, each group,
      enumerated from 1, appends its line. */
  method Render(groups: seq<Group>) returns (content: string)
    ensures content == ShoppingListText(groups)
  {
    var lines: string := [];
    for num := 0 to |groups|
      invariant lines == Body(groups[..num])
    {
      assert groups[..num + 1][..num] == groups[..num];
      lines := lines + Line(num + 1, groups[num]);
    }
    assert groups[..|groups|] == groups;
    content := Header + lines;
  }

  /** An empty cart yields the header alone. */
  lemma EmptyListIsHeader()
    ensures ShoppingListText(Aggregate([])) == Header
  {
  }

  /** The list has one line per distinct (name, unit) of the items, each
      line numbered by its position and carrying its key's total. */
  lemma {:induction false} ShoppingListLines(items: seq<Item>)
    ensures ShoppingListText(Aggregate(items)) == Header + Concat(Lines(Aggregate(items), 1))
    ensures var gs := Aggregate(items);
      && |Lines(gs, 1)| == |gs|
      && Distinct(GroupKeys(gs))
      && (forall k :: k in ItemKeys(items) <==> k in GroupKeys(gs))
      && (forall i :: 0 <= i < |gs| ==>
            Lines(gs, 1)[i] == NatToString(i + 1) + ". " + gs[i].key.name + " - "
              + NatToString(Total(items, gs[i].key)) + " " + gs[i].key.unit + "\n")
  {
    BodyIsNumberedLines(Aggregate(items));
  }
}
