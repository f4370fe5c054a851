/**
  The "Completed Orders" page: every row of `GET /completedOrders`
  decorated with the names of its items (one `GET /orderItems/{id}` per
  row), shown with status cells that always read complete.
 */
module CompletedOrders {
  import opened Seqs
  import opened Orders

  /** The item names, in order. */
  function Names(items: seq<Item>): (r: seq<string>)
    ensures |r| == |items|
    ensures forall i :: 0 <= i < |items| ==> r[i] == items[i].itemName
  {
    seq(|items|, i requires 0 <= i < |items| => items[i].itemName)
  }

  /** Total length of a list of strings. */
  function TotalLength(xs: seq<string>): nat
  {
    if |xs| == 0 then 0 else |xs[0]| + TotalLength(xs[1..])
  }

  /** A joined string is exactly as long as its parts plus one separator between each neighbouring pair. */
  lemma {:induction false} JoinLength(xs: seq<string>, sep: string)
    requires |xs| > 0
    ensures |Join(xs, sep)| == TotalLength(xs) + (|xs| - 1) * |sep|
  {
    if |xs| > 1 {
      JoinLength(xs[1..], sep);
      var n := |xs| - 1;
      assert |Join(xs, sep)| == |xs[0]| + |sep| + |Join(xs[1..], sep)|;
      assert (n - 1) * |sep| + |sep| == n * |sep|;
    }
  }

  /** The first part opens the joined string and the last part closes it. */
  lemma {:induction false} JoinEnds(xs: seq<string>, sep: string)
    requires |xs| > 0
    ensures xs[0] <= Join(xs, sep)
    ensures var j := Join(xs, sep); |xs[|xs| - 1]| <= |j| && j[|j| - |xs[|xs| - 1]|..] == xs[|xs| - 1]
  {
    var j := Join(xs, sep);
    if |xs| > 1 {
      JoinEnds(xs[1..], sep);
      assert j == xs[0] + sep + Join(xs[1..], sep);
      assert j == Join(xs[..|xs| - 1], sep) + sep + xs[|xs| - 1];
    }
  }

  /** A suffix of a concatenation, read past its prefix. */
  lemma SliceAfterPrefix(p: string, q: string, a: int, b: int)
    requires 0 <= a <= b <= |q|
    ensures (p + q)[|p| + a..|p| + b] == q[a..b]
  {
    assert forall k :: 0 <= k < b - a ==> (p + q)[|p| + a..|p| + b][k] == q[a..b][k];
  }

  /** `part` sits at offset `at` of `text`, followed by `sep` unless it is the last part. */
  predicate PlacedAt(text: string, part: string, sep: string, at: nat, last: bool)
  {
    && at + |part| <= |text| && text[at..at + |part|] == part
    && (!last ==> at + |part| + |sep| <= |text| && text[at + |part|..at + |part| + |sep|] == sep)
  }

  /** Where part `i` of a joined string starts: the parts before it and one separator after each. */
  function PartOffset(parts: seq<string>, sep: string, i: nat): nat
    requires i <= |parts|
  {
    TotalLength(parts[..i]) + i * |sep|
  }

  /**
    Part `i` of a joined string sits at offset `TotalLength(parts before
    it) + i * |sep|`, and the separator follows it unless it is the last.
   */
  predicate PartAt(text: string, parts: seq<string>, sep: string, i: nat)
    requires i < |parts|
  {
    PlacedAt(text, parts[i], sep, PartOffset(parts, sep, i), i == |parts| - 1)
  }

  /** The first part opens the joined string, followed by the separator when more parts come. */
  lemma JoinPlacesHead(xs: seq<string>, sep: string)
    requires |xs| > 0
    ensures PartAt(Join(xs, sep), xs, sep, 0)
  {
    var j := Join(xs, sep);
    assert xs[..0] == [];
    if |xs| == 1 {
      assert j[0..|xs[0]|] == xs[0];
    } else {
      assert j == xs[0] + sep + Join(xs[1..], sep);
      assert j[0..|xs[0]|] == xs[0];
      assert j[|xs[0]|..|xs[0]| + |sep|] == sep;
    }
  }

  /** Placing a prefix in front of a text moves every placed part right by the prefix's length. */
  lemma PlacedAfterPrefix(p: string, q: string, part: string, sep: string, at: nat, last: bool)
    requires PlacedAt(q, part, sep, at, last)
    ensures PlacedAt(p + q, part, sep, |p| + at, last)
  {
    SliceAfterPrefix(p, q, at, at + |part|);
    if !last {
      SliceAfterPrefix(p, q, at + |part|, at + |part| + |sep|);
    }
  }

  /** Part `i` starts one head part and one separator later than part `i - 1` of the tail. */
  lemma PartOffsetOfTail(xs: seq<string>, sep: string, i: nat)
    requires 0 < i <= |xs|
    ensures PartOffset(xs, sep, i) == |xs[0]| + |sep| + PartOffset(xs[1..], sep, i - 1)
  {
    assert xs[..i][1..] == xs[1..][..i - 1];
    assert i * |sep| == |sep| + (i - 1) * |sep|;
  }

  /** A part placed in the rest of a text is placed one position later in the text with a head part and separator in front. */
  lemma PartAtAfterHead(xs: seq<string>, sep: string, i: nat, whole: string, rest: string)
    requires 0 < i < |xs|
    requires whole == (xs[0] + sep) + rest
    requires PartAt(rest, xs[1..], sep, i - 1)
    ensures PartAt(whole, xs, sep, i)
  {
    assert xs[1..][i - 1] == xs[i];
    PartOffsetOfTail(xs, sep, i);
    PlacedAfterPrefix(xs[0] + sep, rest, xs[i], sep, PartOffset(xs[1..], sep, i - 1), i == |xs| - 1);
  }

  /** A later part keeps its place from the join of the tail, shifted by the head and one separator. */
  lemma JoinPlacesLater(xs: seq<string>, sep: string, i: nat)
    requires 0 < i < |xs|
    requires PartAt(Join(xs[1..], sep), xs[1..], sep, i - 1)
    ensures PartAt(Join(xs, sep), xs, sep, i)
  {
    var rest := Join(xs[1..], sep);
    assert Join(xs, sep) == (xs[0] + sep) + rest;
    PartAtAfterHead(xs, sep, i, Join(xs, sep), rest);
  }

  lemma {:induction false} JoinPlacesPart(xs: seq<string>, sep: string, i: nat)
    requires i < |xs|
    ensures PartAt(Join(xs, sep), xs, sep, i)
    decreases |xs|
  {
    if i == 0 {
      JoinPlacesHead(xs, sep);
    } else {
      JoinPlacesPart(xs[1..], sep, i - 1);
      JoinPlacesLater(xs, sep, i);
    }
  }

  /** Every part of a joined string is in its place, with the separator after it. */
  lemma JoinPlacesParts(xs: seq<string>, sep: string)
    ensures forall i :: 0 <= i < |xs| ==> PartAt(Join(xs, sep), xs, sep, i)
  {
    forall i | 0 <= i < |xs|
      ensures PartAt(Join(xs, sep), xs, sep, i)
    {
      JoinPlacesPart(xs, sep, i);
    }
  }

  lemma JoinShape(xs: seq<string>, sep: string)
    ensures |xs| > 0 ==> xs[0] <= Join(xs, sep)
    ensures |xs| > 0 ==> |Join(xs, sep)| == TotalLength(xs) + (|xs| - 1) * |sep|
    ensures forall i :: 0 <= i < |xs| ==> PartAt(Join(xs, sep), xs, sep, i)
  {
    if |xs| > 0 {
      JoinLength(xs, sep);
      JoinEnds(xs, sep);
    }
    JoinPlacesParts(xs, sep);
  }

  /** One row decorated with `itemNames: names.join(", ")`, every other field kept. */
  function Decorate(o: Order, items: seq<Item>): (r: Order)
    ensures r.(itemNames := o.itemNames) == o
    ensures r.itemNames.Some?
    ensures |items| == 0 ==> r.itemNames.value == ""
    ensures |items| == 1 ==> r.itemNames.value == items[0].itemName
    ensures |items| > 0 ==> items[0].itemName <= r.itemNames.value
    ensures |items| > 0 ==> |r.itemNames.value| == TotalLength(Names(items)) + 2 * (|items| - 1)
    ensures r.itemNames == Some(Join(Names(items), ", "))
  {
    var names := Names(items);
    JoinShape(names, ", ");
    o.(itemNames := Some(Join(names, ", ")))
  }

  /** Item `i`'s name sits in the decorated row after the names before it and one ", " each, and ", " follows it unless it is the last. */
  lemma DecoratePlacesNames(o: Order, items: seq<Item>)
    ensures var r := Decorate(o, items);
            forall i :: 0 <= i < |items| ==> PartAt(r.itemNames.value, Names(items), ", ", i)
  {
    JoinPlacesParts(Names(items), ", ");
  }

  datatype Page = Failed(message: string) | Loaded(orders: seq<Order>)

  /**
    The fetch effect. `rows` is `GET /completedOrders` (None when it fails)
    and `replies[i]` the item list fetched for `rows[i]` (None when that
    request fails); `Promise.all` fails as soon as one request fails.
   */
  function Load(rows: Option<seq<Order>>, replies: seq<Option<seq<Item>>>): (p: Page)
    requires rows.Some? ==> |replies| == |rows.value|
    ensures p.Failed? ==> p.message == "Error fetching completed orders"
    ensures p.Loaded? <==> rows.Some? && forall i :: 0 <= i < |replies| ==> replies[i].Some?
    ensures p.Loaded? ==> |p.orders| == |rows.value|
    ensures p.Loaded? ==> forall i :: 0 <= i < |rows.value| ==>
              p.orders[i] == Decorate(rows.value[i], replies[i].value)
  {
    if rows.None? || exists i :: 0 <= i < |replies| && replies[i].None? then
      Failed("Error fetching completed orders")
    else
      Loaded(seq(|replies|, i requires 0 <= i < |replies| => Decorate(rows.value[i], replies[i].value)))
  }

  /** Decoration changes nothing but the item names: ids, amounts and flags come through in the same order. */
  lemma LoadKeepsRows(rows: seq<Order>, replies: seq<Option<seq<Item>>>)
    requires |replies| == |rows|
    requires forall i :: 0 <= i < |replies| ==> replies[i].Some?
    ensures Load(Some(rows), replies).Loaded?
    ensures var shown := Load(Some(rows), replies).orders;
            forall i :: 0 <= i < |rows| ==> shown[i].(itemNames := rows[i].itemNames) == rows[i]
  {
  }

  /** The two status cells of a completed row. */
  datatype StatusCells = StatusCells(transaction: string, returned: string)

  /** The status cells read complete whatever the row's stored amounts and flags say. */
  function RowStatus(o: Order): (cells: StatusCells)
    ensures cells == StatusCells("Transaction Completed", "All Returned")
  {
    StatusCells("Transaction Completed", "All Returned")
  }
}
