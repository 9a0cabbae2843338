/**
 `displayResults`: walk a fixed whitelist of payload fields, emit one labelled
 item for each field that is truthy, in whitelist order, and report "no data"
 exactly when nothing was emitted.
 */
module Display {
  import opened Records

  const Whitelist: seq<string> := ["manufacturer", "model", "year", "country", "region", "wmi"]

  // Split in two so that proofs can index its first characters.
  const NoDataMessage := "VIN found, but no data was returned" + " for this vehicle."

  /** One result row: the label in bold and the field's value. */
  datatype Item = Item(title: string, value: string)

  /** The label shown for a field: `wmi` is written `WMI`, every other key as it is. */
  function Label(key: string): (title: string)
    ensures key != "wmi" ==> title == key
    ensures key == "wmi" ==> title == "WMI"
  {
    if key == "wmi" then "WMI" else key
  }

  /** The field a label was made from; the inverse of `Label` on the whitelist. */
  function KeyOf(title: string): string {
    if title == "WMI" then "wmi" else title
  }

  lemma LabelRoundTrip(key: string)
    requires key in Whitelist
    ensures KeyOf(Label(key)) == key
  {
  }

  lemma LabelInjective(a: string, b: string)
    requires a in Whitelist && b in Whitelist && Label(a) == Label(b)
    ensures a == b
  {
    LabelRoundTrip(a);
    LabelRoundTrip(b);
  }

  /** The item a field contributes: one labelled row when the field is truthy, none otherwise. */
  function Contribution(rec: Record, key: string): (items: seq<Item>)
    ensures |items| <= 1
    ensures |items| == 1 <==> Truthy(rec, key)
    ensures Truthy(rec, key) ==> items[0] == Item(Label(key), rec[key])
  {
    if Truthy(rec, key) then [Item(Label(key), rec[key])] else []
  }

  /** `it` is the row of some truthy field among `keys`, carrying that field's value. */
  predicate RowOf(rec: Record, keys: seq<string>, it: Item) {
    exists k :: k in keys && Truthy(rec, k) && it == Item(Label(k), rec[k])
  }

  /** The rows produced by walking `keys`, one field at a time; at most one row per key. */
  function ProjectKeys(rec: Record, keys: seq<string>): (items: seq<Item>)
    ensures |items| <= |keys|
  {
    if keys == [] then []
    else Contribution(rec, keys[0]) + ProjectKeys(rec, keys[1..])
  }

  /** Every row comes from a truthy listed field and carries that field's value. */
  lemma {:induction false} ProjectKeysSound(rec: Record, keys: seq<string>)
    ensures forall it :: it in ProjectKeys(rec, keys) ==> RowOf(rec, keys, it)
    decreases |keys|
  {
    if keys != [] {
      var head, tail := Contribution(rec, keys[0]), ProjectKeys(rec, keys[1..]);
      ProjectKeysSound(rec, keys[1..]);
      forall it | it in head + tail
        ensures RowOf(rec, keys, it)
      {
        if it in tail {
          var k :| k in keys[1..] && Truthy(rec, k) && it == Item(Label(k), rec[k]);
          assert k in keys;
        } else {
          assert it == head[0] && keys[0] in keys;
        }
      }
    }
  }

  /** Every truthy listed field produces its row. */
  lemma {:induction false} ProjectKeysComplete(rec: Record, keys: seq<string>)
    ensures forall k :: k in keys && Truthy(rec, k) ==> Item(Label(k), rec[k]) in ProjectKeys(rec, keys)
    decreases |keys|
  {
    if keys != [] {
      var head, tail := Contribution(rec, keys[0]), ProjectKeys(rec, keys[1..]);
      ProjectKeysComplete(rec, keys[1..]);
      forall k | k in keys && Truthy(rec, k)
        ensures Item(Label(k), rec[k]) in head + tail
      {
        if k == keys[0] {
          assert (head + tail)[0] == Item(Label(k), rec[k]);
        } else {
          assert k in keys[1..];
          assert Item(Label(k), rec[k]) in tail;
        }
      }
    }
  }

  /** Walking `keys` and then `more` is walking `keys + more`: the loop's step. */
  lemma {:induction false} ProjectKeysAppend(rec: Record, keys: seq<string>, more: seq<string>)
    ensures ProjectKeys(rec, keys + more) == ProjectKeys(rec, keys) + ProjectKeys(rec, more)
    decreases |keys|
  {
    if keys == [] {
      assert keys + more == more;
    } else {
      assert (keys + more)[0] == keys[0];
      assert (keys + more)[1..] == keys[1..] + more;
      ProjectKeysAppend(rec, keys[1..], more);
    }
  }

  /** Only the listed fields matter: two payloads that agree on them produce the same rows. */
  lemma {:induction false} ProjectKeysFrame(a: Record, b: Record, keys: seq<string>)
    requires forall k :: k in keys ==> Field(a, k) == Field(b, k)
    ensures ProjectKeys(a, keys) == ProjectKeys(b, keys)
    decreases |keys|
  {
    if keys != [] {
      assert keys[0] in keys;
      assert Field(a, keys[0]) == Field(b, keys[0]);
      assert Contribution(a, keys[0]) == Contribution(b, keys[0]);
      assert forall k :: k in keys[1..] ==> k in keys;
      ProjectKeysFrame(a, b, keys[1..]);
    }
  }

  /** Position of a key in `keys`, or `|keys|` when absent. */
  function IndexOf(keys: seq<string>, key: string): (n: nat)
    ensures n <= |keys|
    ensures n < |keys| ==> keys[n] == key
    ensures n == |keys| <==> key !in keys
  {
    if keys == [] then 0
    else if keys[0] == key then 0
    else 1 + IndexOf(keys[1..], key)
  }

  predicate Distinct(keys: seq<string>) {
    forall i, j :: 0 <= i < j < |keys| ==> keys[i] != keys[j]
  }

  lemma {:induction false} IndexOfDistinct(keys: seq<string>, n: nat)
    requires Distinct(keys) && n < |keys|
    ensures IndexOf(keys, keys[n]) == n
    decreases n
  {
    if n > 0 {
      assert keys[0] != keys[n];
      assert keys[1..][n - 1] == keys[n];
      IndexOfDistinct(keys[1..], n - 1);
    }
  }

  /** Where a label's field sits in `keys`; `|keys|` for a label of no listed field. */
  function Rank(keys: seq<string>, title: string): nat {
    IndexOf(keys, KeyOf(title))
  }

  lemma RankOfWhitelist(n: nat)
    requires n < |Whitelist|
    ensures Rank(Whitelist, Label(Whitelist[n])) == n
  {
    assert Distinct(Whitelist);
    LabelRoundTrip(Whitelist[n]);
    IndexOfDistinct(Whitelist, n);
  }

  /** Rows listed in strictly increasing whitelist rank. */
  predicate InKeyOrder(items: seq<Item>, keys: seq<string>) {
    forall i, j :: 0 <= i < j < |items| ==> Rank(keys, items[i].title) < Rank(keys, items[j].title)
  }

  lemma PrependOrdered(keys: seq<string>, first: Item, tail: seq<Item>, n: nat)
    requires Rank(keys, first.title) == n
    requires forall it :: it in tail ==> n < Rank(keys, it.title)
    requires InKeyOrder(tail, keys)
    ensures forall it :: it in [first] + tail ==> n <= Rank(keys, it.title)
    ensures InKeyOrder([first] + tail, keys)
  {
    var items := [first] + tail;
    forall i, j | 0 <= i < j < |items|
      ensures Rank(keys, items[i].title) < Rank(keys, items[j].title)
    {
      assert items[j] == tail[j - 1] && tail[j - 1] in tail;
      if i > 0 {
        assert items[i] == tail[i - 1];
      }
    }
  }

  /** Rows built from a whitelist suffix are in whitelist order, all of rank at least `n`. */
  lemma {:induction false} SuffixOrdered(rec: Record, n: nat)
    requires n <= |Whitelist|
    ensures forall it :: it in ProjectKeys(rec, Whitelist[n..]) ==> n <= Rank(Whitelist, it.title)
    ensures InKeyOrder(ProjectKeys(rec, Whitelist[n..]), Whitelist)
    decreases |Whitelist| - n
  {
    if n < |Whitelist| {
      var keys := Whitelist[n..];
      assert keys[0] == Whitelist[n];
      assert keys[1..] == Whitelist[n + 1..];
      SuffixOrdered(rec, n + 1);
      var tail := ProjectKeys(rec, Whitelist[n + 1..]);
      var items := ProjectKeys(rec, keys);
      if Truthy(rec, Whitelist[n]) {
        var first := Item(Label(Whitelist[n]), rec[Whitelist[n]]);
        assert items == [first] + tail;
        RankOfWhitelist(n);
        PrependOrdered(Whitelist, first, tail, n);
      } else {
        assert items == tail;
      }
    } else {
      assert Whitelist[n..] == [];
    }
  }

  /**
   The rows `displayResults` renders: whitelisted truthy fields only, at most
   six, each with its own value, every truthy whitelisted field present, and in
   whitelist order.
   */
  function Project(rec: Record): (items: seq<Item>)
    ensures |items| <= |Whitelist|
    ensures forall it :: it in items ==> RowOf(rec, Whitelist, it)
    ensures forall k :: k in Whitelist && Truthy(rec, k) ==> Item(Label(k), rec[k]) in items
    ensures InKeyOrder(items, Whitelist)
  {
    assert Whitelist[0..] == Whitelist;
    SuffixOrdered(rec, 0);
    ProjectKeysSound(rec, Whitelist);
    ProjectKeysComplete(rec, Whitelist);
    ProjectKeys(rec, Whitelist)
  }

  /** A field outside the whitelist, `error` included, never produces a row. */
  lemma OnlyWhitelistLabels(rec: Record, j: nat)
    requires j < |Project(rec)|
    ensures KeyOf(Project(rec)[j].title) in Whitelist
    ensures Project(rec)[j].title != "error" && Project(rec)[j].title != "wmi"
  {
    assert Project(rec)[j] in Project(rec);
    var k :| k in Whitelist && Truthy(rec, k) && Project(rec)[j] == Item(Label(k), rec[k]);
    LabelRoundTrip(k);
  }

  /** Only whitelisted fields matter to the display. */
  lemma ProjectIgnoresOtherFields(a: Record, b: Record)
    requires forall k :: k in Whitelist ==> Field(a, k) == Field(b, k)
    ensures Project(a) == Project(b)
  {
    ProjectKeysFrame(a, b, Whitelist);
  }

  /** Some whitelisted field of the payload is truthy. */
  predicate HasShownField(rec: Record) {
    exists k :: k in Whitelist && Truthy(rec, k)
  }

  /** What `displayResults` ends in: the no-data message, or a non-empty list of rows. */
  datatype Outcome = NoData(message: string) | Results(items: seq<Item>)

  function DisplayResults(rec: Record): (o: Outcome)
    ensures o.NoData? <==> !HasShownField(rec)
    ensures o.NoData? ==> o.message == NoDataMessage
    ensures o.Results? ==> o.items == Project(rec) && |o.items| > 0
  {
    var items := Project(rec);
    assert |items| > 0 ==> items[0] in items && RowOf(rec, Whitelist, items[0]);
    if |items| == 0 then NoData(NoDataMessage) else Results(items)
  }

  /**
   The `forEach` loop of `displayResults` with its `hasData` flag, over any key
   list: the rows it appends are exactly `ProjectKeys(rec, keys)`, and the flag
   is set exactly when some row was appended.
   */
  method AppendRows(rec: Record, keys: seq<string>) returns (rows: seq<Item>, hasData: bool)
    ensures rows == ProjectKeys(rec, keys)
    ensures hasData <==> |rows| > 0
  {
    rows := [];
    hasData := false;
    var i := 0;
    while i < |keys|
      invariant 0 <= i <= |keys|
      invariant rows == ProjectKeys(rec, keys[..i])
      invariant hasData <==> |rows| > 0
    {
      var key := keys[i];
      ProjectKeysAppend(rec, keys[..i], [key]);
      assert keys[..i + 1] == keys[..i] + [key];
      assert ProjectKeys(rec, [key]) == Contribution(rec, key);
      if Truthy(rec, key) {
        hasData := true;
        rows := rows + [Item(Label(key), rec[key])];
      }
      i := i + 1;
    }
    assert keys[..|keys|] == keys;
  }

  /** `displayResults` over the whitelist: the flag is clear exactly in the no-data case. */
  method RenderRows(rec: Record) returns (rows: seq<Item>, hasData: bool)
    ensures rows == Project(rec)
    ensures !hasData <==> DisplayResults(rec).NoData?
  {
    rows, hasData := AppendRows(rec, Whitelist);
  }
}
