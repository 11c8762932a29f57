/** `ExportSheetMusicJson::toJson`: the side-channel description of a page, written as
    three JSON arrays. The text of each system, measure and note is an input here. */
module SheetMusicJson {

  /** The items separated by single commas, with no comma before the first or after the last. */
  function Join(items: seq<string>): string {
    if |items| == 0 then ""
    else if |items| == 1 then items[0]
    else Join(items[..|items| - 1]) + "," + items[|items| - 1]
  }

  /** Where item `k` starts in the joined text: every item before it and its comma. */
  function Offset(items: seq<string>, k: nat): nat
    requires k <= |items|
  {
    if k == 0 then 0 else Offset(items, k - 1) + |items[k - 1]| + 1
  }

  /** The start of an item depends only on the items before it. */
  lemma {:induction false} OffsetPrefix(items: seq<string>, n: nat, k: nat)
    requires k <= n <= |items|
    ensures Offset(items[..n], k) == Offset(items, k)
  {
    if k > 0 {
      OffsetPrefix(items, n, k - 1);
    }
  }

  /** The joined text is as long as the items and one comma between each two neighbours. */
  lemma {:induction false} JoinLength(items: seq<string>)
    requires |items| > 0
    ensures |Join(items)| == Offset(items, |items|) - 1
  {
    if |items| > 1 {
      var init := items[..|items| - 1];
      JoinLength(init);
      OffsetPrefix(items, |items| - 1, |items| - 1);
    }
  }

  /** Item `k` stands unchanged at its offset, followed by a comma unless it is the last.
      With `JoinLength` this fixes every character of the joined text, whatever the items
      hold, commas included: nothing precedes the first item and nothing follows the last. */
  lemma {:induction false} JoinItemAt(items: seq<string>, k: nat)
    requires k < |items|
    ensures Offset(items, k) + |items[k]| + (if k + 1 < |items| then 1 else 0) <= |Join(items)|
    ensures Join(items)[Offset(items, k)..Offset(items, k) + |items[k]|] == items[k]
    ensures k + 1 < |items| ==> Join(items)[Offset(items, k) + |items[k]|] == ','
    decreases |items|, 1
  {
    var n := |items|;
    if k + 1 < n {
      JoinItemBeforeLast(items, k);
    } else if n > 1 {
      var a := Join(items[..n - 1]);
      assert Join(items) == a + "," + items[k];
      JoinLength(items[..n - 1]);
      OffsetPrefix(items, n - 1, n - 1);
      assert Offset(items, k) == |a| + 1;
    }
  }

  /** An item before the last lies inside the join of all items but the last. */
  lemma {:induction false} JoinItemBeforeLast(items: seq<string>, k: nat)
    requires k + 1 < |items|
    ensures Offset(items, k) + |items[k]| + 1 <= |Join(items)|
    ensures Join(items)[Offset(items, k)..Offset(items, k) + |items[k]|] == items[k]
    ensures Join(items)[Offset(items, k) + |items[k]|] == ','
    decreases |items|, 0
  {
    var n := |items|;
    var init := items[..n - 1];
    var a := Join(init);
    var end := Offset(items, k) + |items[k]|;
    assert Join(items) == a + "," + items[n - 1];
    JoinLength(init);
    OffsetPrefix(items, n - 1, n - 1);
    OffsetPrefix(items, n - 1, k);
    JoinItemAt(init, k);
    assert init[k] == items[k];
    assert end <= |a|;
    assert Join(items)[Offset(items, k)..end] == a[Offset(items, k)..end];
    if k + 2 < n {
      assert a[end] == ',';
    } else {
      assert end == |a|;
    }
  }

  /** Appending one more item. */
  lemma JoinAppend(items: seq<string>, x: string)
    requires |items| > 0
    ensures Join(items + [x]) == Join(items) + "," + x
  {
    assert (items + [x])[..|items|] == items;
  }

  /** `str` followed by the array body the loop of `toJson` writes for `items`. */
  method AppendArray(str: string, items: seq<string>) returns (r: string)
    ensures r == str + Join(items)
  {
    r := str;
    var k := 0;
    while k < |items|
      invariant 0 <= k <= |items|
      invariant r == str + Join(items[..k]) + (if 0 < k < |items| then "," else "")
    {
      assert items[..k + 1] == items[..k] + [items[k]];
      if k > 0 {
        JoinAppend(items[..k], items[k]);
      }
      r := r + items[k];
      if k != |items| - 1 {
        r := r + ",";
      }
      k := k + 1;
    }
    assert items[..|items|] == items;
  }

  /** The JSON object: "systems", "measures" and "notes", in that order. */
  method ToJson(systems: seq<string>, measures: seq<string>, notes: seq<string>) returns (s: string)
    ensures s == "{" + "\"systems\":[" + Join(systems) + "]," + "\"measures\":[" + Join(measures)
                 + "]," + "\"notes\":[" + Join(notes) + "]}"
  {
    s := "{";
    s := s + "\"systems\":[";
    s := AppendArray(s, systems);
    s := s + "],";
    s := s + "\"measures\":[";
    s := AppendArray(s, measures);
    s := s + "],";
    s := s + "\"notes\":[";
    s := AppendArray(s, notes);
    s := s + "]}";
  }
}
