/**
 * The list block converter pair: list data to Markdown list text, and a
 * three-level list tree (container, items, inline entries) back to a list block.
 */
module ListTypeParser {
  import opened Wrappers
  import opened Text

  /** The `data` of a list block: `style` may be absent; `items` are the item texts. */
  datatype ListData = ListData(style: Option<string>, items: seq<string>)

  /** The marker written before item `i` (0-based): `i+1. ` for "ordered", `- ` for any other or no style. */
  function ItemPrefix(style: Option<string>, i: nat): string
  {
    if style == Some("ordered") then NatToString(i + 1) + ". " else "- "
  }

  /** The rendered lines, one per item, each the item's marker followed by its text. */
  function Lines(data: ListData): seq<string>
  {
    seq(|data.items|, i requires 0 <= i < |data.items| => ItemPrefix(data.style, i) + data.items[i])
  }

  /** parseListToMarkdown: the lines joined by newlines, with one newline before and one after. */
  function ListToMarkdown(data: ListData): string
  {
    "\n" + Join(Lines(data), "\n") + "\n"
  }

  /** The text always begins and ends with a newline; an empty list is exactly two newlines. */
  lemma ListFramed(data: ListData)
    ensures |ListToMarkdown(data)| >= 2
    ensures ListToMarkdown(data)[0] == '\n' && ListToMarkdown(data)[|ListToMarkdown(data)| - 1] == '\n'
    ensures data.items == [] ==> ListToMarkdown(data) == "\n\n"
  {
  }

  /**
   * Reading the text back line by line: when no item contains a newline, the
   * text splits into an empty first piece, exactly one line per item in item
   * order, and an empty last piece.
   */
  lemma {:induction false} ListLines(data: ListData)
    requires |data.items| >= 1
    requires forall i :: 0 <= i < |data.items| ==> '\n' !in data.items[i]
    ensures Split(ListToMarkdown(data), '\n') == [""] + Lines(data) + [""]
  {
    var lines := Lines(data);
    forall i | 0 <= i < |lines|
      ensures '\n' !in lines[i]
    {
      var p := ItemPrefix(data.style, i);
      assert '\n' !in p by {
        if data.style == Some("ordered") {
          var n := NatToString(i + 1);
          assert forall k :: 0 <= k < |n| ==> IsDigit(n[k]);
        }
      }
      assert lines[i] == p + data.items[i];
    }
    var parts := [""] + lines + [""];
    JoinAppend([""], lines + [""], "\n");
    JoinAppend(lines, [""], "\n");
    assert [""] + (lines + [""]) == parts;
    assert Join(parts, "\n") == "\n" + Join(lines, "\n") + "\n";
    assert "\n" == ['\n'];
    SplitJoin(parts, '\n');
  }

  /** The i-th line of the text under the "ordered" style: the numeral of i + 1, ". ", then the item unchanged. */
  lemma OrderedLine(data: ListData, i: nat)
    requires data.style == Some("ordered")
    requires i < |data.items|
    requires forall j :: 0 <= j < |data.items| ==> '\n' !in data.items[j]
    ensures |Split(ListToMarkdown(data), '\n')| == |data.items| + 2
    ensures var line := Split(ListToMarkdown(data), '\n')[i + 1];
            var k := |NatToString(i + 1)|;
            k < |line| && IsNumeral(line[..k]) && ParseNat(line[..k]) == i + 1 && line[k..] == ". " + data.items[i]
  {
    ListLines(data);
    ParseNatToString(i + 1);
    var line := Lines(data)[i];
    var n := NatToString(i + 1);
    assert line == n + (". " + data.items[i]);
    assert line[..|n|] == n;
  }

  /** The i-th line under "unordered", any other style or no style: "- " then the item unchanged. */
  lemma UnorderedLine(data: ListData, i: nat)
    requires data.style != Some("ordered")
    requires i < |data.items|
    requires forall j :: 0 <= j < |data.items| ==> '\n' !in data.items[j]
    ensures |Split(ListToMarkdown(data), '\n')| == |data.items| + 2
    ensures Split(ListToMarkdown(data), '\n')[i + 1] == "- " + data.items[i]
  {
    ListLines(data);
  }

  // ---- reading a rendered list back ----

  /** The text of line `line` after the marker of item `i`, if the line starts with that marker. */
  function StripPrefix(line: string, style: Option<string>, i: nat): Option<string>
  {
    var p := ItemPrefix(style, i);
    if |p| <= |line| && line[..|p|] == p then Some(line[|p|..]) else None
  }

  /** The item texts of `lines`, the first being item number `start`, or None if a marker is wrong. */
  function StripLines(lines: seq<string>, style: Option<string>, start: nat): Option<seq<string>>
    decreases |lines|
  {
    if |lines| == 0 then Some([])
    else
      match StripPrefix(lines[0], style, start)
      case None => None
      case Some(item) =>
        match StripLines(lines[1..], style, start + 1)
        case None => None
        case Some(rest) => Some([item] + rest)
  }

  /** Reads a list's item texts back from its Markdown text, in the given style. */
  function MarkdownItems(md: string, style: Option<string>): Option<seq<string>>
  {
    var pieces := Split(md, '\n');
    if |pieces| < 3 || pieces[0] != "" || pieces[|pieces| - 1] != "" then None
    else if pieces == ["", "", ""] then Some([])
    else StripLines(pieces[1..|pieces| - 1], style, 0)
  }

  lemma {:induction false} StripLinesFrom(data: ListData, k: nat)
    requires k <= |data.items|
    ensures StripLines(Lines(data)[k..], data.style, k) == Some(data.items[k..])
    decreases |data.items| - k
  {
    var lines := Lines(data);
    if k < |data.items| {
      StripLinesFrom(data, k + 1);
      assert lines[k..][1..] == lines[k + 1..];
      var p := ItemPrefix(data.style, k);
      assert lines[k..][0] == lines[k] == p + data.items[k];
      assert lines[k][..|p|] == p && lines[k][|p|..] == data.items[k];
      assert StripPrefix(lines[k], data.style, k) == Some(data.items[k]);
      assert data.items[k..] == [data.items[k]] + data.items[k + 1..];
    } else {
      assert lines[k..] == [] && data.items[k..] == [];
    }
  }

  /**
   * Rendering a list and reading it back in the same style gives back exactly
   * the items, in order, whenever no item contains a newline.
   */
  lemma ListRoundTrip(data: ListData)
    requires forall i :: 0 <= i < |data.items| ==> '\n' !in data.items[i]
    ensures MarkdownItems(ListToMarkdown(data), data.style) == Some(data.items)
  {
    if |data.items| == 0 {
      assert ListToMarkdown(data) == "\n\n";
      SplitJoin(["", "", ""], '\n');
    } else {
      ListLines(data);
      var lines := Lines(data);
      var pieces := [""] + lines + [""];
      assert pieces[1..|pieces| - 1] == lines;
      assert lines[0] != "" by {
        assert lines[0] == ItemPrefix(data.style, 0) + data.items[0];
      }
      StripLinesFrom(data, 0);
      assert lines[0..] == lines && data.items[0..] == data.items;
    }
  }

  // ---- parseMarkdownToList ----

  /** An inline content node of a list item. */
  datatype ListEntry = ListEntry(value: string)

  /** A list item: its inline content nodes. */
  datatype ListItem = ListItem(children: seq<ListEntry>)

  /** A first-level child of the list tree, holding list items. */
  datatype ItemGroup = ItemGroup(children: seq<ListItem>)

  /** The list tree handed to the reverse converter. */
  datatype ListTree = ListTree(ordered: bool, children: seq<ItemGroup>)

  /** A block as the editor stores it: its type tag and its list data. */
  datatype ListBlock = ListBlock(blockType: string, data: ListData)

  /** The values of the entries, in order. */
  function EntryValues(entries: seq<ListEntry>): seq<string>
  {
    if |entries| == 0 then [] else EntryValues(entries[..|entries| - 1]) + [entries[|entries| - 1].value]
  }

  /** The values of all entries of the items, in order. */
  function ItemValues(items: seq<ListItem>): seq<string>
  {
    if |items| == 0 then [] else ItemValues(items[..|items| - 1]) + EntryValues(items[|items| - 1].children)
  }

  /** The values of all third-level nodes under the groups, in order. */
  function GroupValues(groups: seq<ItemGroup>): seq<string>
  {
    if |groups| == 0 then [] else GroupValues(groups[..|groups| - 1]) + ItemValues(groups[|groups| - 1].children)
  }

  /** parseMarkdownToList: walks the tree level by level and collects every entry value. */
  method MarkdownToList(tree: ListTree) returns (block: ListBlock)
    ensures block.blockType == "list"
    ensures block.data.items == GroupValues(tree.children)
    ensures block.data.style == Some(if tree.ordered then "ordered" else "unordered")
  {
    var itemData: seq<string> := [];
    var g := 0;
    while g < |tree.children|
      invariant 0 <= g <= |tree.children|
      invariant itemData == GroupValues(tree.children[..g])
    {
      var items := tree.children[g];
      var i := 0;
      while i < |items.children|
        invariant 0 <= i <= |items.children|
        invariant itemData == GroupValues(tree.children[..g]) + ItemValues(items.children[..i])
      {
        var listItem := items.children[i];
        var e := 0;
        while e < |listItem.children|
          invariant 0 <= e <= |listItem.children|
          invariant itemData == GroupValues(tree.children[..g]) + ItemValues(items.children[..i])
                                + EntryValues(listItem.children[..e])
        {
          itemData := itemData + [listItem.children[e].value];
          assert listItem.children[..e + 1][..e] == listItem.children[..e];
          e := e + 1;
        }
        assert listItem.children[..e] == listItem.children;
        assert items.children[..i + 1][..i] == items.children[..i];
        i := i + 1;
      }
      assert items.children[..i] == items.children;
      assert tree.children[..g + 1][..g] == tree.children[..g];
      g := g + 1;
    }
    assert tree.children[..g] == tree.children;
    block := ListBlock("list", ListData(Some(if tree.ordered then "ordered" else "unordered"), itemData));
  }

  /** Number of inline entries under the items. */
  function EntryCount(items: seq<ListItem>): nat
  {
    if |items| == 0 then 0 else EntryCount(items[..|items| - 1]) + |items[|items| - 1].children|
  }

  /** Number of third-level nodes under the groups. */
  function LeafCount(groups: seq<ItemGroup>): nat
  {
    if |groups| == 0 then 0 else LeafCount(groups[..|groups| - 1]) + EntryCount(groups[|groups| - 1].children)
  }

  lemma {:induction false} EntryValuesLength(entries: seq<ListEntry>)
    ensures |EntryValues(entries)| == |entries|
  {
    if |entries| > 0 {
      EntryValuesLength(entries[..|entries| - 1]);
    }
  }

  lemma {:induction false} ItemValuesLength(items: seq<ListItem>)
    ensures |ItemValues(items)| == EntryCount(items)
  {
    if |items| > 0 {
      ItemValuesLength(items[..|items| - 1]);
      EntryValuesLength(items[|items| - 1].children);
    }
  }

  /** The reverse converter yields exactly one item per third-level node. */
  lemma {:induction false} GroupValuesLength(groups: seq<ItemGroup>)
    ensures |GroupValues(groups)| == LeafCount(groups)
  {
    if |groups| > 0 {
      GroupValuesLength(groups[..|groups| - 1]);
      ItemValuesLength(groups[|groups| - 1].children);
    }
  }

  lemma {:induction false} EntryValuesAppend(a: seq<ListEntry>, b: seq<ListEntry>)
    ensures EntryValues(a + b) == EntryValues(a) + EntryValues(b)
    decreases |b|
  {
    if |b| > 0 {
      assert (a + b)[..|a + b| - 1] == a + b[..|b| - 1];
      EntryValuesAppend(a, b[..|b| - 1]);
    } else {
      assert a + b == a;
    }
  }

  lemma {:induction false} ItemValuesAppend(a: seq<ListItem>, b: seq<ListItem>)
    ensures ItemValues(a + b) == ItemValues(a) + ItemValues(b)
    decreases |b|
  {
    if |b| > 0 {
      assert (a + b)[..|a + b| - 1] == a + b[..|b| - 1];
      ItemValuesAppend(a, b[..|b| - 1]);
    } else {
      assert a + b == a;
    }
  }

  /** Flattening respects concatenation: the values of a + b are those of a followed by those of b. */
  lemma {:induction false} GroupValuesAppend(a: seq<ItemGroup>, b: seq<ItemGroup>)
    ensures GroupValues(a + b) == GroupValues(a) + GroupValues(b)
    decreases |b|
  {
    if |b| > 0 {
      assert (a + b)[..|a + b| - 1] == a + b[..|b| - 1];
      GroupValuesAppend(a, b[..|b| - 1]);
    } else {
      assert a + b == a;
    }
  }

  lemma {:induction false} EntryValuesMembers(entries: seq<ListEntry>, v: string)
    ensures v in EntryValues(entries) <==> exists e :: 0 <= e < |entries| && entries[e].value == v
  {
    if |entries| > 0 {
      var pre := entries[..|entries| - 1];
      EntryValuesMembers(pre, v);
      if v in EntryValues(entries) && v !in EntryValues(pre) {
        assert entries[|entries| - 1].value == v;
      }
      if e :| 0 <= e < |entries| && entries[e].value == v {
        if e < |pre| {
          assert pre[e].value == v;
        }
      }
    }
  }

  lemma {:induction false} ItemValuesMembers(items: seq<ListItem>, v: string)
    ensures v in ItemValues(items) <==>
            exists i, e :: 0 <= i < |items| && 0 <= e < |items[i].children| && items[i].children[e].value == v
  {
    if |items| > 0 {
      var pre := items[..|items| - 1];
      var last := items[|items| - 1];
      ItemValuesMembers(pre, v);
      EntryValuesMembers(last.children, v);
      if v in ItemValues(items) {
        if v in ItemValues(pre) {
          var i, e :| 0 <= i < |pre| && 0 <= e < |pre[i].children| && pre[i].children[e].value == v;
          assert items[i] == pre[i];
        } else {
          var e :| 0 <= e < |last.children| && last.children[e].value == v;
          assert items[|items| - 1].children[e].value == v;
        }
      }
      if i, e :| 0 <= i < |items| && 0 <= e < |items[i].children| && items[i].children[e].value == v {
        if i < |pre| {
          assert pre[i].children[e].value == v;
        } else {
          assert last.children[e].value == v;
        }
      }
    }
  }

  /** A string is among the reverse converter's items exactly when some third-level node carries it. */
  lemma {:induction false} GroupValuesMembers(groups: seq<ItemGroup>, v: string)
    ensures v in GroupValues(groups) <==>
            exists g, i, e :: 0 <= g < |groups| && 0 <= i < |groups[g].children|
                              && 0 <= e < |groups[g].children[i].children|
                              && groups[g].children[i].children[e].value == v
  {
    if |groups| > 0 {
      var pre := groups[..|groups| - 1];
      var last := groups[|groups| - 1];
      GroupValuesMembers(pre, v);
      ItemValuesMembers(last.children, v);
      if v in GroupValues(groups) {
        if v in GroupValues(pre) {
          var g, i, e :| 0 <= g < |pre| && 0 <= i < |pre[g].children|
                         && 0 <= e < |pre[g].children[i].children| && pre[g].children[i].children[e].value == v;
          assert groups[g] == pre[g];
        } else {
          var i, e :| 0 <= i < |last.children| && 0 <= e < |last.children[i].children|
                      && last.children[i].children[e].value == v;
          assert groups[|groups| - 1].children[i].children[e].value == v;
        }
      }
      if g, i, e :| 0 <= g < |groups| && 0 <= i < |groups[g].children|
                    && 0 <= e < |groups[g].children[i].children| && groups[g].children[i].children[e].value == v {
        if g < |pre| {
          assert pre[g].children[i].children[e].value == v;
        } else {
          assert last.children[i].children[e].value == v;
        }
      }
    }
  }

  /** The reverse converter yields no items exactly when no list item has an inline entry. */
  lemma NoEntriesNoItems(groups: seq<ItemGroup>)
    ensures GroupValues(groups) == [] <==>
            forall g, i :: 0 <= g < |groups| && 0 <= i < |groups[g].children| ==> groups[g].children[i].children == []
  {
    if GroupValues(groups) != [] {
      GroupValuesMembers(groups, GroupValues(groups)[0]);
    } else {
      forall g, i | 0 <= g < |groups| && 0 <= i < |groups[g].children|
        ensures groups[g].children[i].children == []
      {
        if groups[g].children[i].children != [] {
          GroupValuesMembers(groups, groups[g].children[i].children[0].value);
        }
      }
    }
  }

  /** An ordered example: numbering starts at 1 and follows the items. */
  lemma OrderedExample()
    ensures ListToMarkdown(ListData(Some("ordered"), ["a", "b", "c"])) == "\n1. a\n2. b\n3. c\n"
  {
    var d := ListData(Some("ordered"), ["a", "b", "c"]);
    assert DigitChar(1) == '1' && DigitChar(2) == '2' && DigitChar(3) == '3';
    assert ItemPrefix(d.style, 0) == "1. " && ItemPrefix(d.style, 1) == "2. " && ItemPrefix(d.style, 2) == "3. ";
    var lines := ["1. a", "2. b", "3. c"];
    assert Lines(d)[0] == lines[0] && Lines(d)[1] == lines[1] && Lines(d)[2] == lines[2];
    assert Lines(d) == lines;
    assert Join(lines[1..], "\n") == "2. b\n3. c";
  }

  /** With no style, the item is written after "- ". */
  lemma UnorderedExample()
    ensures ListToMarkdown(ListData(None, ["x"])) == "\n- x\n"
  {
    assert Lines(ListData(None, ["x"]))[0] == "- x";
    assert Lines(ListData(None, ["x"])) == ["- x"];
  }

  /** A tree of one ordered list with the items "foo" and "bar" becomes the list block of those two items. */
  method MarkdownToListExample()
  {
    var tree := ListTree(true, [ItemGroup([ListItem([ListEntry("foo")]), ListItem([ListEntry("bar")])])]);
    var block := MarkdownToList(tree);
    assert ItemValues(tree.children[0].children[..1]) == ["foo"];
    assert block == ListBlock("list", ListData(Some("ordered"), ["foo", "bar"]));
  }
}
