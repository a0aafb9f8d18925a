/**
  The older table-of-contents builder of assets/js/layout.js. `resolveContent` keeps the
  h2 and h3 headings of the page, in document order; `renderContent` numbers them with
  the same two counters as the `Content` class and writes the list as one HTML string.

  Each entry is written as `<li class="contents-level-L"><a href="#id">prefix text</a>`:
  the closing `"</li>"` on line 39 stands after the end of the `+=` statement, so it is
  never appended. HTML lets a list item's end tag be omitted, so the list still parses.
 */
module Layout {
  import Content

  // ---------------------------------------------------------------------------
  // resolveContent, lines 1-16

  /** A heading the selector of line 3 returns: its tag name in upper case, its id and its
      text. */
  datatype Header = Header(tagName: string, id: string, text: string)

  /** One entry of the `content` array. */
  datatype LegacyItem = LegacyItem(value: string, level: int, id: string)

  /** The level lines 7-12 give a heading, if it gets an entry at all. */
  function HeaderLevel(tagName: string): int {
    if tagName == "H2" then 2 else if tagName == "H3" then 3 else 0
  }

  /** Lines 1-16: one entry per h2 or h3 heading, in document order; h4 and anything else
      is passed over. */
  function ResolveContent(headers: seq<Header>): (content: seq<LegacyItem>)
    ensures |content| <= |headers|
    ensures forall j :: 0 <= j < |content| ==> content[j].level == 2 || content[j].level == 3
    decreases |headers|
  {
    if |headers| == 0 then []
    else
      var h := headers[|headers| - 1];
      var front := ResolveContent(headers[..|headers| - 1]);
      var level := HeaderLevel(h.tagName);
      if level == 0 then front else front + [LegacyItem(h.text, level, h.id)]
  }

  /** One heading on its own: an h2 or h3 becomes one entry carrying its text, level and id;
      anything else none. */
  lemma ResolveOne(h: Header)
    ensures h.tagName == "H2" ==> ResolveContent([h]) == [LegacyItem(h.text, 2, h.id)]
    ensures h.tagName == "H3" ==> ResolveContent([h]) == [LegacyItem(h.text, 3, h.id)]
    ensures h.tagName != "H2" && h.tagName != "H3" ==> ResolveContent([h]) == []
  {
    assert [h][..0] == [];
  }

  /** Resolving a page is resolving its two halves and putting the results together, so
      the entries keep document order. */
  lemma {:induction false} ResolveAppend(a: seq<Header>, b: seq<Header>)
    ensures ResolveContent(a + b) == ResolveContent(a) + ResolveContent(b)
    decreases |b|
  {
    if |b| == 0 {
      assert a + b == a;
    } else {
      var front := b[..|b| - 1];
      ResolveAppend(a, front);
      assert (a + b)[..|a + b| - 1] == a + front;
      assert (a + b)[|a + b| - 1] == b[|b| - 1];
      assert b[..|b| - 1] == front;
    }
  }

  /** The selector matched a heading, but the list is empty exactly when none of them is an
      h2 or h3 (line 4 and line 15). */
  lemma {:induction false} ResolveEmpty(headers: seq<Header>)
    ensures ResolveContent(headers) == [] <==>
      forall j :: 0 <= j < |headers| ==> headers[j].tagName != "H2" && headers[j].tagName != "H3"
    decreases |headers|
  {
    if |headers| > 0 {
      var front := headers[..|headers| - 1];
      ResolveEmpty(front);
      assert forall j :: 0 <= j < |front| ==> front[j] == headers[j];
    }
  }

  // ---------------------------------------------------------------------------
  // renderContent, lines 18-43

  /** Line 21. */
  const ContentsHead: string := "<p class=\"contents-title\">目录</p><ul>"

  /** Line 41. */
  const ContentsTail: string := "</ul>"

  /** The same entries as `Content` items, the heading text standing as the name. */
  function AsContentItems(items: seq<LegacyItem>): (r: seq<Content.ContentItem>)
    ensures |r| == |items|
  {
    seq(|items|, k requires 0 <= k < |items| => Content.ContentItem(items[k].id, items[k].level, items[k].value))
  }

  /** The counters after the first `k + 1` entries, counted as the `Content` class counts. */
  function CountersAt(items: seq<LegacyItem>, k: nat): Content.Counters
    requires k < |items|
  {
    Content.CountersAfter(Content.Levels(AsContentItems(items[..k + 1])))
  }

  /** Lines 37-38: a list item opened with the level as its class, and a link to the id
      holding the prefix and the text. */
  function EntryLine(level: int, id: string, prefix: string, text: string): string {
    "<li " + "class=" + "\"contents-level-" + Content.LevelText(level) + "\">" +
    "<a href=\"#" + id + "\">" + prefix + text + "</a>"
  }

  /** Entry k, numbered by the counters after the first k + 1 entries. */
  function EntryText(items: seq<LegacyItem>, k: nat): string
    requires k < |items|
  {
    EntryLine(items[k].level, items[k].id, Content.Prefix(CountersAt(items, k)), items[k].value)
  }

  /** The first `n` entries, one after another. */
  function EntriesText(items: seq<LegacyItem>, n: nat): string
    requires n <= |items|
  {
    if n == 0 then "" else EntriesText(items, n - 1) + EntryText(items, n - 1)
  }

  /** The counters before entry i, after the first i entries. */
  function CountersBefore(items: seq<LegacyItem>, i: nat): Content.Counters
    requires i <= |items|
  {
    Content.CountersAfter(Content.Levels(AsContentItems(items[..i])))
  }

  /** Entry i moves the counters on by its level. */
  lemma CountersStep(items: seq<LegacyItem>, i: nat)
    requires i < |items|
    ensures CountersAt(items, i) == Content.Step(CountersBefore(items, i), items[i].level)
    ensures CountersBefore(items, i + 1) == CountersAt(items, i)
  {
    var levels := Content.Levels(AsContentItems(items[..i + 1]));
    assert levels[..i] == Content.Levels(AsContentItems(items[..i]));
    assert levels[i] == items[i].level;
  }

  /** The first i + 1 entries are the first i and then entry i. */
  lemma EntriesGrow(items: seq<LegacyItem>, i: nat)
    requires i < |items|
    ensures EntriesText(items, i + 1) == EntriesText(items, i) + EntryText(items, i)
  {
  }

  /** Lines 24-40, the callback `$.each` runs for one entry: the counters move on by the
      entry's level, and the entry is appended, numbered by the new counters. */
  method EachEntry(html: string, value: LegacyItem, major: nat, minor: nat)
    returns (html': string, major': nat, minor': nat)
    ensures Content.Counters(major', minor') == Content.Step(Content.Counters(major, minor), value.level)
    ensures html' == html + EntryLine(value.level, value.id, Content.Prefix(Content.Counters(major', minor')), value.value)
  {
    major', minor' := major, minor;
    if value.level == 2 {
      major' := major' + 1;
      minor' := 0;
    } else if value.level == 3 {
      minor' := minor' + 1;
    }
    var prefix := Content.Decimal(major') + ".";
    if minor' > 0 {
      prefix := prefix + Content.Decimal(minor') + ".";
    }
    html' := html +
      ("<li " + "class=" + "\"contents-level-" + Content.LevelText(value.level) + "\">" +
      "<a href=\"#" + value.id + "\">" + prefix + value.value + "</a>");
  }

  /** Lines 22-41 over resolved entries: the head, each entry numbered by its own pair of
      counters, and the tail. The entries are appended to a string of their own, which the
      head is put before at the end; the text is the same as appending to the head. */
  method RenderItems(content: seq<LegacyItem>) returns (html: string)
    ensures html == ContentsHead + EntriesText(content, |content|) + ContentsTail
  {
    var entries := "";
    var major: nat := 0;
    var minor: nat := 0;
    var i := 0;
    while i < |content|
      invariant 0 <= i <= |content|
      invariant Content.Counters(major, minor) == CountersBefore(content, i)
      invariant entries == EntriesText(content, i)
    {
      CountersStep(content, i);
      entries, major, minor := EachEntry(entries, content[i], major, minor);
      EntriesGrow(content, i);
      i := i + 1;
    }
    html := ContentsHead + entries + ContentsTail;
  }

  /** Lines 18-43 without the final write into `#contents`. */
  method RenderContent(headers: seq<Header>) returns (html: string)
    ensures var content := ResolveContent(headers);
      html == ContentsHead + EntriesText(content, |content|) + ContentsTail
  {
    var content := ResolveContent(headers);
    html := RenderItems(content);
  }

  /** A page with no h2 or h3 heading gets the title and an empty list. */
  lemma NoHeadingsEmptyList(headers: seq<Header>)
    requires forall j :: 0 <= j < |headers| ==> headers[j].tagName != "H2" && headers[j].tagName != "H3"
    ensures var content := ResolveContent(headers);
      ContentsHead + EntriesText(content, |content|) + ContentsTail ==
        "<p class=\"contents-title\">目录</p><ul></ul>"
  {
    ResolveEmpty(headers);
  }

  /** Both builders number alike: entry k of the string and entry k of the tree the `Content`
      class renders from the same entries use the same counters. */
  lemma SameNumberingAsContent(items: seq<LegacyItem>, k: nat)
    requires k < |items|
    ensures Content.NumberedEntries(AsContentItems(items))[k] ==
      Content.Entry(Content.ContentItem(items[k].id, items[k].level, items[k].value), CountersAt(items, k))
  {
    var cs := AsContentItems(items);
    assert Content.NumberedEntries(cs)[k] == Content.EntryAt(cs, k);
    assert cs[..k + 1] == AsContentItems(items[..k + 1]);
  }
}
