/**
  The `Content` class of src/content.js: a title, the items the selector callback adds,
  and the numbered table of contents `render` builds from them.

  Numbering keeps two counters. A level-2 item starts a new major section, a level-3
  item a new minor one inside it, and every other level leaves both alone. Each entry is
  prefixed `M.` or, once a minor section has started, `M.m.`.
 */
module Content {
  import opened Wrappers
  import opened Digits
  import opened Dom

  // ---------------------------------------------------------------------------
  // Items and the title, lines 3-25

  datatype ContentItem = ContentItem(id: string, level: int, name: string)

  datatype Content = Content(title: string, items: seq<ContentItem>)

  /** The title used when the constructor is given a falsy one. */
  const DefaultTitle: string := "目录"

  /** Line 5: a missing or empty title is replaced by the default; any other is kept. */
  function TitleOrDefault(given: Option<string>): (t: string)
    ensures given.None? || given == Some("") ==> t == DefaultTitle
    ensures given.Some? && given.value != "" ==> t == given.value
    ensures t != ""
  {
    match given
    case Some(s) => if s != "" then s else DefaultTitle
    case None => DefaultTitle
  }

  /** Lines 4-6: a fresh table of contents with no items. */
  function NewContent(given: Option<string>): Content {
    Content(TitleOrDefault(given), [])
  }

  /** Lines 11-17: one item is pushed on the end; the title and earlier items stay. */
  function AddContentItem(c: Content, id: string, level: int, name: string): (r: Content)
    ensures r.title == c.title
    ensures |r.items| == |c.items| + 1
    ensures r.items[..|c.items|] == c.items
    ensures r.items[|c.items|] == ContentItem(id, level, name)
  {
    Content(c.title, c.items + [ContentItem(id, level, name)])
  }

  /** Lines 19-21. */
  function GetTitle(c: Content): string {
    c.title
  }

  /** Lines 23-25. */
  function GetContentItems(c: Content): seq<ContentItem> {
    c.items
  }

  /** The calls the selector callback of line 7 makes, one `addContentItem` per item. */
  function AddAll(c: Content, added: seq<ContentItem>): (r: Content)
    decreases |added|
  {
    if |added| == 0 then c
    else
      var last := added[|added| - 1];
      AddContentItem(AddAll(c, added[..|added| - 1]), last.id, last.level, last.name)
  }

  /** Adding items one at a time yields them in the order they were added, after those
      already there, and keeps the title. */
  lemma {:induction false} AddAllAppends(c: Content, added: seq<ContentItem>)
    ensures AddAll(c, added).title == c.title
    ensures GetContentItems(AddAll(c, added)) == c.items + added
    decreases |added|
  {
    if |added| > 0 {
      var front := added[..|added| - 1];
      AddAllAppends(c, front);
      assert front + [added[|added| - 1]] == added;
    }
  }

  // ---------------------------------------------------------------------------
  // Numbering, lines 32-50

  /** `majorSeq` and `minorSeq`. */
  datatype Counters = Counters(major: nat, minor: nat)

  const Zero: Counters := Counters(0, 0)

  /** Lines 37-44: the counters after seeing one more item of `level`. */
  function Step(c: Counters, level: int): Counters {
    if level == 2 then Counters(c.major + 1, 0)
    else if level == 3 then Counters(c.major, c.minor + 1)
    else c
  }

  /** The levels of the items, in order. */
  function Levels(items: seq<ContentItem>): (ls: seq<int>)
    ensures |ls| == |items|
    ensures forall k :: 0 <= k < |items| ==> ls[k] == items[k].level
  {
    seq(|items|, k requires 0 <= k < |items| => items[k].level)
  }

  /** The counters after walking `levels` from zero, one `Step` per item. */
  function CountersAfter(levels: seq<int>): Counters
    decreases |levels|
  {
    if |levels| == 0 then Zero
    else Step(CountersAfter(levels[..|levels| - 1]), levels[|levels| - 1])
  }

  /** Where the items after the last level-2 item begin: just past it, or 0 if there is none. */
  function AfterLastMajor(levels: seq<int>): (r: nat)
    ensures r <= |levels|
    ensures r > 0 ==> levels[r - 1] == 2
    ensures forall j :: r <= j < |levels| ==> levels[j] != 2
    decreases |levels|
  {
    if |levels| == 0 then 0
    else if levels[|levels| - 1] == 2 then |levels|
    else AfterLastMajor(levels[..|levels| - 1])
  }

  /** Independent counts: the level-2 items so far, and the level-3 items since the last
      level-2 one. */
  function ReferenceCounters(levels: seq<int>): Counters {
    Counters(multiset(levels)[2], multiset(levels[AfterLastMajor(levels)..])[3])
  }

  /** The counting invariant of the `forEach` loop. */
  lemma {:induction false} CountingInvariant(levels: seq<int>)
    ensures CountersAfter(levels) == ReferenceCounters(levels)
    decreases |levels|
  {
    if |levels| > 0 {
      var front := levels[..|levels| - 1];
      var x := levels[|levels| - 1];
      CountingInvariant(front);
      assert levels == front + [x];
      assert multiset(levels) == multiset(front) + multiset{x};
      if x == 2 {
        assert AfterLastMajor(levels) == |levels|;
        assert levels[|levels|..] == [];
      } else {
        var a := AfterLastMajor(front);
        assert AfterLastMajor(levels) == a;
        SliceOfSnoc(front, x, a);
      }
    }
  }

  /** The items from `a` on, after one more item, are those from `a` on and that item. */
  lemma SliceOfSnoc(front: seq<int>, x: int, a: nat)
    requires a <= |front|
    ensures multiset((front + [x])[a..]) == multiset(front[a..]) + multiset{x}
  {
    assert (front + [x])[a..] == front[a..] + [x];
  }

  /** Before any level-2 item the major counter is 0, so level-3 items are numbered `0.k.`. */
  lemma MinorBeforeAnyMajor(levels: seq<int>)
    requires forall j :: 0 <= j < |levels| ==> levels[j] != 2
    ensures CountersAfter(levels) == Counters(0, multiset(levels)[3])
  {
    CountingInvariant(levels);
    assert 2 !in multiset(levels);
    assert AfterLastMajor(levels) == 0;
    assert levels[0..] == levels;
  }

  /** Decimal digits, as a template literal prints a non-negative integer. */
  function Decimal(n: nat): (s: string)
    ensures |s| >= 1 && AllDigitsIn(s, 10)
  {
    NatToString(n, 10)
  }

  /** Lines 45-50: `M.m.` once a minor section has started, `M.` otherwise. */
  function Prefix(c: Counters): string {
    if c.minor > 0 then Decimal(c.major) + "." + Decimal(c.minor) + "." else Decimal(c.major) + "."
  }

  /** A string of decimal digits has no dot in it. */
  lemma DigitsHaveNoDot(s: string)
    requires AllDigitsIn(s, 10)
    ensures '.' !in s
  {
  }

  /** In `x.y` with no dot in `x`, the first dot is just after `x`. */
  lemma FirstDot(x: string, y: string)
    requires '.' !in x
    ensures (x + "." + y)[|x|] == '.'
    ensures forall j :: 0 <= j < |x| ==> (x + "." + y)[j] != '.'
  {
    forall j | 0 <= j < |x|
      ensures (x + "." + y)[j] != '.'
    {
      assert (x + "." + y)[j] == x[j];
    }
  }

  /** Two `digits.rest` strings are split at the same place. */
  lemma SplitAtFirstDot(x: string, y: string, u: string, v: string)
    requires '.' !in x && '.' !in u
    requires x + "." + y == u + "." + v
    ensures x == u && y == v
  {
    var s := x + "." + y;
    FirstDot(x, y);
    FirstDot(u, v);
    assert |x| == |u|;
    assert x == s[..|x|] && u == s[..|u|];
    assert y == s[|x| + 1..] && v == s[|u| + 1..];
  }

  /** Distinct counters print distinct prefixes, so a prefix names one position. */
  lemma PrefixInjective(a: Counters, b: Counters)
    requires Prefix(a) == Prefix(b)
    ensures a == b
  {
    var restA := if a.minor > 0 then Decimal(a.minor) + "." else "";
    var restB := if b.minor > 0 then Decimal(b.minor) + "." else "";
    assert Prefix(a) == Decimal(a.major) + "." + restA;
    assert Prefix(b) == Decimal(b.major) + "." + restB;
    DigitsHaveNoDot(Decimal(a.major));
    DigitsHaveNoDot(Decimal(b.major));
    SplitAtFirstDot(Decimal(a.major), restA, Decimal(b.major), restB);
    NatToStringInjective(a.major, b.major, 10);
    if a.minor > 0 && b.minor > 0 {
      DigitsHaveNoDot(Decimal(a.minor));
      DigitsHaveNoDot(Decimal(b.minor));
      SplitAtFirstDot(Decimal(a.minor), "", Decimal(b.minor), "");
      NatToStringInjective(a.minor, b.minor, 10);
    }
  }

  // ---------------------------------------------------------------------------
  // Rendering, lines 27-61

  /** `${level}` for an integer level. */
  function LevelText(level: int): string {
    IntToString(level, 10)
  }

  /** Lines 52-54: `<li class="contents-level-L"><a href="#id">prefix + name</a></li>`. */
  function Entry(item: ContentItem, c: Counters): Node {
    Element("li", [Attribute("class", "contents-level-" + LevelText(item.level))],
      [Element("a", [Attribute("href", "#" + item.id)], [Text(Prefix(c) + item.name)])])
  }

  /** Each entry numbered by the counters after its own item: item k by the counters after
      the first k + 1 items. */
  function NumberedEntries(items: seq<ContentItem>): (r: seq<Node>)
    ensures |r| == |items|
  {
    seq(|items|, k requires 0 <= k < |items| => EntryAt(items, k))
  }

  /** Entry k of `NumberedEntries`. */
  function EntryAt(items: seq<ContentItem>, k: nat): Node
    requires k < |items|
  {
    Entry(items[k], CountersAfter(Levels(items[..k + 1])))
  }

  /** Lines 28-30: the title paragraph. */
  function TitleNode(title: string): Node {
    Element("p", [Attribute("class", "contents-title")], [Text(title)])
  }

  /** The first `i + 1` levels are the first `i` levels and then level `i`. */
  lemma LevelsGrow(items: seq<ContentItem>, i: nat)
    requires i < |items|
    ensures Levels(items[..i + 1])[..i] == Levels(items[..i])
    ensures Levels(items[..i + 1])[i] == items[i].level
  {
  }

  /** Lines 32-55: the `forEach` loop, with its two counters. */
  method RenderEntries(items: seq<ContentItem>) returns (entries: seq<Node>)
    ensures entries == NumberedEntries(items)
  {
    var counters := Zero;
    entries := [];
    var i := 0;
    while i < |items|
      invariant 0 <= i <= |items|
      invariant counters == CountersAfter(Levels(items[..i]))
      invariant |entries| == i
      invariant forall k :: 0 <= k < i ==> entries[k] == EntryAt(items, k)
    {
      // Lines 36-54, the callback for one item: move the counters on, then number it.
      counters := Step(counters, items[i].level);
      var entry := Entry(items[i], counters);
      LevelsGrow(items, i);
      assert counters == CountersAfter(Levels(items[..i + 1]));
      EntriesGrowBy(items, entries, entry, i);
      entries := entries + [entry];
      i := i + 1;
    }
  }

  /** Entry i after the first i entries gives the first i + 1 entries. */
  lemma EntriesGrowBy(items: seq<ContentItem>, entries: seq<Node>, entry: Node, i: nat)
    requires i < |items| && |entries| == i
    requires forall k :: 0 <= k < i ==> entries[k] == EntryAt(items, k)
    requires entry == EntryAt(items, i)
    ensures forall k :: 0 <= k < i + 1 ==> (entries + [entry])[k] == EntryAt(items, k)
  {
  }

  /** Lines 27-61: a `div` holding the title paragraph and the list of entries. */
  method Render(c: Content) returns (tree: Node)
    ensures tree == Element("div", [], [TitleNode(c.title), Element("ul", [], NumberedEntries(c.items))])
  {
    var contentsTitle := TitleNode(GetTitle(c));
    var entries := RenderEntries(GetContentItems(c));
    var contentsItems := Element("ul", [], entries);
    tree := Element("div", [], [contentsTitle, contentsItems]);
  }

  /** Each entry of the list: one per item, in order, with the item's level as its class, a
      link to the item's id, and the item's name after the prefix of its counters. */
  lemma EntryShape(items: seq<ContentItem>, k: nat)
    requires k < |items|
    ensures var levels := Levels(items[..k + 1]);
      NumberedEntries(items)[k] ==
        Element("li", [Attribute("class", "contents-level-" + LevelText(items[k].level))],
          [Element("a", [Attribute("href", "#" + items[k].id)],
            [Text(Prefix(ReferenceCounters(levels)) + items[k].name)])])
  {
    assert NumberedEntries(items)[k] == EntryAt(items, k);
    CountingInvariant(Levels(items[..k + 1]));
  }

  /** Lines 4-9, the constructor: the title or its default, the items the selector adds,
      and the rendered tree. */
  method Construct(given: Option<string>, added: seq<ContentItem>) returns (tree: Node)
    ensures tree == Element("div", [], [TitleNode(TitleOrDefault(given)), Element("ul", [], NumberedEntries(added))])
  {
    var c := AddAll(NewContent(given), added);
    AddAllAppends(NewContent(given), added);
    assert c.items == added;
    tree := Render(c);
  }
}
