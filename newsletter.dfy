/**
 * The campus newsletter service: the colour scheme and label of a priority
 * level (5 is the most urgent here), and the article list it serves, sorted
 * by level from highest to lowest.
 */
module Newsletter {
  import PyText
  import SeqFacts

  // ---------------------------------------------------------------------------
  // Priority presentation

  /** The background, border and text colours of an article card. */
  datatype Scheme = Scheme(bg: string, border: string, text: string)

  const Critical := Scheme("#fee2e2", "#dc2626", "#991b1b")
  const High := Scheme("#fef3c7", "#f59e0b", "#92400e")
  const Medium := Scheme("#dbeafe", "#3b82f6", "#1e40af")
  const Low := Scheme("#d1fae5", "#10b981", "#065f46")
  const Info := Scheme("#f3f4f6", "#6b7280", "#374151")

  /** `get_priority_color`: the scheme of a level, the gray level-1 scheme for any other value. */
  function PriorityColor(priority: int): (r: Scheme)
    ensures !(1 <= priority <= 5) ==> r == Info
  {
    if priority == 5 then Critical
    else if priority == 4 then High
    else if priority == 3 then Medium
    else if priority == 2 then Low
    else Info
  }

  /** `get_priority_label`: total, with INFO for any value outside 1..5. */
  function PriorityLabel(priority: int): (r: string)
    ensures r in ["CRITICAL", "HIGH", "MEDIUM", "LOW", "INFO"]
    ensures !(1 <= priority <= 5) ==> r == "INFO"
  {
    if priority == 5 then "CRITICAL"
    else if priority == 4 then "HIGH"
    else if priority == 3 then "MEDIUM"
    else if priority == 2 then "LOW"
    else "INFO"
  }

  /** On the five levels, a label and a colour scheme each name exactly one level. */
  lemma LevelsDistinguishable(p: int, q: int)
    requires 1 <= p <= 5 && 1 <= q <= 5
    ensures PriorityLabel(p) == PriorityLabel(q) ==> p == q
    ensures PriorityColor(p) == PriorityColor(q) ==> p == q
  {
  }

  /** The label the article shows, in lower case. */
  lemma LowerLabels(p: int)
    ensures PyText.AsciiLower(PriorityLabel(p)) ==
      if p == 5 then "critical" else if p == 4 then "high" else if p == 3 then "medium"
      else if p == 2 then "low" else "info"
  {
  }

  // ---------------------------------------------------------------------------
  // Sorting by level, highest first

  /** Tags as an item holds them: a list, or a single string. */
  datatype Tags = TagList(list: seq<string>) | TagText(text: string)

  /** One entry of the newsletter data: level, title, summary, tags. */
  datatype Item = Item(priority: int, title: string, summary: string, tags: Tags)

  predicate SortedDesc(s: seq<Item>) {
    forall i, j :: 0 <= i < j < |s| ==> s[i].priority >= s[j].priority
  }

  function AtLevel(p: int): Item -> bool {
    (item: Item) => item.priority == p
  }

  /** The items of the given level, in their order. */
  function OfLevel(s: seq<Item>, p: int): seq<Item> {
    SeqFacts.Filter(s, AtLevel(p))
  }

  /** Places `x` before the first item whose level is not above its own. */
  function Insert(x: Item, s: seq<Item>): (r: seq<Item>)
    ensures |r| == |s| + 1
  {
    if s == [] || x.priority >= s[0].priority then [x] + s else [s[0]] + Insert(x, s[1..])
  }

  /** `sorted(data, key=lambda x: x[0], reverse=True)`. */
  function SortDesc(s: seq<Item>): (r: seq<Item>)
    ensures |r| == |s|
  {
    if s == [] then [] else Insert(s[0], SortDesc(s[1..]))
  }

  lemma {:induction false} InsertSorted(x: Item, s: seq<Item>)
    requires SortedDesc(s)
    ensures SortedDesc(Insert(x, s))
    ensures Insert(x, s)[0] == x || Insert(x, s)[0] == s[0]
  {
    if s != [] && x.priority < s[0].priority {
      InsertSorted(x, s[1..]);
    }
  }

  lemma {:induction false} InsertMultiset(x: Item, s: seq<Item>)
    ensures multiset(Insert(x, s)) == multiset{x} + multiset(s)
  {
    if s != [] && x.priority < s[0].priority {
      InsertMultiset(x, s[1..]);
      assert s == [s[0]] + s[1..];
    }
  }

  lemma OfLevelAppend(a: seq<Item>, b: seq<Item>, p: int)
    ensures OfLevel(a + b, p) == OfLevel(a, p) + OfLevel(b, p)
  {
    SeqFacts.FilterAppend(a, b, AtLevel(p));
  }

  /** Inserting `x` puts it ahead of the items of its own level. */
  lemma {:induction false} InsertOfLevel(x: Item, s: seq<Item>, p: int)
    ensures OfLevel(Insert(x, s), p) == OfLevel([x], p) + OfLevel(s, p)
  {
    if s == [] || x.priority >= s[0].priority {
      OfLevelAppend([x], s, p);
    } else {
      InsertOfLevel(x, s[1..], p);
      OfLevelAppend([s[0]], Insert(x, s[1..]), p);
      OfLevelAppend([x], s[1..], p);
      OfLevelAppend([s[0]], s[1..], p);
      assert s == [s[0]] + s[1..];
      OfLevelAppend([s[0]], [x] + s[1..], p);
    }
  }

  /** The result runs from the highest level to the lowest. */
  lemma {:induction false} SortDescSorted(s: seq<Item>)
    ensures SortedDesc(SortDesc(s))
  {
    if s != [] {
      SortDescSorted(s[1..]);
      InsertSorted(s[0], SortDesc(s[1..]));
    }
  }

  /** The result holds the same items, each as often. */
  lemma {:induction false} SortDescPermutation(s: seq<Item>)
    ensures multiset(SortDesc(s)) == multiset(s)
  {
    if s != [] {
      SortDescPermutation(s[1..]);
      InsertMultiset(s[0], SortDesc(s[1..]));
      assert s == [s[0]] + s[1..];
    }
  }

  /** Stability: the items of each level keep their input order. */
  lemma {:induction false} SortDescStable(s: seq<Item>, p: int)
    ensures OfLevel(SortDesc(s), p) == OfLevel(s, p)
  {
    if s != [] {
      SortDescStable(s[1..], p);
      InsertOfLevel(s[0], SortDesc(s[1..]), p);
      OfLevelAppend([s[0]], s[1..], p);
      assert s == [s[0]] + s[1..];
    }
  }

  // ---------------------------------------------------------------------------
  // Articles

  /** One article of the `/api/newsletter` response. */
  datatype Article = Article(subject: string, summary: string, priority: string, priorityLevel: int,
                             tags: seq<string>, date: string, source: string)

  /** A string of tags becomes a one-element list. */
  function TagsList(t: Tags): (r: seq<string>)
    ensures t.TagText? ==> r == [t.text]
    ensures t.TagList? ==> r == t.list
  {
    match t
    case TagList(l) => l
    case TagText(s) => [s]
  }

  /**
   * A string of tags is shown as one tag, never split into characters, and a
   * list that is already in that form is shown unchanged: an item with tags
   * `s` and one with tags `[s]` give the same article.
   */
  lemma TagTextAsOneTag(item: Item, s: string, date: string)
    ensures ArticleOf(item.(tags := TagText(s)), date) == ArticleOf(item.(tags := TagList([s])), date)
    ensures TagsList(TagList(TagsList(item.tags))) == TagsList(item.tags)
  {
  }

  function ArticleOf(item: Item, date: string): Article {
    Article(item.title, item.summary, PyText.AsciiLower(PriorityLabel(item.priority)), item.priority,
            TagsList(item.tags), date, "AI Newsletter System")
  }

  /** The article list for the data, with `date` the day it is served. */
  function Articles(data: seq<Item>, date: string): (r: seq<Article>)
    ensures |r| == |data|
  {
    var sorted := SortDesc(data);
    seq(|sorted|, k requires 0 <= k < |sorted| => ArticleOf(sorted[k], date))
  }

  /** The served list runs from the highest level to the lowest, each article showing its level's label. */
  lemma ArticlesOrdered(data: seq<Item>, date: string)
    ensures var r := Articles(data, date);
      forall i, j :: 0 <= i < j < |r| ==> r[i].priorityLevel >= r[j].priorityLevel
    ensures var r := Articles(data, date);
      forall i :: 0 <= i < |r| ==> r[i].priority == PyText.AsciiLower(PriorityLabel(r[i].priorityLevel))
  {
    SortDescSorted(data);
  }

  /** Every item yields one article, carrying its title, summary and level. */
  lemma ArticlesCoverData(data: seq<Item>, date: string, k: nat)
    requires k < |data|
    ensures exists i :: 0 <= i < |data| && Articles(data, date)[i] == ArticleOf(data[k], date)
  {
    SortDescPermutation(data);
    assert data[k] in multiset(SortDesc(data));
    var i :| 0 <= i < |SortDesc(data)| && SortDesc(data)[i] == data[k];
    assert Articles(data, date)[i] == ArticleOf(data[k], date);
  }

  /** `api_newsletter`: one article per item, appended in sorted order. */
  method ApiNewsletter(data: seq<Item>, date: string) returns (articles: seq<Article>)
    ensures articles == Articles(data, date)
  {
    var sorted := SortDesc(data);
    articles := [];
    for i := 0 to |sorted|
      invariant |articles| == i
      invariant forall k :: 0 <= k < i ==> articles[k] == ArticleOf(sorted[k], date)
    {
      var item := sorted[i];
      var tags := item.tags;
      if tags.TagText? {
        tags := TagList([tags.text]);
      }
      var article := Article(item.title, item.summary, PyText.AsciiLower(PriorityLabel(item.priority)),
                             item.priority, tags.list, date, "AI Newsletter System");
      assert article == ArticleOf(item, date);
      articles := articles + [article];
    }
  }
}
