/**
 The home page feed: a copy of the content list ordered newest first.
 The engine's sort is stable, so posts with equal timestamps keep the order
 they had in the content list; the model is a stable insertion sort.
 */
module Home {
  import opened Types

  /** Timestamps never increase along `s`. */
  predicate NewestFirst(s: seq<ContentItem>) {
    forall i, j :: 0 <= i < j < |s| ==> s[i].timestamp >= s[j].timestamp
  }

  /** `h` may stand in front of a newest-first list when no item of it is newer. */
  lemma ConsNewestFirst(h: ContentItem, s: seq<ContentItem>)
    requires NewestFirst(s)
    requires forall k :: 0 <= k < |s| ==> s[k].timestamp <= h.timestamp
    ensures NewestFirst([h] + s)
  {
    var r := [h] + s;
    forall i, j | 0 <= i < j < |r|
      ensures r[i].timestamp >= r[j].timestamp
    {
      assert r[j] == s[j - 1];
      if i > 0 {
        assert r[i] == s[i - 1];
      }
    }
  }

  /**
   Places `x` into a newest-first list ahead of the first item that is not
   newer than it, so that `x` precedes the items of its own timestamp.
   */
  function Insert(x: ContentItem, sorted: seq<ContentItem>): (r: seq<ContentItem>)
    requires NewestFirst(sorted)
    ensures NewestFirst(r)
    ensures multiset(r) == multiset(sorted) + multiset{x}
    ensures |r| == |sorted| + 1
    decreases |sorted|
  {
    if sorted == [] || x.timestamp >= sorted[0].timestamp then
      ConsNewestFirst(x, sorted);
      [x] + sorted
    else
      var head, tail := sorted[0], sorted[1..];
      assert NewestFirst(tail);
      var rest := Insert(x, tail);
      assert sorted == [head] + tail;
      InsertBelowHead(x, head, tail, rest);
      ConsNewestFirst(head, rest);
      [head] + rest
  }

  /** Nothing that `Insert` places behind an older `head` can be newer than it. */
  lemma InsertBelowHead(x: ContentItem, head: ContentItem, tail: seq<ContentItem>, rest: seq<ContentItem>)
    requires NewestFirst([head] + tail)
    requires x.timestamp < head.timestamp
    requires multiset(rest) == multiset(tail) + multiset{x}
    ensures forall k :: 0 <= k < |rest| ==> rest[k].timestamp <= head.timestamp
  {
    var sorted := [head] + tail;
    forall k | 0 <= k < |rest|
      ensures rest[k].timestamp <= head.timestamp
    {
      var y := rest[k];
      assert y in multiset(rest);
      if y != x {
        assert y in multiset(tail);
        var m :| 0 <= m < |tail| && tail[m] == y;
        assert sorted[0] == head && sorted[m + 1] == y;
        assert sorted[0].timestamp >= sorted[m + 1].timestamp;
      }
    }
  }

  /** The feed order of the home page: a permutation of `content`, newest first. */
  function SortedContent(content: seq<ContentItem>): (r: seq<ContentItem>)
    ensures NewestFirst(r)
    ensures multiset(r) == multiset(content)
    ensures |r| == |content|
  {
    if content == [] then []
    else
      assert content == [content[0]] + content[1..];
      Insert(content[0], SortedContent(content[1..]))
  }

  /** The items of `s` whose timestamp is `t`, in the order of `s`. */
  function AtTime(s: seq<ContentItem>, t: int): seq<ContentItem> {
    if s == [] then []
    else (if s[0].timestamp == t then [s[0]] else []) + AtTime(s[1..], t)
  }

  lemma AtTimeCons(h: ContentItem, s: seq<ContentItem>, t: int)
    ensures AtTime([h] + s, t) == (if h.timestamp == t then [h] else []) + AtTime(s, t)
  {
    assert ([h] + s)[0] == h && ([h] + s)[1..] == s;
  }

  lemma {:induction false} InsertAtTime(x: ContentItem, sorted: seq<ContentItem>, t: int)
    requires NewestFirst(sorted)
    ensures AtTime(Insert(x, sorted), t) == (if x.timestamp == t then [x] else []) + AtTime(sorted, t)
    decreases |sorted|
  {
    if sorted == [] || x.timestamp >= sorted[0].timestamp {
      AtTimeCons(x, sorted, t);
    } else {
      var head, tail := sorted[0], sorted[1..];
      assert NewestFirst(tail);
      assert sorted == [head] + tail;
      InsertAtTime(x, tail, t);
      AtTimeCons(head, Insert(x, tail), t);
      AtTimeCons(head, tail, t);
      assert head.timestamp != t || x.timestamp != t;
    }
  }

  /** Stability: for every timestamp, the posts of that timestamp keep their relative order. */
  lemma {:induction false} SortIsStable(content: seq<ContentItem>, t: int)
    ensures AtTime(SortedContent(content), t) == AtTime(content, t)
    decreases |content|
  {
    if content != [] {
      SortIsStable(content[1..], t);
      InsertAtTime(content[0], SortedContent(content[1..]), t);
    }
  }

  /** A list that is already newest first is left exactly as it is. */
  lemma {:induction false} SortKeepsSortedInput(content: seq<ContentItem>)
    requires NewestFirst(content)
    ensures SortedContent(content) == content
    decreases |content|
  {
    if content != [] {
      assert NewestFirst(content[1..]);
      SortKeepsSortedInput(content[1..]);
      assert content == [content[0]] + content[1..];
    }
  }

  /** Sorting twice gives the same feed as sorting once. */
  lemma SortIsIdempotent(content: seq<ContentItem>)
    ensures SortedContent(SortedContent(content)) == SortedContent(content)
  {
    SortKeepsSortedInput(SortedContent(content));
  }

  /**
   A post at the front of the content that is at least as recent as every
   other one heads the feed. On a tie a post further back stays behind it.
   */
  lemma NewestHeadsFeed(x: ContentItem, rest: seq<ContentItem>)
    requires forall y :: y in rest ==> y.timestamp <= x.timestamp
    ensures SortedContent([x] + rest)[0] == x
  {
    var content := [x] + rest;
    assert content[0] == x && content[1..] == rest;
    var sortedRest := SortedContent(rest);
    if sortedRest != [] {
      assert sortedRest[0] in multiset(rest);
    }
  }
}
