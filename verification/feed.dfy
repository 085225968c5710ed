/**
 The feed pages of the application shell: the news and video lists filtered
 out of the content list, and their six-slot display grids, which repeat a
 short list cyclically to fill every slot.
 */
module Feed {
  import opened Types

  /** Number of cards on the news and video pages. */
  const DisplaySlots: nat := 6

  /** The items of category `c`, in the order of `content`. */
  function OfCategory(content: seq<ContentItem>, c: Category): (r: seq<ContentItem>)
    ensures |r| <= |content|
    ensures forall i :: 0 <= i < |r| ==> r[i].category == c
    ensures forall x :: x in r <==> x in content && x.category == c
  {
    if content == [] then []
    else if content[0].category == c then [content[0]] + OfCategory(content[1..], c)
    else OfCategory(content[1..], c)
  }

  function NewsContent(content: seq<ContentItem>): seq<ContentItem> {
    OfCategory(content, NEWS)
  }

  function VideoContent(content: seq<ContentItem>): seq<ContentItem> {
    OfCategory(content, VIDEO)
  }

  /**
   The first `n` entries of `xs` repeated end to end: `xs`, then `xs` again,
   and so on, cut at length `n`.
   */
  function Cycle<T>(xs: seq<T>, n: nat): (r: seq<T>)
    requires |xs| > 0
    ensures |r| == n
    ensures forall i :: 0 <= i < n ==> r[i] == xs[i % |xs|]
    decreases n
  {
    if n <= |xs| then
      assert forall i :: 0 <= i < n ==> i % |xs| == i by {
        forall i | 0 <= i < n
          ensures i % |xs| == i
        {
          ModSmall(i, |xs|);
        }
      }
      xs[..n]
    else
      var rest := Cycle(xs, n - |xs|);
      var r := xs + rest;
      assert forall i :: 0 <= i < n ==> r[i] == xs[i % |xs|] by {
        forall i | 0 <= i < n
          ensures r[i] == xs[i % |xs|]
        {
          if i < |xs| {
            ModSmall(i, |xs|);
          } else {
            ModShift(i - |xs|, |xs|);
            assert r[i] == rest[i - |xs|];
          }
        }
      }
      r
  }

  /** Adding the modulus does not change the remainder. */
  lemma ModShift(j: nat, m: nat)
    requires m > 0
    ensures (j + m) % m == j % m
  {
    var q, r := j / m, j % m;
    var q2, r2 := (j + m) / m, (j + m) % m;
    assert j == q * m + r;
    assert j + m == q2 * m + r2;
    var k := q + 1 - q2;
    assert k * m == r2 - r by {
      calc {
        k * m;
        (q + 1) * m - q2 * m;
        q * m + m - q2 * m;
        (j - r) + m - (j + m - r2);
        r2 - r;
      }
    }
    if k > 0 {
      assert k * m >= m by { MulAtLeast(k, m); }
    } else if k < 0 {
      assert (-k) * m >= m by { MulAtLeast(-k, m); }
    }
  }

  /** A number below the modulus is its own remainder. */
  lemma ModSmall(j: nat, m: nat)
    requires j < m
    ensures j % m == j
  {
    var q, r := j / m, j % m;
    assert j == q * m + r;
    if q > 0 {
      MulAtLeast(q, m);
    }
  }

  lemma MulAtLeast(k: int, m: int)
    requires k >= 1 && m > 0
    ensures k * m >= m
  {
  }

  /** The display grid for a filtered list: empty when it is, otherwise six slots. */
  function Display(filtered: seq<ContentItem>): (r: seq<ContentItem>)
    ensures r == [] <==> filtered == []
    ensures filtered != [] ==> |r| == DisplaySlots
    ensures filtered != [] ==> forall i :: 0 <= i < |r| ==> r[i] == filtered[i % |filtered|]
  {
    if |filtered| > 0 then Cycle(filtered, DisplaySlots) else []
  }

  function NewsDisplay(content: seq<ContentItem>): seq<ContentItem> {
    Display(NewsContent(content))
  }

  function VideoDisplay(content: seq<ContentItem>): seq<ContentItem> {
    Display(VideoContent(content))
  }

  // ---------------------------------------------------------------------
  // Properties of the feed pages

  /** The news grid shows only news and the video grid only videos. */
  lemma DisplayCategories(content: seq<ContentItem>)
    ensures forall i :: 0 <= i < |NewsDisplay(content)| ==> NewsDisplay(content)[i].category == NEWS
    ensures forall i :: 0 <= i < |VideoDisplay(content)| ==> VideoDisplay(content)[i].category == VIDEO
  {
    var news := NewsContent(content);
    var videos := VideoContent(content);
    forall i | 0 <= i < |NewsDisplay(content)|
      ensures NewsDisplay(content)[i].category == NEWS
    {
      assert NewsDisplay(content)[i] == news[i % |news|];
    }
    forall i | 0 <= i < |VideoDisplay(content)|
      ensures VideoDisplay(content)[i].category == VIDEO
    {
      assert VideoDisplay(content)[i] == videos[i % |videos|];
    }
  }

  /** Every card on a grid is an item of the filtered list. */
  lemma DisplayDrawsFromFiltered(filtered: seq<ContentItem>)
    ensures forall x :: x in Display(filtered) ==> x in filtered
  {
    var d := Display(filtered);
    forall x | x in d
      ensures x in filtered
    {
      var i :| 0 <= i < |d| && d[i] == x;
      assert d[i] == filtered[i % |filtered|];
    }
  }

  /**
   The grid leaves nothing out when the list fits: with at most six items,
   each of them appears on the grid; with six or more, the grid is the first six.
   */
  lemma DisplayCoversShortLists(filtered: seq<ContentItem>)
    ensures 0 < |filtered| <= DisplaySlots ==> forall x :: x in filtered ==> x in Display(filtered)
    ensures |filtered| >= DisplaySlots ==> Display(filtered) == filtered[..DisplaySlots]
  {
    var d := Display(filtered);
    if 0 < |filtered| <= DisplaySlots {
      forall x | x in filtered
        ensures x in d
      {
        var i :| 0 <= i < |filtered| && filtered[i] == x;
        ModSmall(i, |filtered|);
        assert d[i] == x;
      }
    }
    if |filtered| >= DisplaySlots {
      forall i | 0 <= i < DisplaySlots
        ensures d[i] == filtered[i]
      {
        ModSmall(i, |filtered|);
      }
    }
  }

  /** Filtering distributes over concatenation, so it keeps the relative order of items. */
  lemma {:induction false} OfCategoryAppend(a: seq<ContentItem>, b: seq<ContentItem>, c: Category)
    ensures OfCategory(a + b, c) == OfCategory(a, c) + OfCategory(b, c)
    decreases |a|
  {
    if a == [] {
      assert a + b == b;
    } else {
      assert (a + b)[0] == a[0];
      assert (a + b)[1..] == a[1..] + b;
      OfCategoryAppend(a[1..], b, c);
    }
  }

  /** Every item lands in exactly one of the news and video lists. */
  lemma {:induction false} NewsAndVideosPartition(content: seq<ContentItem>)
    ensures multiset(NewsContent(content)) + multiset(VideoContent(content)) == multiset(content)
    ensures |NewsContent(content)| + |VideoContent(content)| == |content|
  {
    if content != [] {
      NewsAndVideosPartition(content[1..]);
      assert content == [content[0]] + content[1..];
    }
  }
}
