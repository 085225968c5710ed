/**
 Properties of the store that relate several calls: seeding happens once,
 prepending and the newest-first comment order across many submissions,
 counter arithmetic across many clicks, and the invariants every write keeps.
 */
module StoreLemmas {
  import opened Types
  import opened Store

  /** A first read on an empty profile yields and persists the three samples in order. */
  lemma FirstReadSeeds(loadTime: int)
    ensures var r := GetStoredContent(EmptyStorage, loadTime);
      && r.value == Seed(loadTime)
      && [r.value[0].id, r.value[1].id, r.value[2].id] == ["1", "2", "3"]
      && [r.value[0].category, r.value[1].category, r.value[2].category] == [NEWS, NEWS, VIDEO]
      && r.after == Storage(Some(Seed(loadTime)), None, None)
  {
  }

  /** Reading twice gives the same list, and the second read writes nothing. */
  lemma ReadIsIdempotent(s: Storage, loadTime: int)
    ensures var first := GetStoredContent(s, loadTime);
      var second := GetStoredContent(first.after, loadTime);
      second.value == first.value && second.after == first.after
  {
  }

  /** What `AddContent` stored is what the next read returns: the item, then the old list. */
  lemma AddContentThenRead(s: Storage, loadTime: int, item: ContentItem)
    ensures var previous := GetStoredContent(s, loadTime).value;
      GetStoredContent(AddContent(s, loadTime, item), loadTime).value == [item] + previous
  {
  }

  /** Comments submitted oldest first are read back newest first, ahead of the older ones. */
  lemma {:induction false} AddCommentsNewestFirst(s: Storage, contentId: string, cs: seq<Comment>)
    ensures GetComments(AddComments(s, contentId, cs), contentId) == Reverse(cs) + GetComments(s, contentId)
    decreases |cs|
  {
    if cs != [] {
      var s1 := AddComment(s, contentId, cs[0]);
      AddCommentsNewestFirst(s1, contentId, cs[1..]);
      calc {
        GetComments(AddComments(s, contentId, cs), contentId);
        GetComments(AddComments(s1, contentId, cs[1..]), contentId);
        Reverse(cs[1..]) + GetComments(s1, contentId);
        Reverse(cs[1..]) + ([cs[0]] + GetComments(s, contentId));
        (Reverse(cs[1..]) + [cs[0]]) + GetComments(s, contentId);
        Reverse(cs) + GetComments(s, contentId);
      }
    }
  }

  /** Comments on one post never disturb the comments of another. */
  lemma {:induction false} AddCommentsLeavesOthers(s: Storage, contentId: string, cs: seq<Comment>, other: string)
    requires other != contentId
    ensures GetComments(AddComments(s, contentId, cs), other) == GetComments(s, other)
    ensures AddComments(s, contentId, cs).reactions == s.reactions
    ensures AddComments(s, contentId, cs).content == s.content
    decreases |cs|
  {
    if cs != [] {
      AddCommentsLeavesOthers(AddComment(s, contentId, cs[0]), contentId, cs[1..], other);
    }
  }

  /** After a run of clicks, each counter has grown by the number of clicks of its kind. */
  lemma {:induction false} AddReactionsCounts(s: Storage, contentId: string, ts: seq<ReactionType>, k: ReactionType)
    ensures GetReactions(AddReactions(s, contentId, ts), contentId).Get(k)
         == GetReactions(s, contentId).Get(k) + Occurrences(ts, k)
    decreases |ts|
  {
    if ts != [] {
      var s1 := AddReaction(s, contentId, ts[0]).after;
      AddReactionsCounts(s1, contentId, ts[1..], k);
    }
  }

  /** Every click lands in exactly one of the four counters. */
  lemma {:induction false} OccurrencesPartition(ts: seq<ReactionType>)
    ensures Occurrences(ts, LIKE) + Occurrences(ts, DISLIKE) + Occurrences(ts, HAPPY) + Occurrences(ts, ANGRY) == |ts|
  {
    if ts != [] {
      OccurrencesPartition(ts[1..]);
    }
  }

  /** The total of a post's counters grows by exactly the number of clicks. */
  lemma AddReactionsTotal(s: Storage, contentId: string, ts: seq<ReactionType>)
    ensures GetReactions(AddReactions(s, contentId, ts), contentId).Total()
         == GetReactions(s, contentId).Total() + |ts|
  {
    var before := GetReactions(s, contentId);
    var after := GetReactions(AddReactions(s, contentId, ts), contentId);
    AddReactionsCounts(s, contentId, ts, LIKE);
    AddReactionsCounts(s, contentId, ts, DISLIKE);
    AddReactionsCounts(s, contentId, ts, HAPPY);
    AddReactionsCounts(s, contentId, ts, ANGRY);
    OccurrencesPartition(ts);
    TotalOfRaisedCounters(before, after, Occurrences(ts, LIKE), Occurrences(ts, DISLIKE),
                          Occurrences(ts, HAPPY), Occurrences(ts, ANGRY));
  }

  lemma TotalOfRaisedCounters(before: ReactionCounts, after: ReactionCounts, l: int, d: int, h: int, a: int)
    requires after.Get(LIKE) == before.Get(LIKE) + l
    requires after.Get(DISLIKE) == before.Get(DISLIKE) + d
    requires after.Get(HAPPY) == before.Get(HAPPY) + h
    requires after.Get(ANGRY) == before.Get(ANGRY) + a
    ensures after.Total() == before.Total() + l + d + h + a
  {
  }

  /** Reactions on one post never disturb the counters of another. */
  lemma {:induction false} AddReactionsLeavesOthers(s: Storage, contentId: string, ts: seq<ReactionType>, other: string)
    requires other != contentId
    ensures GetReactions(AddReactions(s, contentId, ts), other) == GetReactions(s, other)
    decreases |ts|
  {
    if ts != [] {
      AddReactionsLeavesOthers(AddReaction(s, contentId, ts[0]).after, contentId, ts[1..], other);
    }
  }

  /** A click keeps every stored counter non-negative, and reports non-negative counters. */
  lemma AddReactionKeepsCountersNonNegative(s: Storage, contentId: string, t: ReactionType)
    requires CountersNonNegative(s)
    ensures CountersNonNegative(AddReaction(s, contentId, t).after)
    ensures AddReaction(s, contentId, t).value.NonNegative()
  {
    var r := AddReaction(s, contentId, t);
    forall id | id in ReactionTable(r.after)
      ensures ReactionTable(r.after)[id].NonNegative()
    {
      if id == contentId {
        assert ReactionTable(r.after)[id] == r.value;
      } else {
        assert GetReactions(r.after, id) == GetReactions(s, id);
      }
    }
  }

  /** Reads of the counters of any post are non-negative while the invariant holds. */
  lemma GetReactionsNonNegative(s: Storage, contentId: string)
    requires CountersNonNegative(s)
    ensures GetReactions(s, contentId).NonNegative()
  {
  }

  /** Prepending a well-shaped item keeps every stored item well-shaped. */
  lemma AddContentKeepsShape(s: Storage, loadTime: int, item: ContentItem)
    requires ContentWellShaped(s)
    requires WellShaped(item)
    ensures ContentWellShaped(AddContent(s, loadTime, item))
  {
    var s' := AddContent(s, loadTime, item);
    var previous := GetStoredContent(s, loadTime).value;
    assert AllWellShaped(previous);
    assert s'.content.value == [item] + previous;
  }
}
