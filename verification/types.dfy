/**
 The shared records of the feed: content items, comments, reaction counters
 and users. Optional fields of the TypeScript records (`videoUrl?`) and
 nullable values (`User | null`) are written with `Option`.
 */
module Types {

  datatype Option<+T> = None | Some(value: T) {

    /** The value, or `default` when absent: the `x || default` idiom of the store. */
    function GetOr(default: T): T {
      match this
      case Some(v) => v
      case None => default
    }
  }

  /** The two kinds of post. */
  datatype Category = NEWS | VIDEO

  /** The four fixed reaction kinds. */
  datatype ReactionType = LIKE | DISLIKE | HAPPY | ANGRY

  datatype UserRole = ADMIN | USER | GUEST

  datatype User = User(username: string, role: UserRole)

  datatype Comment = Comment(id: string, content: string, author: string, timestamp: int)

  /** A published post; `videoUrl` is meant to be present exactly for videos. */
  datatype ContentItem = ContentItem(
    id: string,
    title: string,
    description: string,
    imageUrl: string,
    category: Category,
    videoUrl: Option<string>,
    timestamp: int,
    author: string,
    tags: seq<string>)

  /** The shape the admin form establishes: a video reference exactly on videos. */
  predicate WellShaped(item: ContentItem) {
    item.category == VIDEO <==> item.videoUrl.Some?
  }

  predicate AllWellShaped(items: seq<ContentItem>) {
    forall i :: 0 <= i < |items| ==> WellShaped(items[i])
  }

  /**
   One counter per reaction kind. The source keeps them as JavaScript numbers,
   which count exactly up to 2^53; the model uses unbounded `int`.
   */
  datatype ReactionCounts = ReactionCounts(like: int, dislike: int, happy: int, angry: int) {

    /** The counter of kind `t`: `counts[t]` in services/store.ts. */
    function Get(t: ReactionType): int {
      match t
      case LIKE => like
      case DISLIKE => dislike
      case HAPPY => happy
      case ANGRY => angry
    }

    /** `counts[t]++`: the counter of kind `t` one higher, the other three untouched. */
    function Inc(t: ReactionType): (r: ReactionCounts)
      ensures r.Get(t) == Get(t) + 1
      ensures forall u :: u != t ==> r.Get(u) == Get(u)
    {
      match t
      case LIKE => this.(like := like + 1)
      case DISLIKE => this.(dislike := dislike + 1)
      case HAPPY => this.(happy := happy + 1)
      case ANGRY => this.(angry := angry + 1)
    }

    function Total(): int {
      like + dislike + happy + angry
    }

    predicate NonNegative() {
      like >= 0 && dislike >= 0 && happy >= 0 && angry >= 0
    }
  }

  /** `{ LIKE: 0, DISLIKE: 0, HAPPY: 0, ANGRY: 0 }`. */
  const ZeroCounts := ReactionCounts(0, 0, 0, 0)
}
