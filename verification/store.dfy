/**
 The mock database of the feed. The browser's key-value storage is
 abstracted to a record of three typed tables, each of which may be absent
 (never written yet): the content list, the comments per content id and the
 reaction counters per content id. Serialisation is assumed to round-trip,
 so a stored table reads back as the value written.

 Every operation is a pure before/after transition: reads that may write
 (the seeding read) return a `Step` carrying both the value and the
 storage afterwards.
 */
module Store {
  import opened Types

  datatype Storage = Storage(
    content: Option<seq<ContentItem>>,
    comments: Option<map<string, seq<Comment>>>,
    reactions: Option<map<string, ReactionCounts>>)

  /** A browser profile that has never opened the site. */
  const EmptyStorage := Storage(None, None, None)

  /** The value an operation returns together with the storage it leaves. */
  datatype Step<T> = Step(value: T, after: Storage)

  // ---------------------------------------------------------------------
  // Seed data

  // The texts of the sample posts, kept as constants so that proofs about
  // the seed need not unfold them.
  const ArcaneTitle: string := "Nova temporada de Arcane confirmada!"
  const ArcaneText: string := "A Netflix confirmou hoje que a segunda temporada de Arcane está em produção acelerada. Os fãs de League of Legends podem esperar mais profundidade na história de Vi e Jinx. A animação promete manter o nível de qualidade visual que chocou o mundo."
  const ArcaneImage: string := "https://picsum.photos/800/400?random=1"
  const QuantumTitle: string := "Review: O novo processador quântico"
  const QuantumText: string := "Testamos o novo chip que promete revolucionar o gaming. Será que roda Crysis? A resposta pode te surpreender. A arquitetura baseada em qubits instáveis traz desafios térmicos, mas o desempenho em ray tracing é absurdo."
  const QuantumImage: string := "https://picsum.photos/800/400?random=2"
  const GtaTitle: string := "Gameplay Exclusivo: GTA VI"
  const GtaText: string := "Análise frame a frame do trailer vazado. O que podemos esperar da física de água e dos NPCs? Nossos especialistas discutem tudo neste vídeo."
  const GtaImage: string := "https://picsum.photos/800/400?random=3"
  const GtaVideo: string := "https://www.youtube.com/embed/dQw4w9WgXcQ"

  /**
   The built-in sample posts, two news items followed by one video.
   `loadTime` is the clock reading taken when the store module is loaded;
   the samples are dated relative to it.
   */
  function Seed(loadTime: int): (r: seq<ContentItem>)
    ensures |r| == 3
    ensures r[0].id == "1" && r[1].id == "2" && r[2].id == "3"
    ensures r[0].category == NEWS && r[1].category == NEWS && r[2].category == VIDEO
    ensures AllWellShaped(r)
    ensures forall i :: 0 <= i < |r| ==> r[i].author == "Admin" && r[i].timestamp <= loadTime
  {
    var news := [
      ContentItem("1", ArcaneTitle, ArcaneText, ArcaneImage, NEWS, None,
                  loadTime - 100000, "Admin", ["LoL", "Netflix", "Arcane"]),
      ContentItem("2", QuantumTitle, QuantumText, QuantumImage, NEWS, None,
                  loadTime - 200000, "Admin", ["Hardware", "Tech", "Quantum"])
    ];
    var videos := [
      ContentItem("3", GtaTitle, GtaText, GtaImage, VIDEO, Some(GtaVideo),
                  loadTime, "Admin", ["GTA", "Rockstar", "Games"])
    ];
    news + videos
  }

  // ---------------------------------------------------------------------
  // Content

  /**
   Reads the content list. On a storage that has never held one, the seed is
   returned and persisted; otherwise the stored list comes back and nothing
   is written.
   */
  function GetStoredContent(s: Storage, loadTime: int): (r: Step<seq<ContentItem>>)
    ensures r.after.content == Some(r.value)
    ensures r.after.comments == s.comments && r.after.reactions == s.reactions
    ensures s.content.None? ==> r.value == Seed(loadTime)
    ensures s.content.Some? ==> r.after == s
  {
    match s.content
    case None =>
      var initial := Seed(loadTime);
      Step(initial, s.(content := Some(initial)))
    case Some(stored) =>
      Step(stored, s)
  }

  /** Prepends `item` to the (possibly freshly seeded) content list. */
  function AddContent(s: Storage, loadTime: int, item: ContentItem): (s': Storage)
    ensures s'.content.Some?
    ensures var previous := GetStoredContent(s, loadTime).value;
      && |s'.content.value| == |previous| + 1
      && s'.content.value[0] == item
      && s'.content.value[1..] == previous
    ensures s'.comments == s.comments && s'.reactions == s.reactions
  {
    var current := GetStoredContent(s, loadTime).value;
    s.(content := Some([item] + current))
  }

  // ---------------------------------------------------------------------
  // Comments

  /** The comments table, an absent one read as empty. */
  function CommentTable(s: Storage): map<string, seq<Comment>> {
    s.comments.GetOr(map[])
  }

  /** The comments of one post, newest first; none when nothing is stored for it. */
  function GetComments(s: Storage, contentId: string): (r: seq<Comment>)
    ensures s.comments.None? ==> r == []
    ensures s.comments.Some? && contentId !in s.comments.value ==> r == []
    ensures s.comments.Some? && contentId in s.comments.value ==> r == s.comments.value[contentId]
  {
    var all := CommentTable(s);
    if contentId in all then all[contentId] else []
  }

  /** Puts `comment` in front of the comments of `contentId` and writes the table back. */
  function AddComment(s: Storage, contentId: string, comment: Comment): (s': Storage)
    ensures GetComments(s', contentId) == [comment] + GetComments(s, contentId)
    ensures forall other :: other != contentId ==> GetComments(s', other) == GetComments(s, other)
    ensures s'.comments.Some? && s'.comments.value.Keys == CommentTable(s).Keys + {contentId}
    ensures s'.content == s.content && s'.reactions == s.reactions
  {
    var all := CommentTable(s);
    var list := if contentId in all then all[contentId] else [];
    s.(comments := Some(all[contentId := [comment] + list]))
  }

  // ---------------------------------------------------------------------
  // Reactions

  /** The reactions table, an absent one read as empty. */
  function ReactionTable(s: Storage): map<string, ReactionCounts> {
    s.reactions.GetOr(map[])
  }

  /** The counters of one post, all zero when nothing is stored for it. */
  function GetReactions(s: Storage, contentId: string): (r: ReactionCounts)
    ensures (s.reactions.None? || contentId !in s.reactions.value) ==> r == ZeroCounts
    ensures s.reactions.Some? && contentId in s.reactions.value ==> r == s.reactions.value[contentId]
  {
    var all := ReactionTable(s);
    if contentId in all then all[contentId] else ZeroCounts
  }

  /**
   Raises counter `t` of `contentId` by one, creating an all-zero entry
   first when there is none, and returns the updated counters.
   */
  function AddReaction(s: Storage, contentId: string, t: ReactionType): (r: Step<ReactionCounts>)
    ensures r.value == GetReactions(r.after, contentId)
    ensures r.value.Get(t) == GetReactions(s, contentId).Get(t) + 1
    ensures forall u :: u != t ==> r.value.Get(u) == GetReactions(s, contentId).Get(u)
    ensures forall other :: other != contentId ==> GetReactions(r.after, other) == GetReactions(s, other)
    ensures r.after.content == s.content && r.after.comments == s.comments
  {
    var all := ReactionTable(s);
    var current := if contentId in all then all[contentId] else ZeroCounts;
    var updated := current.Inc(t);
    Step(updated, s.(reactions := Some(all[contentId := updated])))
  }

  // ---------------------------------------------------------------------
  // Invariants kept by the store

  /** Every stored counter is non-negative. */
  predicate CountersNonNegative(s: Storage) {
    forall id :: id in ReactionTable(s) ==> ReactionTable(s)[id].NonNegative()
  }

  /** Every stored post carries a video reference exactly when it is a video. */
  predicate ContentWellShaped(s: Storage) {
    s.content.Some? ==> AllWellShaped(s.content.value)
  }

  // ---------------------------------------------------------------------
  // Repeated operations

  /** Submits the comments `cs` to one post, oldest first. */
  function AddComments(s: Storage, contentId: string, cs: seq<Comment>): Storage
    decreases |cs|
  {
    if cs == [] then s else AddComments(AddComment(s, contentId, cs[0]), contentId, cs[1..])
  }

  function Reverse<T>(xs: seq<T>): seq<T> {
    if xs == [] then [] else Reverse(xs[1..]) + [xs[0]]
  }

  /** Clicks the reactions `ts` on one post, in order. */
  function AddReactions(s: Storage, contentId: string, ts: seq<ReactionType>): Storage
    decreases |ts|
  {
    if ts == [] then s else AddReactions(AddReaction(s, contentId, ts[0]).after, contentId, ts[1..])
  }

  /** How many clicks in `ts` were of kind `k`. */
  function Occurrences(ts: seq<ReactionType>, k: ReactionType): nat {
    if ts == [] then 0 else (if ts[0] == k then 1 else 0) + Occurrences(ts[1..], k)
  }
}
