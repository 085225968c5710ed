/**
 The admin panel's publish action: it builds a post from the form fields,
 the active tab, the clock reading `now` and the generated `tags` (both
 taken as inputs), prepends it to the store and clears the form.
 */
module AdminPanel {
  import opened Types
  import opened Decimal
  import opened Store
  import Feed
  import Home
  import StoreLemmas

  datatype Form = Form(title: string, description: string, imageUrl: string, videoUrl: string)

  const EmptyForm := Form("", "", "", "")
  const AdminAuthor: string := "Admin"
  const FallbackImagePrefix: string := "https://picsum.photos/800/400?random="
  const SuccessMessage: string := "Conteúdo publicado com sucesso!"

  /** The post the form describes, published at clock reading `now`. */
  function NewItem(form: Form, tab: Category, now: nat, tags: seq<string>): (item: ContentItem)
    ensures item.category == tab
    ensures item.videoUrl.Some? <==> tab == VIDEO
    ensures item.videoUrl.Some? ==> item.videoUrl.value == form.videoUrl
    ensures WellShaped(item)
    ensures form.imageUrl != "" ==> item.imageUrl == form.imageUrl
    ensures form.imageUrl == "" ==> item.imageUrl == FallbackImagePrefix + item.id
    ensures item.id == NatToString(now)
    ensures AllDigits(item.id) && ParseDecimal(item.id) == now
    ensures |item.id| >= 1 && (item.id[0] == '0' ==> now == 0)
    ensures item.timestamp == now && item.author == AdminAuthor && item.tags == tags
    ensures item.title == form.title && item.description == form.description
  {
    var id := NatToString(now);
    ParseNatToString(now);
    ContentItem(
      id,
      form.title,
      form.description,
      if form.imageUrl != "" then form.imageUrl else FallbackImagePrefix + NatToString(now),
      tab,
      if tab == VIDEO then Some(form.videoUrl) else None,
      now,
      AdminAuthor,
      tags)
  }

  /** What a submit leaves behind: the storage, the cleared form and the banner text. */
  datatype Published = Published(storage: Storage, form: Form, message: string)

  function Submit(s: Storage, loadTime: int, form: Form, tab: Category, now: nat, tags: seq<string>): (p: Published)
    ensures p.form == EmptyForm && p.message == SuccessMessage
    ensures p.storage.content.Some? && |p.storage.content.value| == |GetStoredContent(s, loadTime).value| + 1
    ensures var head := p.storage.content.value[0];
      head.timestamp == now && head.category == tab && head.author == AdminAuthor && head.tags == tags
    ensures p.storage.comments == s.comments && p.storage.reactions == s.reactions
  {
    Published(AddContent(s, loadTime, NewItem(form, tab, now, tags)), EmptyForm, SuccessMessage)
  }

  // ---------------------------------------------------------------------
  // What publishing means for the rest of the site

  /** Clock readings taken at different times give posts different ids. */
  lemma DistinctTimesDistinctIds(form: Form, tab: Category, now1: nat, now2: nat, tags1: seq<string>, tags2: seq<string>)
    requires now1 != now2
    ensures NewItem(form, tab, now1, tags1).id != NewItem(form, tab, now2, tags2).id
  {
    if NatToString(now1) == NatToString(now2) {
      NatToStringInjective(now1, now2);
    }
  }

  /** The published post heads the stored list, in front of everything read before. */
  lemma PublishedHeadsStore(s: Storage, loadTime: int, form: Form, tab: Category, now: nat, tags: seq<string>)
    ensures var p := Submit(s, loadTime, form, tab, now, tags);
      GetStoredContent(p.storage, loadTime).value
        == [NewItem(form, tab, now, tags)] + GetStoredContent(s, loadTime).value
  {
  }

  /** Publishing keeps every stored post well-shaped: a video reference exactly on videos. */
  lemma PublishKeepsShape(s: Storage, loadTime: int, form: Form, tab: Category, now: nat, tags: seq<string>)
    requires ContentWellShaped(s)
    ensures ContentWellShaped(Submit(s, loadTime, form, tab, now, tags).storage)
  {
    StoreLemmas.AddContentKeepsShape(s, loadTime, NewItem(form, tab, now, tags));
  }

  /** The published post is the first card of its tab's grid. */
  lemma PublishedLeadsItsGrid(s: Storage, loadTime: int, form: Form, tab: Category, now: nat, tags: seq<string>)
    ensures var item := NewItem(form, tab, now, tags);
      var content := GetStoredContent(Submit(s, loadTime, form, tab, now, tags).storage, loadTime).value;
      Feed.Display(Feed.OfCategory(content, tab))[0] == item
  {
    var item := NewItem(form, tab, now, tags);
    var previous := GetStoredContent(s, loadTime).value;
    var content := [item] + previous;
    assert content[0] == item && content[1..] == previous;
    var filtered := Feed.OfCategory(content, tab);
    assert filtered[0] == item;
    assert Feed.Display(filtered)[0] == filtered[0 % |filtered|];
  }

  /** A post published no earlier than every stored post heads the home feed. */
  lemma PublishedHeadsHomeFeed(s: Storage, loadTime: int, form: Form, tab: Category, now: nat, tags: seq<string>)
    requires forall y :: y in GetStoredContent(s, loadTime).value ==> y.timestamp <= now
    ensures var content := GetStoredContent(Submit(s, loadTime, form, tab, now, tags).storage, loadTime).value;
      Home.SortedContent(content)[0] == NewItem(form, tab, now, tags)
  {
    Home.NewestHeadsFeed(NewItem(form, tab, now, tags), GetStoredContent(s, loadTime).value);
  }
}
