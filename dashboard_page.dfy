/** The author's dashboard (src/pages/Dashboard.tsx): which store the listing comes from,
    the status defaulting applied to every listed post, deletion, the status tabs and the
    three counters. */
module DashboardPage {
  import opened Text
  import opened Posts

  /** `{...post, status: post.status || "published"}`: a missing or empty status reads as
      published; every other field is kept. */
  function Normalize(p: Post): (r: Post)
    ensures r.status.Some? && r.status.value != ""
    ensures r.(status := p.status) == p
    ensures p.status.Some? && p.status.value != "" ==> r == p
    ensures p.status.None? || p.status == Some("") ==> r.status == Some("published")
  {
    if p.status.None? || p.status == Some("") then p.(status := Some("published")) else p
  }

  lemma NormalizeIdempotent(p: Post)
    ensures Normalize(Normalize(p)) == Normalize(p)
  {
  }

  /** `rows.map(normalize)`. */
  function NormalizeAll(posts: seq<Post>): (r: seq<Post>)
    ensures |r| == |posts|
    ensures forall i :: 0 <= i < |r| ==> r[i] == Normalize(posts[i])
  {
    seq(|posts|, i requires 0 <= i < |posts| => Normalize(posts[i]))
  }

  /** Normalising a listing that is already normalised changes nothing. */
  lemma NormalizeAllIdempotent(posts: seq<Post>)
    ensures NormalizeAll(NormalizeAll(posts)) == NormalizeAll(posts)
  {
    var once := NormalizeAll(posts);
    forall i | 0 <= i < |once| ensures NormalizeAll(once)[i] == once[i] {
      NormalizeIdempotent(posts[i]);
    }
  }

  /** The remote rows are shown only when the query returned no error and at least one row. */
  function UsesRemote(remote: Remote<seq<Post>>): (r: bool)
    ensures r ==> remote.Ok?
    ensures remote.Failed? || remote == Ok([]) ==> !r
  {
    remote.Ok? && |remote.value| > 0
  }

  /** `fetchPosts`: the normalised remote rows, or else the normalised local list; never both. */
  function Select(remote: Remote<seq<Post>>, local: seq<Post>): (r: seq<Post>)
    ensures UsesRemote(remote) ==> r == NormalizeAll(remote.value)
    ensures !UsesRemote(remote) ==> r == NormalizeAll(local)
  {
    if UsesRemote(remote) then NormalizeAll(remote.value) else NormalizeAll(local)
  }

  /** Whichever store a listing comes from, each listed post has a non-empty status and is
      its stored record with only the status defaulted. */
  lemma SelectedPostsAreNormalized(remote: Remote<seq<Post>>, local: seq<Post>)
    ensures forall i :: 0 <= i < |Select(remote, local)| ==>
              Select(remote, local)[i].status.Some? && Select(remote, local)[i].status.value != ""
    ensures NormalizeAll(Select(remote, local)) == Select(remote, local)
  {
    if UsesRemote(remote) {
      NormalizeAllIdempotent(remote.value);
    } else {
      NormalizeAllIdempotent(local);
    }
  }

  /** The test of `post.id !== id`: strict, so a numeric id never equals a string id. */
  function KeepsOtherThan(id: Id): (keep: Post -> bool)
    ensures forall p: Post :: p.id == id ==> !keep(p)
    ensures forall p: Post :: p.id.Num? != id.Num? ==> keep(p)
  {
    (p: Post) => p.id != id
  }

  /** `posts.filter(post => post.id !== id)`. */
  function Remove(posts: seq<Post>, id: Id): (r: seq<Post>)
    ensures |r| <= |posts|
    ensures forall p :: p in r <==> p in posts && p.id != id
  {
    Filter(posts, KeepsOtherThan(id))
  }

  /** Deleting the same id twice is deleting it once. */
  lemma RemoveIdempotent(posts: seq<Post>, id: Id)
    ensures Remove(Remove(posts, id), id) == Remove(posts, id)
  {
    FilterIdempotent(posts, KeepsOtherThan(id));
  }

  /** Survivors keep their relative order: removal works part by part. */
  lemma RemovePreservesOrder(a: seq<Post>, b: seq<Post>, id: Id)
    ensures Remove(a + b, id) == Remove(a, id) + Remove(b, id)
  {
    FilterAppend(a, b, KeepsOtherThan(id));
  }

  /** Deleting an id no entry carries leaves the list as it was. */
  lemma RemoveAbsent(posts: seq<Post>, id: Id)
    requires forall i :: 0 <= i < |posts| ==> posts[i].id != id
    ensures Remove(posts, id) == posts
  {
    FilterKeepsAll(posts, KeepsOtherThan(id));
  }

  /** The test of `post.status === tab`. */
  function HasStatus(tab: string): (keep: Post -> bool)
    ensures forall p: Post :: keep(p) ==> p.status.Some? && p.status.value == tab
    ensures forall p: Post :: p.status.None? ==> !keep(p)
  {
    (p: Post) => p.status == Some(tab)
  }

  /** `filteredPosts`: the whole listing on the "all" tab, else the posts with that status
      in listing order. */
  function FilterTab(posts: seq<Post>, tab: string): (r: seq<Post>)
    ensures tab == "all" ==> r == posts
    ensures tab != "all" ==> forall p :: p in r <==> p in posts && p.status == Some(tab)
    ensures |r| <= |posts|
  {
    if tab == "all" then posts else Filter(posts, HasStatus(tab))
  }

  /** A tab keeps the listing's order: filtering works part by part. */
  lemma FilterTabPreservesOrder(a: seq<Post>, b: seq<Post>, tab: string)
    ensures FilterTab(a + b, tab) == FilterTab(a, tab) + FilterTab(b, tab)
  {
    if tab != "all" {
      FilterAppend(a, b, HasStatus(tab));
    }
  }

  /** `posts.filter(post => post.status === st).length`. */
  function CountStatus(posts: seq<Post>, st: string): (n: nat)
    ensures n <= |posts|
  {
    CountWhere(posts, HasStatus(st))
  }

  /** A counter shows the length of the list the matching tab shows. */
  lemma CountIsTabLength(posts: seq<Post>, st: string)
    requires st != "all"
    ensures CountStatus(posts, st) == |FilterTab(posts, st)|
  {
    CountWhereIsFilterLength(posts, HasStatus(st));
  }

  /** Two different status counters never add up to more than the total, and they add up
      to exactly the total when every post has one of the two statuses. */
  lemma {:induction false} CountsBounded(posts: seq<Post>, a: string, b: string)
    requires a != b
    ensures CountStatus(posts, a) + CountStatus(posts, b) <= |posts|
    ensures CountStatus(posts, a) + CountStatus(posts, b) == |posts| <==>
              forall i :: 0 <= i < |posts| ==> posts[i].status == Some(a) || posts[i].status == Some(b)
  {
    if posts != [] {
      CountsBounded(posts[1..], a, b);
      assert forall i :: 1 <= i < |posts| ==> posts[1..][i - 1] == posts[i];
    }
  }

  /** The dashboard's state: the listing, the loading flag and the selected tab. */
  class Dashboard {
    var posts: seq<Post>
    var isLoading: bool
    var activeTab: string

    constructor ()
      ensures posts == [] && isLoading && activeTab == "all"
    {
      posts, isLoading, activeTab := [], true, "all";
    }

    /** The start of `fetchPosts`, before the remote query is awaited. */
    method StartFetch()
      modifies this`isLoading
      ensures isLoading
    {
      isLoading := true;
    }

    /** The rest of `fetchPosts`, once the remote query has answered: the listing comes
        from one store, and loading ends whatever the outcome. */
    method FinishFetch(store: LocalStore, remote: Remote<seq<Post>>)
      modifies this`posts, this`isLoading
      ensures posts == Select(remote, store.posts)
      ensures !isLoading
    {
      if UsesRemote(remote) {
        posts := NormalizeAll(remote.value);
      } else {
        posts := NormalizeAll(store.posts);
      }
      isLoading := false;
    }

    /** `fetchPosts` as one step. */
    method Fetch(store: LocalStore, remote: Remote<seq<Post>>)
      modifies this`posts, this`isLoading
      ensures posts == Select(remote, store.posts)
      ensures !isLoading
    {
      StartFetch();
      FinishFetch(store, remote);
    }

    /** `handleDelete(id)`: the listing always loses the posts with that id; the local list
        loses them too, but only when the remote delete failed. */
    method Delete(store: LocalStore, id: Id, remoteOk: bool)
      modifies this`posts, store
      ensures posts == Remove(old(posts), id)
      ensures remoteOk ==> store.posts == old(store.posts)
      ensures !remoteOk ==> store.posts == Remove(old(store.posts), id)
    {
      if !remoteOk {
        store.posts := Remove(store.posts, id);
      }
      posts := Remove(posts, id);
    }

    method SelectTab(tab: string)
      modifies this`activeTab
      ensures activeTab == tab
    {
      activeTab := tab;
    }

    /** The rows the selected tab shows. */
    function Shown(): (r: seq<Post>)
      reads this
      ensures activeTab == "all" ==> r == posts
      ensures forall p :: p in r ==> p in posts
    {
      FilterTab(posts, activeTab)
    }

    /** The three counter cards: Total Posts, Published and Drafts. */
    function Total(): (n: nat)
      reads this
      ensures activeTab == "all" ==> n == |Shown()|
    {
      |posts|
    }

    function PublishedCount(): (n: nat)
      reads this
      ensures n <= |posts|
    {
      CountStatus(posts, "published")
    }

    function DraftCount(): (n: nat)
      reads this
      ensures n <= |posts|
    {
      CountStatus(posts, "draft")
    }

    /** Published and Drafts never exceed Total Posts, and Published is the length of the
        Published tab's list. */
    lemma CountersConsistent()
      ensures PublishedCount() + DraftCount() <= Total()
      ensures PublishedCount() == |FilterTab(posts, "published")|
      ensures DraftCount() == |FilterTab(posts, "draft")|
    {
      CountsBounded(posts, "published", "draft");
      CountIsTabLength(posts, "published");
      CountIsTabLength(posts, "draft");
    }
  }
}
