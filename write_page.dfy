/** The post editor (src/pages/Write.tsx): its form state, the record it saves, the
    remote-or-local save, and the lookup that fills the form when a post is edited. */
module WritePage {
  import opened Seqs
  import opened Text
  import opened Posts

  /** The `edit` query parameter selects edit mode only when present and non-empty
      (`if (editId)` treats "" as false). */
  function EditMode(editId: Option<string>): (r: bool)
    ensures r ==> editId.Some?
    ensures editId.None? || editId == Some("") ==> !r
  {
    editId.Some? && editId.value != ""
  }

  /** `editId || Date.now().toString()`: the id a save writes under. */
  function ChooseId(editId: Option<string>, clock: nat): (r: string)
    ensures EditMode(editId) ==> r == editId.value
    ensures !EditMode(editId) ==> r == NatToString(clock)
  {
    if EditMode(editId) then editId.value else NatToString(clock)
  }

  /** Creating at two different clock readings never reuses an id, and a created id is
      a non-empty run of decimal digits. */
  lemma CreatedIdsAreDistinct(editId: Option<string>, m: nat, n: nat)
    requires !EditMode(editId) && m != n
    ensures ChooseId(editId, m) != ChooseId(editId, n)
    ensures IsDigits(ChooseId(editId, m)) && ChooseId(editId, m) != ""
  {
    if ChooseId(editId, m) == ChooseId(editId, n) {
      NatToStringInjective(m, n);
    }
  }

  /** `parts.map((t) => t.trim())`. */
  function TrimEach(parts: seq<string>): (r: seq<string>)
    ensures |r| == |parts|
  {
    if parts == [] then [] else [Trim(parts[0])] + TrimEach(parts[1..])
  }

  /** Each part is trimmed on its own, in place. */
  lemma {:induction false} TrimEachAt(parts: seq<string>)
    ensures forall i :: 0 <= i < |parts| ==> TrimEach(parts)[i] == Trim(parts[i])
  {
    if parts != [] {
      TrimEachAt(parts[1..]);
      assert forall i :: 1 <= i < |parts| ==> parts[1..][i - 1] == parts[i];
    }
  }

  lemma TrimEachCons(x: string, parts: seq<string>)
    ensures TrimEach([x] + parts) == [Trim(x)] + TrimEach(parts)
  {
    ConsTail(x, parts);
  }

  lemma TrimEachSameHead(x: string, y: string, rest: seq<string>)
    requires Trim(x) == Trim(y)
    ensures TrimEach([x] + rest) == TrimEach([y] + rest)
  {
    TrimEachCons(x, rest);
    TrimEachCons(y, rest);
  }

  /** A space put in front of the first part makes no difference once each part is trimmed. */
  lemma TrimEachSpaceHead(c: char, parts: seq<string>)
    requires IsSpace(c) && |parts| >= 1
    ensures TrimEach([[c] + parts[0]] + parts[1..]) == TrimEach(parts)
  {
    TrimSkipsLeadingSpace(c, parts[0]);
    TrimEachSameHead([c] + parts[0], parts[0], parts[1..]);
    HeadTail(parts);
  }

  /** `tags.split(",").map((t) => t.trim())`. */
  function ParseTags(raw: string): (r: seq<string>)
    ensures |r| == Occurrences(raw, ',') + 1
    ensures raw == "" ==> r == [""]
  {
    TrimEach(Split(raw))
  }

  /** Every parsed tag is trimmed and free of commas. */
  lemma ParseTagsPieces(raw: string)
    ensures forall i :: 0 <= i < |ParseTags(raw)| ==> IsTrimmed(ParseTags(raw)[i]) && ',' !in ParseTags(raw)[i]
  {
    var parts := Split(raw);
    SplitPiecesHaveNoComma(raw);
    TrimEachAt(parts);
    forall i | 0 <= i < |parts| ensures ',' !in Trim(parts[i]) {
      TrimKeepsNoComma(parts[i]);
    }
  }

  /** `tags.join(", ")`, the text the tag field shows when a post is loaded. */
  function JoinTags(tags: seq<string>): (r: string)
    ensures tags == [] ==> r == ""
    ensures |tags| == 1 ==> r == tags[0]
  {
    Join(tags, ", ")
  }

  /** Joined tags split at the first comma, into the first tag and a space before the rest. */
  lemma SplitJoinedTags(tags: seq<string>)
    requires |tags| >= 2 && ',' !in tags[0]
    ensures Split(JoinTags(tags)) ==
              [tags[0]] + ([[' '] + Split(JoinTags(tags[1..]))[0]] + Split(JoinTags(tags[1..]))[1..])
  {
    var t, j := tags[0], JoinTags(tags[1..]);
    assert JoinTags(tags) == t + [','] + ([' '] + j);
    SplitAtComma(t, [' '] + j);
    SplitWithoutComma(t);
    SplitNonCommaCons(' ', j);
  }

  /** The inductive step of TagsRoundTrip: one more tag in front. */
  lemma TagsRoundTripStep(tags: seq<string>)
    requires |tags| >= 2 && IsTrimmed(tags[0]) && ',' !in tags[0]
    requires ParseTags(JoinTags(tags[1..])) == tags[1..]
    ensures ParseTags(JoinTags(tags)) == tags
  {
    var t, rest := tags[0], tags[1..];
    TrimmedIsFixed(t);
    SplitJoinedTags(tags);
    var p := Split(JoinTags(rest));
    TrimEachCons(t, [[' '] + p[0]] + p[1..]);
    TrimEachSpaceHead(' ', p);
    HeadTail(tags);
  }

  /** A tag list that is non-empty, trimmed and free of commas survives being shown in
      the tag field and parsed again. */
  lemma {:induction false} TagsRoundTrip(tags: seq<string>)
    requires |tags| >= 1
    requires forall i :: 0 <= i < |tags| ==> IsTrimmed(tags[i]) && ',' !in tags[i]
    ensures ParseTags(JoinTags(tags)) == tags
  {
    if |tags| == 1 {
      TrimmedIsFixed(tags[0]);
      SplitWithoutComma(tags[0]);
    } else {
      TagsRoundTrip(tags[1..]);
      TagsRoundTripStep(tags);
    }
  }

  /** The tag text "a, b ,c" is "a", a comma, and " b ,c". */
  lemma ExampleText(a: char, b: char, c: char)
    ensures [a, ',', ' ', b, ' ', ',', c] == [a] + [','] + ([' ', b, ' '] + [','] + [c])
  {
  }

  /** Two comma-free pieces with one comma between them split back into those two pieces. */
  lemma SplitTwo(x: string, y: string)
    requires ',' !in x && ',' !in y
    ensures Split(x + [','] + y) == [x, y]
  {
    SplitAtComma(x, y);
    SplitWithoutComma(x);
    SplitWithoutComma(y);
    assert [x] + [y] == [x, y];
  }

  lemma SplitExample(a: char, b: char, c: char)
    requires a != ',' && b != ',' && c != ','
    ensures Split([a, ',', ' ', b, ' ', ',', c]) == [[a], [' ', b, ' '], [c]]
  {
    var sb := [' ', b, ' '];
    var t := sb + [','] + [c];
    SplitTwo(sb, [c]);
    SplitAtComma([a], t);
    SplitWithoutComma([a]);
    ConsPair([a], sb, [c]);
    ExampleText(a, b, c);
  }

  lemma TrimExample(b: char)
    requires !IsSpace(b)
    ensures Trim([' ', b, ' ']) == [b]
  {
    assert [' ', b, ' '] == [' '] + [b, ' '];
    TrimSkipsLeadingSpace(' ', [b, ' ']);
    assert TrimStart([b, ' ']) == [b, ' '];
    assert [b, ' '][..1] == [b];
    assert TrimEnd([b, ' ']) == [b];
  }

  /** Spaces around each comma-separated tag are dropped: "a, b ,c" gives a, b and c, for
      any three characters a, b, c that are neither whitespace nor a comma. */
  lemma ParseTagsExample(a: char, b: char, c: char)
    requires !IsSpace(a) && !IsSpace(b) && !IsSpace(c) && a != ',' && b != ',' && c != ','
    ensures ParseTags([a, ',', ' ', b, ' ', ',', c]) == [[a], [b], [c]]
  {
    var s := [a, ',', ' ', b, ' ', ',', c];
    SplitExample(a, b, c);
    TrimExample(b);
    TrimmedIsFixed([a]);
    TrimmedIsFixed([c]);
    var r := TrimEach(Split(s));
    TrimEachAt(Split(s));
    assert |r| == 3 && r[0] == [a] && r[1] == [b] && r[2] == [c];
    assert r == [[a], [b], [c]];
  }

  /** The empty tag list does not survive: it is shown as "" and parsed back as [""]. */
  lemma EmptyTagsComeBackAsOneEmptyTag()
    ensures ParseTags(JoinTags([])) == [""]
  {
  }

  /** Whatever the tag field held, loading the saved tags and saving again changes nothing. */
  lemma TagsStableAcrossResave(raw: string)
    ensures ParseTags(JoinTags(ParseTags(raw))) == ParseTags(raw)
  {
    ParseTagsPieces(raw);
    TagsRoundTrip(ParseTags(raw));
  }

  /** The editor's form fields; `tags` is the raw comma-separated text. */
  datatype Form = Form(
    title: string,
    content: string,
    category: string,
    publisherName: string,
    tags: string,
    excerpt: string,
    imagePreview: Option<string>)

  const EmptyForm := Form("", "", "", "", "", "", None)

  /** The post record a save builds from the form. */
  function Record(f: Form, id: string, now: string, status: Status, user: Option<string>): (p: Post)
    ensures p.id == Str(id) && p.createdAt == now && p.userId == user
    ensures p.status == Some(StatusName(status))
    ensures p.tags == Some(ParseTags(f.tags))
    ensures |p.tags.value| == Occurrences(f.tags, ',') + 1
    ensures p.title == f.title && p.content == f.content && p.category == f.category
    ensures p.publisherName == f.publisherName && p.excerpt == f.excerpt
    ensures p.featuredImage == f.imagePreview
  {
    Post(Str(id), f.title, f.content, f.category, f.publisherName, Some(ParseTags(f.tags)),
         f.excerpt, f.imagePreview, now, Some(StatusName(status)), user)
  }

  /** The form a loaded post fills in: `x || ""` for text, tags joined with ", ", and
      `featuredImage || null`, which turns an empty image string into no image. */
  function FormOf(p: Post): (f: Form)
    ensures p.tags.None? ==> f.tags == ""
    ensures f.imagePreview.Some? ==> f.imagePreview.value != ""
  {
    Form(p.title, p.content, p.category, p.publisherName,
         if p.tags.Some? then JoinTags(p.tags.value) else "",
         p.excerpt,
         if p.featuredImage == Some("") then None else p.featuredImage)
  }

  /** Loading a record the editor saved gives back the form it was saved from, except that
      the tag text comes back in its parsed-and-joined spelling and an empty image string
      is dropped; saving that form again writes the same tags. */
  lemma SavedRecordReloads(f: Form, id: string, now: string, status: Status, user: Option<string>)
    ensures FormOf(Record(f, id, now, status, user))
            == f.(tags := JoinTags(ParseTags(f.tags)),
                  imagePreview := if f.imagePreview == Some("") then None else f.imagePreview)
    ensures ParseTags(FormOf(Record(f, id, now, status, user)).tags) == ParseTags(f.tags)
  {
    TagsStableAcrossResave(f.tags);
  }

  /** The Publish button is enabled only with a title and a content and no publish in flight. */
  function CanPublish(f: Form, isPublishing: bool): (r: bool)
    ensures r ==> f.title != "" && f.content != ""
    ensures isPublishing ==> !r
  {
    !isPublishing && f.title != "" && f.content != ""
  }

  /** The Save Draft button only waits for a save in flight; it accepts an empty form. */
  function CanSaveDraft(isSaving: bool): (r: bool)
    ensures isSaving ==> !r
  {
    !isSaving
  }

  /** On an empty form Save Draft is enabled and Publish is not. */
  lemma EmptyFormGuards()
    ensures CanSaveDraft(false) && !CanPublish(EmptyForm, false)
  {
  }

  /** `existingPosts.map(post => post.id.toString() === editId ? newPost : post)`. */
  function ReplaceById(posts: seq<Post>, editId: string, np: Post): (r: seq<Post>)
    ensures |r| == |posts|
  {
    if posts == [] then []
    else [if IdString(posts[0].id) == editId then np else posts[0]] + ReplaceById(posts[1..], editId, np)
  }

  /** Entries whose id reads as `editId` become the new record; every other entry stays
      where it was. */
  lemma {:induction false} ReplaceByIdAt(posts: seq<Post>, editId: string, np: Post)
    ensures forall i :: 0 <= i < |posts| ==>
              ReplaceById(posts, editId, np)[i] == if IdString(posts[i].id) == editId then np else posts[i]
  {
    if posts != [] {
      ReplaceByIdAt(posts[1..], editId, np);
      assert forall i :: 1 <= i < |posts| ==> posts[1..][i - 1] == posts[i];
    }
  }

  /** Replacing an id no entry carries leaves the list as it was. */
  lemma ReplaceWithoutMatch(posts: seq<Post>, editId: string, np: Post)
    requires forall i :: 0 <= i < |posts| ==> IdString(posts[i].id) != editId
    ensures ReplaceById(posts, editId, np) == posts
  {
    ReplaceByIdAt(posts, editId, np);
  }

  /** The local list after a save the remote database refused: in edit mode the entries with
      the edited id are replaced in place, otherwise the new record is put in front. */
  function Fallback(local: seq<Post>, editId: Option<string>, np: Post): (r: seq<Post>)
    ensures EditMode(editId) ==> |r| == |local|
    ensures !EditMode(editId) ==> |r| == |local| + 1 && r[0] == np && r[1..] == local
  {
    if EditMode(editId) then ReplaceById(local, editId.value, np) else [np] + local
  }

  /** Index of the first post whose `id.toString()` equals `key`. */
  function FirstMatch(posts: seq<Post>, key: string): (r: Option<nat>)
    ensures r.Some? ==> r.value < |posts| && IdString(posts[r.value].id) == key
    ensures r.Some? ==> forall j :: 0 <= j < r.value ==> IdString(posts[j].id) != key
    ensures r.None? ==> forall j :: 0 <= j < |posts| ==> IdString(posts[j].id) != key
  {
    if posts == [] then None
    else if IdString(posts[0].id) == key then Some(0)
    else match FirstMatch(posts[1..], key)
      case None => None
      case Some(k) => Some(k + 1)
  }

  /** `posts.find(p => p.id.toString() === editId)`. */
  function Find(posts: seq<Post>, key: string): (r: Option<Post>)
    ensures r.Some? ==> r.value in posts && IdString(r.value.id) == key
    ensures r.None? <==> forall j :: 0 <= j < |posts| ==> IdString(posts[j].id) != key
  {
    match FirstMatch(posts, key)
    case None => None
    case Some(k) => Some(posts[k])
  }

  /** A record saved to the local list after a remote failure is what a later lookup of its
      id finds: always in create mode, and in edit mode when the list held the edited post.
      When it did not, the edit is not kept anywhere and the lookup finds nothing. */
  lemma FallbackSaveIsFound(local: seq<Post>, editId: Option<string>, np: Post)
    requires EditMode(editId) ==> np.id == Str(editId.value)
    ensures !EditMode(editId) ==> Find(Fallback(local, editId, np), IdString(np.id)) == Some(np)
    ensures EditMode(editId) && (exists j :: 0 <= j < |local| && IdString(local[j].id) == editId.value) ==>
              Find(Fallback(local, editId, np), editId.value) == Some(np)
    ensures EditMode(editId) && (forall j :: 0 <= j < |local| ==> IdString(local[j].id) != editId.value) ==>
              Fallback(local, editId, np) == local && Find(Fallback(local, editId, np), editId.value) == None
  {
    var r := Fallback(local, editId, np);
    if EditMode(editId) {
      var key := editId.value;
      if exists j :: 0 <= j < |local| && IdString(local[j].id) == key {
        var k :| 0 <= k < |local| && IdString(local[k].id) == key;
        ReplaceByIdAt(local, key, np);
        assert IdString(r[k].id) == key;
        var m := FirstMatch(r, key);
        assert m.Some?;
        assert r[m.value] == np;
      } else {
        ReplaceWithoutMatch(local, key, np);
      }
    } else {
      assert FirstMatch(r, IdString(np.id)) == Some(0);
    }
  }

  /** The form after the edit-load effect: the remote row when the lookup succeeded, else
      the first local post with that id, else the form as it was. */
  function Loaded(f: Form, editId: Option<string>, remote: Remote<Option<Post>>, local: seq<Post>): (r: Form)
    ensures !EditMode(editId) ==> r == f
    ensures EditMode(editId) && remote.Ok? ==> r == (if remote.value.Some? then FormOf(remote.value.value) else f)
    ensures EditMode(editId) && remote.Failed? ==>
              r == (match Find(local, editId.value) case Some(p) => FormOf(p) case None => f)
  {
    if !EditMode(editId) then f
    else match remote
      case Ok(Some(p)) => FormOf(p)
      case Ok(None) => f
      case Failed =>
        match Find(local, editId.value)
        case Some(p) => FormOf(p)
        case None => f
  }

  /** Saving in edit mode while the remote database is down and loading the same post
      while it is still down gives back the saved form, provided the local list held the
      post being edited. */
  lemma OfflineEditThenReload(f: Form, editId: Option<string>, local: seq<Post>, clock: nat,
                              now: string, status: Status, g: Form)
    requires EditMode(editId)
    requires exists j :: 0 <= j < |local| && IdString(local[j].id) == editId.value
    ensures Loaded(g, editId, Failed, Fallback(local, editId, Record(f, ChooseId(editId, clock), now, status, None)))
            == FormOf(Record(f, ChooseId(editId, clock), now, status, None))
  {
    var np := Record(f, ChooseId(editId, clock), now, status, None);
    FallbackSaveIsFound(local, editId, np);
  }

  /** The editor page's state. `editId` comes from the URL and does not change. */
  class Editor {
    const editId: Option<string>
    var title: string
    var content: string
    var category: string
    var publisherName: string
    var tags: string
    var excerpt: string
    var imagePreview: Option<string>
    var isPublishing: bool
    var isSaving: bool

    function Fields(): Form
      reads this
    {
      Form(title, content, category, publisherName, tags, excerpt, imagePreview)
    }

    constructor (editId: Option<string>)
      ensures this.editId == editId && Fields() == EmptyForm
      ensures !isPublishing && !isSaving
    {
      this.editId := editId;
      title, content, category, publisherName, tags, excerpt := "", "", "", "", "", "";
      imagePreview := None;
      isPublishing, isSaving := false, false;
    }

    method SetFields(f: Form)
      modifies this`title, this`content, this`category, this`publisherName, this`tags,
               this`excerpt, this`imagePreview
      ensures Fields() == f
    {
      title, content, category, publisherName := f.title, f.content, f.category, f.publisherName;
      tags, excerpt, imagePreview := f.tags, f.excerpt, f.imagePreview;
    }

    /** The edit-load effect: the remote row if the lookup returned one, and after a remote
        error the first post in the local list whose id, as a string, is the edited one. */
    method LoadForEdit(store: LocalStore, remote: Remote<Option<Post>>)
      modifies this`title, this`content, this`category, this`publisherName, this`tags,
               this`excerpt, this`imagePreview
      ensures Fields() == Loaded(old(Fields()), editId, remote, store.posts)
      ensures !EditMode(editId) ==> Fields() == old(Fields())
      ensures EditMode(editId) && remote.Failed? && Find(store.posts, editId.value).None? ==>
                Fields() == old(Fields())
    {
      if EditMode(editId) {
        match remote {
          case Ok(Some(p)) =>
            SetFields(FormOf(p));
          case Ok(None) =>
          case Failed =>
            var found := Find(store.posts, editId.value);
            if found.Some? {
              SetFields(FormOf(found.value));
            }
        }
      }
    }

    /** `savePost(status)`: builds the remote payload (with the user's id) at the first clock
        reading; when the remote write fails, builds the local record (without a user id) at
        the second clock reading and writes the updated local list. `localOk` says whether that
        fallback completes: `id.toString()` on a stored record without an id, or a full
        localStorage, throws out of the handler, so nothing is written and the busy flags keep
        their values. Otherwise both busy flags end false. */
    method Save(store: LocalStore, status: Status, remoteOk: bool, localOk: bool, user: Option<string>,
                remoteClock: nat, remoteNow: string, localClock: nat, localNow: string)
      returns (payload: Post)
      modifies this`isPublishing, this`isSaving, store
      ensures Fields() == old(Fields())
      ensures payload == Record(Fields(), ChooseId(editId, remoteClock), remoteNow, status, user)
      ensures remoteOk || !localOk ==> store.posts == old(store.posts)
      ensures !remoteOk && localOk ==>
                store.posts == Fallback(old(store.posts), editId,
                                        Record(Fields(), ChooseId(editId, localClock), localNow, status, None))
      ensures remoteOk || localOk ==> !isPublishing && !isSaving
      ensures !remoteOk && !localOk ==> isPublishing == old(isPublishing) && isSaving == old(isSaving)
    {
      payload := Record(Fields(), ChooseId(editId, remoteClock), remoteNow, status, user);
      if !remoteOk {
        if !localOk {
          return;
        }
        var newPost := Record(Fields(), ChooseId(editId, localClock), localNow, status, None);
        store.posts := Fallback(store.posts, editId, newPost);
      }
      isPublishing, isSaving := false, false;
    }

    /** The Publish button: only enabled with a title and a content and no publish in flight;
        saves as published. When both stores fail the button stays disabled. */
    method Publish(store: LocalStore, remoteOk: bool, localOk: bool, user: Option<string>,
                   remoteClock: nat, remoteNow: string, localClock: nat, localNow: string)
      returns (payload: Post)
      requires CanPublish(Fields(), isPublishing)
      modifies this`isPublishing, this`isSaving, store
      ensures Fields() == old(Fields())
      ensures payload == Record(Fields(), ChooseId(editId, remoteClock), remoteNow, Published, user)
      ensures payload.status == Some("published") && payload.title != "" && payload.content != ""
      ensures remoteOk || !localOk ==> store.posts == old(store.posts)
      ensures !remoteOk && localOk ==>
                store.posts == Fallback(old(store.posts), editId,
                                        Record(Fields(), ChooseId(editId, localClock), localNow, Published, None))
      ensures remoteOk || localOk ==> !isPublishing && !isSaving
      ensures !remoteOk && !localOk ==> isPublishing && isSaving == old(isSaving)
    {
      isPublishing := true;
      payload := Save(store, Published, remoteOk, localOk, user, remoteClock, remoteNow, localClock, localNow);
    }

    /** The Save Draft button: saves as a draft, whatever the form holds. When both stores
        fail the button stays disabled. */
    method SaveDraft(store: LocalStore, remoteOk: bool, localOk: bool, user: Option<string>,
                     remoteClock: nat, remoteNow: string, localClock: nat, localNow: string)
      returns (payload: Post)
      requires CanSaveDraft(isSaving)
      modifies this`isPublishing, this`isSaving, store
      ensures Fields() == old(Fields())
      ensures payload == Record(Fields(), ChooseId(editId, remoteClock), remoteNow, Draft, user)
      ensures payload.status == Some("draft")
      ensures remoteOk || !localOk ==> store.posts == old(store.posts)
      ensures !remoteOk && localOk ==>
                store.posts == Fallback(old(store.posts), editId,
                                        Record(Fields(), ChooseId(editId, localClock), localNow, Draft, None))
      ensures remoteOk || localOk ==> !isPublishing && !isSaving
      ensures !remoteOk && !localOk ==> isSaving && isPublishing == old(isPublishing)
    {
      isSaving := true;
      payload := Save(store, Draft, remoteOk, localOk, user, remoteClock, remoteNow, localClock, localNow);
    }

    /** The image's remove button. */
    method RemoveImage()
      modifies this`imagePreview
      ensures Fields() == old(Fields()).(imagePreview := None)
    {
      imagePreview := None;
    }
  }
}
