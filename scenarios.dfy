/** What the editor and the dashboard do together through the shared local list. */
module Scenarios {
  import opened Text
  import opened Posts
  import opened WritePage
  import opened DashboardPage

  /** A record the editor writes already has a non-empty status, so listing it changes nothing. */
  lemma SavedRecordIsNormal(f: Form, id: string, now: string, status: Status, user: Option<string>)
    ensures Normalize(Record(f, id, now, status, user)) == Record(f, id, now, status, user)
  {
  }

  /** A post created while the remote database is down heads the next listing that comes
      from the local list, exactly as it was saved. */
  lemma OfflineCreateHeadsListing(local: seq<Post>, editId: Option<string>, f: Form, clock: nat,
                                  now: string, status: Status, remote: Remote<seq<Post>>)
    requires !EditMode(editId) && !UsesRemote(remote)
    ensures Select(remote, Fallback(local, editId, Record(f, ChooseId(editId, clock), now, status, None)))
            == [Record(f, ChooseId(editId, clock), now, status, None)] + NormalizeAll(local)
  {
    var np := Record(f, ChooseId(editId, clock), now, status, None);
    var shown := Select(remote, Fallback(local, editId, np));
    SavedRecordIsNormal(f, ChooseId(editId, clock), now, status, None);
    assert shown[0] == np;
    assert forall i :: 1 <= i < |shown| ==> shown[i] == Normalize(local[i - 1]);
  }

  /** After a delete that fell back to the local list, the editor's lookup of a string id no
      longer finds it, provided every local id is a string. */
  lemma OfflineDeleteHidesPost(local: seq<Post>, key: string)
    requires forall i :: 0 <= i < |local| ==> local[i].id.Str?
    ensures Find(Remove(local, Str(key)), key).None?
  {
    var r := Remove(local, Str(key));
    forall j | 0 <= j < |r| ensures IdString(r[j].id) != key {
      assert r[j] in r;
      var i :| 0 <= i < |local| && local[i] == r[j];
    }
  }

  /** Deleting compares ids strictly while the editor compares `toString()` results: a local
      record whose id is the number n is found by the editor under its decimal string, yet
      deleting that string leaves it in place. */
  lemma StrictDeleteKeepsNumericId(p: Post, n: nat)
    requires p.id == Num(n)
    ensures Find([p], NatToString(n)) == Some(p)
    ensures Remove([p], Str(NatToString(n))) == [p]
  {
    RemoveAbsent([p], Str(NatToString(n)));
  }

  /** Listed statuses are "published" or "draft" when every stored status is one of those,
      missing, or empty; the Published and Drafts counters then add up to Total Posts. */
  lemma CountersAddUp(remote: Remote<seq<Post>>, local: seq<Post>)
    requires remote.Ok? ==> forall i :: 0 <= i < |remote.value| ==>
               remote.value[i].status in {None, Some(""), Some("published"), Some("draft")}
    requires forall i :: 0 <= i < |local| ==>
               local[i].status in {None, Some(""), Some("published"), Some("draft")}
    ensures CountStatus(Select(remote, local), "published") + CountStatus(Select(remote, local), "draft")
            == |Select(remote, local)|
  {
    var v := Select(remote, local);
    forall i | 0 <= i < |v| ensures v[i].status == Some("published") || v[i].status == Some("draft") {
      if UsesRemote(remote) {
        assert v[i] == Normalize(remote.value[i]);
      } else {
        assert v[i] == Normalize(local[i]);
      }
    }
    CountsBounded(v, "published", "draft");
  }

  /** Publishing a new post with the remote database down (the local write succeeding) and
      then opening the dashboard with it still down lists the locally saved post first, ahead
      of the older local posts. */
  method OfflinePublishThenList(f: Form, local: seq<Post>, user: Option<string>,
                                remoteClock: nat, remoteNow: string, localClock: nat, localNow: string)
    returns (shown: seq<Post>, loading: bool)
    requires f.title != "" && f.content != ""
    ensures shown == [Record(f, NatToString(localClock), localNow, Published, None)] + NormalizeAll(local)
    ensures shown[0].status == Some("published") && shown[0].userId.None?
    ensures !loading
  {
    var store := new LocalStore(local);
    var editor := new Editor(None);
    editor.SetFields(f);
    var payload := editor.Publish(store, false, true, user, remoteClock, remoteNow, localClock, localNow);
    var dashboard := new Dashboard();
    dashboard.Fetch(store, Failed);
    OfflineCreateHeadsListing(local, None, f, localClock, localNow, Published, Failed);
    shown, loading := dashboard.posts, dashboard.isLoading;
  }
}
