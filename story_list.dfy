/** The story list: expiry after 24 hours, removal of expired stories, the
    status tab and search, archive and delete, and the upload dialog that
    attaches a story to the signed-in user's row. Times are integer
    milliseconds. */
module StoryList {
  import opened Wrappers
  import opened Seqs
  import opened Text

  const HourMs: int := 3600000
  /** 24 hours: reaching it marks a story expired. */
  const ExpiryMs: int := 24 * HourMs
  /** 30 minutes: an expired story is dropped once this much time has passed
      since it was created. */
  const RemovalMs: int := 30 * 60000

  /** One row: a user and the story they may have uploaded. */
  datatype Story = Story(
    uid: string,
    firstname: string,
    lastname: string,
    creationTime: int,
    status: string,
    hasUploadedStory: bool,
    about: string,
    storyImage: Option<string>,
    mediaType: string)

  /** A file chosen in the upload dialog: its name and MIME type. */
  datatype MediaFile = MediaFile(name: string, mimeType: string)

  /** The expiry check: 24 hours since creation and not already expired. */
  predicate ShouldExpire(s: Story, now: int)
  {
    now - s.creationTime >= ExpiryMs && s.status != "Expired"
  }

  function ExpireStory(s: Story, now: int): Story
  {
    if ShouldExpire(s, now) then s.(status := "Expired") else s
  }

  function ExpireStories(stories: seq<Story>, now: int): (r: seq<Story>)
    ensures |r| == |stories|
    ensures forall i :: 0 <= i < |r| && ShouldExpire(stories[i], now) ==> r[i] == stories[i].(status := "Expired")
    ensures forall i :: 0 <= i < |r| && !ShouldExpire(stories[i], now) ==> r[i] == stories[i]
  {
    seq(|stories|, i requires 0 <= i < |stories| => ExpireStory(stories[i], now))
  }

  /** An expiry pass at the same instant finds nothing more to do. */
  lemma ExpireIdempotent(stories: seq<Story>, now: int)
    ensures ExpireStories(ExpireStories(stories, now), now) == ExpireStories(stories, now)
  {
  }

  /** After an expiry pass every story at least 24 hours old is "Expired". */
  lemma ExpiredAfterPass(stories: seq<Story>, now: int, i: nat)
    requires i < |stories| && now - stories[i].creationTime >= ExpiryMs
    ensures ExpireStories(stories, now)[i].status == "Expired"
  {
  }

  /** The removal test: a story stays unless it is "Expired" and 30 minutes
      have passed since it was created. */
  predicate Kept(s: Story, now: int)
  {
    s.status != "Expired" || now - s.creationTime < RemovalMs
  }

  function RemoveExpiredStories(stories: seq<Story>, now: int): (r: seq<Story>)
    ensures IsSubsequence(r, stories)
    ensures forall i :: 0 <= i < |r| ==> Kept(r[i], now)
    ensures forall i :: 0 <= i < |stories| && Kept(stories[i], now) ==> stories[i] in r
  {
    Filter(stories, (s: Story) => Kept(s, now))
  }

  /** The grace period is measured from creation, and a story is marked
      expired only at 24 hours, so the removal pass drops every story the
      expiry pass marked: none of them survives to be seen in the tab. */
  lemma ExpiredByTimerAreRemoved(stories: seq<Story>, expiredAt: int, now: int, i: nat)
    requires i < |stories| && ShouldExpire(stories[i], expiredAt) && expiredAt <= now
    ensures ExpireStories(stories, expiredAt)[i] !in RemoveExpiredStories(ExpireStories(stories, expiredAt), now)
  {
  }

  /** The status tab: "Active" and "Expired" test the status, "All" and any
      other value keep the row. */
  predicate TabKeeps(tab: string, s: Story)
  {
    if tab == "Active" then s.status == "Active"
    else if tab == "Expired" then s.status == "Expired"
    else true
  }

  predicate Shown(tab: string, term: string, s: Story)
  {
    TabKeeps(tab, s) && SearchMatches(FullName(s.firstname, s.lastname), term)
  }

  /** The rows displayed, before sorting: an order-preserving subsequence
      holding exactly the rows that pass the tab and the (debounced) search. */
  function FilteredStories(stories: seq<Story>, tab: string, term: string): (r: seq<Story>)
    ensures IsSubsequence(r, stories)
    ensures forall i :: 0 <= i < |r| ==> r[i] in stories && Shown(tab, term, r[i])
    ensures forall i :: 0 <= i < |stories| && Shown(tab, term, stories[i]) ==> stories[i] in r
  {
    var byTab := Filter(stories, (s: Story) => TabKeeps(tab, s));
    var found := Filter(byTab, (s: Story) => SearchMatches(FullName(s.firstname, s.lastname), term));
    SubsequenceTransitive(found, byTab, stories);
    found
  }

  predicate Uploaded(s: Story) { s.hasUploadedStory }
  predicate NotUploaded(s: Story) { !s.hasUploadedStory }

  /** The display order: `sort` with a comparator ranking uploaded stories
      first. `Array.prototype.sort` is stable, so this is the uploaded rows
      in list order followed by the others in list order. */
  function UploadedFirst(stories: seq<Story>): (r: seq<Story>)
    ensures multiset(r) == multiset(stories)
    ensures forall i, j :: 0 <= i < j < |r| && !r[i].hasUploadedStory ==> !r[j].hasUploadedStory
  {
    PartitionIsPermutation(stories);
    Filter(stories, Uploaded) + Filter(stories, NotUploaded)
  }

  lemma PartitionIsPermutation(stories: seq<Story>)
    ensures multiset(Filter(stories, Uploaded) + Filter(stories, NotUploaded)) == multiset(stories)
  {
    FilterSplitIsPermutation(stories, Uploaded, NotUploaded);
  }

  /** The sort is stable: the uploaded rows appear in the display order
      exactly as they appear in the list, and so do the others. */
  lemma UploadedFirstIsStable(stories: seq<Story>)
    ensures Filter(UploadedFirst(stories), Uploaded) == Filter(stories, Uploaded)
    ensures Filter(UploadedFirst(stories), NotUploaded) == Filter(stories, NotUploaded)
  {
    var up, down := Filter(stories, Uploaded), Filter(stories, NotUploaded);
    FilterConcat(up, down, Uploaded);
    FilterConcat(up, down, NotUploaded);
    FilterKeepsAll(up, Uploaded);
    FilterKeepsAll(down, NotUploaded);
    FilterRejectsAll(up, NotUploaded);
    FilterRejectsAll(down, Uploaded);
  }

  /** Archive: status "Archived" on the matching rows only. */
  function Archived(stories: seq<Story>, id: Option<string>): (r: seq<Story>)
    ensures |r| == |stories|
    ensures forall i :: 0 <= i < |r| && Some(stories[i].uid) == id ==> r[i] == stories[i].(status := "Archived")
    ensures forall i :: 0 <= i < |r| && Some(stories[i].uid) != id ==> r[i] == stories[i]
  {
    seq(|stories|, i requires 0 <= i < |stories| =>
      if Some(stories[i].uid) == id then stories[i].(status := "Archived") else stories[i])
  }

  /** Delete: exactly the matching rows removed, the others kept in order. */
  function Deleted(stories: seq<Story>, id: Option<string>): (r: seq<Story>)
    ensures IsSubsequence(r, stories)
    ensures forall i :: 0 <= i < |r| ==> Some(r[i].uid) != id
    ensures forall i :: 0 <= i < |stories| && Some(stories[i].uid) != id ==> stories[i] in r
  {
    Filter(stories, (s: Story) => Some(s.uid) != id)
  }

  /** The signed-in user's row after a confirmed upload. */
  function WithUpload(s: Story, url: string, mediaType: string, description: string): Story
  {
    s.(storyImage := Some(url), mediaType := mediaType, about := description,
       hasUploadedStory := true, status := "Active")
  }

  function UploadInto(stories: seq<Story>, userId: Option<string>, url: string,
                      mediaType: string, description: string): (r: seq<Story>)
    ensures |r| == |stories|
    ensures forall i :: 0 <= i < |r| && Some(stories[i].uid) == userId ==>
              r[i].storyImage == Some(url) && r[i].mediaType == mediaType && r[i].about == description &&
              r[i].hasUploadedStory && r[i].status == "Active"
    ensures forall i :: 0 <= i < |r| && Some(stories[i].uid) == userId ==>
              r[i].uid == stories[i].uid && r[i].firstname == stories[i].firstname &&
              r[i].lastname == stories[i].lastname && r[i].creationTime == stories[i].creationTime
    ensures forall i :: 0 <= i < |r| && Some(stories[i].uid) != userId ==> r[i] == stories[i]
  {
    seq(|stories|, i requires 0 <= i < |stories| =>
      if Some(stories[i].uid) == userId then WithUpload(stories[i], url, mediaType, description) else stories[i])
  }

  /** After an upload the user's row is listed under "Active" and sorts
      before every row without a story. */
  lemma UploadShowsFirst(stories: seq<Story>, userId: Option<string>, url: string,
                         mediaType: string, description: string, i: nat)
    requires i < |stories| && Some(stories[i].uid) == userId
    ensures TabKeeps("Active", UploadInto(stories, userId, url, mediaType, description)[i])
    ensures UploadInto(stories, userId, url, mediaType, description)[i] in
            Filter(UploadInto(stories, userId, url, mediaType, description), Uploaded)
  {
  }

  /** `file.type.split("/")[0]`: the MIME type up to its first slash. */
  function TopLevelType(mimeType: string): (r: string)
    ensures StartsWith(mimeType, r)
    ensures '/' !in r
    ensures |r| < |mimeType| ==> mimeType[|r|] == '/'
  {
    if mimeType == [] || mimeType[0] == '/' then ""
    else [mimeType[0]] + TopLevelType(mimeType[1..])
  }

  class StoryListPanel {
    var users: seq<Story>
    var openDialog: bool
    var mediaFile: Option<MediaFile>
    var mediaType: string
    var description: string

    constructor ()
      ensures users == [] && !openDialog && mediaFile == None && mediaType == "" && description == ""
    {
      users, openDialog, mediaFile, mediaType, description := [], false, None, "", "";
    }

    method Load(fetched: Option<seq<Story>>)
      modifies this
      ensures users == (if fetched.Some? then fetched.value else old(users))
      ensures openDialog == old(openDialog) && mediaFile == old(mediaFile)
      ensures mediaType == old(mediaType) && description == old(description)
    {
      if fetched.Some? {
        users := fetched.value;
      }
    }

    /** The hourly timer tick. */
    method Expire(now: int)
      modifies this
      ensures users == ExpireStories(old(users), now)
      ensures openDialog == old(openDialog) && mediaFile == old(mediaFile)
      ensures mediaType == old(mediaType) && description == old(description)
    {
      users := ExpireStories(users, now);
    }

    /** The ten-minute timer tick. */
    method RemoveExpired(now: int)
      modifies this
      ensures users == RemoveExpiredStories(old(users), now)
      ensures openDialog == old(openDialog) && mediaFile == old(mediaFile)
      ensures mediaType == old(mediaType) && description == old(description)
    {
      users := RemoveExpiredStories(users, now);
    }

    /** Delete runs only when the confirmation is accepted. */
    method Delete(id: Option<string>, confirmed: bool)
      modifies this
      ensures users == (if confirmed then Deleted(old(users), id) else old(users))
      ensures openDialog == old(openDialog) && mediaFile == old(mediaFile)
      ensures mediaType == old(mediaType) && description == old(description)
    {
      if confirmed {
        users := Deleted(users, id);
      }
    }

    method Archive(id: Option<string>)
      modifies this
      ensures users == Archived(old(users), id)
      ensures openDialog == old(openDialog) && mediaFile == old(mediaFile)
      ensures mediaType == old(mediaType) && description == old(description)
    {
      users := Archived(users, id);
    }

    method ImportStory()
      modifies this
      ensures openDialog
      ensures users == old(users) && mediaFile == old(mediaFile)
      ensures mediaType == old(mediaType) && description == old(description)
    {
      openDialog := true;
    }

    /** The file input's change: without a file nothing changes. */
    method MediaUpload(file: Option<MediaFile>)
      modifies this
      ensures file.Some? ==> mediaFile == file && mediaType == TopLevelType(file.value.mimeType)
      ensures file.None? ==> mediaFile == old(mediaFile) && mediaType == old(mediaType)
      ensures users == old(users) && openDialog == old(openDialog) && description == old(description)
    {
      if file.Some? {
        mediaType := TopLevelType(file.value.mimeType);
        mediaFile := file;
      }
    }

    method SetDescription(value: string)
      modifies this
      ensures description == value
      ensures users == old(users) && openDialog == old(openDialog)
      ensures mediaFile == old(mediaFile) && mediaType == old(mediaType)
    {
      description := value;
    }

    /** The dialog's Upload button. Without a file or with an empty
        description it does nothing; otherwise it attaches the story to the
        signed-in user's row (`url` stands for the object URL the browser
        creates for the file), closes the dialog and clears the inputs. */
    method UploadConfirm(userId: Option<string>, url: string) returns (uploaded: bool)
      modifies this
      ensures uploaded <==> old(mediaFile).Some? && old(description) != ""
      ensures !uploaded ==> users == old(users) && openDialog == old(openDialog) &&
                            mediaFile == old(mediaFile) && mediaType == old(mediaType) &&
                            description == old(description)
      ensures uploaded ==> users == UploadInto(old(users), userId, url, old(mediaType), old(description)) &&
                           !openDialog && mediaFile == None && mediaType == "" && description == ""
    {
      if mediaFile.None? || description == "" {
        return false;
      }
      users := UploadInto(users, userId, url, mediaType, description);
      openDialog := false;
      mediaFile, mediaType, description := None, "", "";
      uploaded := true;
    }

    /** The Cancel button: the chosen media type is left as it was. */
    method UploadCancel()
      modifies this
      ensures !openDialog && mediaFile == None && description == ""
      ensures users == old(users) && mediaType == old(mediaType)
    {
      openDialog := false;
      mediaFile := None;
      description := "";
    }
  }
}
