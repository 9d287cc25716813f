/** The chat's right-hand panel, which sorts the conversation's messages
    into shared images, videos, files and links. */
module RightSideBar {
  import opened Wrappers
  import opened Seqs
  import opened Text

  /** The fields of a chat message the panel looks at; absent fields read as
      `undefined`. */
  datatype Message = Message(
    filePreview: Option<string>,
    fileType: Option<string>,
    content: Option<string>)

  /** The four lists the panel displays. */
  datatype SharedMedia = SharedMedia(
    images: seq<Message>,
    videos: seq<Message>,
    files: seq<Message>,
    links: seq<Message>)

  /** What the component renders: nothing when closed, a thrown error when
      a message breaks the classification, otherwise the shared media. */
  datatype View = Hidden | Crashed | Showing(media: SharedMedia)

  /** `message.filePreview` is truthy: present and not the empty string. */
  predicate HasPreview(m: Message)
  {
    m.filePreview.Some? && m.filePreview.value != ""
  }

  predicate TypeStartsWith(m: Message, prefix: string)
  {
    m.fileType.Some? && StartsWith(m.fileType.value, prefix)
  }

  /** `message.fileType.startsWith(...)` on a message with a preview but no
      `fileType` throws a TypeError. */
  predicate Throws(m: Message)
  {
    HasPreview(m) && m.fileType.None?
  }

  predicate IsImage(m: Message)
  {
    HasPreview(m) && TypeStartsWith(m, "image")
  }

  predicate IsVideo(m: Message)
  {
    HasPreview(m) && !TypeStartsWith(m, "image") && TypeStartsWith(m, "video")
  }

  /** Only audio reaches the files list. */
  predicate IsFile(m: Message)
  {
    HasPreview(m) && !TypeStartsWith(m, "image") && !TypeStartsWith(m, "video") && TypeStartsWith(m, "audio")
  }

  /** A link: content present and starting with "http", considered only
      for a message without a preview. */
  predicate IsLink(m: Message)
  {
    !HasPreview(m) && m.content.Some? && StartsWith(m.content.value, "http")
  }

  predicate AnyThrows(messages: seq<Message>)
  {
    exists i :: 0 <= i < |messages| && Throws(messages[i])
  }

  /** The classification of a whole conversation: nothing when some message
      throws, otherwise each list is the order-preserving sublist of the
      messages of its kind. */
  function Media(messages: seq<Message>): (r: Option<SharedMedia>)
    ensures r.None? <==> AnyThrows(messages)
    ensures r.Some? ==> IsSubsequence(r.value.images, messages) && IsSubsequence(r.value.videos, messages)
    ensures r.Some? ==> IsSubsequence(r.value.files, messages) && IsSubsequence(r.value.links, messages)
    ensures r.Some? ==> forall m :: m in r.value.images <==> m in messages && IsImage(m)
    ensures r.Some? ==> forall m :: m in r.value.videos <==> m in messages && IsVideo(m)
    ensures r.Some? ==> forall m :: m in r.value.files <==> m in messages && IsFile(m)
    ensures r.Some? ==> forall m :: m in r.value.links <==> m in messages && IsLink(m)
    ensures r.Some? ==> forall m :: multiset(r.value.images)[m] == if IsImage(m) then multiset(messages)[m] else 0
    ensures r.Some? ==> forall m :: multiset(r.value.videos)[m] == if IsVideo(m) then multiset(messages)[m] else 0
    ensures r.Some? ==> forall m :: multiset(r.value.files)[m] == if IsFile(m) then multiset(messages)[m] else 0
    ensures r.Some? ==> forall m :: multiset(r.value.links)[m] == if IsLink(m) then multiset(messages)[m] else 0
  {
    FilterMultiplicity(messages, IsImage);
    FilterMultiplicity(messages, IsVideo);
    FilterMultiplicity(messages, IsFile);
    FilterMultiplicity(messages, IsLink);
    if AnyThrows(messages) then None
    else Some(SharedMedia(
      Filter(messages, IsImage),
      Filter(messages, IsVideo),
      Filter(messages, IsFile),
      Filter(messages, IsLink)))
  }

  /** A message belongs to at most one of the four lists. */
  lemma KindsAreExclusive(m: Message)
    ensures IsImage(m) ==> !IsVideo(m) && !IsFile(m) && !IsLink(m)
    ensures IsVideo(m) ==> !IsFile(m) && !IsLink(m)
    ensures IsFile(m) ==> !IsLink(m)
  {
  }

  /** The four lists together hold no more messages than the conversation. */
  lemma {:induction false} BucketSizesBounded(messages: seq<Message>)
    ensures |Filter(messages, IsImage)| + |Filter(messages, IsVideo)|
          + |Filter(messages, IsFile)| + |Filter(messages, IsLink)| <= |messages|
  {
    if messages != [] {
      var m, rest := messages[0], messages[1..];
      assert messages == [m] + rest;
      BucketSizesBounded(rest);
      FilterCons(m, rest, IsImage);
      FilterCons(m, rest, IsVideo);
      FilterCons(m, rest, IsFile);
      FilterCons(m, rest, IsLink);
      KindsAreExclusive(m);
    }
  }

  /** A document (a PDF, say) with a preview lands in none of the lists. */
  lemma DocumentsAreDropped(messages: seq<Message>, m: Message)
    requires m in messages && HasPreview(m) && m.fileType == Some("application/pdf")
    requires Media(messages).Some?
    ensures m !in Media(messages).value.images && m !in Media(messages).value.videos
    ensures m !in Media(messages).value.files && m !in Media(messages).value.links
  {
    var t := "application/pdf";
    assert t[..5][0] != "image"[0] && t[..5][0] != "video"[0] && t[..5][1] != "audio"[1];
  }

  /** `getSharedMedia`: one pass over the messages pushing each onto the
      list of its kind. It stops with `None` at the first message that
      throws. */
  method GetSharedMedia(messages: seq<Message>) returns (r: Option<SharedMedia>)
    ensures r == Media(messages)
  {
    var images: seq<Message> := [];
    var videos: seq<Message> := [];
    var files: seq<Message> := [];
    var links: seq<Message> := [];
    var k := 0;
    while k < |messages|
      invariant 0 <= k <= |messages|
      invariant forall i :: 0 <= i < k ==> !Throws(messages[i])
      invariant images == Filter(messages[..k], IsImage)
      invariant videos == Filter(messages[..k], IsVideo)
      invariant files == Filter(messages[..k], IsFile)
      invariant links == Filter(messages[..k], IsLink)
    {
      var m := messages[k];
      if Throws(m) {
        assert Throws(messages[k]);
        return None;
      }
      assert messages[..k + 1] == messages[..k] + [m];
      FilterSnoc(messages[..k], m, IsImage);
      FilterSnoc(messages[..k], m, IsVideo);
      FilterSnoc(messages[..k], m, IsFile);
      FilterSnoc(messages[..k], m, IsLink);
      if HasPreview(m) {
        if StartsWith(m.fileType.value, "image") {
          images := images + [m];
        } else if StartsWith(m.fileType.value, "video") {
          videos := videos + [m];
        } else if StartsWith(m.fileType.value, "audio") {
          files := files + [m];
        }
      } else if m.content.Some? && StartsWith(m.content.value, "http") {
        links := links + [m];
      }
      k := k + 1;
    }
    assert messages[..k] == messages;
    r := Some(SharedMedia(images, videos, files, links));
  }

  /** The component: `null` when closed, otherwise the classified media, or
      the error a malformed message throws. */
  function Panel(open: bool, messages: seq<Message>): (r: View)
    ensures r == Hidden <==> !open
    ensures r == Crashed <==> open && AnyThrows(messages)
    ensures r.Showing? ==> Some(r.media) == Media(messages)
  {
    if !open then Hidden
    else match Media(messages)
      case None => Crashed
      case Some(media) => Showing(media)
  }
}
