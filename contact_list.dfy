/** The contact list: every registered user, filtered by presence and by a
    name search, with an audio-call and a video-call button per row that
    open the matching call modal for that contact. */
module ContactList {
  import opened Wrappers
  import opened Seqs
  import opened Text

  /** A user as the server returns it; absent fields read as `undefined`. */
  datatype Contact = Contact(
    uid: Option<string>,
    firstname: Option<string>,
    lastname: Option<string>,
    status: Option<string>)

  /** The presence filter: "Online" and "Offline" compare `status` with
      `===`, "All" and any other value keep the contact. */
  predicate FilterKeeps(filter: string, c: Contact)
  {
    if filter == "Online" then c.status == Some("Online")
    else if filter == "Offline" then c.status == Some("Offline")
    else true
  }

  /** The text the search looks at: `${firstname} ${lastname}`. */
  function SearchText(c: Contact): string
  {
    FullName(Render(c.firstname), Render(c.lastname))
  }

  predicate Shown(filter: string, term: string, c: Contact)
  {
    FilterKeeps(filter, c) && SearchMatches(SearchText(c), term)
  }

  /** The contacts displayed: an order-preserving subsequence holding
      exactly the contacts that pass the presence filter and the search. */
  function FilteredContacts(contacts: seq<Contact>, filter: string, term: string): (r: seq<Contact>)
    ensures IsSubsequence(r, contacts)
    ensures forall i :: 0 <= i < |r| ==> r[i] in contacts && Shown(filter, term, r[i])
    ensures forall i :: 0 <= i < |contacts| && Shown(filter, term, contacts[i]) ==> contacts[i] in r
  {
    var byStatus := Filter(contacts, (c: Contact) => FilterKeeps(filter, c));
    var found := Filter(byStatus, (c: Contact) => SearchMatches(SearchText(c), term));
    SubsequenceTransitive(found, byStatus, contacts);
    found
  }

  /** With the "All" filter and an empty search every contact is shown. */
  lemma AllFilterEmptySearchShowsAll(contacts: seq<Contact>)
    ensures FilteredContacts(contacts, "All", "") == contacts
  {
    forall c: Contact {
      EmptySearchMatchesAll(SearchText(c));
    }
    var keepStatus := (c: Contact) => FilterKeeps("All", c);
    var keepSearch := (c: Contact) => SearchMatches(SearchText(c), "");
    FilterKeepsAll(contacts, keepStatus);
    FilterKeepsAll(contacts, keepSearch);
  }

  /** A filter value other than "Online" and "Offline" shows what "All"
      shows. */
  lemma UnknownFilterIsAll(contacts: seq<Contact>, filter: string, term: string)
    requires filter != "Online" && filter != "Offline"
    ensures FilteredContacts(contacts, filter, term) == FilteredContacts(contacts, "All", term)
  {
    FilterAgrees(contacts, (c: Contact) => FilterKeeps(filter, c), (c: Contact) => FilterKeeps("All", c));
  }

  /** No contact is both in the "Online" view and in the "Offline" view. */
  lemma OnlineOfflineDisjoint(contacts: seq<Contact>, term: string, c: Contact)
    requires c in FilteredContacts(contacts, "Online", term)
    ensures c !in FilteredContacts(contacts, "Offline", term)
  {
    var on := FilteredContacts(contacts, "Online", term);
    var i :| 0 <= i < |on| && on[i] == c;
    assert c.status == Some("Online");
  }

  /** The outcome of the user fetch: the request failed, the response had
      no user list, or it carried one. */
  datatype Fetch = Failed | NoUserList | UserList(users: seq<Contact>)

  const FetchFailed := "Failed to fetch users."

  /** What the list area renders: the loader, the error text, or the rows. */
  datatype ContactView = Spinner | ErrorText(msg: string) | Rows(rows: seq<Contact>)

  /** The state of the list that drives the call modals. */
  class ContactListPanel {
    var contacts: seq<Contact>
    var searchTerm: string
    var filter: string
    var loading: bool
    var error: Option<string>
    var selectedContact: Option<Contact>
    var audioOpen: bool
    var videoOpen: bool

    constructor ()
      ensures contacts == [] && searchTerm == "" && filter == "All" && loading
      ensures error.None? && selectedContact.None? && !audioOpen && !videoOpen
    {
      contacts := [];
      searchTerm := "";
      filter := "All";
      loading := true;
      error := None;
      selectedContact := None;
      audioOpen := false;
      videoOpen := false;
    }

    /** The audio dialog is rendered only with a contact selected and its
        flag set. */
    predicate ShowsAudioModal()
      reads this
    {
      selectedContact.Some? && audioOpen
    }

    /** The video dialog is rendered only with a contact selected and its
        flag set. */
    predicate ShowsVideoModal()
      reads this
    {
      selectedContact.Some? && videoOpen
    }

    /** The list area: the loader while loading, else the error text when
        there is an error, else the filtered contacts. */
    function Displayed(): (v: ContactView)
      reads this
      ensures v == Spinner <==> loading
      ensures v.ErrorText? <==> !loading && error.Some?
      ensures v.ErrorText? ==> Some(v.msg) == error
      ensures v.Rows? ==> v.rows == FilteredContacts(contacts, filter, searchTerm)
    {
      if loading then Spinner
      else if error.Some? then ErrorText(error.value)
      else Rows(FilteredContacts(contacts, filter, searchTerm))
    }

    /** The fetch result: a user list replaces the contacts, a failed
        request sets the error shown instead of the list. Loading stops
        either way. */
    method Load(response: Fetch)
      modifies this
      ensures response.UserList? ==> contacts == response.users
      ensures !response.UserList? ==> contacts == old(contacts)
      ensures error == (if response.Failed? then Some(FetchFailed) else old(error))
      ensures !loading
      ensures response.Failed? ==> Displayed() == ErrorText(FetchFailed)
      ensures !response.Failed? && old(error).None? ==>
                Displayed() == Rows(FilteredContacts(contacts, filter, searchTerm))
      ensures searchTerm == old(searchTerm) && filter == old(filter)
      ensures selectedContact == old(selectedContact)
      ensures audioOpen == old(audioOpen) && videoOpen == old(videoOpen)
    {
      match response {
        case Failed =>
          error := Some(FetchFailed);
        case NoUserList =>
        case UserList(users) =>
          contacts := users;
      }
      loading := false;
    }

    method SetSearchTerm(term: string)
      modifies this
      ensures searchTerm == term
      ensures contacts == old(contacts) && filter == old(filter) && loading == old(loading) && error == old(error)
      ensures selectedContact == old(selectedContact)
      ensures audioOpen == old(audioOpen) && videoOpen == old(videoOpen)
    {
      searchTerm := term;
    }

    method SetFilter(value: string)
      modifies this
      ensures filter == value
      ensures contacts == old(contacts) && searchTerm == old(searchTerm) && loading == old(loading) && error == old(error)
      ensures selectedContact == old(selectedContact)
      ensures audioOpen == old(audioOpen) && videoOpen == old(videoOpen)
    {
      filter := value;
    }

    /** The audio button: select the contact and open the audio modal; the
        video flag is left as it was. */
    method AudioCallClick(contact: Contact)
      modifies this
      ensures selectedContact == Some(contact) && audioOpen
      ensures videoOpen == old(videoOpen)
      ensures ShowsAudioModal() && (ShowsVideoModal() <==> old(videoOpen))
      ensures contacts == old(contacts) && searchTerm == old(searchTerm)
      ensures filter == old(filter) && loading == old(loading) && error == old(error)
    {
      selectedContact := Some(contact);
      audioOpen := true;
    }

    /** The video button: select the contact and open the video modal; the
        audio flag is left as it was. */
    method VideoCallClick(contact: Contact)
      modifies this
      ensures selectedContact == Some(contact) && videoOpen
      ensures audioOpen == old(audioOpen)
      ensures ShowsVideoModal() && (ShowsAudioModal() <==> old(audioOpen))
      ensures contacts == old(contacts) && searchTerm == old(searchTerm)
      ensures filter == old(filter) && loading == old(loading) && error == old(error)
    {
      selectedContact := Some(contact);
      videoOpen := true;
    }

    /** Closing the audio modal clears its flag and the selected contact,
        so neither modal is shown afterwards. */
    method CloseAudioCallModal()
      modifies this
      ensures !audioOpen && selectedContact.None?
      ensures videoOpen == old(videoOpen)
      ensures !ShowsAudioModal() && !ShowsVideoModal()
      ensures contacts == old(contacts) && searchTerm == old(searchTerm)
      ensures filter == old(filter) && loading == old(loading) && error == old(error)
    {
      audioOpen := false;
      selectedContact := None;
    }

    /** Closing the video modal clears its flag and the selected contact,
        so neither modal is shown afterwards. */
    method CloseVideoCallModal()
      modifies this
      ensures !videoOpen && selectedContact.None?
      ensures audioOpen == old(audioOpen)
      ensures !ShowsAudioModal() && !ShowsVideoModal()
      ensures contacts == old(contacts) && searchTerm == old(searchTerm)
      ensures filter == old(filter) && loading == old(loading) && error == old(error)
    {
      videoOpen := false;
      selectedContact := None;
    }
  }

  /** An audio click followed by a video click shows both modals, for the
      contact clicked last. */
  method AudioThenVideoShowsBoth(first: Contact, second: Contact) returns (audio: bool, video: bool, shown: Option<Contact>)
    ensures audio && video && shown == Some(second)
  {
    var panel := new ContactListPanel();
    panel.AudioCallClick(first);
    panel.VideoCallClick(second);
    audio, video, shown := panel.ShowsAudioModal(), panel.ShowsVideoModal(), panel.selectedContact;
  }

  /** The audio flag survives closing the video modal: after a later video
      click the audio modal comes back with it. */
  method AudioFlagOutlivesVideoClose(contact: Contact) returns (audioAfterClose: bool, audioAfterReopen: bool)
    ensures !audioAfterClose && audioAfterReopen
  {
    var panel := new ContactListPanel();
    panel.AudioCallClick(contact);
    panel.VideoCallClick(contact);
    panel.CloseVideoCallModal();
    audioAfterClose := panel.ShowsAudioModal();
    panel.VideoCallClick(contact);
    audioAfterReopen := panel.ShowsAudioModal();
  }
}
