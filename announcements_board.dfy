/** The announcements board: the fetched list of announcements, the form that
    posts a new one with a title, a body and tags chosen from a fixed
    vocabulary, the colour of each tag and the author-only delete button. */
module AnnouncementsBoard {
  import opened Backend
  import opened Text
  import opened Lists

  /** The author fields the query joins onto an announcement. */
  datatype AuthorProfile = AuthorProfile(name: string, avatarColor: string)

  /** An announcement as the board holds it. */
  datatype Announcement = Announcement(
    id: string,
    userId: string,
    title: string,
    body: string,
    tags: seq<string>,
    createdAt: string,
    profile: Option<AuthorProfile>)

  /** The four tags the form offers: question, tip, problem, link. */
  const TagOptions: seq<string> := ["שאלה", "טיפ", "בעיה", "לינק"]

  // ---------------------------------------------------------------------
  // Tags
  // ---------------------------------------------------------------------

  /** `toggleTag`: a selected tag is removed (every occurrence of it), any
      other tag is appended at the end. */
  function ToggleTag(prev: seq<string>, tag: string): (r: seq<string>)
    ensures tag in prev ==> tag !in r && forall t :: t != tag ==> (t in r <==> t in prev)
    ensures tag !in prev ==> r == prev + [tag]
  {
    if tag in prev then RemoveAll(prev, tag) else prev + [tag]
  }

  /** Toggling a tag that was not selected twice restores the list exactly. */
  lemma ToggleTwiceAbsent(prev: seq<string>, tag: string)
    requires tag !in prev
    ensures ToggleTag(ToggleTag(prev, tag), tag) == prev
  {
    RemoveAllConcat(prev, [tag], tag);
    RemoveAllAbsent(prev, tag);
  }

  /** Toggling a selected tag twice keeps the same tags selected, but the
      tag is now last. */
  lemma ToggleTwicePresent(prev: seq<string>, tag: string)
    requires tag in prev
    ensures ToggleTag(ToggleTag(prev, tag), tag) == RemoveAll(prev, tag) + [tag]
    ensures forall t :: t in ToggleTag(ToggleTag(prev, tag), tag) <==> t in prev
  {
  }

  /** Toggling never introduces a duplicate; on a list without duplicates it
      changes the length by exactly one. */
  lemma ToggleKeepsDistinct(prev: seq<string>, tag: string)
    requires NoDuplicates(prev)
    ensures NoDuplicates(ToggleTag(prev, tag))
    ensures |ToggleTag(prev, tag)| == if tag in prev then |prev| - 1 else |prev| + 1
  {
    if tag in prev {
      RemoveAllNoDuplicates(prev, tag);
      RemoveAllOnce(prev, tag);
    }
  }

  /** The selected tags are drawn from the offered ones and occur once. */
  predicate ValidSelection(tags: seq<string>)
  {
    NoDuplicates(tags) && forall t :: t in tags ==> t in TagOptions
  }

  /** Toggling an offered tag keeps the selection valid. */
  lemma ToggleKeepsValid(prev: seq<string>, tag: string)
    requires ValidSelection(prev) && tag in TagOptions
    ensures ValidSelection(ToggleTag(prev, tag))
  {
    ToggleKeepsDistinct(prev, tag);
  }

  const DefaultTagColor := "bg-muted text-muted-foreground"

  /** `getTagColor`. */
  function TagColor(tag: string): (c: string)
    ensures tag !in TagOptions ==> c == DefaultTagColor
    ensures tag in TagOptions ==> c != DefaultTagColor
  {
    if tag == "שאלה" then "bg-info/20 text-info border-info/30"
    else if tag == "טיפ" then "bg-success/20 text-success border-success/30"
    else if tag == "בעיה" then "bg-destructive/20 text-destructive border-destructive/30"
    else if tag == "לינק" then "bg-warning/20 text-warning-foreground border-warning/30"
    else DefaultTagColor
  }

  /** The length of each offered tag's colour class, which already tells
      the four apart. */
  lemma TagColorLength(k: nat)
    requires k < |TagOptions|
    ensures |TagColor(TagOptions[k])| == if k == 0 then 35 else if k == 1 then 44 else if k == 2 then 56 else 55
  {
    if k == 0 {
      assert TagOptions[k] == "שאלה";
    } else if k == 1 {
      assert TagOptions[k] == "טיפ";
    } else if k == 2 {
      assert TagOptions[k] == "בעיה";
    } else {
      assert TagOptions[k] == "לינק";
    }
  }

  /** Each offered tag has a colour of its own. */
  lemma TagColorsDistinct(i: nat, j: nat)
    requires i < |TagOptions| && j < |TagOptions| && i != j
    ensures TagColor(TagOptions[i]) != TagColor(TagOptions[j])
  {
    TagColorLength(i);
    TagColorLength(j);
  }

  /** The delete button is shown only on the viewer's own announcements. */
  function ShowsDelete(a: Announcement, viewer: Option<string>): (shown: bool)
    ensures shown <==> viewer == Some(a.userId)
  {
    viewer.Some? && a.userId == viewer.value
  }

  // ---------------------------------------------------------------------
  // Posting
  // ---------------------------------------------------------------------

  /** The insert `handleSubmit` sends; `userId` is `user?.id`, absent when
      nobody is signed in. */
  datatype AnnouncementInsert = AnnouncementInsert(
    userId: Option<string>,
    title: string,
    body: string,
    tags: seq<string>)

  /** `handleSubmit`'s decision: the insert it sends, or `None` when a blank
      title or body stops it before any backend call. */
  function SubmitRequest(title: string, body: string, tags: seq<string>, user: Option<string>): (w: Option<AnnouncementInsert>)
    ensures w.None? <==> IsBlank(title) || IsBlank(body)
    ensures w.Some? ==> w.value.title != "" && IsTrimmed(w.value.title) && |w.value.title| <= |title|
    ensures w.Some? ==> w.value.body != "" && IsTrimmed(w.value.body) && |w.value.body| <= |body|
    ensures w.Some? ==> w.value.title == Trim(title) && w.value.body == Trim(body)
    ensures w.Some? ==> w.value.tags == tags && w.value.userId == user
  {
    if Trim(title) == "" || Trim(body) == "" then None
    else Some(AnnouncementInsert(user, Trim(title), Trim(body), tags))
  }

  /** Posting already trimmed text sends it as typed. */
  lemma SubmitTrimmedText(title: string, body: string, tags: seq<string>, user: Option<string>)
    requires title != "" && IsTrimmed(title) && body != "" && IsTrimmed(body)
    ensures SubmitRequest(title, body, tags, user) == Some(AnnouncementInsert(user, title, body, tags))
  {
    TrimOfTrimmed(title);
    TrimOfTrimmed(body);
  }

  // ---------------------------------------------------------------------
  // The component's state
  // ---------------------------------------------------------------------

  class Board {
    var announcements: seq<Announcement>
    var loading: bool
    var isDialogOpen: bool
    var title: string
    var body: string
    var selectedTags: seq<string>
    var submitting: bool

    /** The selection only ever holds offered tags, each once. */
    predicate Valid()
      reads this
    {
      ValidSelection(selectedTags)
    }

    /** The state on mount, before the first fetch completes. */
    constructor ()
      ensures Valid()
      ensures announcements == [] && loading && !isDialogOpen
      ensures title == "" && body == "" && selectedTags == [] && !submitting
    {
      announcements := [];
      loading := true;
      isDialogOpen := false;
      title, body, selectedTags := "", "", [];
      submitting := false;
    }

    /** `fetchAnnouncements`, given the query's outcome: rows replace the
        list, `null` data keeps the previous one; a rejected request ends the
        handler before `loading` is cleared. */
    method FetchAnnouncements(response: Response<Announcement>)
      modifies this
      ensures response.Data? ==> announcements == response.rows
      ensures !response.Data? ==> announcements == old(announcements)
      ensures loading == (response.Rejected? && old(loading))
      ensures isDialogOpen == old(isDialogOpen) && title == old(title) && body == old(body)
      ensures selectedTags == old(selectedTags) && submitting == old(submitting)
    {
      if response.Rejected? {
        return;
      }
      if response.Data? {
        announcements := response.rows;
      }
      loading := false;
    }

    /** Clicking the badge of an offered tag. */
    method ClickTag(tag: string)
      requires Valid() && tag in TagOptions
      modifies this
      ensures Valid()
      ensures selectedTags == ToggleTag(old(selectedTags), tag)
      ensures announcements == old(announcements) && loading == old(loading)
      ensures isDialogOpen == old(isDialogOpen) && title == old(title) && body == old(body)
      ensures submitting == old(submitting)
    {
      ToggleKeepsValid(selectedTags, tag);
      selectedTags := ToggleTag(selectedTags, tag);
    }

    /** The dialog's `onOpenChange`: the form is kept when it closes. */
    method SetDialogOpen(open: bool)
      modifies this
      ensures isDialogOpen == open
      ensures announcements == old(announcements) && loading == old(loading)
      ensures title == old(title) && body == old(body) && selectedTags == old(selectedTags)
      ensures submitting == old(submitting)
    {
      isDialogOpen := open;
    }

    /** `handleSubmit` for the signed-in `user`, given the outcome of the
        insert; returns the insert it sent, or `None` when it sent none. */
    method HandleSubmit(user: Option<string>, outcome: WriteResult) returns (sent: Option<AnnouncementInsert>)
      requires Valid()
      modifies this
      ensures Valid()
      ensures sent == SubmitRequest(old(title), old(body), old(selectedTags), user)
      ensures sent.None? ==> unchanged(this)
      ensures sent.Some? && outcome.WriteOk? ==>
        title == "" && body == "" && selectedTags == [] && !isDialogOpen
      ensures sent.Some? && outcome.WriteError? ==>
        title == old(title) && body == old(body) && selectedTags == old(selectedTags) &&
        isDialogOpen == old(isDialogOpen)
      ensures sent.Some? ==> !submitting
      ensures announcements == old(announcements) && loading == old(loading)
    {
      var t, b := Trim(title), Trim(body);
      if t == "" || b == "" {
        return None;
      }
      submitting := true;
      sent := Some(AnnouncementInsert(user, t, b, selectedTags));
      if outcome.WriteOk? {
        title := "";
        body := "";
        selectedTags := [];
        isDialogOpen := false;
      }
      submitting := false;
    }
  }
}
