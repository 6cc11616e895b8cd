/** The Notifications page: a filterable notification list with duplicate and edit actions. */
module Notifications {
  import opened Optional
  import opened Text
  import opened Collection

  datatype Notification = Notification(
    id: string,
    title: string,
    message: string,
    kind: string,
    audience: string,
    status: string,
    sentAt: Option<string>,
    readCount: int,
    totalRecipients: int)

  function NotificationId(n: Notification): string { n.id }

  /** The marker appended to a duplicate's title. */
  const CopySuffix: string := " (Copy)"

  // ---------------------------------------------------------------------------
  // Filter
  // ---------------------------------------------------------------------------

  /** A notification is listed when title or message contains the term and the status is selected. */
  function Shown(n: Notification, term: string, selected: string): (r: bool)
    ensures r ==> StatusMatches(n.status, selected)
    ensures |term| == 0 ==> (r <==> StatusMatches(n.status, selected))
    ensures r ==> |term| <= |n.title| || |term| <= |n.message|
  {
    && (IncludesIgnoringCase(n.title, term) || IncludesIgnoringCase(n.message, term))
    && StatusMatches(n.status, selected)
  }

  /** `filteredNotifications`. */
  function FilterNotifications(s: seq<Notification>, term: string, selected: string): (r: seq<Notification>)
    ensures SubsequenceOf(r, s)
    ensures forall n :: n in r <==> n in s && Shown(n, term, selected)
    ensures forall n :: multiset(r)[n] == if Shown(n, term, selected) then multiset(s)[n] else 0
    ensures selected != AllStatuses ==> forall i :: 0 <= i < |r| ==> r[i].status == selected
  {
    var keep := n => Shown(n, term, selected);
    FilterIsSubsequence(s, keep);
    FilterMembers(s, keep);
    FilterMultiplicity(s, keep);
    Filter(s, keep)
  }

  /** With an empty search box and the `"all"` selector the whole store is listed. */
  lemma EmptyQueryShowsAll(s: seq<Notification>)
    ensures FilterNotifications(s, "", AllStatuses) == s
  {
    FilterKeepsAll(s, n => Shown(n, "", AllStatuses));
  }

  // ---------------------------------------------------------------------------
  // Duplicate
  // ---------------------------------------------------------------------------

  /** The id of a duplicate: `'NOT' + Date.now()`, the clock reading passed in as `nowMillis`. */
  function DuplicateId(nowMillis: nat): (id: string)
    ensures |id| >= 4 && id[..3] == "NOT"
    ensures AllDigits(id[3..]) && DigitsValue(id[3..]) == nowMillis
  {
    "NOT" + NatToString(nowMillis)
  }

  /**
   `handleDuplicate(n)`: a draft copy of `n`, never sent, with a fresh id and
   the copy marker on its title, is put in front of the unchanged store.
   */
  function Duplicate(s: seq<Notification>, n: Notification, nowMillis: nat): (r: seq<Notification>)
    ensures |r| == |s| + 1
    ensures r[1..] == s
    ensures r[0].id == DuplicateId(nowMillis)
    ensures r[0].title == n.title + CopySuffix
    ensures r[0].status == "draft" && r[0].sentAt == None
    ensures && r[0].message == n.message && r[0].kind == n.kind && r[0].audience == n.audience
            && r[0].readCount == n.readCount && r[0].totalRecipients == n.totalRecipients
  {
    [n.(id := DuplicateId(nowMillis), title := n.title + CopySuffix, status := "draft", sentAt := None)] + s
  }

  /** Duplicating keeps every notification the store had, the original included. */
  lemma DuplicateKeepsOriginals(s: seq<Notification>, n: Notification, nowMillis: nat)
    ensures forall m :: m in s ==> m in Duplicate(s, n, nowMillis)
  {
  }

  /**
   The copy is found by every search that found the original through its title,
   and it is listed under the `"draft"` selector.
   */
  lemma CopyFoundByTitleSearch(s: seq<Notification>, n: Notification, nowMillis: nat, term: string)
    requires IncludesIgnoringCase(n.title, term)
    ensures var copy := Duplicate(s, n, nowMillis)[0];
            && Shown(copy, term, AllStatuses)
            && Shown(copy, term, "draft")
  {
    LowerConcat(n.title, CopySuffix);
    ContainsExtend(Lower(n.title), Lower(CopySuffix), Lower(term));
  }

  // ---------------------------------------------------------------------------
  // Edit
  // ---------------------------------------------------------------------------

  /** The compose/edit form: the only four fields a user can edit. */
  datatype ComposeForm = ComposeForm(title: string, kind: string, audience: string, message: string)

  /** `handleEdit(n)`: the form is loaded from the notification being edited. */
  function LoadForm(n: Notification): (f: ComposeForm)
    ensures f.title == n.title && f.kind == n.kind && f.audience == n.audience && f.message == n.message
  {
    ComposeForm(n.title, n.kind, n.audience, n.message)
  }

  /** `{ ...n, title, type, audience, message }` taken from the edit form. */
  function Merge(n: Notification, f: ComposeForm): (m: Notification)
    ensures LoadForm(m) == f
    ensures m.(title := n.title, kind := n.kind, audience := n.audience, message := n.message) == n
  {
    n.(title := f.title, kind := f.kind, audience := f.audience, message := f.message)
  }

  /**
   `handleEditSubmit`: with a notification open for editing, every notification
   carrying its id takes the form's title, type, audience and message and keeps
   everything else; with none open, nothing happens.
   */
  function EditSubmit(s: seq<Notification>, editing: Option<Notification>, form: ComposeForm): (r: seq<Notification>)
    ensures |r| == |s|
    ensures editing.None? ==> r == s
    ensures forall i :: 0 <= i < |s| ==>
              && r[i].id == s[i].id && r[i].status == s[i].status && r[i].sentAt == s[i].sentAt
              && r[i].readCount == s[i].readCount && r[i].totalRecipients == s[i].totalRecipients
    ensures editing.Some? ==> forall i :: 0 <= i < |s| && s[i].id == editing.value.id ==>
              && r[i].title == form.title && r[i].kind == form.kind
              && r[i].audience == form.audience && r[i].message == form.message
    ensures forall i :: 0 <= i < |s| && (editing.None? || s[i].id != editing.value.id) ==> r[i] == s[i]
  {
    match editing
    case None => s
    case Some(e) => UpdateWhere(s, NotificationId, e.id, (m: Notification) => Merge(m, form))
  }

  /** Opening a notification for editing and saving the form untouched leaves a store with unique ids as it was. */
  lemma EditUnchangedIsNoop(s: seq<Notification>, i: nat)
    requires i < |s|
    requires UniqueKeys(s, NotificationId)
    ensures EditSubmit(s, Some(s[i]), LoadForm(s[i])) == s
  {
    var r := EditSubmit(s, Some(s[i]), LoadForm(s[i]));
    forall j | 0 <= j < |s|
      ensures r[j] == s[j]
    {
      assert j != i ==> NotificationId(s[j]) != NotificationId(s[i]);
    }
  }
}
