/** The Support page: a filterable ticket list, a new-ticket dialog, and assign/resolve actions. */
module Support {
  import opened Optional
  import opened Text
  import opened Ids
  import opened Collection

  datatype Ticket = Ticket(
    id: string,
    subject: string,
    user: string,
    userType: string,
    priority: string,
    status: string,
    category: string,
    description: string,
    createdAt: string,
    updatedAt: string,
    assignedTo: Option<string>)

  function TicketId(t: Ticket): string { t.id }

  const IdPrefix: string := "TK"

  /** The signed-in agent's name; the page fixes it. */
  const CurrentAgent: string := "You"

  // ---------------------------------------------------------------------------
  // New-ticket dialog
  // ---------------------------------------------------------------------------

  /** The dialog's form state `newTicket`. */
  datatype TicketForm = TicketForm(
    subject: string,
    user: string,
    userType: string,
    priority: string,
    status: string,
    category: string,
    description: string)

  /** The form as the page initialises it and resets it after every submit. */
  const BlankForm: TicketForm := TicketForm("", "", "passenger", "low", "open", "", "")

  /** The dialog has an input for each of these fields and none for the status. */
  datatype FormInput =
    | SubjectInput(text: string)
    | UserInput(text: string)
    | UserTypeInput(text: string)
    | PriorityInput(text: string)
    | CategoryInput(text: string)
    | DescriptionInput(text: string)

  function ApplyInput(f: TicketForm, e: FormInput): TicketForm
  {
    match e
    case SubjectInput(t) => f.(subject := t)
    case UserInput(t) => f.(user := t)
    case UserTypeInput(t) => f.(userType := t)
    case PriorityInput(t) => f.(priority := t)
    case CategoryInput(t) => f.(category := t)
    case DescriptionInput(t) => f.(description := t)
  }

  /** A sequence of keystrokes into the dialog; whatever is typed, the status is untouched. */
  function ApplyInputs(f: TicketForm, es: seq<FormInput>): (r: TicketForm)
    ensures r.status == f.status
    decreases |es|
  {
    if |es| == 0 then f else ApplyInputs(ApplyInput(f, es[0]), es[1..])
  }

  /**
   `handleCreateTicket`: appends an unassigned ticket numbered after the store's
   length, created and updated at the same minute stamp taken from `isoNow`.
   */
  function CreateTicket(s: seq<Ticket>, form: TicketForm, isoNow: string): (r: seq<Ticket>)
    ensures |r| == |s| + 1
    ensures r[..|s|] == s
    ensures r[|s|].id == SequentialId(IdPrefix, |s|)
    ensures r[|s|].createdAt == r[|s|].updatedAt == MinuteStamp(isoNow)
    ensures r[|s|].assignedTo == None
    ensures && r[|s|].subject == form.subject && r[|s|].user == form.user
            && r[|s|].userType == form.userType && r[|s|].priority == form.priority
            && r[|s|].status == form.status && r[|s|].category == form.category
            && r[|s|].description == form.description
  {
    var now := MinuteStamp(isoNow);
    s + [Ticket(SequentialId(IdPrefix, |s|), form.subject, form.user, form.userType, form.priority,
                form.status, form.category, form.description, now, now, None)]
  }

  /** A ticket created through the dialog is always open, since no input edits the status. */
  lemma CreatedTicketIsOpen(s: seq<Ticket>, typed: seq<FormInput>, isoNow: string)
    ensures CreateTicket(s, ApplyInputs(BlankForm, typed), isoNow)[|s|].status == "open"
  {
  }

  /** On a store holding TK001..TKn, creating keeps the ids sequential and unique. */
  lemma CreateKeepsIdsUnique(s: seq<Ticket>, form: TicketForm, isoNow: string)
    requires IdsAreSequential(s, TicketId, IdPrefix)
    ensures IdsAreSequential(CreateTicket(s, form, isoNow), TicketId, IdPrefix)
    ensures UniqueKeys(CreateTicket(s, form, isoNow), TicketId)
  {
    var r := CreateTicket(s, form, isoNow);
    assert r == s + [r[|s|]];
    CreateOnSequentialStore(s, TicketId, IdPrefix, r[|s|]);
  }

  // ---------------------------------------------------------------------------
  // Assign and resolve
  // ---------------------------------------------------------------------------

  /**
   `handleAssignToMe(id)`: the matching tickets go to the current agent and
   become in-progress whatever their status was, resolved and closed included.
   */
  function AssignToMe(s: seq<Ticket>, id: string, isoNow: string): (r: seq<Ticket>)
    ensures |r| == |s|
    ensures forall i :: 0 <= i < |s| ==> r[i].id == s[i].id
    ensures forall i :: 0 <= i < |s| && s[i].id == id ==>
              && r[i].assignedTo == Some(CurrentAgent)
              && r[i].status == "in-progress"
              && r[i].updatedAt == MinuteStamp(isoNow)
              && r[i].(assignedTo := s[i].assignedTo, status := s[i].status, updatedAt := s[i].updatedAt) == s[i]
    ensures forall i :: 0 <= i < |s| && s[i].id != id ==> r[i] == s[i]
  {
    var now := MinuteStamp(isoNow);
    UpdateWhere(s, TicketId, id,
      (t: Ticket) => t.(assignedTo := Some(CurrentAgent), status := "in-progress", updatedAt := now))
  }

  /** `handleMarkResolved(id)`: the matching tickets become resolved; the assignee is kept. */
  function MarkResolved(s: seq<Ticket>, id: string, isoNow: string): (r: seq<Ticket>)
    ensures |r| == |s|
    ensures forall i :: 0 <= i < |s| ==> r[i].id == s[i].id
    ensures forall i :: 0 <= i < |s| && s[i].id == id ==>
              && r[i].status == "resolved"
              && r[i].updatedAt == MinuteStamp(isoNow)
              && r[i].assignedTo == s[i].assignedTo
              && r[i].(status := s[i].status, updatedAt := s[i].updatedAt) == s[i]
    ensures forall i :: 0 <= i < |s| && s[i].id != id ==> r[i] == s[i]
  {
    var now := MinuteStamp(isoNow);
    UpdateWhere(s, TicketId, id, (t: Ticket) => t.(status := "resolved", updatedAt := now))
  }

  /** Resolving twice within the same minute is resolving once. */
  lemma MarkResolvedIdempotent(s: seq<Ticket>, id: string, isoNow: string)
    ensures MarkResolved(MarkResolved(s, id, isoNow), id, isoNow) == MarkResolved(s, id, isoNow)
  {
  }

  /** Assigning reopens a resolved ticket; resolving after assigning keeps the agent. */
  lemma AssignThenResolve(s: seq<Ticket>, id: string, t1: string, t2: string, i: nat)
    requires i < |s| && s[i].id == id
    ensures AssignToMe(MarkResolved(s, id, t1), id, t2)[i].status == "in-progress"
    ensures MarkResolved(AssignToMe(s, id, t1), id, t2)[i].status == "resolved"
    ensures MarkResolved(AssignToMe(s, id, t1), id, t2)[i].assignedTo == Some(CurrentAgent)
  {
  }

  // ---------------------------------------------------------------------------
  // Filter
  // ---------------------------------------------------------------------------

  /** A ticket is listed when subject, user or id contains the term and the status is selected. */
  function Shown(t: Ticket, term: string, selected: string): (r: bool)
    ensures r ==> StatusMatches(t.status, selected)
    ensures |term| == 0 ==> (r <==> StatusMatches(t.status, selected))
    ensures r ==> |term| <= |t.subject| || |term| <= |t.user| || |term| <= |t.id|
  {
    && (IncludesIgnoringCase(t.subject, term)
        || IncludesIgnoringCase(t.user, term)
        || IncludesIgnoringCase(t.id, term))
    && StatusMatches(t.status, selected)
  }

  /** `filteredTickets`. */
  function FilterTickets(s: seq<Ticket>, term: string, selected: string): (r: seq<Ticket>)
    ensures SubsequenceOf(r, s)
    ensures forall t :: t in r <==> t in s && Shown(t, term, selected)
    ensures forall t :: multiset(r)[t] == if Shown(t, term, selected) then multiset(s)[t] else 0
    ensures selected != AllStatuses ==> forall i :: 0 <= i < |r| ==> r[i].status == selected
  {
    var keep := t => Shown(t, term, selected);
    FilterIsSubsequence(s, keep);
    FilterMembers(s, keep);
    FilterMultiplicity(s, keep);
    Filter(s, keep)
  }

  /** With an empty search box and the `"all"` selector the whole store is listed. */
  lemma EmptyQueryShowsAll(s: seq<Ticket>)
    ensures FilterTickets(s, "", AllStatuses) == s
  {
    FilterKeepsAll(s, t => Shown(t, "", AllStatuses));
  }
}
