/** The Users page: a filterable user list, a validated add-user form, and activate/block actions. */
module Users {
  import opened Optional
  import opened Text
  import opened Ids
  import opened Collection

  /** The closed set of user statuses (`'active' | 'inactive' | 'blocked'`). */
  datatype UserStatus = Active | Inactive | Blocked
  {
    /** The string the page stores and compares against the status selector. */
    function Name(): string
    {
      match this
      case Active => "active"
      case Inactive => "inactive"
      case Blocked => "blocked"
    }
  }

  datatype User = User(
    id: string,
    name: string,
    email: string,
    phone: string,
    status: UserStatus,
    totalRides: int,
    totalSpent: string,
    joinDate: string)

  function UserId(u: User): string { u.id }

  const IdPrefix: string := "U"

  // ---------------------------------------------------------------------------
  // Form validation (`userSchema`)
  // ---------------------------------------------------------------------------

  /** The raw values of the add-user form, as the inputs hold them. */
  datatype UserForm = UserForm(name: string, email: string, phone: string, status: string)

  /** One message per failing rule of the schema. */
  datatype FormError = NameTooShort | InvalidEmail | PhoneTooShort | InvalidStatus

  /** The values the schema lets through: the status is narrowed to the two creatable ones. */
  datatype UserInput = UserInput(name: string, email: string, phone: string, status: UserStatus)

  datatype Validation = Accepted(input: UserInput) | Rejected(errors: seq<FormError>)

  /** `z.enum(['active', 'inactive'])`. */
  function CreatableStatus(s: string): (r: Option<UserStatus>)
    ensures r.Some? <==> s in {"active", "inactive"}
    ensures r.Some? ==> r.value.Name() == s && r.value != Blocked
  {
    if s == "active" then Some(Active)
    else if s == "inactive" then Some(Inactive)
    else None
  }

  /**
   `userSchema` as the resolver applies it: every rule is checked and every
   failure is reported, in schema order. `emailOk` is the outcome of the
   library's e-mail format check.
   */
  function Validate(form: UserForm, emailOk: bool): (r: Validation)
    ensures r.Accepted? <==>
              |form.name| >= 2 && emailOk && |form.phone| >= 6 && form.status in {"active", "inactive"}
    ensures r.Accepted? ==>
              && r.input.name == form.name && r.input.email == form.email && r.input.phone == form.phone
              && r.input.status.Name() == form.status
              && r.input.status != Blocked
    ensures r.Rejected? ==>
              && |r.errors| > 0
              && (NameTooShort in r.errors <==> |form.name| < 2)
              && (InvalidEmail in r.errors <==> !emailOk)
              && (PhoneTooShort in r.errors <==> |form.phone| < 6)
              && (InvalidStatus in r.errors <==> form.status !in {"active", "inactive"})
  {
    var errors :=
      (if |form.name| < 2 then [NameTooShort] else [])
      + (if emailOk then [] else [InvalidEmail])
      + (if |form.phone| < 6 then [PhoneTooShort] else [])
      + (if CreatableStatus(form.status).None? then [InvalidStatus] else []);
    if |errors| == 0 then
      Accepted(UserInput(form.name, form.email, form.phone, CreatableStatus(form.status).value))
    else
      Rejected(errors)
  }

  // ---------------------------------------------------------------------------
  // Create
  // ---------------------------------------------------------------------------

  /** `onSubmit`: appends a user numbered after the store's length, with no rides and nothing spent. */
  function CreateUser(s: seq<User>, input: UserInput, isoNow: string): (r: seq<User>)
    ensures |r| == |s| + 1
    ensures r[..|s|] == s
    ensures r[|s|].id == SequentialId(IdPrefix, |s|)
    ensures r[|s|].name == input.name && r[|s|].email == input.email && r[|s|].phone == input.phone
    ensures r[|s|].status == input.status
    ensures r[|s|].totalRides == 0 && r[|s|].totalSpent == "$0.00"
    ensures r[|s|].joinDate == DatePart(isoNow)
  {
    s + [User(SequentialId(IdPrefix, |s|), input.name, input.email, input.phone, input.status,
              0, "$0.00", DatePart(isoNow))]
  }

  /**
   `form.handleSubmit(onSubmit)`: the store grows by one exactly when the form
   validates, and a user created this way is never blocked.
   */
  function SubmitForm(s: seq<User>, form: UserForm, emailOk: bool, isoNow: string): (r: seq<User>)
    ensures Validate(form, emailOk).Rejected? ==> r == s
    ensures Validate(form, emailOk).Accepted? ==> |r| == |s| + 1 && r[..|s|] == s
    ensures |r| == |s| + 1 ==> |form.name| >= 2 && |form.phone| >= 6 && r[|s|].status != Blocked
    ensures |r| == |s| + 1 ==> r[|s|].name == form.name && r[|s|].email == form.email && r[|s|].phone == form.phone
    ensures |r| == |s| + 1 ==> r[|s|].status.Name() == form.status
  {
    match Validate(form, emailOk)
    case Accepted(input) => CreateUser(s, input, isoNow)
    case Rejected(_) => s
  }

  /** On a store holding U001..Un, creating keeps the ids sequential and unique. */
  lemma CreateKeepsIdsUnique(s: seq<User>, input: UserInput, isoNow: string)
    requires IdsAreSequential(s, UserId, IdPrefix)
    ensures IdsAreSequential(CreateUser(s, input, isoNow), UserId, IdPrefix)
    ensures UniqueKeys(CreateUser(s, input, isoNow), UserId)
  {
    var r := CreateUser(s, input, isoNow);
    assert r == s + [r[|s|]];
    CreateOnSequentialStore(s, UserId, IdPrefix, r[|s|]);
  }

  // ---------------------------------------------------------------------------
  // Status change
  // ---------------------------------------------------------------------------

  /** `handleStatusChange(userId, newStatus)`: only the status of the users with that id changes. */
  function ChangeStatus(s: seq<User>, id: string, status: UserStatus): (r: seq<User>)
    ensures |r| == |s|
    ensures forall i :: 0 <= i < |s| && s[i].id == id ==> r[i].status == status && r[i].(status := s[i].status) == s[i]
    ensures forall i :: 0 <= i < |s| && s[i].id != id ==> r[i] == s[i]
  {
    UpdateWhere(s, UserId, id, (u: User) => u.(status := status))
  }

  /** Repeating a status change changes nothing more. */
  lemma ChangeStatusIdempotent(s: seq<User>, id: string, status: UserStatus)
    ensures ChangeStatus(ChangeStatus(s, id, status), id, status) == ChangeStatus(s, id, status)
  {
  }

  /** The row menu enables Activate only for users that are not active. */
  predicate ActivateOffered(u: User) { u.status != Active }

  /** The row menu enables Block User only for users that are not blocked. */
  predicate BlockOffered(u: User) { u.status != Blocked }

  /**
   An enabled menu action always changes the user it is offered on, and afterwards
   the same action is no longer offered for that user.
   */
  lemma OfferedActionTakesEffect(s: seq<User>, i: nat, status: UserStatus)
    requires i < |s|
    requires status == Active || status == Blocked
    requires if status == Active then ActivateOffered(s[i]) else BlockOffered(s[i])
    ensures ChangeStatus(s, s[i].id, status)[i] != s[i]
    ensures var u := ChangeStatus(s, s[i].id, status)[i];
            if status == Active then !ActivateOffered(u) else !BlockOffered(u)
  {
  }

  // ---------------------------------------------------------------------------
  // Filter
  // ---------------------------------------------------------------------------

  /** A user is listed when name or email contains the term and the status is selected. */
  function Shown(u: User, term: string, selected: string): (r: bool)
    ensures r ==> StatusMatches(u.status.Name(), selected)
    ensures |term| == 0 ==> (r <==> StatusMatches(u.status.Name(), selected))
    ensures r ==> |term| <= |u.name| || |term| <= |u.email|
  {
    && (IncludesIgnoringCase(u.name, term) || IncludesIgnoringCase(u.email, term))
    && StatusMatches(u.status.Name(), selected)
  }

  /** `filteredUsers`. */
  function FilterUsers(s: seq<User>, term: string, selected: string): (r: seq<User>)
    ensures SubsequenceOf(r, s)
    ensures forall u :: u in r <==> u in s && Shown(u, term, selected)
    ensures forall u :: multiset(r)[u] == if Shown(u, term, selected) then multiset(s)[u] else 0
    ensures selected != AllStatuses ==> forall i :: 0 <= i < |r| ==> r[i].status.Name() == selected
  {
    var keep := u => Shown(u, term, selected);
    FilterIsSubsequence(s, keep);
    FilterMembers(s, keep);
    FilterMultiplicity(s, keep);
    Filter(s, keep)
  }

  /** With an empty search box and the `"all"` selector the whole store is listed. */
  lemma EmptyQueryShowsAll(s: seq<User>)
    ensures FilterUsers(s, "", AllStatuses) == s
  {
    FilterKeepsAll(s, u => Shown(u, "", AllStatuses));
  }
}
