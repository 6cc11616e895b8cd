/** The Drivers page: a filterable driver list, an add-driver dialog, and approve/reject actions. */
module Drivers {
  import opened Text
  import opened Ids
  import opened Collection

  datatype Driver = Driver(
    id: string,
    name: string,
    email: string,
    phone: string,
    status: string,
    vehicle: string,
    rating: real,
    totalRides: int,
    earnings: string,
    joinDate: string)

  function DriverId(d: Driver): string { d.id }

  const IdPrefix: string := "D"

  // ---------------------------------------------------------------------------
  // Add-driver dialog
  // ---------------------------------------------------------------------------

  /** The dialog's form state `newDriver`. */
  datatype DriverForm = DriverForm(name: string, email: string, phone: string, vehicle: string, status: string)

  /** The form as the page initialises it and resets it after every add. */
  const BlankForm: DriverForm := DriverForm("", "", "", "", "pending")

  /** The dialog has an input for each of these fields and none for the status. */
  datatype FormInput =
    | NameInput(text: string)
    | EmailInput(text: string)
    | PhoneInput(text: string)
    | VehicleInput(text: string)

  function ApplyInput(f: DriverForm, e: FormInput): DriverForm
  {
    match e
    case NameInput(t) => f.(name := t)
    case EmailInput(t) => f.(email := t)
    case PhoneInput(t) => f.(phone := t)
    case VehicleInput(t) => f.(vehicle := t)
  }

  /** A sequence of keystrokes into the dialog; whatever is typed, the status is untouched. */
  function ApplyInputs(f: DriverForm, es: seq<FormInput>): (r: DriverForm)
    ensures r.status == f.status
    decreases |es|
  {
    if |es| == 0 then f else ApplyInputs(ApplyInput(f, es[0]), es[1..])
  }

  /**
   `handleAddDriver`: appends a driver numbered after the store's length, with
   no rides, no rating, no earnings, and today's date (`isoNow` split at `T`).
   */
  function AddDriver(s: seq<Driver>, form: DriverForm, isoNow: string): (r: seq<Driver>)
    ensures |r| == |s| + 1
    ensures r[..|s|] == s
    ensures r[|s|].id == SequentialId(IdPrefix, |s|)
    ensures r[|s|].name == form.name && r[|s|].email == form.email
    ensures r[|s|].phone == form.phone && r[|s|].vehicle == form.vehicle
    ensures r[|s|].status == form.status
    ensures r[|s|].rating == 0.0 && r[|s|].totalRides == 0
    ensures r[|s|].earnings == "$0.00"
    ensures r[|s|].joinDate == DatePart(isoNow)
  {
    var d := Driver(SequentialId(IdPrefix, |s|), form.name, form.email, form.phone, form.status,
                    form.vehicle, 0.0, 0, "$0.00", DatePart(isoNow));
    s + [d]
  }

  /** A driver added through the dialog is always pending, since no input edits the status. */
  lemma AddedDriverIsPending(s: seq<Driver>, typed: seq<FormInput>, isoNow: string)
    ensures AddDriver(s, ApplyInputs(BlankForm, typed), isoNow)[|s|].status == "pending"
  {
  }

  /** With five drivers in the store, the next driver added is D006. */
  lemma SixthDriverId(s: seq<Driver>, form: DriverForm, isoNow: string)
    requires |s| == 5
    ensures AddDriver(s, form, isoNow)[5].id == "D006"
  {
    SingleDigitId(IdPrefix, 5);
  }

  /** On a store holding D001..Dn, adding keeps the ids sequential and unique, and the new id is findable. */
  lemma AddKeepsIdsUnique(s: seq<Driver>, form: DriverForm, isoNow: string)
    requires IdsAreSequential(s, DriverId, IdPrefix)
    ensures IdsAreSequential(AddDriver(s, form, isoNow), DriverId, IdPrefix)
    ensures UniqueKeys(AddDriver(s, form, isoNow), DriverId)
  {
    var r := AddDriver(s, form, isoNow);
    assert r == s + [r[|s|]];
    CreateOnSequentialStore(s, DriverId, IdPrefix, r[|s|]);
  }

  // ---------------------------------------------------------------------------
  // Status change
  // ---------------------------------------------------------------------------

  /** `handleStatusChange(id, status)`: only the status of the drivers with that id changes. */
  function ChangeStatus(s: seq<Driver>, id: string, status: string): (r: seq<Driver>)
    ensures |r| == |s|
    ensures forall i :: 0 <= i < |s| && s[i].id == id ==> r[i].status == status && r[i].(status := s[i].status) == s[i]
    ensures forall i :: 0 <= i < |s| && s[i].id != id ==> r[i] == s[i]
  {
    UpdateWhere(s, DriverId, id, (d: Driver) => d.(status := status))
  }

  /** The Approve menu item. */
  function Approve(s: seq<Driver>, id: string): (r: seq<Driver>)
    ensures |r| == |s|
    ensures forall i :: 0 <= i < |s| && s[i].id == id ==> r[i].status == "active" && r[i].(status := s[i].status) == s[i]
    ensures forall i :: 0 <= i < |s| && s[i].id != id ==> r[i] == s[i]
  {
    ChangeStatus(s, id, "active")
  }

  /** The Reject menu item. */
  function Reject(s: seq<Driver>, id: string): (r: seq<Driver>)
    ensures |r| == |s|
    ensures forall i :: 0 <= i < |s| && s[i].id == id ==> r[i].status == "rejected" && r[i].(status := s[i].status) == s[i]
    ensures forall i :: 0 <= i < |s| && s[i].id != id ==> r[i] == s[i]
  {
    ChangeStatus(s, id, "rejected")
  }

  /** Of two status changes to the same driver, the second wins; repeating one changes nothing. */
  lemma ChangeStatusLastWins(s: seq<Driver>, id: string, a: string, b: string)
    ensures ChangeStatus(ChangeStatus(s, id, a), id, b) == ChangeStatus(s, id, b)
    ensures ChangeStatus(ChangeStatus(s, id, a), id, a) == ChangeStatus(s, id, a)
  {
  }

  // ---------------------------------------------------------------------------
  // Filter
  // ---------------------------------------------------------------------------

  /** A driver is listed when name or email (not id or phone) contains the term and the status is selected. */
  function Shown(d: Driver, term: string, selected: string): (r: bool)
    ensures r ==> StatusMatches(d.status, selected)
    ensures |term| == 0 ==> (r <==> StatusMatches(d.status, selected))
    ensures r ==> |term| <= |d.name| || |term| <= |d.email|
  {
    && (IncludesIgnoringCase(d.name, term) || IncludesIgnoringCase(d.email, term))
    && StatusMatches(d.status, selected)
  }

  /** `filteredDrivers`. */
  function FilterDrivers(s: seq<Driver>, term: string, selected: string): (r: seq<Driver>)
    ensures SubsequenceOf(r, s)
    ensures forall d :: d in r <==> d in s && Shown(d, term, selected)
    ensures forall d :: multiset(r)[d] == if Shown(d, term, selected) then multiset(s)[d] else 0
    ensures selected != AllStatuses ==> forall i :: 0 <= i < |r| ==> r[i].status == selected
  {
    var keep := d => Shown(d, term, selected);
    FilterIsSubsequence(s, keep);
    FilterMembers(s, keep);
    FilterMultiplicity(s, keep);
    Filter(s, keep)
  }

  /** With an empty search box and the `"all"` selector the whole store is listed. */
  lemma EmptyQueryShowsAll(s: seq<Driver>)
    ensures FilterDrivers(s, "", AllStatuses) == s
  {
    FilterKeepsAll(s, d => Shown(d, "", AllStatuses));
  }
}
