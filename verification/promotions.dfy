/** The Promotions page: a filterable promotion list with create, edit and delete dialogs. */
module Promotions {
  import opened Optional
  import opened Text
  import opened Ids
  import opened Collection

  datatype DiscountKind = Percentage | Fixed

  datatype Promotion = Promotion(
    id: string,
    code: string,
    title: string,
    description: string,
    kind: DiscountKind,
    value: string,
    minAmount: string,
    maxDiscount: string,
    status: string,
    usageCount: int,
    maxUsage: int,
    startDate: string,
    endDate: string)

  function PromotionId(p: Promotion): string { p.id }

  const IdPrefix: string := "PROMO"

  /** The create dialog's form state `newPromotion` as initialised and reset; its id is replaced on create. */
  const BlankForm: Promotion :=
    Promotion("", "", "", "", Percentage, "", "", "", "active", 0, 100, "", "")

  /**
   The create dialog's controls: a text input per listed field (all but Max
   Usage), the type and status selectors; none edits the id or the usage count.
   */
  datatype FormInput =
    | CodeInput(text: string)
    | TitleInput(text: string)
    | DescriptionInput(text: string)
    | ValueInput(text: string)
    | MinAmountInput(text: string)
    | MaxDiscountInput(text: string)
    | StartDateInput(text: string)
    | EndDateInput(text: string)
    | KindInput(kind: DiscountKind)
    | StatusInput(text: string)

  function ApplyInput(f: Promotion, e: FormInput): Promotion
  {
    match e
    case CodeInput(t) => f.(code := t)
    case TitleInput(t) => f.(title := t)
    case DescriptionInput(t) => f.(description := t)
    case ValueInput(t) => f.(value := t)
    case MinAmountInput(t) => f.(minAmount := t)
    case MaxDiscountInput(t) => f.(maxDiscount := t)
    case StartDateInput(t) => f.(startDate := t)
    case EndDateInput(t) => f.(endDate := t)
    case KindInput(k) => f.(kind := k)
    case StatusInput(t) => f.(status := t)
  }

  /** Edits in the dialog never touch the usage count, and the status only through its selector. */
  function ApplyInputs(f: Promotion, es: seq<FormInput>): (r: Promotion)
    ensures r.usageCount == f.usageCount && r.id == f.id
    ensures (forall i :: 0 <= i < |es| ==> !es[i].StatusInput?) ==> r.status == f.status
    decreases |es|
  {
    if |es| == 0 then f else ApplyInputs(ApplyInput(f, es[0]), es[1..])
  }

  // ---------------------------------------------------------------------------
  // Create
  // ---------------------------------------------------------------------------

  /**
   `handleCreatePromotion`: appends the form's promotion under the id PROMO
   followed by the store's length plus one, padded to three digits.
   */
  function CreatePromotion(s: seq<Promotion>, form: Promotion): (r: seq<Promotion>)
    ensures |r| == |s| + 1
    ensures r[..|s|] == s
    ensures r[|s|].id == SequentialId(IdPrefix, |s|)
    ensures r[|s|].(id := form.id) == form
  {
    s + [form.(id := SequentialId(IdPrefix, |s|))]
  }

  /**
   The new id is PROMO and the counter: three digits while the store holds
   fewer than 999 promotions, all digits (none cut off) from then on.
   */
  lemma CreatedIdShape(s: seq<Promotion>, form: Promotion)
    ensures var id := CreatePromotion(s, form)[|s|].id;
            && IdPrefix <= id
            && SequenceNumber(IdPrefix, id) == Some(|s| + 1)
            && (|s| + 1 < 1000 ==> |id| == |IdPrefix| + 3)
            && (|s| + 1 >= 1000 ==> id[|IdPrefix|..] == NatToString(|s| + 1))
  {
    SequentialIdRoundTrip(IdPrefix, |s|);
  }

  /**
   A promotion created through the dialog starts unused; left on its default
   status it is active.
   */
  lemma CreatedPromotionStartsUnused(s: seq<Promotion>, typed: seq<FormInput>)
    ensures CreatePromotion(s, ApplyInputs(BlankForm, typed))[|s|].usageCount == 0
    ensures (forall i :: 0 <= i < |typed| ==> !typed[i].StatusInput?) ==>
              CreatePromotion(s, ApplyInputs(BlankForm, typed))[|s|].status == "active"
  {
    var form := ApplyInputs(BlankForm, typed);
    assert CreatePromotion(s, form)[|s|].(id := form.id) == form;
  }

  /** On a store holding PROMO001..PROMOn, creating keeps the ids sequential and unique. */
  lemma CreateKeepsIdsUnique(s: seq<Promotion>, form: Promotion)
    requires IdsAreSequential(s, PromotionId, IdPrefix)
    ensures IdsAreSequential(CreatePromotion(s, form), PromotionId, IdPrefix)
    ensures UniqueKeys(CreatePromotion(s, form), PromotionId)
  {
    var r := CreatePromotion(s, form);
    assert r == s + [r[|s|]];
    CreateOnSequentialStore(s, PromotionId, IdPrefix, r[|s|]);
  }

  // ---------------------------------------------------------------------------
  // Update and delete
  // ---------------------------------------------------------------------------

  /**
   `handleUpdatePromotion`: with a promotion open in the edit dialog, every
   promotion carrying its id is replaced by the edited one; with none, nothing happens.
   */
  function UpdatePromotion(s: seq<Promotion>, editing: Option<Promotion>): (r: seq<Promotion>)
    ensures |r| == |s|
    ensures forall i :: 0 <= i < |s| ==> r[i].id == s[i].id
    ensures editing.None? ==> r == s
    ensures editing.Some? ==> forall i :: 0 <= i < |s| && s[i].id == editing.value.id ==> r[i] == editing.value
    ensures forall i :: 0 <= i < |s| && (editing.None? || s[i].id != editing.value.id) ==> r[i] == s[i]
  {
    match editing
    case None => s
    case Some(e) => UpdateWhere(s, PromotionId, e.id, (_: Promotion) => e)
  }

  /** Opening a promotion for editing and saving it unchanged leaves a store with unique ids as it was. */
  lemma UpdateUnchangedIsNoop(s: seq<Promotion>, i: nat)
    requires i < |s|
    requires UniqueKeys(s, PromotionId)
    ensures UpdatePromotion(s, Some(s[i])) == s
  {
    var r := UpdatePromotion(s, Some(s[i]));
    forall j | 0 <= j < |s|
      ensures r[j] == s[j]
    {
      assert j != i ==> PromotionId(s[j]) != PromotionId(s[i]);
    }
  }

  /** `!deletePromotionId`: JavaScript treats both a null and an empty id as "no target". */
  function NoTarget(target: Option<string>): (r: bool)
    ensures target.None? ==> r
    ensures target == Some("") ==> r
    ensures target.Some? && |target.value| > 0 ==> !r
  {
    target.None? || target.value == ""
  }

  /**
   `handleDeletePromotion`: removes every promotion carrying the target id and
   keeps the rest in order, every copy of them; without a target the store is
   unchanged.
   */
  function DeletePromotion(s: seq<Promotion>, target: Option<string>): (r: seq<Promotion>)
    ensures NoTarget(target) ==> r == s
    ensures SubsequenceOf(r, s)
    ensures !NoTarget(target) ==> forall p :: p in r <==> p in s && p.id != target.value
    ensures !NoTarget(target) ==> forall p :: multiset(r)[p] == if p.id != target.value then multiset(s)[p] else 0
  {
    if NoTarget(target) then
      SubsequenceReflexive(s);
      s
    else
      var keep := (p: Promotion) => p.id != target.value;
      FilterIsSubsequence(s, keep);
      FilterMembers(s, keep);
      FilterMultiplicity(s, keep);
      Filter(s, keep)
  }

  /** On a store with unique ids, deleting the promotion at `j` removes exactly that position. */
  lemma DeleteRemovesOne(s: seq<Promotion>, j: nat)
    requires j < |s| && s[j].id != ""
    requires UniqueKeys(s, PromotionId)
    ensures DeletePromotion(s, Some(s[j].id)) == s[..j] + s[j + 1..]
  {
    FilterRemovesOne(s, (p: Promotion) => p.id != s[j].id, j);
  }

  /**
   The create handler can re-issue an id that is still in use: on a store of
   PROMO001..PROMOn (n >= 2), deleting any promotion but the last and creating
   again produces a second promotion with the last one's id.
   */
  lemma DeleteThenCreateDuplicatesId(s: seq<Promotion>, j: nat, form: Promotion)
    requires IdsAreSequential(s, PromotionId, IdPrefix)
    requires j + 1 < |s|
    ensures var r := CreatePromotion(DeletePromotion(s, Some(s[j].id)), form);
            && |r| == |s|
            && r[|s| - 2] == s[|s| - 1]
            && r[|s| - 1].id == s[|s| - 1].id
  {
    assert IdPrefix <= s[j].id;
    SequentialIdsAreUnique(s, PromotionId, IdPrefix);
    DeleteRemovesOne(s, j);
    var kept := DeletePromotion(s, Some(s[j].id));
    assert |kept| == |s| - 1 && kept[|s| - 2] == s[|s| - 1];
    var r := CreatePromotion(kept, form);
    assert r[|s| - 1].id == SequentialId(IdPrefix, |s| - 1) == s[|s| - 1].id;
  }

  // ---------------------------------------------------------------------------
  // Filter
  // ---------------------------------------------------------------------------

  /** A promotion is listed when code or title contains the term and the status is selected. */
  function Shown(p: Promotion, term: string, selected: string): (r: bool)
    ensures r ==> StatusMatches(p.status, selected)
    ensures |term| == 0 ==> (r <==> StatusMatches(p.status, selected))
    ensures r ==> |term| <= |p.code| || |term| <= |p.title|
  {
    && (IncludesIgnoringCase(p.code, term) || IncludesIgnoringCase(p.title, term))
    && StatusMatches(p.status, selected)
  }

  /** `filteredPromotions`. */
  function FilterPromotions(s: seq<Promotion>, term: string, selected: string): (r: seq<Promotion>)
    ensures SubsequenceOf(r, s)
    ensures forall p :: p in r <==> p in s && Shown(p, term, selected)
    ensures forall p :: multiset(r)[p] == if Shown(p, term, selected) then multiset(s)[p] else 0
    ensures selected != AllStatuses ==> forall i :: 0 <= i < |r| ==> r[i].status == selected
  {
    var keep := p => Shown(p, term, selected);
    FilterIsSubsequence(s, keep);
    FilterMembers(s, keep);
    FilterMultiplicity(s, keep);
    Filter(s, keep)
  }

  /** With an empty search box and the `"all"` selector the whole store is listed. */
  lemma EmptyQueryShowsAll(s: seq<Promotion>)
    ensures FilterPromotions(s, "", AllStatuses) == s
  {
    FilterKeepsAll(s, p => Shown(p, "", AllStatuses));
  }
}
