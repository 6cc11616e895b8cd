/** The Payments page: a read-only, filterable payment list and the plain-text receipt download. */
module Payments {
  import opened Optional
  import opened Text
  import opened Collection

  datatype Payment = Payment(
    id: string,
    bookingId: string,
    user: string,
    driver: string,
    amount: string,
    commission: string,
    driverEarning: string,
    paymentMethod: string,
    status: string,
    date: string)

  // ---------------------------------------------------------------------------
  // Filter
  // ---------------------------------------------------------------------------

  /** A payment is listed when user, driver or id contains the term and the status is selected. */
  function Shown(p: Payment, term: string, selected: string): (r: bool)
    ensures r ==> StatusMatches(p.status, selected)
    ensures |term| == 0 ==> (r <==> StatusMatches(p.status, selected))
    ensures r ==> |term| <= |p.user| || |term| <= |p.driver| || |term| <= |p.id|
  {
    && (IncludesIgnoringCase(p.user, term)
        || IncludesIgnoringCase(p.driver, term)
        || IncludesIgnoringCase(p.id, term))
    && StatusMatches(p.status, selected)
  }

  /** `filteredPayments`, over any list of payments. */
  function FilterPayments(s: seq<Payment>, term: string, selected: string): (r: seq<Payment>)
    ensures SubsequenceOf(r, s)
    ensures forall p :: p in r <==> p in s && Shown(p, term, selected)
    ensures forall p :: multiset(r)[p] == if Shown(p, term, selected) then multiset(s)[p] else 0
    ensures selected != AllStatuses ==> forall i :: 0 <= i < |r| ==> r[i].status == selected
  {
    var keep := p => Shown(p, term, selected);
    FilterIsSubsequence(s, keep);
    FilterMembers(s, keep);
    FilterMultiplicity(s, keep);
    Filter(s, keep)
  }

  /** With an empty search box and the `"all"` selector every payment is listed. */
  lemma EmptyQueryShowsAll(s: seq<Payment>)
    ensures FilterPayments(s, "", AllStatuses) == s
  {
    FilterKeepsAll(s, p => Shown(p, "", AllStatuses));
  }

  // ---------------------------------------------------------------------------
  // Receipt
  // ---------------------------------------------------------------------------

  /** The nine labels of the receipt, in order. */
  const ReceiptLabels: seq<string> := [
    "Receipt for ", "Date: ", "User: ", "Driver: ", "Amount: ",
    "Commission: ", "Driver Earning: ", "Payment Method: ", "Status: "
  ]

  /** The payment fields the receipt reports, in label order; the booking id is not among them. */
  function ReceiptFields(p: Payment): (r: seq<string>)
    ensures |r| == |ReceiptLabels|
  {
    [p.id, p.date, p.user, p.driver, p.amount, p.commission, p.driverEarning, p.paymentMethod, p.status]
  }

  function ReceiptLines(p: Payment): (r: seq<string>)
    ensures |r| == |ReceiptLabels|
    ensures forall i :: 0 <= i < |r| ==> ReceiptLabels[i] <= r[i]
  {
    seq(|ReceiptLabels|, i requires 0 <= i < |ReceiptLabels| => ReceiptLabels[i] + ReceiptFields(p)[i])
  }

  /** The text of the receipt file: one labelled line per field, joined by newlines, none at the end. */
  function ReceiptText(p: Payment): (r: string)
    ensures ReceiptLabels[0] + p.id <= r
    ensures |r| >= 8 + |p.status| && r[|r| - |p.status| - 8..] == ReceiptLabels[8] + p.status
    ensures FieldsOnOneLine(p) ==> SplitLines(r) == ReceiptLines(p) && ParseReceipt(r) == Some(ReceiptFields(p))
  {
    var lines := ReceiptLines(p);
    var text := JoinLines(lines);
    JoinEndsWithLast(lines);
    assert ReceiptFields(p)[0] == p.id && ReceiptFields(p)[8] == p.status;
    assert lines[8] == ReceiptLabels[8] + p.status;
    assert lines[0] == ReceiptLabels[0] + p.id;
    if FieldsOnOneLine(p) then
      ReceiptLinesOnOneLine(p);
      SplitJoin(lines);
      ParseReceiptLines(p, text);
      text
    else
      text
  }

  /** `${payment.id}_receipt.txt`. */
  function ReceiptFileName(p: Payment): (name: string)
    ensures p.id <= name
    ensures |name| == |p.id| + 12
    ensures name[|p.id|..] == "_receipt.txt"
  {
    p.id + "_receipt.txt"
  }

  /** Reads a receipt back: nine lines, each starting with its label, give the nine field values. */
  function ParseReceipt(text: string): (r: Option<seq<string>>)
    ensures r.Some? ==> |r.value| == |ReceiptLabels|
  {
    var lines := SplitLines(text);
    if |lines| == |ReceiptLabels| && forall i :: 0 <= i < |lines| ==> ReceiptLabels[i] <= lines[i] then
      Some(seq(|lines|, i requires 0 <= i < |lines| && ReceiptLabels[i] <= lines[i] => lines[i][|ReceiptLabels[i]|..]))
    else
      None
  }

  predicate FieldsOnOneLine(p: Payment)
  {
    forall i :: 0 <= i < |ReceiptFields(p)| ==> NoNewline(ReceiptFields(p)[i])
  }

  /**
   When no field holds a newline, the receipt splits into exactly nine lines,
   line i starting with label i, and reading it back recovers every field.
   */
  lemma ReceiptRoundTrip(p: Payment)
    requires FieldsOnOneLine(p)
    ensures SplitLines(ReceiptText(p)) == ReceiptLines(p)
    ensures |SplitLines(ReceiptText(p))| == 9
    ensures forall i :: 0 <= i < 9 ==> ReceiptLabels[i] <= SplitLines(ReceiptText(p))[i]
    ensures ParseReceipt(ReceiptText(p)) == Some(ReceiptFields(p))
  {
  }

  lemma ReceiptLinesOnOneLine(p: Payment)
    requires FieldsOnOneLine(p)
    ensures forall i :: 0 <= i < |ReceiptLines(p)| ==> NoNewline(ReceiptLines(p)[i])
  {
    var lines := ReceiptLines(p);
    forall i | 0 <= i < |lines|
      ensures NoNewline(lines[i])
    {
      assert NoNewline(ReceiptLabels[i]);
      assert NoNewline(ReceiptFields(p)[i]);
    }
  }

  lemma ParseReceiptLines(p: Payment, text: string)
    requires SplitLines(text) == ReceiptLines(p)
    ensures ParseReceipt(text) == Some(ReceiptFields(p))
  {
    var lines := ReceiptLines(p);
    var parsed := ParseReceipt(text);
    assert parsed.Some?;
    forall i | 0 <= i < |lines|
      ensures parsed.value[i] == ReceiptFields(p)[i]
    {
      assert lines[i][|ReceiptLabels[i]|..] == ReceiptFields(p)[i];
    }
    assert parsed.value == ReceiptFields(p);
  }

  /** The receipt never ends with a newline when the status holds none. */
  lemma ReceiptHasNoTrailingNewline(p: Payment)
    requires NoNewline(p.status)
    ensures |ReceiptText(p)| > 0 && ReceiptText(p)[|ReceiptText(p)| - 1] != '\n'
  {
    var lines := ReceiptLines(p);
    JoinEndsWithLast(lines);
    var last := lines[8];
    assert ReceiptLabels[8] == "Status: " && ReceiptFields(p)[8] == p.status;
    assert last == "Status: " + p.status;
    assert last[|last| - 1] != '\n';
  }

  /** A joined text ends with its last line. */
  lemma {:induction false} JoinEndsWithLast(lines: seq<string>)
    requires |lines| >= 1
    ensures var t := JoinLines(lines);
            var last := lines[|lines| - 1];
            |last| <= |t| && t[|t| - |last|..] == last
    decreases |lines|
  {
    if |lines| > 1 {
      JoinEndsWithLast(lines[1..]);
    }
  }
}
