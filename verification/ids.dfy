/**
 The sequential identifiers every create handler assigns:
 a page prefix followed by `String(store.length + 1).padStart(3, '0')`.
 */
module Ids {
  import opened Optional
  import opened Text

  /** The digits part of a generated id: the counter, zero-padded to three digits. */
  function PaddedCounter(n: nat): (r: string)
    ensures AllDigits(r)
    ensures n < 1000 ==> |r| == 3
    ensures n >= 1000 ==> r == NatToString(n)
  {
    NatToStringWidth(n);
    PadStart(NatToString(n), 3, '0')
  }

  /** The id a create handler gives the record it appends to a store of `count` records. */
  function SequentialId(prefix: string, count: nat): (id: string)
    ensures prefix <= id
    ensures count + 1 < 1000 ==> |id| == |prefix| + 3
    ensures count + 1 >= 1000 ==> id == prefix + NatToString(count + 1)
  {
    prefix + PaddedCounter(count + 1)
  }

  /** Reads the counter back out of an id of the form `prefix` + digits. */
  function SequenceNumber(prefix: string, id: string): (r: Option<nat>)
    ensures r.Some? ==> prefix <= id && |id| > |prefix| && AllDigits(id[|prefix|..])
  {
    if prefix <= id && |id| > |prefix| && AllDigits(id[|prefix|..]) then
      Some(DigitsValue(id[|prefix|..]))
    else
      None
  }

  /** The padded counter reads back as the counter. */
  lemma PaddedCounterValue(n: nat)
    ensures DigitsValue(PaddedCounter(n)) == n
  {
    var s := NatToString(n);
    var r := PaddedCounter(n);
    var z := r[..|r| - |s|];
    assert r == z + s;
    DigitsValueLeadingZeros(z, s);
  }

  /** A generated id reads back as `count + 1`: nothing is lost to the padding. */
  lemma SequentialIdRoundTrip(prefix: string, count: nat)
    ensures SequenceNumber(prefix, SequentialId(prefix, count)) == Some(count + 1)
  {
    var id := SequentialId(prefix, count);
    assert id[|prefix|..] == PaddedCounter(count + 1);
    PaddedCounterValue(count + 1);
  }

  /** Two store sizes never yield the same id under one prefix. */
  lemma SequentialIdInjective(prefix: string, m: nat, n: nat)
    requires SequentialId(prefix, m) == SequentialId(prefix, n)
    ensures m == n
  {
    SequentialIdRoundTrip(prefix, m);
    SequentialIdRoundTrip(prefix, n);
  }

  /** For the first nine records the id is the prefix, two zeros and one digit. */
  lemma SingleDigitId(prefix: string, count: nat)
    requires count + 1 < 10
    ensures SequentialId(prefix, count) == prefix + "00" + [DigitChar(count + 1)]
  {
    assert NatToString(count + 1) == [DigitChar(count + 1)];
    assert Repeat('0', 2) == "00";
  }
}
