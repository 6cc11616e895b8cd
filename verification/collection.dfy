/**
 The pattern every management page repeats over its store, an ordered
 sequence of records: the search-and-status filter (`store.filter(...)`),
 the map-by-id update (`store.map(r => r.id === id ? ... : r)`), and the
 sequential-id policy of the create handlers, stated over any record type.
 */
module Collection {
  import opened Text
  import opened Ids

  // ---------------------------------------------------------------------------
  // Array.prototype.filter
  // ---------------------------------------------------------------------------

  /** `s.filter(keep)`: the records `keep` accepts, in their original order. */
  function Filter<T>(s: seq<T>, keep: T -> bool): (r: seq<T>)
    ensures |r| <= |s|
    ensures forall i :: 0 <= i < |r| ==> keep(r[i])
  {
    if |s| == 0 then []
    else (if keep(s[0]) then [s[0]] else []) + Filter(s[1..], keep)
  }

  /** `a` can be obtained from `b` by deleting elements, without reordering. */
  ghost predicate SubsequenceOf<T>(a: seq<T>, b: seq<T>)
    decreases |b|
  {
    if |a| == 0 then true
    else if |b| == 0 then false
    else (a[0] == b[0] && SubsequenceOf(a[1..], b[1..])) || SubsequenceOf(a, b[1..])
  }

  lemma {:induction false} SubsequenceReflexive<T>(s: seq<T>)
    ensures SubsequenceOf(s, s)
    decreases |s|
  {
    if |s| > 0 {
      SubsequenceReflexive(s[1..]);
    }
  }

  /** The filtered view is an order-preserving subsequence of the store. */
  lemma {:induction false} FilterIsSubsequence<T>(s: seq<T>, keep: T -> bool)
    ensures SubsequenceOf(Filter(s, keep), s)
    decreases |s|
  {
    if |s| > 0 {
      var r := Filter(s, keep);
      FilterIsSubsequence(s[1..], keep);
      if keep(s[0]) {
        assert r[0] == s[0] && r[1..] == Filter(s[1..], keep);
      } else {
        assert r == Filter(s[1..], keep);
      }
    }
  }

  /** Every accepted record keeps all its copies; every rejected one loses all of them. */
  lemma {:induction false} FilterMultiplicity<T>(s: seq<T>, keep: T -> bool)
    ensures forall x :: multiset(Filter(s, keep))[x] == if keep(x) then multiset(s)[x] else 0
    decreases |s|
  {
    if |s| > 0 {
      FilterMultiplicity(s[1..], keep);
      assert s == [s[0]] + s[1..];
      assert multiset(s) == multiset([s[0]]) + multiset(s[1..]);
      var head := if keep(s[0]) then [s[0]] else [];
      assert multiset(Filter(s, keep)) == multiset(head) + multiset(Filter(s[1..], keep));
    }
  }

  /** A record is shown exactly when it is in the store and passes the test. */
  lemma FilterMembers<T>(s: seq<T>, keep: T -> bool)
    ensures forall x :: x in Filter(s, keep) <==> x in s && keep(x)
  {
    FilterMultiplicity(s, keep);
    forall x
      ensures x in Filter(s, keep) <==> x in s && keep(x)
    {
      assert x in Filter(s, keep) <==> x in multiset(Filter(s, keep));
      assert x in s <==> x in multiset(s);
    }
  }

  /** Filtering a concatenation filters each part. */
  lemma {:induction false} FilterConcat<T>(a: seq<T>, b: seq<T>, keep: T -> bool)
    ensures Filter(a + b, keep) == Filter(a, keep) + Filter(b, keep)
    decreases |a|
  {
    if |a| > 0 {
      assert (a + b)[0] == a[0];
      assert (a + b)[1..] == a[1..] + b;
      FilterConcat(a[1..], b, keep);
    } else {
      assert a + b == b;
    }
  }

  /** A filter that accepts every record of the store returns the store itself. */
  lemma {:induction false} FilterKeepsAll<T>(s: seq<T>, keep: T -> bool)
    requires forall i :: 0 <= i < |s| ==> keep(s[i])
    ensures Filter(s, keep) == s
    decreases |s|
  {
    if |s| > 0 {
      FilterKeepsAll(s[1..], keep);
      assert [s[0]] + s[1..] == s;
    }
  }

  /** Filtering twice with the same test is filtering once. */
  lemma FilterIdempotent<T>(s: seq<T>, keep: T -> bool)
    ensures Filter(Filter(s, keep), keep) == Filter(s, keep)
  {
    FilterKeepsAll(Filter(s, keep), keep);
  }

  /** Filtering by `p` and then by `q` is filtering once by their conjunction. */
  lemma {:induction false} FilterConjunction<T>(s: seq<T>, p: T -> bool, q: T -> bool, both: T -> bool)
    requires forall x :: both(x) == (p(x) && q(x))
    ensures Filter(Filter(s, p), q) == Filter(s, both)
    decreases |s|
  {
    if |s| > 0 {
      FilterConjunction(s[1..], p, q, both);
      var head := if p(s[0]) then [s[0]] else [];
      assert Filter(s, p) == head + Filter(s[1..], p);
      FilterConcat(head, Filter(s[1..], p), q);
    }
  }

  // ---------------------------------------------------------------------------
  // Search and status selection
  // ---------------------------------------------------------------------------

  /** The status selector's sentinel that disables the status test. */
  const AllStatuses: string := "all"

  /** `statusFilter === 'all' || record.status === statusFilter`. */
  function StatusMatches(status: string, selected: string): (r: bool)
    ensures selected == AllStatuses ==> r
    ensures status == selected ==> r
    ensures r && selected != AllStatuses ==> status == selected
  {
    selected == AllStatuses || status == selected
  }

  /** Every string contains the empty term, so an empty search box hides nothing. */
  lemma EmptyTermMatches(field: string)
    ensures IncludesIgnoringCase(field, "")
  {
  }

  // ---------------------------------------------------------------------------
  // Array.prototype.map by id
  // ---------------------------------------------------------------------------

  /** `s.map(r => key(r) === target ? f(r) : r)`. */
  function UpdateWhere<T>(s: seq<T>, key: T -> string, target: string, f: T -> T): (r: seq<T>)
    ensures |r| == |s|
    ensures forall i :: 0 <= i < |s| && key(s[i]) == target ==> r[i] == f(s[i])
    ensures forall i :: 0 <= i < |s| && key(s[i]) != target ==> r[i] == s[i]
  {
    if |s| == 0 then []
    else [if key(s[0]) == target then f(s[0]) else s[0]] + UpdateWhere(s[1..], key, target, f)
  }

  /** Updating a key no record carries leaves the store as it was. */
  lemma UpdateAbsentKey<T>(s: seq<T>, key: T -> string, target: string, f: T -> T)
    requires forall i :: 0 <= i < |s| ==> key(s[i]) != target
    ensures UpdateWhere(s, key, target, f) == s
  {
  }

  /** When `f` keeps the key and is idempotent, so is the update. */
  lemma UpdateIdempotent<T>(s: seq<T>, key: T -> string, target: string, f: T -> T)
    requires forall x :: key(f(x)) == key(x)
    requires forall x :: f(f(x)) == f(x)
    ensures UpdateWhere(UpdateWhere(s, key, target, f), key, target, f) == UpdateWhere(s, key, target, f)
  {
  }

  // ---------------------------------------------------------------------------
  // Sequential ids
  // ---------------------------------------------------------------------------

  /** No two records of the store share a key. */
  ghost predicate UniqueKeys<T>(s: seq<T>, key: T -> string)
  {
    forall i, j :: 0 <= i < j < |s| ==> key(s[i]) != key(s[j])
  }

  /** The store holds exactly `prefix`001, `prefix`002, ... in order, as the seed data does. */
  ghost predicate IdsAreSequential<T>(s: seq<T>, key: T -> string, prefix: string)
  {
    forall i :: 0 <= i < |s| ==> key(s[i]) == SequentialId(prefix, i)
  }

  lemma SequentialIdsAreUnique<T>(s: seq<T>, key: T -> string, prefix: string)
    requires IdsAreSequential(s, key, prefix)
    ensures UniqueKeys(s, key)
  {
    forall i, j | 0 <= i < j < |s|
      ensures key(s[i]) != key(s[j])
    {
      if key(s[i]) == key(s[j]) {
        SequentialIdInjective(prefix, i, j);
      }
    }
  }

  /**
   On a store whose ids are exactly the sequence so far, the id a create handler
   generates is fresh, and appending the new record keeps the ids sequential.
   */
  lemma CreateOnSequentialStore<T>(s: seq<T>, key: T -> string, prefix: string, x: T)
    requires IdsAreSequential(s, key, prefix)
    requires key(x) == SequentialId(prefix, |s|)
    ensures forall i :: 0 <= i < |s| ==> key(s[i]) != key(x)
    ensures IdsAreSequential(s + [x], key, prefix)
    ensures UniqueKeys(s + [x], key)
  {
    NextIdIsFresh(s, key, prefix);
    AppendKeepsSequential(s, key, prefix, x);
    SequentialIdsAreUnique(s + [x], key, prefix);
  }

  lemma NextIdIsFresh<T>(s: seq<T>, key: T -> string, prefix: string)
    requires IdsAreSequential(s, key, prefix)
    ensures forall i :: 0 <= i < |s| ==> key(s[i]) != SequentialId(prefix, |s|)
  {
    forall i | 0 <= i < |s|
      ensures key(s[i]) != SequentialId(prefix, |s|)
    {
      if key(s[i]) == SequentialId(prefix, |s|) {
        SequentialIdInjective(prefix, i, |s|);
      }
    }
  }

  lemma AppendKeepsSequential<T>(s: seq<T>, key: T -> string, prefix: string, x: T)
    requires IdsAreSequential(s, key, prefix)
    requires key(x) == SequentialId(prefix, |s|)
    ensures IdsAreSequential(s + [x], key, prefix)
  {
    var t := s + [x];
    forall i | 0 <= i < |t|
      ensures key(t[i]) == SequentialId(prefix, i)
    {
      if i < |s| {
        assert t[i] == s[i];
      } else {
        assert t[i] == x;
      }
    }
  }

  /** After a create on a sequential store, looking the new id up finds exactly the new record, at the end. */
  lemma CreateThenFindById<T>(s: seq<T>, key: T -> string, prefix: string, x: T)
    requires IdsAreSequential(s, key, prefix)
    requires key(x) == SequentialId(prefix, |s|)
    ensures Filter(s + [x], y => key(y) == key(x)) == [x]
  {
    CreateOnSequentialStore(s, key, prefix, x);
    var hit := y => key(y) == key(x);
    FilterConcat(s, [x], hit);
    FilterKeepsNone(s, hit);
    assert Filter([x], hit) == [x] by {
      assert [x][1..] == [];
    }
  }

  /** A filter that accepts no record of the store returns the empty store. */
  lemma {:induction false} FilterKeepsNone<T>(s: seq<T>, keep: T -> bool)
    requires forall i :: 0 <= i < |s| ==> !keep(s[i])
    ensures Filter(s, keep) == []
    decreases |s|
  {
    if |s| > 0 {
      FilterKeepsNone(s[1..], keep);
    }
  }

  /** A filter that rejects exactly the record at `j` removes just that one position. */
  lemma {:induction false} FilterRemovesOne<T>(s: seq<T>, keep: T -> bool, j: nat)
    requires j < |s|
    requires !keep(s[j])
    requires forall i :: 0 <= i < |s| && i != j ==> keep(s[i])
    ensures Filter(s, keep) == s[..j] + s[j + 1..]
    decreases j
  {
    if j == 0 {
      FilterKeepsAll(s[1..], keep);
    } else {
      var t := s[1..];
      assert forall i :: 0 <= i < |t| && i != j - 1 ==> keep(t[i]) by {
        forall i | 0 <= i < |t| && i != j - 1
          ensures keep(t[i])
        {
          assert t[i] == s[i + 1];
        }
      }
      FilterRemovesOne(t, keep, j - 1);
      assert Filter(s, keep) == [s[0]] + Filter(t, keep);
      assert s[..j] == [s[0]] + t[..j - 1];
      assert s[j + 1..] == t[j..];
    }
  }
}
