/**
  The weighted discrete sampler of org.aksw.twig.statistics.DiscreteDistribution.

  Every accepted event is stored under the running total of chances reached
  after it (its cumulative key), and sampling with a draw `u` picks the event of
  least key strictly greater than `u` (inverse-CDF sampling).  The balanced tree
  of the source is represented by a sequence kept sorted by key; Java doubles
  are represented by reals.
*/
module DiscreteDistributions {
  import opened Wrappers
  import opened JavaLongs

  /** The source's inner class ChanceMapping: an event with its chance and
      its cumulative key.  `val` is None where the Java field is null. */
  datatype ChanceMapping<T> = ChanceMapping(val: Option<T>, chance: real, key: real)

  /** The two-argument constructor's result once accepted. */
  function Event<T>(val: T, chance: real, key: real): ChanceMapping<T>
  {
    ChanceMapping(Some(val), chance, key)
  }

  /** The one-argument constructor used by `sample`: only the key is set, so
      `val` stays null and `chance` 0. */
  function Probe<T>(key: real): ChanceMapping<T>
  {
    ChanceMapping(None, 0.0, key)
  }

  /** Why `addDiscreteEvent` throws IllegalArgumentException.  `raised` is the
      temporarily increased total quoted in the exception message. */
  datatype AddError = ZeroChance | AggregateOverflow(raised: real)

  /** `ChanceMapping.compareTo`: Double.compare on the cumulative keys. */
  function CompareTo<T>(a: ChanceMapping<T>, b: ChanceMapping<T>): (r: int)
    ensures r < 0 <==> a.key < b.key
    ensures r == 0 <==> a.key == b.key
    ensures r > 0 <==> a.key > b.key
    ensures -1 <= r <= 1
  {
    if a.key < b.key then -1 else if a.key > b.key then 1 else 0
  }

  /** compareTo is a total preorder that sees nothing but the keys. */
  lemma CompareToIsKeyOrder<T>(a: ChanceMapping<T>, b: ChanceMapping<T>, c: ChanceMapping<T>)
    ensures CompareTo(a, b) == -CompareTo(b, a)
    ensures CompareTo(a, b) <= 0 && CompareTo(b, c) <= 0 ==> CompareTo(a, c) <= 0
    ensures a.key == b.key ==> CompareTo(a, c) == CompareTo(b, c)
  {
  }

  /** The tree's in-order traversal: keys never decrease. */
  ghost predicate Sorted<T>(s: seq<ChanceMapping<T>>)
  {
    forall i, j :: 0 <= i < j < |s| ==> s[i].key <= s[j].key
  }

  /** Position at which the tree places a new entry with key `k`: after every
      entry whose key is at most `k`. */
  function InsertPosition<T>(s: seq<ChanceMapping<T>>, k: real): (i: nat)
    requires Sorted(s)
    ensures i <= |s|
    ensures forall j :: 0 <= j < i ==> s[j].key <= k
    ensures forall j :: i <= j < |s| ==> s[j].key > k
  {
    if s == [] then 0
    else if s[|s| - 1].key <= k then |s|
    else InsertPosition(s[..|s| - 1], k)
  }

  /** `sampleTree.add`: the new entry placed in key order. */
  function Insert<T>(s: seq<ChanceMapping<T>>, m: ChanceMapping<T>): seq<ChanceMapping<T>>
    requires Sorted(s)
  {
    var i := InsertPosition(s, m.key);
    s[..i] + [m] + s[i..]
  }

  /** Insertion keeps the table sorted and adds exactly the new entry. */
  lemma InsertSorted<T>(s: seq<ChanceMapping<T>>, m: ChanceMapping<T>)
    requires Sorted(s)
    ensures Sorted(Insert(s, m))
    ensures multiset(Insert(s, m)) == multiset(s) + multiset{m}
    ensures |Insert(s, m)| == |s| + 1
  {
    InsertOrdered(s, m);
    var i := InsertPosition(s, m.key);
    assert s == s[..i] + s[i..];
  }

  lemma InsertOrdered<T>(s: seq<ChanceMapping<T>>, m: ChanceMapping<T>)
    requires Sorted(s)
    ensures Sorted(Insert(s, m)) && |Insert(s, m)| == |s| + 1
  {
    InsertKeepsOrder(s, m, InsertPosition(s, m.key));
  }

  lemma InsertKeepsOrder<T>(s: seq<ChanceMapping<T>>, m: ChanceMapping<T>, i: nat)
    requires Sorted(s) && i <= |s|
    requires forall j :: 0 <= j < i ==> s[j].key <= m.key
    requires forall j :: i <= j < |s| ==> s[j].key > m.key
    ensures Sorted(s[..i] + [m] + s[i..])
  {
    var r := s[..i] + [m] + s[i..];
    forall a, b | 0 <= a < b < |r| ensures r[a].key <= r[b].key {
      if b < i { assert r[a] == s[a] && r[b] == s[b]; }
      else if b == i { assert r[a] == s[a]; }
      else if a < i { assert r[a] == s[a] && r[b] == s[b - 1]; }
      else if a == i { assert r[b] == s[b - 1]; }
      else { assert r[a] == s[a - 1] && r[b] == s[b - 1]; }
    }
  }

  /** A key at least every stored key is simply appended. */
  lemma InsertLargestAppends<T>(s: seq<ChanceMapping<T>>, m: ChanceMapping<T>)
    requires Sorted(s)
    requires forall e :: e in s ==> e.key <= m.key
    ensures Insert(s, m) == s + [m]
  {
    var i := InsertPosition(s, m.key);
    assert s[..|s|] == s;
  }

  /** `AVLTree.findGreater(probe)`: index of the first entry that compares
      greater than the probe, or |s| when there is none. */
  function FindGreater<T>(s: seq<ChanceMapping<T>>, probe: ChanceMapping<T>): (i: nat)
    requires Sorted(s)
    ensures i <= |s|
    ensures forall j :: 0 <= j < i ==> CompareTo(s[j], probe) <= 0
    ensures i < |s| ==> CompareTo(s[i], probe) > 0
  {
    if s == [] then 0
    else if CompareTo(s[0], probe) > 0 then 0
    else 1 + FindGreater(s[1..], probe)
  }

  /** What `sample` returns for the draw `u`. */
  function SampleAt<T>(s: seq<ChanceMapping<T>>, u: real): Option<T>
    requires Sorted(s)
    requires forall e :: e in s ==> e.val.Some?
  {
    var i := FindGreater(s, Probe(u));
    if i < |s| then s[i].val else None
  }

  /** Entry `i` owns the interval [its predecessor's key, its own key). */
  ghost predicate InInterval<T>(s: seq<ChanceMapping<T>>, i: int, u: real)
    requires 0 <= i < |s|
  {
    (i == 0 || s[i - 1].key <= u) && u < s[i].key
  }

  /** Inverse-CDF lookup: a sampled event is the one whose interval
      [previous key, own key) contains `u`, and its key is the least key above `u`. */
  lemma SampleInInterval<T>(s: seq<ChanceMapping<T>>, u: real)
    requires Sorted(s)
    requires forall e :: e in s ==> e.val.Some?
    ensures SampleAt(s, u).Some? ==>
      exists i :: 0 <= i < |s| && InInterval(s, i, u)
        && SampleAt(s, u) == s[i].val
        && (forall j :: 0 <= j < |s| && s[j].key > u ==> s[i].key <= s[j].key)
  {
    var i := FindGreater(s, Probe(u));
    if i < |s| {
      assert i == 0 || CompareTo(s[i - 1], Probe(u)) <= 0;
      forall j | 0 <= j < |s| && s[j].key > u ensures s[i].key <= s[j].key {
      }
    }
  }

  /** `sample` gives null exactly when `u` is at or above the largest key
      (for instance when the chances add up to less than 1). */
  lemma SampleNoneIffBeyondLargestKey<T>(s: seq<ChanceMapping<T>>, u: real)
    requires Sorted(s)
    requires forall e :: e in s ==> e.val.Some?
    ensures SampleAt(s, u).None? <==> (s == [] || s[|s| - 1].key <= u)
  {
    var i := FindGreater(s, Probe(u));
    if i == |s| && s != [] { assert CompareTo(s[|s| - 1], Probe(u)) <= 0; }
  }

  function Sum(s: seq<real>): real
  {
    if s == [] then 0.0 else Sum(s[..|s| - 1]) + s[|s| - 1]
  }

  /** The keys that successive accepted chances receive, in insertion order. */
  function PrefixSums(s: seq<real>): (r: seq<real>)
    ensures |r| == |s|
  {
    if s == [] then [] else PrefixSums(s[..|s| - 1]) + [Sum(s)]
  }

  /** The keys of the table, in table order. */
  function Keys<T>(s: seq<ChanceMapping<T>>): (r: seq<real>)
    ensures |r| == |s|
    ensures forall i :: 0 <= i < |s| ==> r[i] == s[i].key
  {
    if s == [] then [] else Keys(s[..|s| - 1]) + [s[|s| - 1].key]
  }

  ghost predicate AllPositive(s: seq<real>)
  {
    forall i :: 0 <= i < |s| ==> s[i] > 0.0
  }

  ghost predicate StrictlyIncreasing(s: seq<real>)
  {
    forall i, j :: 0 <= i < j < |s| ==> s[i] < s[j]
  }

  /** With positive chances the cumulative keys rise strictly in insertion
      order, and every key is at most the running total. */
  lemma {:induction false} PositiveChancesGiveIncreasingKeys(s: seq<real>)
    requires AllPositive(s)
    ensures StrictlyIncreasing(PrefixSums(s))
    ensures forall i :: 0 <= i < |s| ==> PrefixSums(s)[i] <= Sum(s)
  {
    if s != [] {
      var init := s[..|s| - 1];
      assert AllPositive(init) by {
        forall i | 0 <= i < |init| ensures init[i] > 0.0 { assert init[i] == s[i]; }
      }
      PositiveChancesGiveIncreasingKeys(init);
      assert s[|s| - 1] > 0.0;
    }
  }

  /** Only a zero chance is rejected, so a negative one is accepted and gives a
      key below the previous one: the table order then differs from insertion order. */
  lemma NegativeChanceBreaksKeyOrder()
    ensures !StrictlyIncreasing(PrefixSums([0.5, -0.25]))
  {
    assert [0.5][..0] == [] && Sum([0.5]) == 0.5;
    assert PrefixSums([0.5]) == [0.5];
    assert [0.5, -0.25][..1] == [0.5] && Sum([0.5, -0.25]) == 0.25;
    var p := PrefixSums([0.5, -0.25]);
    assert p == [0.5, 0.25];
    assert !(p[0] < p[1]);
  }

  /** The sampler's invariant: the table is sorted, holds only accepted events
      whose keys stay within 1 + delta, the running total is the sum of the
      accepted chances (which stays within 1 + delta once something is
      accepted), and with positive chances the table lists the keys in
      insertion order. */
  ghost predicate Consistent<T>(table: seq<ChanceMapping<T>>, accepted: seq<real>, total: real, delta: real)
  {
    && Sorted(table)
    && (forall e :: e in table ==> e.val.Some? && e.chance != 0.0 && e.key <= 1.0 + delta)
    && |table| == |accepted|
    && total == Sum(accepted)
    && (accepted != [] ==> total <= 1.0 + delta)
    && (AllPositive(accepted) ==> Keys(table) == PrefixSums(accepted))
  }

  /** Every entry of the table after an insertion is the new one or an old one. */
  lemma InsertMembers<T>(s: seq<ChanceMapping<T>>, m: ChanceMapping<T>, x: ChanceMapping<T>)
    requires Sorted(s)
    requires x in Insert(s, m)
    ensures x == m || x in s
  {
    InsertSorted(s, m);
    assert x in multiset(Insert(s, m));
  }

  /** Appending one chance extends the total and the insertion-order keys. */
  lemma AppendChance<T>(table: seq<ChanceMapping<T>>, accepted: seq<real>, e: ChanceMapping<T>, chance: real)
    ensures Sum(accepted + [chance]) == Sum(accepted) + chance
    ensures PrefixSums(accepted + [chance]) == PrefixSums(accepted) + [Sum(accepted) + chance]
    ensures Keys(table + [e]) == Keys(table) + [e.key]
    ensures AllPositive(accepted + [chance]) ==> AllPositive(accepted) && chance > 0.0
  {
    var after := accepted + [chance];
    assert after[..|after| - 1] == accepted;
    assert (table + [e])[..|table|] == table;
    if AllPositive(after) {
      forall i | 0 <= i < |accepted| ensures accepted[i] > 0.0 { assert accepted[i] == after[i]; }
      assert after[|accepted|] == chance;
    }
  }

  /** Insertion-order keys stay the prefix sums when an entry is appended. */
  lemma AppendedKeys<T>(table: seq<ChanceMapping<T>>, accepted: seq<real>, total: real, e: ChanceMapping<T>, chance: real)
    requires Keys(table) == PrefixSums(accepted) && total == Sum(accepted) && e.key == total + chance
    ensures Keys(table + [e]) == PrefixSums(accepted + [chance])
  {
    AppendChance(table, accepted, e, chance);
  }

  /** A positive chance after positive ones goes to the end of the table. */
  lemma PositiveChanceAppends<T>(table: seq<ChanceMapping<T>>, accepted: seq<real>, total: real,
                                 delta: real, e: ChanceMapping<T>, chance: real)
    requires Consistent(table, accepted, total, delta)
    requires AllPositive(accepted) && chance > 0.0 && e.key == total + chance
    ensures Insert(table, e) == table + [e]
  {
    PositiveChancesGiveIncreasingKeys(accepted);
    forall x | x in table ensures x.key <= e.key {
      var i :| 0 <= i < |table| && table[i] == x;
      assert Keys(table)[i] == x.key;
    }
    InsertLargestAppends(table, e);
  }

  /** Accepting a chance that passes both checks keeps the invariant; a
      positive chance after positive ones is appended at the end. */
  lemma AcceptPreservesConsistency<T>(table: seq<ChanceMapping<T>>, accepted: seq<real>, total: real,
                                       delta: real, val: T, chance: real)
    requires Consistent(table, accepted, total, delta)
    requires chance != 0.0 && total + chance <= 1.0 + delta
    ensures Consistent(Insert(table, Event(val, chance, total + chance)), accepted + [chance], total + chance, delta)
    ensures chance > 0.0 && AllPositive(accepted) ==>
      Insert(table, Event(val, chance, total + chance)) == table + [Event(val, chance, total + chance)]
  {
    var e := Event(val, chance, total + chance);
    InsertOrdered(table, e);
    AcceptedMembers(table, e, delta);
    AppendChance(table, accepted, e, chance);
    AcceptedKeys(table, accepted, total, delta, e, chance);
    ConsistentIntro(Insert(table, e), accepted + [chance], total + chance, delta);
  }

  /** The invariant from its parts. */
  lemma ConsistentIntro<T>(table: seq<ChanceMapping<T>>, accepted: seq<real>, total: real, delta: real)
    requires Sorted(table)
    requires forall e :: e in table ==> e.val.Some? && e.chance != 0.0 && e.key <= 1.0 + delta
    requires |table| == |accepted| && total == Sum(accepted)
    requires accepted != [] ==> total <= 1.0 + delta
    requires AllPositive(accepted) ==> Keys(table) == PrefixSums(accepted)
    ensures Consistent(table, accepted, total, delta)
  {
  }

  /** Every entry after an accepted insertion is an accepted event within 1 + delta. */
  lemma AcceptedMembers<T>(table: seq<ChanceMapping<T>>, e: ChanceMapping<T>, delta: real)
    requires Sorted(table)
    requires forall x :: x in table ==> x.val.Some? && x.chance != 0.0 && x.key <= 1.0 + delta
    requires e.val.Some? && e.chance != 0.0 && e.key <= 1.0 + delta
    ensures forall x :: x in Insert(table, e) ==> x.val.Some? && x.chance != 0.0 && x.key <= 1.0 + delta
  {
    forall x | x in Insert(table, e) ensures x.val.Some? && x.chance != 0.0 && x.key <= 1.0 + delta {
      InsertMembers(table, e, x);
    }
  }

  /** With positive chances only, the accepted entry lands at the end and the
      keys stay the prefix sums. */
  lemma AcceptedKeys<T>(table: seq<ChanceMapping<T>>, accepted: seq<real>, total: real,
                        delta: real, e: ChanceMapping<T>, chance: real)
    requires Consistent(table, accepted, total, delta)
    requires e.key == total + chance
    ensures AllPositive(accepted + [chance]) ==> Keys(Insert(table, e)) == PrefixSums(accepted + [chance])
    ensures chance > 0.0 && AllPositive(accepted) ==> Insert(table, e) == table + [e]
  {
    AppendChance(table, accepted, e, chance);
    if chance > 0.0 && AllPositive(accepted) {
      PositiveChanceAppends(table, accepted, total, delta, e, chance);
      AppendedKeys(table, accepted, total, e, chance);
    }
  }

  class DiscreteDistribution<T> {
    /** Running total of all accepted chances (`aggregatedChance`). */
    var aggregatedChance: real
    /** Tolerance above 1 that the running total may reach (`aggregatedChanceDelta`). */
    const delta: real
    /** In-order contents of `sampleTree`. */
    var table: seq<ChanceMapping<T>>
    /** The seed last given to the random source, if any (`random`). */
    var seed: Option<long>
    /** Accepted chances in insertion order. */
    ghost var accepted: seq<real>

    ghost predicate Valid()
      reads this
    {
      Consistent(table, accepted, aggregatedChance, delta)
    }

    /** The no-argument constructor: the tolerance is 0. */
    constructor ()
      ensures Valid()
      ensures delta == 0.0 && aggregatedChance == 0.0 && table == [] && seed == None
    {
      aggregatedChance := 0.0;
      delta := 0.0;
      table := [];
      seed := None;
      accepted := [];
    }

    constructor WithDelta(aggregatedChanceDelta: real)
      ensures Valid()
      ensures delta == aggregatedChanceDelta && aggregatedChance == 0.0 && table == [] && seed == None
    {
      aggregatedChance := 0.0;
      delta := aggregatedChanceDelta;
      table := [];
      seed := None;
      accepted := [];
    }

    /** The two-argument ChanceMapping constructor: checks the chance, raises
        the running total, and rolls it back if it passed 1 + delta. */
    method NewChanceMapping(val: T, chance: real) returns (r: Result<ChanceMapping<T>, AddError>)
      modifies this`aggregatedChance
      ensures r.Success? <==> chance != 0.0 && old(aggregatedChance) + chance <= 1.0 + delta
      ensures chance == 0.0 ==> r == Failure(ZeroChance)
      ensures chance != 0.0 && old(aggregatedChance) + chance > 1.0 + delta ==>
        r == Failure(AggregateOverflow(old(aggregatedChance) + chance))
      ensures r.Failure? ==> aggregatedChance == old(aggregatedChance)
      ensures r.Success? ==>
        && chance != 0.0 && old(aggregatedChance) + chance <= 1.0 + delta
        && aggregatedChance == old(aggregatedChance) + chance
        && r.value == Event(val, chance, aggregatedChance)
    {
      if chance == 0.0 {
        return Failure(ZeroChance);
      }
      aggregatedChance := aggregatedChance + chance;
      if aggregatedChance > 1.0 + delta {
        var raised := aggregatedChance;
        aggregatedChance := aggregatedChance - chance;
        return Failure(AggregateOverflow(raised));
      }
      r := Success(Event(val, chance, aggregatedChance));
    }

    /** `addDiscreteEvent`: a zero chance or an overflowing total is rejected
        with nothing changed; otherwise the total grows by `chance` and the
        event is stored under the new total. */
    method AddDiscreteEvent(val: T, chance: real) returns (r: Result<(), AddError>)
      requires Valid()
      modifies this
      ensures Valid()
      ensures seed == old(seed)
      ensures r.Success? <==> chance != 0.0 && old(aggregatedChance) + chance <= 1.0 + delta
      ensures chance == 0.0 ==> r == Failure(ZeroChance)
      ensures chance != 0.0 && old(aggregatedChance) + chance > 1.0 + delta ==>
        r == Failure(AggregateOverflow(old(aggregatedChance) + chance))
      ensures r.Failure? ==> aggregatedChance == old(aggregatedChance) && table == old(table)
      ensures r.Failure? ==> accepted == old(accepted)
      ensures r.Success? ==> accepted == old(accepted) + [chance]
      ensures r.Success? ==>
        && chance != 0.0 && old(aggregatedChance) + chance <= 1.0 + delta
        && aggregatedChance == old(aggregatedChance) + chance
        && table == Insert(old(table), Event(val, chance, aggregatedChance))
      ensures r.Success? && chance > 0.0 && AllPositive(old(accepted)) ==>
        table == old(table) + [Event(val, chance, aggregatedChance)]
    {
      var before := aggregatedChance;
      var m := NewChanceMapping(val, chance);
      if m.Failure? {
        return Failure(m.error);
      }
      TreeAdd(val, chance, before);
      r := Success(());
    }

    /** `sampleTree.add` of the mapping just created: it is inserted by key and
        its chance joins the accepted ones. */
    method TreeAdd(val: T, chance: real, before: real)
      requires Consistent(table, accepted, before, delta)
      requires chance != 0.0 && before + chance <= 1.0 + delta && aggregatedChance == before + chance
      modifies this`table, this`accepted
      ensures Valid()
      ensures table == Insert(old(table), Event(val, chance, aggregatedChance))
      ensures accepted == old(accepted) + [chance]
      ensures chance > 0.0 && AllPositive(old(accepted)) ==>
        table == old(table) + [Event(val, chance, aggregatedChance)]
    {
      var e := Event(val, chance, aggregatedChance);
      AcceptPreservesConsistency(table, accepted, before, delta, val, chance);
      assert e == Event(val, chance, before + chance);
      table, accepted := Insert(table, e), accepted + [chance];
    }

    /** `reseed`: only the random source changes. */
    method Reseed(newSeed: long)
      modifies this`seed
      ensures seed == Some(newSeed)
    {
      seed := Some(newSeed);
    }

    /** `sample(Random)` with the draw `u` that `r.nextDouble()` would return. */
    method Sample(u: real) returns (r: Option<T>)
      requires Valid()
      ensures r.None? <==> (table == [] || table[|table| - 1].key <= u)
      ensures r.Some? ==>
        exists i :: 0 <= i < |table| && InInterval(table, i, u)
          && r == table[i].val
    {
      var i := FindGreater(table, Probe(u));
      r := if i < |table| then table[i].val else None;
      SampleInInterval(table, u);
      SampleNoneIffBeyondLargestKey(table, u);
    }
  }

  /** A negative chance is accepted.  Starting from a fresh sampler, the
      events 1 with chance 0.5 and 2 with chance -0.25 are both stored.  The
      second gets key 0.25, so the table, ordered by key, lists it first:
      key order is no longer insertion order. */
  method NegativeChanceScenario() returns (first: Result<(), AddError>, second: Result<(), AddError>,
                                             table: seq<ChanceMapping<int>>)
    ensures first.Success? && second.Success?
    ensures table == [Event(2, -0.25, 0.25), Event(1, 0.5, 0.5)]
  {
    var d;
    d, first := StartWithHalf();
    second := d.AddDiscreteEvent(2, -0.25);
    InsertBelowSingle();
    table := d.table;
  }

  /** The first step of the scenario: a fresh sampler accepts 0.5. */
  method StartWithHalf() returns (d: DiscreteDistribution<int>, first: Result<(), AddError>)
    ensures fresh(d) && d.Valid() && first.Success?
    ensures d.delta == 0.0 && d.aggregatedChance == 0.5 && d.table == [Event(1, 0.5, 0.5)]
  {
    d := new DiscreteDistribution<int>();
    first := d.AddDiscreteEvent(1, 0.5);
  }

  /** Inserting key 0.25 into the one-entry table of key 0.5 puts it first. */
  lemma InsertBelowSingle()
    ensures Insert([Event(1, 0.5, 0.5)], Event(2, -0.25, 0.25)) == [Event(2, -0.25, 0.25), Event(1, 0.5, 0.5)]
  {
    assert InsertPosition([Event(1, 0.5, 0.5)], 0.25) == 0;
  }
}
