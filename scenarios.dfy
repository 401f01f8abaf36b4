/**
 * The concrete situations the repository's test suite checks
 * (tests/test_deduplication.py over the fixture of tests/conftest.py),
 * proved about the model.
 */
module Scenarios {
  import opened Models
  import opened SortedSets
  import opened Services

  /** The nine-record fixture: three records from each source, ids 101 to 106. */
  const SampleCustomers: seq<Record> := [
    Record(101, Salesforce), Record(102, Salesforce), Record(103, Salesforce),
    Record(103, Hubspot), Record(104, Hubspot), Record(105, Hubspot),
    Record(102, Internal), Record(105, Internal), Record(106, Internal)
  ]

  /** An empty store gives zero counts and empty lists everywhere, and no error. */
  lemma EmptySnapshot(src: Source)
    ensures DeduplicateCustomers([]) == DeduplicationResult(0, 0, 0, [])
    ensures CompareSources([]) == SourceComparisonResult([], [], [], [], 0, 0, 0)
    ensures GetCustomersBySource([], src) == []
  {
    assert SetOf(CustomerIds([])) == {};
    assert SourceIds([], Salesforce) == {} && SourceIds([], Hubspot) == {} && SourceIds([], Internal) == {};
  }

  /** The fixture holds 9 records of 6 customers: 3 duplicates, ids 101 to 106. */
  lemma SampleAnalysis()
    ensures DeduplicateCustomers(SampleCustomers) == DeduplicationResult(9, 6, 3, [101, 102, 103, 104, 105, 106])
  {
    var expected := [101, 102, 103, 104, 105, 106];
    assert CustomerIds(SampleCustomers) == [101, 102, 103, 103, 104, 105, 102, 105, 106];
    assert SetOf(CustomerIds(SampleCustomers)) == SetOf(expected);
    SortedSeqOfAscending(expected);
  }

  /** Listing Salesforce in the fixture gives its 3 records, in upload order. */
  lemma SampleSalesforce()
    ensures GetCustomersBySource(SampleCustomers, Salesforce)
         == [Record(101, Salesforce), Record(102, Salesforce), Record(103, Salesforce)]
  {
  }

  /** Listing HubSpot in the fixture gives its 3 records, in upload order. */
  lemma SampleHubspot()
    ensures GetCustomersBySource(SampleCustomers, Hubspot)
         == [Record(103, Hubspot), Record(104, Hubspot), Record(105, Hubspot)]
  {
  }

  /** Listing the internal database in the fixture gives its 3 records, in upload order. */
  lemma SampleInternal()
    ensures GetCustomersBySource(SampleCustomers, Internal)
         == [Record(102, Internal), Record(105, Internal), Record(106, Internal)]
  {
  }

  /** A source whose records carry exactly three different ids has count 3. */
  lemma ThreeIds(records: seq<Record>, src: Source, a: int, b: int, c: int)
    requires a < b < c
    requires forall id :: Record(id, src) in records <==> id == a || id == b || id == c
    ensures |SourceIds(records, src)| == 3
  {
    assert SourceIds(records, src) == {a, b, c};
  }

  /** The ids of the fixture, source by source. */
  ghost predicate FixtureShape(records: seq<Record>) {
    && (forall id :: Record(id, Salesforce) in records <==> id == 101 || id == 102 || id == 103)
    && (forall id :: Record(id, Hubspot) in records <==> id == 103 || id == 104 || id == 105)
    && (forall id :: Record(id, Internal) in records <==> id == 102 || id == 105 || id == 106)
  }

  /** Which sources hold a given id, for a snapshot with the fixture's ids. */
  lemma FixtureMembership(records: seq<Record>, id: int)
    requires FixtureShape(records)
    ensures !(HasRecord(records, id, Salesforce) && HasRecord(records, id, Hubspot) && HasRecord(records, id, Internal))
    ensures HasRecord(records, id, Salesforce) && !HasRecord(records, id, Hubspot) && !HasRecord(records, id, Internal)
        <==> id == 101
    ensures HasRecord(records, id, Hubspot) && !HasRecord(records, id, Salesforce) && !HasRecord(records, id, Internal)
        <==> id == 104
    ensures HasRecord(records, id, Internal) && !HasRecord(records, id, Salesforce) && !HasRecord(records, id, Hubspot)
        <==> id == 106
  {
  }

  /** With the fixture's ids, no id is in all three sources. */
  lemma FixtureInAll(records: seq<Record>)
    requires FixtureShape(records)
    ensures CompareSources(records).inAllSources == []
  {
    var c := CompareSources(records);
    forall id
      ensures id !in c.inAllSources
    {
      FixtureMembership(records, id);
    }
    StrictlyIncreasingUnique(c.inAllSources, []);
  }

  /** With the fixture's ids, the ids exclusive to Salesforce are [101]. */
  lemma FixtureExclusiveSalesforce(records: seq<Record>)
    requires FixtureShape(records)
    ensures CompareSources(records).onlyInSalesforce == [101]
  {
    var c := CompareSources(records);
    forall id
      ensures id in c.onlyInSalesforce <==> id in [101]
    {
      FixtureMembership(records, id);
    }
    StrictlyIncreasingUnique(c.onlyInSalesforce, [101]);
  }

  /** With the fixture's ids, the ids exclusive to HubSpot are [104]. */
  lemma FixtureExclusiveHubspot(records: seq<Record>)
    requires FixtureShape(records)
    ensures CompareSources(records).onlyInHubspot == [104]
  {
    var c := CompareSources(records);
    forall id
      ensures id in c.onlyInHubspot <==> id in [104]
    {
      FixtureMembership(records, id);
    }
    StrictlyIncreasingUnique(c.onlyInHubspot, [104]);
  }

  /** With the fixture's ids, the ids exclusive to the internal database are [106]. */
  lemma FixtureExclusiveInternal(records: seq<Record>)
    requires FixtureShape(records)
    ensures CompareSources(records).onlyInInternal == [106]
  {
    var c := CompareSources(records);
    forall id
      ensures id in c.onlyInInternal <==> id in [106]
    {
      FixtureMembership(records, id);
    }
    StrictlyIncreasingUnique(c.onlyInInternal, [106]);
  }

  /** With the fixture's ids, every source has 3 distinct ids. */
  lemma FixtureCounts(records: seq<Record>)
    requires FixtureShape(records)
    ensures var c := CompareSources(records);
      c.salesforceCount == 3 && c.hubspotCount == 3 && c.internalCount == 3
  {
    ThreeIds(records, Salesforce, 101, 102, 103);
    ThreeIds(records, Hubspot, 103, 104, 105);
    ThreeIds(records, Internal, 102, 105, 106);
  }

  /**
   * No id of the fixture is in all three sources; 101, 104 and 106 are each
   * in one source only; every source has 3 distinct ids.
   */
  lemma SampleComparison()
    ensures CompareSources(SampleCustomers) == SourceComparisonResult([], [101], [104], [106], 3, 3, 3)
  {
    assert FixtureShape(SampleCustomers);
    FixtureInAll(SampleCustomers);
    FixtureExclusiveSalesforce(SampleCustomers);
    FixtureExclusiveHubspot(SampleCustomers);
    FixtureExclusiveInternal(SampleCustomers);
    FixtureCounts(SampleCustomers);
  }

  /** Three customers, one per source. */
  const AllUniqueCustomers: seq<Record> := [Record(201, Salesforce), Record(202, Hubspot), Record(203, Internal)]

  /** Three records with three different ids: no duplicate. */
  lemma AllUniqueAnalysis()
    ensures var d := DeduplicateCustomers(AllUniqueCustomers);
      d.totalRecords == 3 && d.uniqueCustomers == 3 && d.duplicatesFound == 0
  {
    ThreeDistinctIds(AllUniqueCustomers);
  }

  /** Three records whose ids differ pairwise have distinct customer ids. */
  lemma ThreeDistinctIds(records: seq<Record>)
    requires |records| == 3
    requires records[0].customerId != records[1].customerId
    requires records[0].customerId != records[2].customerId
    requires records[1].customerId != records[2].customerId
    ensures DistinctCustomerIds(records)
  {
  }

  /** A snapshot in which every source holds id 999 and nothing else. */
  lemma ComparisonOfEverywhereShape(records: seq<Record>)
    requires forall id :: Record(id, Salesforce) in records <==> id == 999
    requires forall id :: Record(id, Hubspot) in records <==> id == 999
    requires forall id :: Record(id, Internal) in records <==> id == 999
    ensures var c := CompareSources(records);
      c.inAllSources == [999] && c.onlyInSalesforce == [] && c.onlyInHubspot == [] && c.onlyInInternal == []
  {
    var c := CompareSources(records);
    forall id
      ensures id in c.inAllSources <==> id in [999]
      ensures id !in c.onlyInSalesforce && id !in c.onlyInHubspot && id !in c.onlyInInternal
    {
    }
    StrictlyIncreasingUnique(c.inAllSources, [999]);
    StrictlyIncreasingUnique(c.onlyInSalesforce, []);
    StrictlyIncreasingUnique(c.onlyInHubspot, []);
    StrictlyIncreasingUnique(c.onlyInInternal, []);
  }

  /** One customer, stored once by each source. */
  const EverywhereCustomers: seq<Record> := [Record(999, Salesforce), Record(999, Hubspot), Record(999, Internal)]

  /** A customer stored by every source is in all sources and in no exclusive list. */
  lemma EverywhereComparison()
    ensures var c := CompareSources(EverywhereCustomers);
      c.inAllSources == [999] && c.onlyInSalesforce == [] && c.onlyInHubspot == [] && c.onlyInInternal == []
  {
    ComparisonOfEverywhereShape(EverywhereCustomers);
  }

  // ---------------------------------------------------------------------
  // The twelve-record example of the design: four ids per source
  // ---------------------------------------------------------------------

  /** Salesforce holds 101 to 104, HubSpot 103 to 106, the internal database 102, 105, 107 and 108. */
  const DesignCustomers: seq<Record> := [
    Record(101, Salesforce), Record(102, Salesforce), Record(103, Salesforce), Record(104, Salesforce),
    Record(103, Hubspot), Record(104, Hubspot), Record(105, Hubspot), Record(106, Hubspot),
    Record(102, Internal), Record(105, Internal), Record(107, Internal), Record(108, Internal)
  ]

  /** Twelve records of eight customers: 4 duplicates, ids 101 to 108. */
  lemma DesignAnalysis()
    ensures DeduplicateCustomers(DesignCustomers) == DeduplicationResult(12, 8, 4, [101, 102, 103, 104, 105, 106, 107, 108])
  {
    var expected := [101, 102, 103, 104, 105, 106, 107, 108];
    assert CustomerIds(DesignCustomers) == [101, 102, 103, 104, 103, 104, 105, 106, 102, 105, 107, 108];
    assert SetOf(CustomerIds(DesignCustomers)) == SetOf(expected);
    SortedSeqOfAscending(expected);
  }

  /** A source whose records carry exactly four different ids has count 4. */
  lemma FourIds(records: seq<Record>, src: Source, a: int, b: int, c: int, d: int)
    requires a < b < c < d
    requires forall id :: Record(id, src) in records <==> id == a || id == b || id == c || id == d
    ensures |SourceIds(records, src)| == 4
  {
    assert SourceIds(records, src) == {a, b, c, d};
  }

  /** The ids of the design example, source by source. */
  ghost predicate DesignShape(records: seq<Record>) {
    && (forall id :: Record(id, Salesforce) in records <==> id == 101 || id == 102 || id == 103 || id == 104)
    && (forall id :: Record(id, Hubspot) in records <==> id == 103 || id == 104 || id == 105 || id == 106)
    && (forall id :: Record(id, Internal) in records <==> id == 102 || id == 105 || id == 107 || id == 108)
  }

  /** Which sources hold a given id, for a snapshot with the design example's ids. */
  lemma DesignMembership(records: seq<Record>, id: int)
    requires DesignShape(records)
    ensures !(HasRecord(records, id, Salesforce) && HasRecord(records, id, Hubspot) && HasRecord(records, id, Internal))
    ensures HasRecord(records, id, Salesforce) && !HasRecord(records, id, Hubspot) && !HasRecord(records, id, Internal)
        <==> id == 101
    ensures HasRecord(records, id, Hubspot) && !HasRecord(records, id, Salesforce) && !HasRecord(records, id, Internal)
        <==> id == 106
    ensures HasRecord(records, id, Internal) && !HasRecord(records, id, Salesforce) && !HasRecord(records, id, Hubspot)
        <==> id == 107 || id == 108
  {
  }

  /** With the design example's ids, no id is in all three sources. */
  lemma DesignInAll(records: seq<Record>)
    requires DesignShape(records)
    ensures CompareSources(records).inAllSources == []
  {
    var c := CompareSources(records);
    forall id
      ensures id !in c.inAllSources
    {
      DesignMembership(records, id);
    }
    StrictlyIncreasingUnique(c.inAllSources, []);
  }

  /** With the design example's ids, the ids exclusive to Salesforce are [101]. */
  lemma DesignExclusiveSalesforce(records: seq<Record>)
    requires DesignShape(records)
    ensures CompareSources(records).onlyInSalesforce == [101]
  {
    var c := CompareSources(records);
    forall id
      ensures id in c.onlyInSalesforce <==> id in [101]
    {
      DesignMembership(records, id);
    }
    StrictlyIncreasingUnique(c.onlyInSalesforce, [101]);
  }

  /** With the design example's ids, the ids exclusive to HubSpot are [106]. */
  lemma DesignExclusiveHubspot(records: seq<Record>)
    requires DesignShape(records)
    ensures CompareSources(records).onlyInHubspot == [106]
  {
    var c := CompareSources(records);
    forall id
      ensures id in c.onlyInHubspot <==> id in [106]
    {
      DesignMembership(records, id);
    }
    StrictlyIncreasingUnique(c.onlyInHubspot, [106]);
  }

  /** With the design example's ids, the ids exclusive to the internal database are [107, 108]. */
  lemma DesignExclusiveInternal(records: seq<Record>)
    requires DesignShape(records)
    ensures CompareSources(records).onlyInInternal == [107, 108]
  {
    var c := CompareSources(records);
    forall id
      ensures id in c.onlyInInternal <==> id == 107 || id == 108
    {
      DesignMembership(records, id);
    }
    TwoIdsList(c.onlyInInternal, 107, 108);
  }

  /** A strictly increasing list holding exactly the values `a < b` is `[a, b]`. */
  lemma TwoIdsList(xs: seq<int>, a: int, b: int)
    requires a < b
    requires StrictlyIncreasing(xs)
    requires forall x :: x in xs <==> x == a || x == b
    ensures xs == [a, b]
  {
    forall x
      ensures x in xs <==> x in [a, b]
    {
    }
    StrictlyIncreasingUnique(xs, [a, b]);
  }

  /** With the design example's ids, every source has 4 distinct ids. */
  lemma DesignCounts(records: seq<Record>)
    requires DesignShape(records)
    ensures var c := CompareSources(records);
      c.salesforceCount == 4 && c.hubspotCount == 4 && c.internalCount == 4
  {
    FourIds(records, Salesforce, 101, 102, 103, 104);
    FourIds(records, Hubspot, 103, 104, 105, 106);
    FourIds(records, Internal, 102, 105, 107, 108);
  }

  /**
   * No id of the design example is in all three sources; 101 and 106 are the
   * only ids exclusive to Salesforce and HubSpot, 107 and 108 (in that order)
   * those exclusive to the internal database; every source has 4 distinct ids.
   */
  lemma DesignComparison()
    ensures CompareSources(DesignCustomers) == SourceComparisonResult([], [101], [106], [107, 108], 4, 4, 4)
  {
    assert DesignShape(DesignCustomers);
    DesignInAll(DesignCustomers);
    DesignExclusiveSalesforce(DesignCustomers);
    DesignExclusiveHubspot(DesignCustomers);
    DesignExclusiveInternal(DesignCustomers);
    DesignCounts(DesignCustomers);
  }
}
