/**
 * Properties that relate several calls of the reconciliation operations, or
 * the operations to each other.
 */
module Properties {
  import opened Models
  import opened SortedSets
  import opened Services

  // ---------------------------------------------------------------------
  // The per-source listing
  // ---------------------------------------------------------------------

  /** Filtering a concatenation filters each part and keeps them in order. */
  lemma {:induction false} FilterAppend(a: seq<Record>, b: seq<Record>, src: Source)
    ensures GetCustomersBySource(a + b, src) == GetCustomersBySource(a, src) + GetCustomersBySource(b, src)
  {
    if a != [] {
      assert (a + b)[1..] == a[1..] + b;
      FilterAppend(a[1..], b, src);
    } else {
      assert a + b == b;
    }
  }

  /** Filtering a second time by the same source changes nothing. */
  lemma {:induction false} FilterIdempotent(records: seq<Record>, src: Source)
    ensures GetCustomersBySource(GetCustomersBySource(records, src), src) == GetCustomersBySource(records, src)
  {
    if records != [] {
      FilterIdempotent(records[1..], src);
      var rest := GetCustomersBySource(records[1..], src);
      if records[0].source == src {
        var kept := [records[0]] + rest;
        assert GetCustomersBySource(records, src) == kept;
        assert kept[0] == records[0] && kept[1..] == rest;
        assert GetCustomersBySource(kept, src) == [records[0]] + GetCustomersBySource(rest, src);
      } else {
        assert GetCustomersBySource(records, src) == rest;
      }
    }
  }

  /** Every record comes from exactly one source, so the three listings add up to the snapshot. */
  lemma {:induction false} FilterPartition(records: seq<Record>)
    ensures |GetCustomersBySource(records, Salesforce)| + |GetCustomersBySource(records, Hubspot)|
          + |GetCustomersBySource(records, Internal)| == |records|
  {
    if records != [] {
      FilterPartition(records[1..]);
    }
  }

  // ---------------------------------------------------------------------
  // Counts
  // ---------------------------------------------------------------------

  /**
   * The count of a source is the number of its distinct ids: at most the
   * number of its records, and equal to it exactly when no id is repeated
   * within that source.
   */
  lemma SourceCountBound(records: seq<Record>, src: Source)
    ensures |SourceIds(records, src)| <= |GetCustomersBySource(records, src)|
    ensures |SourceIds(records, src)| == |GetCustomersBySource(records, src)|
        <==> DistinctCustomerIds(GetCustomersBySource(records, src))
  {
    var own := GetCustomersBySource(records, src);
    SetOfSize(CustomerIds(own));
    assert forall i | 0 <= i < |own| :: CustomerIds(own)[i] == own[i].customerId;
    assert NoRepeats(CustomerIds(own)) <==> DistinctCustomerIds(own);
  }

  /** A customer id occurs in the snapshot exactly when some source holds it. */
  lemma HasIdInSomeSource(records: seq<Record>)
    ensures forall id :: HasId(records, id) <==>
      id in SourceIds(records, Salesforce) + SourceIds(records, Hubspot) + SourceIds(records, Internal)
  {
    forall id
      ensures HasId(records, id) <==>
        id in SourceIds(records, Salesforce) + SourceIds(records, Hubspot) + SourceIds(records, Internal)
    {
      if HasId(records, id) {
        var i :| 0 <= i < |records| && records[i].customerId == id;
        var src := records[i].source;
        assert records[i] in records && records[i] == Record(id, src);
        assert id in SourceIds(records, src);
        match src
        case Salesforce =>
        case Hubspot =>
        case Internal =>
      }
      if id in SourceIds(records, Salesforce) + SourceIds(records, Hubspot) + SourceIds(records, Internal) {
        var src :| Record(id, src) in records;
        var i :| 0 <= i < |records| && records[i] == Record(id, src);
        assert records[i].customerId == id;
      }
    }
  }

  /** The distinct ids of the whole snapshot are the union of the three per-source sets. */
  lemma UniqueIsUnionOfSources(records: seq<Record>)
    ensures DeduplicateCustomers(records).uniqueCustomers
         == |SourceIds(records, Salesforce) + SourceIds(records, Hubspot) + SourceIds(records, Internal)|
  {
    var d := DeduplicateCustomers(records);
    var union := SourceIds(records, Salesforce) + SourceIds(records, Hubspot) + SourceIds(records, Internal);
    HasIdInSomeSource(records);
    ListingSize(d.uniqueCustomerIds, union);
  }

  /** The ids found in exactly two of the three sources. */
  function PartiallyShared(records: seq<Record>): (ids: set<int>)
    ensures forall id :: id in ids <==>
      (HasRecord(records, id, Salesforce) && HasRecord(records, id, Hubspot) && !HasRecord(records, id, Internal)) ||
      (HasRecord(records, id, Salesforce) && !HasRecord(records, id, Hubspot) && HasRecord(records, id, Internal)) ||
      (!HasRecord(records, id, Salesforce) && HasRecord(records, id, Hubspot) && HasRecord(records, id, Internal))
  {
    InExactlyTwo(SourceIds(records, Salesforce), SourceIds(records, Hubspot), SourceIds(records, Internal))
  }

  /** Cardinality of a union of five pairwise disjoint sets. */
  lemma FiveDisjointParts(p1: set<int>, p2: set<int>, p3: set<int>, p4: set<int>, p5: set<int>)
    requires p1 !! p2 && p1 !! p3 && p1 !! p4 && p1 !! p5
    requires p2 !! p3 && p2 !! p4 && p2 !! p5
    requires p3 !! p4 && p3 !! p5
    requires p4 !! p5
    ensures |p1 + p2 + p3 + p4 + p5| == |p1| + |p2| + |p3| + |p4| + |p5|
  {
    assert |p1 + p2| == |p1| + |p2|;
    assert (p1 + p2) !! p3;
    assert |p1 + p2 + p3| == |p1 + p2| + |p3|;
    assert (p1 + p2 + p3) !! p4;
    assert |p1 + p2 + p3 + p4| == |p1 + p2 + p3| + |p4|;
    assert (p1 + p2 + p3 + p4) !! p5;
  }

  /** The ids of exactly two of three sets. */
  function InExactlyTwo(a: set<int>, b: set<int>, c: set<int>): set<int> {
    (a * b - c) + (a * c - b) + (b * c - a)
  }

  /** Each element of a union of three sets is in exactly one of the five parts. */
  lemma ThreeWayCover(a: set<int>, b: set<int>, c: set<int>)
    ensures a + b + c == (a - b - c) + (b - a - c) + (c - a - b) + InExactlyTwo(a, b, c) + a * b * c
  {
    var parts := (a - b - c) + (b - a - c) + (c - a - b) + InExactlyTwo(a, b, c) + a * b * c;
    forall x | x in a + b + c
      ensures x in parts
    {
      if x in a && x in b && x in c {
        assert x in a * b * c;
      }
    }
  }

  /**
   * The union of three sets splits into the elements of exactly one set,
   * of exactly two sets, and of all three.
   */
  lemma ThreeWayPartition(a: set<int>, b: set<int>, c: set<int>)
    ensures |a + b + c| == |a - b - c| + |b - a - c| + |c - a - b| + |InExactlyTwo(a, b, c)| + |a * b * c|
  {
    ThreeWayCover(a, b, c);
    var p1, p2, p3, two, p5 := a - b - c, b - a - c, c - a - b, InExactlyTwo(a, b, c), a * b * c;
    assert p1 !! p2 && p1 !! p3 && p2 !! p3;
    assert p1 !! two && p2 !! two && p3 !! two;
    assert p1 !! p5 && p2 !! p5 && p3 !! p5;
    assert two !! p5;
    FiveDisjointParts(p1, p2, p3, two, p5);
  }

  /**
   * Every distinct id of the snapshot is in exactly one of: the three
   * exclusive lists, the ids shared by exactly two sources, and the ids
   * present everywhere. So those parts add up to the unique count.
   */
  lemma UnionPartition(records: seq<Record>)
    ensures var c := CompareSources(records);
      DeduplicateCustomers(records).uniqueCustomers
        == |c.onlyInSalesforce| + |c.onlyInHubspot| + |c.onlyInInternal|
         + |PartiallyShared(records)| + |c.inAllSources|
  {
    var s, h, i := SourceIds(records, Salesforce), SourceIds(records, Hubspot), SourceIds(records, Internal);
    ThreeWayPartition(s, h, i);
    UniqueIsUnionOfSources(records);
  }

  // ---------------------------------------------------------------------
  // Appending to the store
  // ---------------------------------------------------------------------

  /**
   * The store appends and never upserts: storing a `(customer_id, source)`
   * pair that is already present adds one record and one duplicate and keeps
   * the distinct ids.
   */
  lemma ReingestCountsAsDuplicate(records: seq<Record>, rec: Record)
    requires rec in records
    ensures var before, after := DeduplicateCustomers(records), DeduplicateCustomers(records + [rec]);
      && after.totalRecords == before.totalRecords + 1
      && after.uniqueCustomers == before.uniqueCustomers
      && after.duplicatesFound == before.duplicatesFound + 1
      && after.uniqueCustomerIds == before.uniqueCustomerIds
  {
    var grown := records + [rec];
    var k :| 0 <= k < |records| && records[k] == rec;
    assert CustomerIds(grown) == CustomerIds(records) + [rec.customerId];
    assert CustomerIds(records)[k] == rec.customerId;
    assert SetOf(CustomerIds(grown)) == SetOf(CustomerIds(records));
  }

  /** Re-storing a pair that is already present leaves the source comparison unchanged. */
  lemma ReingestKeepsComparison(records: seq<Record>, rec: Record)
    requires rec in records
    ensures CompareSources(records + [rec]) == CompareSources(records)
  {
    ReingestKeepsSourceIds(records, rec, Salesforce);
    ReingestKeepsSourceIds(records, rec, Hubspot);
    ReingestKeepsSourceIds(records, rec, Internal);
  }

  /** Re-storing a pair that is already present keeps every per-source id set. */
  lemma ReingestKeepsSourceIds(records: seq<Record>, rec: Record, src: Source)
    requires rec in records
    ensures SourceIds(records + [rec], src) == SourceIds(records, src)
  {
    forall id
      ensures HasRecord(records + [rec], id, src) <==> HasRecord(records, id, src)
    {
      assert Record(id, src) in records + [rec] <==> Record(id, src) in records || Record(id, src) == rec;
    }
  }
}
