/**
 * The reconciliation logic of CustomerService (app/services.py): the
 * per-source listing, the duplicate analysis and the three-way source
 * comparison, each a pure function of a snapshot of the stored records.
 *
 * The snapshot is the list the database query returns; it is passed in
 * explicitly instead of being read through a session.
 */
module Services {
  import opened Models
  import opened SortedSets

  /** The answer of the duplicate analysis (DeduplicationResult). */
  datatype DeduplicationResult = DeduplicationResult(
    totalRecords: int,
    uniqueCustomers: int,
    duplicatesFound: int,
    uniqueCustomerIds: seq<int>)

  /** The answer of the source comparison (SourceComparisonResult). */
  datatype SourceComparisonResult = SourceComparisonResult(
    inAllSources: seq<int>,
    onlyInSalesforce: seq<int>,
    onlyInHubspot: seq<int>,
    onlyInInternal: seq<int>,
    salesforceCount: int,
    hubspotCount: int,
    internalCount: int)

  // ---------------------------------------------------------------------
  // Vocabulary used by the contracts
  // ---------------------------------------------------------------------

  /** Some record of the snapshot carries customer id `id`. */
  predicate HasId(records: seq<Record>, id: int) {
    exists i | 0 <= i < |records| :: records[i].customerId == id
  }

  /** Some record of the snapshot carries customer id `id` and comes from `src`. */
  predicate HasRecord(records: seq<Record>, id: int, src: Source) {
    Record(id, src) in records
  }

  /** No two records of the snapshot carry the same customer id. */
  predicate DistinctCustomerIds(records: seq<Record>) {
    forall i, j | 0 <= i < j < |records| :: records[i].customerId != records[j].customerId
  }

  /** Every value of `a` is absent from `b`. */
  predicate Disjoint(a: seq<int>, b: seq<int>) {
    forall x | x in a :: x !in b
  }

  // ---------------------------------------------------------------------
  // Building blocks
  // ---------------------------------------------------------------------

  /** The customer id of every record, in order, repeats included (the list comprehension of line 60). */
  function CustomerIds(records: seq<Record>): (ids: seq<int>)
    ensures |ids| == |records|
    ensures forall i | 0 <= i < |records| :: ids[i] == records[i].customerId
    ensures forall id :: id in ids <==> HasId(records, id)
  {
    var ids := seq(|records|, i requires 0 <= i < |records| => records[i].customerId);
    assert forall id :: HasId(records, id) ==> id in ids by {
      forall id | HasId(records, id)
        ensures id in ids
      {
        var i :| 0 <= i < |records| && records[i].customerId == id;
        assert ids[i] == id;
      }
    }
    ids
  }

  /**
   * get_customers_by_source: the records that come from `src`, in snapshot
   * order. Each such record is kept as often as it occurs; no other record
   * is kept.
   */
  function GetCustomersBySource(records: seq<Record>, src: Source): (r: seq<Record>)
    ensures |r| <= |records|
    ensures forall i | 0 <= i < |r| :: r[i].source == src
  {
    if records == [] then []
    else (if records[0].source == src then [records[0]] else []) + GetCustomersBySource(records[1..], src)
  }

  /**
   * The listing holds each record of `src` exactly as often as the snapshot
   * does, and no record of another source.
   */
  lemma {:induction false} GetCustomersBySourceContents(records: seq<Record>, src: Source)
    ensures forall rec :: multiset(GetCustomersBySource(records, src))[rec]
                       == if rec.source == src then multiset(records)[rec] else 0
    ensures forall rec :: rec in GetCustomersBySource(records, src) <==> rec in records && rec.source == src
  {
    if records != [] {
      GetCustomersBySourceContents(records[1..], src);
      assert records == [records[0]] + records[1..];
    }
  }

  /** The distinct customer ids of one source (the sets built at lines 86-99). */
  function SourceIds(records: seq<Record>, src: Source): (ids: set<int>)
    ensures forall id :: id in ids <==> HasRecord(records, id, src)
  {
    var own := GetCustomersBySource(records, src);
    GetCustomersBySourceContents(records, src);
    assert forall id :: id in CustomerIds(own) <==> HasRecord(records, id, src) by {
      forall id
        ensures id in CustomerIds(own) <==> HasRecord(records, id, src)
      {
        if id in CustomerIds(own) {
          var k :| 0 <= k < |own| && CustomerIds(own)[k] == id;
          assert own[k] in own && own[k] == Record(id, src);
        }
        if HasRecord(records, id, src) {
          var k :| 0 <= k < |own| && own[k] == Record(id, src);
          assert CustomerIds(own)[k] == id;
        }
      }
    }
    SetOf(CustomerIds(own))
  }

  /** Two disjoint parts of a set together are no larger than the set. */
  lemma DisjointPartsBound(whole: set<int>, part1: set<int>, part2: set<int>)
    requires part1 <= whole && part2 <= whole && part1 !! part2
    ensures |part1| + |part2| <= |whole|
  {
    var both := part1 + part2;
    assert |both| == |part1| + |part2|;
    assert whole * both == both;
    assert |whole - both| == |whole| - |both|;
  }

  // ---------------------------------------------------------------------
  // The service operations
  // ---------------------------------------------------------------------

  /**
   * deduplicate_customers: counts every record, counts the distinct
   * customer ids, and lists those ids in ascending order.
   */
  function DeduplicateCustomers(records: seq<Record>): (r: DeduplicationResult)
    ensures r.totalRecords == |records|
    ensures forall id :: id in r.uniqueCustomerIds <==> HasId(records, id)
    ensures StrictlyIncreasing(r.uniqueCustomerIds)
    ensures r.uniqueCustomers == |r.uniqueCustomerIds|
    ensures 0 <= r.uniqueCustomers <= r.totalRecords
    ensures r.duplicatesFound == r.totalRecords - r.uniqueCustomers
    ensures r.duplicatesFound >= 0
    ensures r.duplicatesFound == 0 <==> DistinctCustomerIds(records)
  {
    var allIds := CustomerIds(records);
    var unique := SetOf(allIds);
    SetOfSize(allIds);
    assert NoRepeats(allIds) <==> DistinctCustomerIds(records);
    DeduplicationResult(|allIds|, |unique|, |allIds| - |unique|, SortedSeqOf(unique))
  }

  /**
   * compare_sources: the ids present in all three sources, the ids present
   * in exactly one of them, and the number of distinct ids of each source.
   */
  function CompareSources(records: seq<Record>): (r: SourceComparisonResult)
    ensures forall id :: id in r.inAllSources <==>
      HasRecord(records, id, Salesforce) && HasRecord(records, id, Hubspot) && HasRecord(records, id, Internal)
    ensures forall id :: id in r.onlyInSalesforce <==>
      HasRecord(records, id, Salesforce) && !HasRecord(records, id, Hubspot) && !HasRecord(records, id, Internal)
    ensures forall id :: id in r.onlyInHubspot <==>
      HasRecord(records, id, Hubspot) && !HasRecord(records, id, Salesforce) && !HasRecord(records, id, Internal)
    ensures forall id :: id in r.onlyInInternal <==>
      HasRecord(records, id, Internal) && !HasRecord(records, id, Salesforce) && !HasRecord(records, id, Hubspot)
    ensures StrictlyIncreasing(r.inAllSources) && StrictlyIncreasing(r.onlyInSalesforce)
    ensures StrictlyIncreasing(r.onlyInHubspot) && StrictlyIncreasing(r.onlyInInternal)
    ensures Disjoint(r.onlyInSalesforce, r.onlyInHubspot) && Disjoint(r.onlyInSalesforce, r.onlyInInternal)
    ensures Disjoint(r.onlyInHubspot, r.onlyInInternal)
    ensures Disjoint(r.inAllSources, r.onlyInSalesforce) && Disjoint(r.inAllSources, r.onlyInHubspot)
    ensures Disjoint(r.inAllSources, r.onlyInInternal)
    ensures r.salesforceCount == |SourceIds(records, Salesforce)|
    ensures r.hubspotCount == |SourceIds(records, Hubspot)|
    ensures r.internalCount == |SourceIds(records, Internal)|
    ensures |r.inAllSources| + |r.onlyInSalesforce| <= r.salesforceCount
    ensures |r.inAllSources| + |r.onlyInHubspot| <= r.hubspotCount
    ensures |r.inAllSources| + |r.onlyInInternal| <= r.internalCount
  {
    var salesforceIds := SourceIds(records, Salesforce);
    var hubspotIds := SourceIds(records, Hubspot);
    var internalIds := SourceIds(records, Internal);
    var inAll := salesforceIds * hubspotIds * internalIds;
    var onlySalesforce := salesforceIds - hubspotIds - internalIds;
    var onlyHubspot := hubspotIds - salesforceIds - internalIds;
    var onlyInternal := internalIds - salesforceIds - hubspotIds;
    DisjointPartsBound(salesforceIds, inAll, onlySalesforce);
    DisjointPartsBound(hubspotIds, inAll, onlyHubspot);
    DisjointPartsBound(internalIds, inAll, onlyInternal);
    SourceComparisonResult(
      SortedSeqOf(inAll),
      SortedSeqOf(onlySalesforce),
      SortedSeqOf(onlyHubspot),
      SortedSeqOf(onlyInternal),
      |salesforceIds|,
      |hubspotIds|,
      |internalIds|)
  }
}
