# Customer deduplication: the reconciliation core

This project models the reconciliation logic of the customer deduplication
service, the `CustomerService` of `app/services.py`, and proves its
properties. The service keeps customer records that three source systems
upload: Salesforce, HubSpot and the internal database. It answers three
questions about the stored records:

- **listing by source** (`get_customers_by_source`): the records of one source
  system, in the order the store returns them;
- **duplicate analysis** (`deduplicate_customers`): how many records are stored,
  how many distinct customer ids they carry, how many records are duplicates,
  and the distinct ids in ascending order;
- **source comparison** (`compare_sources`): the ids held by all three sources,
  the ids held by exactly one source (one list per source), and the number of
  distinct ids per source.

The operations only read, so each is modelled as a pure function of the
snapshot the database query would return, a `seq<Record>`. A `Record` keeps
just the two attributes the computation uses: the customer id and the source.

Files:

- `models.dfy` (module `Models`): the `Source` enumeration and the `Record` row.
- `sorted_sets.dfy` (module `SortedSets`): Python's `sorted(list(s))` of a set of
  ints as `SortedSeqOf`. The module proves that this sequence is the unique
  strictly increasing sequence with the set's elements. It also proves how the
  size of a list's value set relates to its length.
- `services.dfy` (module `Services`): the three operations and their result
  records.
- `properties.dfy` (module `Properties`): lemmas relating several calls or
  several operations. They cover the filter's algebra, the count bounds, the
  union and partition identities, and the effect of storing a record again.
- `scenarios.dfy` (module `Scenarios`): the concrete situations of
  `tests/test_deduplication.py`, on the nine-record fixture of `tests/conftest.py`
  and on the small inline snapshots, proved about the model. The module also
  proves a twelve-record example with four ids per source. Its internal-only
  list has two ids, so the example checks a sorted exclusive list longer than
  one element.

Storing the same `(customer_id, source)` pair again appends a second row.
`bulk_create_customers` and `create_customer` only add rows
(app/services.py:11-38), and nothing in app/models.py:19-23 makes the pair
unique. This differs from a design that treats re-ingesting a pair as an
upsert and an id as unique within a source. The model follows the code. A repeated pair counts as one more record and one more duplicate
(`Properties.ReingestCountsAsDuplicate`). The source comparison does not change
(`Properties.ReingestKeepsComparison`). That design also has the engine fail
on a record whose source lies outside the enumeration. That case
cannot arise here, because `Source` is a closed datatype and so is
`SourceSystem`.

## Model

| member | source | states |
|---|---|---|
| Services.GetCustomersBySource | app/services.py:46-48 | every listed record comes from the requested source, and the listing is no longer than the snapshot |
| Services.GetCustomersBySourceContents | app/services.py:46-48 | the listing holds each record of the requested source exactly as many times as the snapshot does, and no record of another source; a record is listed iff it is stored and comes from that source |
| Services.CustomerIds | app/services.py:60 | the id of every record, in snapshot order, repeats kept: as long as the snapshot, position by position the record's id, and an id occurs in it exactly when some record carries it |
| Services.SourceIds | app/services.py:86-99 | an id is in a source's id set exactly when some stored record pairs that id with that source |
| Services.DeduplicateCustomers | app/services.py:51-75 | the total is the number of records; an id is listed iff some record carries it; the list is strictly ascending; the unique count is the length of the list; `0 <= unique <= total`; duplicates are `total - unique`, never negative, and zero exactly when no two records share a customer id |
| Services.CompareSources | app/services.py:78-118 | an id is in `in_all_sources` iff all three sources hold it; it is in `only_in_X` iff source X holds it and the other two do not; all four lists are strictly ascending; the three exclusive lists are pairwise disjoint and disjoint from `in_all_sources`; each count is the number of distinct ids of its source; `in_all_sources` and `only_in_X` together are no larger than X's count |
| Services.DisjointPartsBound | app/services.py:103-117 | two disjoint subsets of a source's id set together have at most its size, which bounds `in_all_sources` plus `only_in_X` by `X_count` |
| SortedSets.SortedSeqOf | app/services.py:74 | `sorted(list(s))` of an id set is strictly increasing, holds exactly the elements of `s`, and has length `len(s)` |
| SortedSets.StrictlyIncreasingUnique | app/services.py:111-114 | two strictly increasing lists with the same elements are equal, so `sorted(list(s))` is determined by `s` |
| SortedSets.SortedSeqOfAscending | app/services.py:74 | sorting the value set of a list that is already strictly ascending gives that list back |
| SortedSets.SetOfSize | app/services.py:63-68 | `SetOf(xs)` models Python's `set(xs)` (lines 63, 89, 94 and 99): the distinct values of a list. A list has no more distinct values than elements, and exactly as many iff no value repeats, which is why `duplicates_found` is never negative |
| SortedSets.ListingSize | app/services.py:67-74 | a strictly increasing listing of a set is as long as the set is large, so `len(sorted(list(s))) == len(s)` |
| Properties.FilterAppend | app/services.py:46-48 | listing a source over a concatenation lists it over each part and keeps the parts in order |
| Properties.FilterIdempotent | app/services.py:46-48 | listing a source twice gives the same records as listing it once |
| Properties.FilterPartition | app/services.py:46-48 | the three per-source listings together are exactly as long as the snapshot |
| Properties.SourceCountBound | app/services.py:86-99 | a source's count is at most the number of its records, with equality iff no id repeats within that source |
| Properties.HasIdInSomeSource | app/services.py:57-99 | an id occurs among all records exactly when it is in one of the three per-source id sets |
| Properties.UniqueIsUnionOfSources | app/services.py:57-67 | the unique-customer count is the size of the union of the three per-source id sets |
| Properties.PartiallyShared | app/services.py:101-108 | the ids held by exactly two of the three sources, the part that the comparison reports in none of its lists |
| Properties.ThreeWayCover | app/services.py:101-108 | the union of three id sets is the exclusive parts, the ids of exactly two sets, and the common part together |
| Properties.ThreeWayPartition | app/services.py:101-108 | the size of a three-way union is the sum of the sizes of those five disjoint parts |
| Properties.UnionPartition | app/services.py:51-118 | the unique count equals the three exclusive list lengths plus the number of ids held by exactly two sources plus the length of `in_all_sources` |
| Properties.ReingestCountsAsDuplicate | app/services.py:25-38 | appending a record whose pair is already stored raises the total and the duplicates by one and keeps the unique count and the id list |
| Properties.ReingestKeepsSourceIds | app/services.py:86-99 | appending a record whose pair is already stored keeps every source's id set |
| Properties.ReingestKeepsComparison | app/services.py:78-118 | appending a record whose pair is already stored leaves the whole source comparison unchanged |
| Scenarios.EmptySnapshot | tests/test_deduplication.py:106-114 | an empty store gives 0 / 0 / 0 and no ids, an empty comparison with zero counts (lines 157-169), and empty listings |
| Scenarios.SampleAnalysis | tests/test_deduplication.py:116-133 | the fixture's nine records give 9 records, 6 customers, 3 duplicates and ids 101 to 106 |
| Scenarios.SampleSalesforce | tests/test_deduplication.py:70-80 | listing Salesforce in the fixture gives its three records in upload order |
| Scenarios.SampleHubspot | tests/test_deduplication.py:82-90 | listing HubSpot in the fixture gives its three records in upload order |
| Scenarios.SampleInternal | tests/test_deduplication.py:92-100 | listing the internal database in the fixture gives its three records in upload order |
| Scenarios.FixtureInAll | tests/test_deduplication.py:185-186 | for any snapshot whose sources hold the fixture's ids, no id is in all three sources |
| Scenarios.FixtureExclusiveSalesforce | tests/test_deduplication.py:188-189 | for any snapshot whose sources hold the fixture's ids, `only_in_salesforce` is `[101]` |
| Scenarios.FixtureExclusiveHubspot | tests/test_deduplication.py:190 | for any snapshot whose sources hold the fixture's ids, `only_in_hubspot` is `[104]` |
| Scenarios.FixtureExclusiveInternal | tests/test_deduplication.py:191 | for any snapshot whose sources hold the fixture's ids, `only_in_internal` is `[106]` |
| Scenarios.FixtureCounts | tests/test_deduplication.py:193-196 | for any snapshot whose sources hold the fixture's ids, each source counts 3 distinct ids |
| Scenarios.SampleComparison | tests/test_deduplication.py:171-196 | the fixture's comparison is `in_all=[]`, `[101]`, `[104]`, `[106]` with every count 3 |
| Scenarios.AllUniqueAnalysis | tests/test_deduplication.py:135-151 | three records with ids 201, 202 and 203 give 3 records, 3 customers and no duplicate |
| Scenarios.ComparisonOfEverywhereShape | tests/test_deduplication.py:198-216 | if id 999 is the only id of every source, it is the only id in all sources and every exclusive list is empty |
| Scenarios.EverywhereComparison | tests/test_deduplication.py:198-216 | customer 999 stored once by each source is in all sources and in no exclusive list |
| Scenarios.DesignAnalysis | app/services.py:51-75 | twelve records, four per source (Salesforce 101-104, HubSpot 103-106, internal 102, 105, 107, 108), give 12 records, 8 customers, 4 duplicates and ids 101 to 108 |
| Scenarios.DesignInAll | app/services.py:103 | for any snapshot whose sources hold those ids, no id is in all three sources |
| Scenarios.DesignExclusiveSalesforce | app/services.py:106 | for any snapshot whose sources hold those ids, `only_in_salesforce` is `[101]` |
| Scenarios.DesignExclusiveHubspot | app/services.py:107 | for any snapshot whose sources hold those ids, `only_in_hubspot` is `[106]` |
| Scenarios.DesignExclusiveInternal | app/services.py:108 | for any snapshot whose sources hold those ids, `only_in_internal` is `[107, 108]`, in ascending order |
| Scenarios.DesignCounts | app/services.py:115-117 | for any snapshot whose sources hold those ids, each source counts 4 distinct ids |
| Scenarios.DesignComparison | app/services.py:78-118 | the twelve records compare as `in_all=[]`, `[101]`, `[106]`, `[107, 108]`, with every count 4 |

## Left out

- Database access is outside the model: sessions, queries, `commit` and `refresh`. The snapshot is a parameter instead.
- `create_customer`, `bulk_create_customers` and `clear_all_customers` (app/services.py:11-38, 121-125) only write to the database, so they are not modelled as operations. Appending a batch is `records + batch` where the Reingest lemmas need it.
- `get_all_customers` (app/services.py:41-43) returns the snapshot itself.
- The model assumes that the single query of `deduplicate_customers` (app/services.py:57) and the three queries of `compare_sources` (app/services.py:86-99) all read the same consistent snapshot. The model also lists records in the order the query returns them; SQL does not fix that order without an `ORDER BY`, and the model does not represent that uncertainty.
- The HTTP layer is not modelled: FastAPI routing, status codes and the error mapping in app/api/endpoints.py.
- The health endpoints of app/main.py are not modelled.
- Pydantic request validation in app/schemas.py is not modelled, including e-mail syntax and name length. It is library behaviour.
- The customer name, e-mail, surrogate key and timestamps are not modelled. They never enter a count or a set operation.
- The seeding script data/seed_data.py is not modelled. It repeats the same set computation around file and console I/O.
- The test client and the test database setup of tests/conftest.py are not part of this model.
- Customer ids are unbounded integers. The database column is an SQL `Integer`, but the service computes nothing that could overflow.
