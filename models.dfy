/**
 * The entities of the customer store (app/models.py).
 *
 * Only the attributes that enter the reconciliation are kept: the customer id
 * a source system assigned and the source system itself. The display name,
 * the e-mail address, the surrogate primary key and the timestamps never
 * influence a count or a set operation and are not modelled.
 */
module Models {

  /** The closed enumeration of source systems (SourceSystem). */
  datatype Source = Salesforce | Hubspot | Internal

  /**
   * One stored customer row. Nothing makes `(customerId, source)` unique:
   * the same pair may be stored any number of times.
   */
  datatype Record = Record(customerId: int, source: Source)
}
