/**
 * The customer record the sales and CRM code read and write: its choice
 * fields with their stored codes, and the fields the views filter on.
 */
module CrmModels {
  import opened Wrappers

  type CustomerId = int

  /** Seconds since the epoch: the value a `DateTimeField` stores. */
  type Timestamp = int

  /** A `DateField`: a calendar day counted from the epoch. */
  type Day = int

  datatype ClientType = ConstructionCompany | HardwareStore | GeneralPublic | OtherClient {
    /** The code stored in the `client_type` column. */
    function Code(): string {
      match this
      case ConstructionCompany => "construction_company"
      case HardwareStore => "hardware_store"
      case GeneralPublic => "general_public"
      case OtherClient => "other"
    }
  }

  datatype CustomerStatus = Active | Inactive | Delinquent | NewCustomer {
    /** The code stored in the `status` column. */
    function Code(): string {
      match this
      case Active => "active"
      case Inactive => "inactive"
      case Delinquent => "delinquent"
      case NewCustomer => "new"
    }
  }

  /** Different choices are stored under different codes, so filtering on a code selects one choice. */
  lemma CodesAreDistinct(a: ClientType, b: ClientType, s: CustomerStatus, t: CustomerStatus)
    ensures a.Code() == b.Code() ==> a == b
    ensures s.Code() == t.Code() ==> s == t
  {
  }

  const DefaultClientType := ConstructionCompany
  const DefaultCustomerStatus := Active

  /** A calendar date in the server's time zone. */
  datatype CalendarDate = CalendarDate(year: int, month: int, day: int)

  datatype Customer = Customer(
    id: CustomerId,
    name: string,
    clientType: ClientType,
    status: CustomerStatus,
    lastPurchase: Option<Timestamp>,
    createdAt: CalendarDate)
}
