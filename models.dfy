/** The five record types of the CRM back office, the bounds their fields
    must respect, and the string each record shows as. Money is held in
    integer hundredths: every money field is a decimal with exactly two
    decimal places. */
module Models {

  /** A primary key. */
  type Id = int

  /** A decimal amount with two decimal places, as a number of hundredths. */
  type Cents = int

  datatype Service = Service(name: string, description: string, cost: Cents)

  datatype Campaign = Campaign(name: string, service: Id, promotionChannel: string, budget: Cents)

  /** The email is kept as text: its length is bounded, its format check is
      not modelled. */
  datatype PotentialClient = PotentialClient(fullName: string, phone: string, email: string, campaign: Id)

  /** The document is the stored file's relative path and the conclusion
      date is kept as text; neither is interpreted. */
  datatype Contract = Contract(
    name: string,
    service: Id,
    document: string,
    conclusionDate: string,
    validityPeriod: int,
    amount: Cents)

  /** The link that marks a potential client as converted by a contract. */
  datatype ActiveClient = ActiveClient(potentialClient: Id, contract: Id)

  /** The five tables. */
  datatype Table = Services | Campaigns | PotentialClients | Contracts | ActiveClients

  /** One record of any table. */
  datatype Row =
    | ServiceRow(service: Service)
    | CampaignRow(campaign: Campaign)
    | PotentialClientRow(potentialClient: PotentialClient)
    | ContractRow(contract: Contract)
    | ActiveClientRow(activeClient: ActiveClient)

  function TableOf(row: Row): Table
  {
    match row
    case ServiceRow(_) => Services
    case CampaignRow(_) => Campaigns
    case PotentialClientRow(_) => PotentialClients
    case ContractRow(_) => Contracts
    case ActiveClientRow(_) => ActiveClients
  }

  // Field bounds declared on the model fields.
  const MaxNameLength: nat := 100
  const MaxPhoneLength: nat := 11
  const MaxEmailLength: nat := 254  // the default length of an email field

  /** A decimal field of 100 digits with 2 decimal places holds fewer than
      10^100 hundredths in absolute value. */
  const CostBound: int := 1_0000000000_0000000000_0000000000_0000000000_0000000000_0000000000_0000000000_0000000000_0000000000_0000000000

  /** A decimal field of 10 digits with 2 decimal places holds fewer than
      10^10 hundredths in absolute value. */
  const MoneyBound: int := 10_000_000_000

  /** The value fits a decimal field whose hundredths are bounded by `bound`. */
  predicate FitsDecimal(c: Cents, bound: int)
  {
    -bound < c < bound
  }

  /** Field validation of a whole record: character limits, decimal digit
      limits and the lower bound 0 of the positive-integer field. Money
      fields carry no sign constraint. */
  predicate FieldsOk(row: Row)
  {
    match row
    case ServiceRow(s) =>
      |s.name| <= MaxNameLength && FitsDecimal(s.cost, CostBound)
    case CampaignRow(c) =>
      |c.name| <= MaxNameLength && |c.promotionChannel| <= MaxNameLength && FitsDecimal(c.budget, MoneyBound)
    case PotentialClientRow(p) =>
      |p.fullName| <= MaxNameLength && |p.phone| <= MaxPhoneLength && |p.email| <= MaxEmailLength
    case ContractRow(k) =>
      |k.name| <= MaxNameLength && k.validityPeriod >= 0 && FitsDecimal(k.amount, MoneyBound)
    case ActiveClientRow(_) =>
      true
  }

  /** The text a record shows as. An active client shows as the full name
      of its potential client, which `fullNameOfLinked` supplies (the
      related row is fetched by the ORM). */
  function Str(row: Row, fullNameOfLinked: string): string
  {
    match row
    case ServiceRow(s) => s.name
    case CampaignRow(c) => c.name
    case PotentialClientRow(p) => p.fullName
    case ContractRow(k) => k.name
    case ActiveClientRow(_) => fullNameOfLinked
  }
}
