/**
 * What the consolidated billing report reads from the billing service and
 * the two tables it builds. Money is held in integer cents, so the sums the
 * report forms are exact.
 */
module BillingData {

  /** A child of a top-level item (fetched by `getAssociatedChildren`). */
  datatype ChildItem = ChildItem(
    id: int,
    description: string,
    recurringAfterTaxAmount: int,
    oneTimeAfterTaxAmount: int)

  /** A top-level invoice item, with the children the service lists for it. */
  datatype TopItem = TopItem(
    id: int,
    categoryCode: string,
    hostName: string,
    domainName: string,
    description: string,
    totalRecurringAmount: int,
    totalOneTimeAmount: int,
    recurringAfterTaxAmount: int,
    oneTimeAfterTaxAmount: int,
    children: seq<ChildItem>)

  /** An invoice as listed by `getInvoices`. `invoiceTotalAmount` is the
      service's decimal string; `topLevelItems` is everything the paged
      `getInvoiceTopLevelItems` call can return for this invoice. */
  datatype Invoice = Invoice(
    id: int,
    createDate: string,
    invoiceTotalAmount: string,
    invoiceTopLevelItemCount: int,
    topLevelItems: seq<TopItem>)

  /** A row of the summary sheet: the `'Host Name'` cell and one cell per month.
      Month labels have at most seven characters, so none can be `'Host Name'`. */
  datatype HostRow = HostRow(hostName: string, cells: map<string, int>)

  /** A row of the detail sheet. */
  datatype LedgerRow = LedgerRow(
    hostName: string,
    description: string,
    month: string,
    invoiceId: int,
    totalCost: int)

  /** `hostlist`, `hostinfo` and `alliteminfo` of the source. */
  datatype Tables = Tables(hostlist: seq<string>, hostinfo: seq<HostRow>, ledger: seq<LedgerRow>)

  const EmptyTables: Tables := Tables([], [], [])
}
