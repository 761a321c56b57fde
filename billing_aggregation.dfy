/**
 * The folding of invoice items into the summary table (one row per host, one
 * cell per month) and the detail ledger of the consolidated billing report.
 *
 * The functions state what the tables are after each step; the methods are
 * the source's loops, each proved to compute the function beside it.
 */
module BillingAggregation {
  import opened Common
  import opened BillingData
  import opened BillingMonths

  /** Items requested per `getInvoiceTopLevelItems` call. */
  const PageSize: int := 10

  /** The host key of items that do not belong to a server. */
  const NoHost: string := "<none>"

  /** Items of category `server` or `guest_core` belong to a host. */
  predicate IsHostable(item: TopItem) {
    item.categoryCode == "server" || item.categoryCode == "guest_core"
  }

  /** The summary-table key of an item: `hostName.domainName`, or `<none>`. */
  function HostKey(item: TopItem): string {
    if IsHostable(item) then item.hostName + "." + item.domainName else NoHost
  }

  function PreTaxTotal(item: TopItem): int {
    item.totalRecurringAmount + item.totalOneTimeAmount
  }

  function AfterTaxTotal(item: TopItem): int {
    item.recurringAfterTaxAmount + item.oneTimeAfterTaxAmount
  }

  function ChildTotal(child: ChildItem): int {
    child.recurringAfterTaxAmount + child.oneTimeAfterTaxAmount
  }

  // ---------------------------------------------------------------------------
  // Paging

  /** `len(range(0, count, PageSize))`. */
  function NumPages(count: int): nat {
    if count <= 0 then 0 else (count + PageSize - 1) / PageSize
  }

  function Clamp(x: int, n: nat): (c: nat)
    ensures c <= n
    ensures 0 <= x <= n ==> c == x
  {
    if x < 0 then 0 else if x > n then n else x
  }

  /** What the service returns for `limit = PageSize, offset = offset`: the
      items at those positions that exist. */
  function Page(items: seq<TopItem>, offset: int): seq<TopItem> {
    items[Clamp(offset, |items|)..Clamp(offset + PageSize, |items|)]
  }

  /** Everything the paged requests of one invoice return: the pages at
      offsets 0, 10, ... below `invoiceTopLevelItemCount`, in order. */
  function Fetched(invoice: Invoice): seq<TopItem> {
    invoice.topLevelItems[..Clamp(NumPages(invoice.invoiceTopLevelItemCount) * PageSize, |invoice.topLevelItems|)]
  }

  /** Line 148: the offsets of `range(0, count, PageSize)`. Exactly the
      multiples of the page size below `count`, ascending; none when
      `count <= 0`. */
  method PageOffsets(count: int) returns (offsets: seq<int>)
    ensures |offsets| == NumPages(count)
    ensures forall k :: 0 <= k < |offsets| ==> offsets[k] == k * PageSize && offsets[k] < count
    ensures count <= |offsets| * PageSize
  {
    offsets := [];
    var offset := 0;
    while offset < count
      invariant offset == |offsets| * PageSize
      invariant forall k :: 0 <= k < |offsets| ==> offsets[k] == k * PageSize && offsets[k] < count
      invariant |offsets| == 0 || offset - PageSize < count
      decreases count - offset
    {
      offsets := offsets + [offset];
      offset := offset + PageSize;
    }
  }

  // ---------------------------------------------------------------------------
  // The summary table

  /** Every row named `host` has its `month` cell set to `cost`. */
  function Overwritten(rows: seq<HostRow>, host: string, month: string, cost: int): (r: seq<HostRow>)
    ensures |r| == |rows|
  {
    seq(|rows|, i requires 0 <= i < |rows| =>
      if rows[i].hostName == host then rows[i].(cells := rows[i].cells[month := cost]) else rows[i])
  }

  /** Every row named `host` has `cost` added to its `month` cell, or the cell
      set to `cost` when the row has none. */
  function Accumulated(rows: seq<HostRow>, host: string, month: string, cost: int): (r: seq<HostRow>)
    ensures |r| == |rows|
  {
    seq(|rows|, i requires 0 <= i < |rows| =>
      if rows[i].hostName == host then
        rows[i].(cells := rows[i].cells[month := if month in rows[i].cells then rows[i].cells[month] + cost else cost])
      else rows[i])
  }

  /** Lines 161-163: overwrite the month cell of the host's row. */
  method OverwriteCell(hostinfo: seq<HostRow>, fullhostname: string, month: string, totalCost: int)
    returns (updated: seq<HostRow>)
    ensures updated == Overwritten(hostinfo, fullhostname, month, totalCost)
  {
    updated := hostinfo;
    for i := 0 to |hostinfo|
      invariant |updated| == |hostinfo|
      invariant forall k :: 0 <= k < i ==> updated[k] == Overwritten(hostinfo, fullhostname, month, totalCost)[k]
      invariant forall k :: i <= k < |hostinfo| ==> updated[k] == hostinfo[k]
    {
      var host := updated[i];
      if host.hostName == fullhostname {
        updated := updated[i := host.(cells := host.cells[month := totalCost])];
      }
    }
  }

  /** Lines 181-186: add to the month cell of the `<none>` row. */
  method AccumulateCell(hostinfo: seq<HostRow>, fullhostname: string, month: string, totalCost: int)
    returns (updated: seq<HostRow>)
    ensures updated == Accumulated(hostinfo, fullhostname, month, totalCost)
  {
    updated := hostinfo;
    for i := 0 to |hostinfo|
      invariant |updated| == |hostinfo|
      invariant forall k :: 0 <= k < i ==> updated[k] == Accumulated(hostinfo, fullhostname, month, totalCost)[k]
      invariant forall k :: i <= k < |hostinfo| ==> updated[k] == hostinfo[k]
    {
      var host := updated[i];
      if host.hostName == fullhostname {
        if month in host.cells {
          updated := updated[i := host.(cells := host.cells[month := host.cells[month] + totalCost])];
        } else {
          updated := updated[i := host.(cells := host.cells[month := totalCost])];
        }
      }
    }
  }

  // ---------------------------------------------------------------------------
  // The ledger

  /** One ledger row per child, under the parent's host key. */
  function ChildRows(children: seq<ChildItem>, host: string, month: string, invoiceId: int): (rows: seq<LedgerRow>)
    ensures |rows| == |children|
  {
    seq(|children|, k requires 0 <= k < |children| =>
      LedgerRow(host, children[k].description, month, invoiceId, ChildTotal(children[k])))
  }

  /** The ledger rows one top-level item adds: a hostable item gives its own
      row at the after-tax total and one per child; any other item one row at
      the pre-tax total. */
  function ItemRows(item: TopItem, month: string, invoiceId: int): seq<LedgerRow> {
    if IsHostable(item) then
      [LedgerRow(HostKey(item), item.description, month, invoiceId, AfterTaxTotal(item))]
        + ChildRows(item.children, HostKey(item), month, invoiceId)
    else
      [LedgerRow(NoHost, item.description, month, invoiceId, PreTaxTotal(item))]
  }

  // ---------------------------------------------------------------------------
  // Folding items and invoices

  /** The tables after one top-level item of invoice `invoiceId`, billed in `month`. */
  function AddItem(t: Tables, item: TopItem, month: string, invoiceId: int): Tables {
    var key := HostKey(item);
    var cost := PreTaxTotal(item);
    var hostlist := if key !in t.hostlist then t.hostlist + [key] else t.hostlist;
    var hostinfo :=
      if key !in t.hostlist then t.hostinfo + [HostRow(key, map[month := cost])]
      else if IsHostable(item) then Overwritten(t.hostinfo, key, month, cost)
      else Accumulated(t.hostinfo, key, month, cost);
    Tables(hostlist, hostinfo, t.ledger + ItemRows(item, month, invoiceId))
  }

  function AddItems(t: Tables, items: seq<TopItem>, month: string, invoiceId: int): Tables {
    if items == [] then t
    else AddItem(AddItems(t, items[..|items| - 1], month, invoiceId), items[|items| - 1], month, invoiceId)
  }

  /** An invoice whose total is the string "0" is skipped; any other has every
      fetched item folded in, under its own month. */
  function AddInvoice(t: Tables, invoice: Invoice): Tables {
    if invoice.invoiceTotalAmount == "0" then t
    else AddItems(t, Fetched(invoice), Month(invoice.createDate), invoice.id)
  }

  function AddInvoices(t: Tables, invoices: seq<Invoice>): Tables {
    if invoices == [] then t
    else AddInvoice(AddInvoices(t, invoices[..|invoices| - 1]), invoices[|invoices| - 1])
  }

  lemma {:induction false} AddItemsConcat(t: Tables, a: seq<TopItem>, b: seq<TopItem>, month: string, invoiceId: int)
    ensures AddItems(t, a + b, month, invoiceId) == AddItems(AddItems(t, a, month, invoiceId), b, month, invoiceId)
  {
    if b == [] {
      assert a + b == a;
    } else {
      assert (a + b)[..|a + b| - 1] == a + b[..|b| - 1];
      AddItemsConcat(t, a, b[..|b| - 1], month, invoiceId);
    }
  }

  /** Lines 169-172: one ledger row per child item, under the parent's host. */
  method AppendChildRows(ledger: seq<LedgerRow>, childrenItems: seq<ChildItem>, fullhostname: string, month: string, invoiceId: int)
    returns (extended: seq<LedgerRow>)
    ensures extended == ledger + ChildRows(childrenItems, fullhostname, month, invoiceId)
  {
    extended := ledger;
    for c := 0 to |childrenItems|
      invariant extended == ledger + ChildRows(childrenItems[..c], fullhostname, month, invoiceId)
    {
      var i := childrenItems[c];
      assert ChildRows(childrenItems[..c + 1], fullhostname, month, invoiceId)
        == ChildRows(childrenItems[..c], fullhostname, month, invoiceId)
           + [LedgerRow(fullhostname, i.description, month, invoiceId, ChildTotal(i))];
      extended := extended + [LedgerRow(fullhostname, i.description, month, invoiceId, ChildTotal(i))];
    }
    assert childrenItems[..|childrenItems|] == childrenItems;
  }

  /** Lines 152-188: fold one top-level item into the tables. */
  method AddTopItem(tables: Tables, item: TopItem, month: string, invoiceId: int) returns (next: Tables)
    ensures next == AddItem(tables, item, month, invoiceId)
  {
    var hostlist, hostinfo, ledger := tables.hostlist, tables.hostinfo, tables.ledger;
    ghost var spec := AddItem(tables, item, month, invoiceId);
    if IsHostable(item) {
      var fullhostname := item.hostName + "." + item.domainName;
      var totalCost := PreTaxTotal(item);
      assert fullhostname == HostKey(item);
      if fullhostname !in hostlist {
        hostlist := hostlist + [fullhostname];
        hostinfo := hostinfo + [HostRow(fullhostname, map[month := totalCost])];
      } else {
        hostinfo := OverwriteCell(hostinfo, fullhostname, month, totalCost);
      }
      assert hostlist == spec.hostlist && hostinfo == spec.hostinfo;
      ledger := ledger + [LedgerRow(fullhostname, item.description, month, invoiceId, AfterTaxTotal(item))];
      ledger := AppendChildRows(ledger, item.children, fullhostname, month, invoiceId);
      assert ledger == spec.ledger;
    } else {
      var fullhostname := NoHost;
      var totalCost := PreTaxTotal(item);
      assert fullhostname == HostKey(item);
      if fullhostname !in hostlist {
        hostlist := hostlist + [fullhostname];
        hostinfo := hostinfo + [HostRow(fullhostname, map[month := totalCost])];
      } else {
        hostinfo := AccumulateCell(hostinfo, fullhostname, month, totalCost);
      }
      assert hostlist == spec.hostlist && hostinfo == spec.hostinfo;
      ledger := ledger + [LedgerRow(fullhostname, item.description, month, invoiceId, totalCost)];
      assert ledger == spec.ledger;
    }
    next := Tables(hostlist, hostinfo, ledger);
  }

  /** The page at offset `k * PageSize` continues the items fetched so far. */
  lemma PagesCompose(items: seq<TopItem>, k: nat)
    ensures items[..Clamp(k * PageSize, |items|)] + Page(items, k * PageSize)
            == items[..Clamp((k + 1) * PageSize, |items|)]
  {
    assert (k + 1) * PageSize == k * PageSize + PageSize;
  }

  /** Lines 139-188: fold every non-zero invoice's top-level items, fetched
      page by page, into the summary table and the ledger. */
  method Aggregate(invoices: seq<Invoice>) returns (tables: Tables)
    ensures tables == AddInvoices(EmptyTables, invoices)
  {
    tables := EmptyTables;
    for i := 0 to |invoices|
      invariant tables == AddInvoices(EmptyTables, invoices[..i])
    {
      var invoice := invoices[i];
      var invoiceID := invoice.id;
      var totalTopItems := invoice.invoiceTopLevelItemCount;
      var month := Month(invoice.createDate);
      assert invoices[..i + 1][..i] == invoices[..i];
      if invoice.invoiceTotalAmount != "0" {
        var items := invoice.topLevelItems;
        var offsets := PageOffsets(totalTopItems);
        ghost var start := tables;
        for k := 0 to |offsets|
          invariant tables == AddItems(start, items[..Clamp(k * PageSize, |items|)], month, invoiceID)
        {
          var someTopLevelItems := Page(items, offsets[k]);
          ghost var before := tables;
          for j := 0 to |someTopLevelItems|
            invariant tables == AddItems(before, someTopLevelItems[..j], month, invoiceID)
          {
            assert someTopLevelItems[..j + 1][..j] == someTopLevelItems[..j];
            tables := AddTopItem(tables, someTopLevelItems[j], month, invoiceID);
          }
          assert someTopLevelItems[..|someTopLevelItems|] == someTopLevelItems;
          PagesCompose(items, k);
          AddItemsConcat(start, items[..Clamp(k * PageSize, |items|)], someTopLevelItems, month, invoiceID);
        }
      }
    }
    assert invoices[..|invoices|] == invoices;
  }
}
