/**
 * What the consolidated billing report promises about its two tables: the
 * host list and the summary rows stay in step without duplicates, a server
 * cell is overwritten while the `<none>` cell accumulates, the ledger only
 * grows, and invoices totalling "0" change nothing.
 */
module BillingProperties {
  import opened Common
  import opened BillingData
  import opened BillingMonths
  import opened BillingAggregation

  /** `hostlist` names the summary rows one for one, in order, each host once. */
  predicate InStep(t: Tables) {
    |t.hostlist| == |t.hostinfo|
    && (forall i :: 0 <= i < |t.hostinfo| ==> t.hostinfo[i].hostName == t.hostlist[i])
    && NoDuplicates(t.hostlist)
  }

  /** The summary cell of `host` for `month`, read from the first row with that
      host name; `None` when there is no such row or the row has no such cell. */
  function Cell(rows: seq<HostRow>, host: string, month: string): Option<int> {
    if rows == [] then None
    else if rows[0].hostName == host then
      (if month in rows[0].cells then Some(rows[0].cells[month]) else None)
    else Cell(rows[1..], host, month)
  }

  predicate HasRow(rows: seq<HostRow>, host: string) {
    exists i :: 0 <= i < |rows| && rows[i].hostName == host
  }

  lemma {:induction false} CellOfOverwritten(rows: seq<HostRow>, host: string, month: string, cost: int, h: string, m: string)
    ensures Cell(Overwritten(rows, host, month, cost), h, m)
            == if h == host && m == month && HasRow(rows, host) then Some(cost) else Cell(rows, h, m)
  {
    if rows != [] {
      assert Overwritten(rows, host, month, cost)[1..] == Overwritten(rows[1..], host, month, cost);
      CellOfOverwritten(rows[1..], host, month, cost, h, m);
      if rows[0].hostName != host && HasRow(rows, host) {
        var i :| 0 <= i < |rows| && rows[i].hostName == host;
        assert rows[1..][i - 1].hostName == host;
      }
    }
  }

  lemma {:induction false} CellOfAccumulated(rows: seq<HostRow>, host: string, month: string, cost: int, h: string, m: string)
    ensures Cell(Accumulated(rows, host, month, cost), h, m)
            == if h == host && m == month && HasRow(rows, host) then
                 Some(match Cell(rows, host, month) case Some(x) => x + cost case None => cost)
               else Cell(rows, h, m)
  {
    if rows != [] {
      assert Accumulated(rows, host, month, cost)[1..] == Accumulated(rows[1..], host, month, cost);
      CellOfAccumulated(rows[1..], host, month, cost, h, m);
      if rows[0].hostName != host && HasRow(rows, host) {
        var i :| 0 <= i < |rows| && rows[i].hostName == host;
        assert rows[1..][i - 1].hostName == host;
      }
    }
  }

  lemma {:induction false} CellOfAppended(rows: seq<HostRow>, row: HostRow, h: string, m: string)
    requires !HasRow(rows, row.hostName)
    ensures Cell(rows + [row], h, m)
            == if h == row.hostName then (if m in row.cells then Some(row.cells[m]) else None) else Cell(rows, h, m)
  {
    if rows != [] {
      assert (rows + [row])[1..] == rows[1..] + [row];
      assert !HasRow(rows[1..], row.hostName);
      CellOfAppended(rows[1..], row, h, m);
    }
  }

  /** A host key is in the host list exactly when the summary has its row. */
  lemma HostListNamesRows(t: Tables, host: string)
    requires InStep(t)
    ensures host in t.hostlist <==> HasRow(t.hostinfo, host)
  {
    if host in t.hostlist {
      var i :| 0 <= i < |t.hostlist| && t.hostlist[i] == host;
      assert t.hostinfo[i].hostName == host;
    }
  }

  /** A server's key always holds the '.' between host and domain, so it can
      never be the `<none>` key of the other items. */
  lemma HostableKeyIsNotNoHost(item: TopItem)
    requires IsHostable(item)
    ensures HostKey(item) != NoHost
  {
    var key := HostKey(item);
    assert key[|item.hostName|] == '.';
    if |key| == |NoHost| {
      assert '.' !in NoHost;
    }
  }

  /** One item keeps the host list and the summary rows in step; its key is
      appended at the end when new and the host list is otherwise unchanged. */
  lemma AddItemKeepsInStep(t: Tables, item: TopItem, month: string, invoiceId: int)
    requires InStep(t)
    ensures InStep(AddItem(t, item, month, invoiceId))
    ensures AddItem(t, item, month, invoiceId).hostlist
            == if HostKey(item) in t.hostlist then t.hostlist else t.hostlist + [HostKey(item)]
  {
  }

  /** Lines 153-163: a server or guest_core item sets its host's cell for the
      month to its pre-tax total, whatever the cell held (the last write wins);
      no other cell of the summary changes. */
  lemma ServerItemOverwrites(t: Tables, item: TopItem, month: string, invoiceId: int)
    requires InStep(t) && IsHostable(item)
    ensures var after := AddItem(t, item, month, invoiceId).hostinfo;
      Cell(after, HostKey(item), month) == Some(PreTaxTotal(item))
      && forall h, m :: h != HostKey(item) || m != month ==> Cell(after, h, m) == Cell(t.hostinfo, h, m)
  {
    var key, cost := HostKey(item), PreTaxTotal(item);
    HostListNamesRows(t, key);
    forall h, m ensures Cell(AddItem(t, item, month, invoiceId).hostinfo, h, m)
      == if h == key && m == month then Some(cost) else Cell(t.hostinfo, h, m)
    {
      if key in t.hostlist {
        CellOfOverwritten(t.hostinfo, key, month, cost, h, m);
      } else {
        CellOfAppended(t.hostinfo, HostRow(key, map[month := cost]), h, m);
        if h == key {
          CellOfAppended(t.hostinfo, HostRow(key, map[month := cost]), h, month);
        }
        assert Cell(t.hostinfo, key, m) == None by { CellAbsent(t.hostinfo, key, m); }
      }
    }
  }

  lemma {:induction false} CellAbsent(rows: seq<HostRow>, host: string, month: string)
    requires !HasRow(rows, host)
    ensures Cell(rows, host, month) == None
  {
    if rows != [] {
      assert !HasRow(rows[1..], host);
      CellAbsent(rows[1..], host, month);
    }
  }

  /** Lines 174-186: any other item adds its pre-tax total to the `<none>`
      cell of the month, or sets the cell when there is none yet; no other
      cell of the summary changes. */
  lemma OtherItemAccumulates(t: Tables, item: TopItem, month: string, invoiceId: int)
    requires InStep(t) && !IsHostable(item)
    ensures var after := AddItem(t, item, month, invoiceId).hostinfo;
      Cell(after, NoHost, month)
        == Some(match Cell(t.hostinfo, NoHost, month) case Some(x) => x + PreTaxTotal(item) case None => PreTaxTotal(item))
      && forall h, m :: h != NoHost || m != month ==> Cell(after, h, m) == Cell(t.hostinfo, h, m)
  {
    var cost := PreTaxTotal(item);
    HostListNamesRows(t, NoHost);
    forall h, m ensures Cell(AddItem(t, item, month, invoiceId).hostinfo, h, m)
      == if h == NoHost && m == month then
           Some(match Cell(t.hostinfo, NoHost, month) case Some(x) => x + cost case None => cost)
         else Cell(t.hostinfo, h, m)
    {
      if NoHost in t.hostlist {
        CellOfAccumulated(t.hostinfo, NoHost, month, cost, h, m);
      } else {
        CellOfAppended(t.hostinfo, HostRow(NoHost, map[month := cost]), h, m);
        CellAbsent(t.hostinfo, NoHost, m);
        CellAbsent(t.hostinfo, NoHost, month);
      }
    }
  }

  /** Two servers items for the same host and month: the second one's total is
      what the summary shows. */
  lemma SameHostLastWins(t: Tables, a: TopItem, b: TopItem, month: string, invoiceId: int)
    requires InStep(t) && IsHostable(a) && IsHostable(b) && HostKey(a) == HostKey(b)
    ensures Cell(AddItems(t, [a, b], month, invoiceId).hostinfo, HostKey(b), month) == Some(PreTaxTotal(b))
  {
    assert [a, b][..1] == [a];
    assert [a][..0] == [];
    assert AddItems(t, [a], month, invoiceId) == AddItem(AddItems(t, [], month, invoiceId), a, month, invoiceId);
    assert AddItems(t, [a, b], month, invoiceId) == AddItem(AddItems(t, [a], month, invoiceId), b, month, invoiceId);
    AddItemKeepsInStep(t, a, month, invoiceId);
    ServerItemOverwrites(AddItem(t, a, month, invoiceId), b, month, invoiceId);
  }

  /** Two other items in the same month whose `<none>` cell was empty: the
      summary shows the sum of their pre-tax totals. */
  lemma OtherItemsSum(t: Tables, a: TopItem, b: TopItem, month: string, invoiceId: int)
    requires InStep(t) && !IsHostable(a) && !IsHostable(b) && Cell(t.hostinfo, NoHost, month) == None
    ensures Cell(AddItems(t, [a, b], month, invoiceId).hostinfo, NoHost, month)
            == Some(PreTaxTotal(a) + PreTaxTotal(b))
  {
    assert [a, b][..1] == [a];
    assert [a][..0] == [];
    assert AddItems(t, [a], month, invoiceId) == AddItem(AddItems(t, [], month, invoiceId), a, month, invoiceId);
    assert AddItems(t, [a, b], month, invoiceId) == AddItem(AddItems(t, [a], month, invoiceId), b, month, invoiceId);
    OtherItemAccumulates(t, a, month, invoiceId);
    AddItemKeepsInStep(t, a, month, invoiceId);
    OtherItemAccumulates(AddItem(t, a, month, invoiceId), b, month, invoiceId);
  }

  lemma {:induction false} AddItemsKeepsInStep(t: Tables, items: seq<TopItem>, month: string, invoiceId: int)
    requires InStep(t)
    ensures InStep(AddItems(t, items, month, invoiceId))
    ensures t.hostlist <= AddItems(t, items, month, invoiceId).hostlist
  {
    if items != [] {
      AddItemsKeepsInStep(t, items[..|items| - 1], month, invoiceId);
      AddItemKeepsInStep(AddItems(t, items[..|items| - 1], month, invoiceId), items[|items| - 1], month, invoiceId);
    }
  }

  lemma {:induction false} AddInvoicesKeepsInStep(t: Tables, invoices: seq<Invoice>)
    requires InStep(t)
    ensures InStep(AddInvoices(t, invoices))
    ensures t.hostlist <= AddInvoices(t, invoices).hostlist
  {
    if invoices != [] {
      var init, last := invoices[..|invoices| - 1], invoices[|invoices| - 1];
      AddInvoicesKeepsInStep(t, init);
      if last.invoiceTotalAmount != "0" {
        AddItemsKeepsInStep(AddInvoices(t, init), Fetched(last), Month(last.createDate), last.id);
      }
    }
  }

  /** Whatever the invoices, the finished summary has each host once, named
      in `hostlist` at the same position. */
  lemma AggregateInStep(invoices: seq<Invoice>)
    ensures InStep(AddInvoices(EmptyTables, invoices))
  {
    AddInvoicesKeepsInStep(EmptyTables, invoices);
  }

  /** Lines 166-172 and 188: the rows one item adds to the ledger. A server
      item adds its own row at the after-tax total and then one row per child
      in order, all under its host key; another item adds one row at the
      pre-tax total under `<none>`. Every row carries the month and invoice id. */
  lemma ItemLedgerRows(t: Tables, item: TopItem, month: string, invoiceId: int)
    ensures var after := AddItem(t, item, month, invoiceId).ledger;
      var added := after[|t.ledger|..];
      t.ledger <= after
      && |added| == (if IsHostable(item) then 1 + |item.children| else 1)
      && (forall r :: r in added ==> r.hostName == HostKey(item) && r.month == month && r.invoiceId == invoiceId)
      && added[0].description == item.description
      && added[0].totalCost == (if IsHostable(item) then AfterTaxTotal(item) else PreTaxTotal(item))
      && (IsHostable(item) ==> forall k :: 0 <= k < |item.children| ==>
            added[1 + k].description == item.children[k].description
            && added[1 + k].totalCost == ChildTotal(item.children[k]))
  {
    var after := AddItem(t, item, month, invoiceId).ledger;
    assert after[|t.ledger|..] == ItemRows(item, month, invoiceId);
  }

  /** Child items change only the ledger: the host list and summary are the
      same whatever children the item has. */
  lemma ChildrenOnlyReachLedger(t: Tables, item: TopItem, children: seq<ChildItem>, month: string, invoiceId: int)
    ensures AddItem(t, item.(children := children), month, invoiceId).hostlist == AddItem(t, item, month, invoiceId).hostlist
    ensures AddItem(t, item.(children := children), month, invoiceId).hostinfo == AddItem(t, item, month, invoiceId).hostinfo
  {
  }

  lemma {:induction false} AddItemsLedgerGrows(t: Tables, items: seq<TopItem>, month: string, invoiceId: int)
    ensures t.ledger <= AddItems(t, items, month, invoiceId).ledger
  {
    if items != [] {
      AddItemsLedgerGrows(t, items[..|items| - 1], month, invoiceId);
    }
  }

  /** The ledger is append-only: rows already written are never changed or
      reordered by later invoices. */
  lemma {:induction false} LedgerAppendOnly(t: Tables, invoices: seq<Invoice>)
    ensures t.ledger <= AddInvoices(t, invoices).ledger
  {
    if invoices != [] {
      var init, last := invoices[..|invoices| - 1], invoices[|invoices| - 1];
      LedgerAppendOnly(t, init);
      if last.invoiceTotalAmount != "0" {
        AddItemsLedgerGrows(AddInvoices(t, init), Fetched(last), Month(last.createDate), last.id);
      }
    }
  }

  /** The invoices whose total is not the string "0", in order. */
  function NonZero(invoices: seq<Invoice>): (r: seq<Invoice>)
    ensures forall inv :: inv in r <==> inv in invoices && inv.invoiceTotalAmount != "0"
  {
    if invoices == [] then []
    else
      var last := invoices[|invoices| - 1];
      NonZero(invoices[..|invoices| - 1]) + (if last.invoiceTotalAmount == "0" then [] else [last])
  }

  /** Line 145: invoices totalling "0" add nothing to either table. */
  lemma {:induction false} ZeroInvoicesAddNothing(t: Tables, invoices: seq<Invoice>)
    ensures AddInvoices(t, invoices) == AddInvoices(t, NonZero(invoices))
  {
    if invoices != [] {
      var init, last := invoices[..|invoices| - 1], invoices[|invoices| - 1];
      ZeroInvoicesAddNothing(t, init);
      if last.invoiceTotalAmount != "0" {
        var r := NonZero(init) + [last];
        assert NonZero(invoices) == r;
        assert r[..|r| - 1] == NonZero(init);
        assert AddInvoices(t, r) == AddInvoice(AddInvoices(t, NonZero(init)), last);
      } else {
        assert NonZero(invoices) == NonZero(init);
        assert AddInvoices(t, invoices) == AddInvoices(t, init);
      }
    }
  }

  /** Lines 147-148: when `invoiceTopLevelItemCount` is the number of
      top-level items, the pages cover every item exactly once, in order. */
  lemma FetchedCoversAllItems(invoice: Invoice)
    requires invoice.invoiceTopLevelItemCount == |invoice.topLevelItems|
    ensures Fetched(invoice) == invoice.topLevelItems
  {
    var n := |invoice.topLevelItems|;
    if n > 0 {
      assert NumPages(n) * PageSize >= n;
    }
  }
}
