# Consolidated billing and VPN access: a verified model

This project models two SoftLayer account scripts. Each keeps some in-memory
bookkeeping between its remote calls, and that bookkeeping is what is modelled.

- **Consolidated billing** (`Billing/getConsolidatedBillingInfo.py`):
  - It checks the output file name and derives the two sheet names.
  - It builds the month index from the invoices' creation dates.
  - It walks each invoice's top-level items page by page, ten at a time.
  - It folds every item into two tables. The first is the per-host, per-month
    summary: `hostlist` kept beside `hostinfo`. Server and guest_core items
    overwrite their cell; any other item accumulates into the `<none>` row.
    The second is the append-only ledger `alliteminfo`, which also gets one
    row per child of a server item.
- **VPN access update** (`Networking/updateVPNAccess.py`):
  - It checks the arguments.
  - It seeds the working override list `newOverrides` and the seen list
    `userSubnetIds` by mode. Add keeps the stored overrides; replace starts
    empty. Both modes delete the stored overrides.
  - It resolves each subnet label and then each IP address against the
    account's subnets. Any value outside `10.` and `100.` stops the run.
    Each subnet id is appended at most once, and a value that matches
    nothing only prints a warning.
  - It switches on the VPN flags that are off, submits the new list and
    pushes the VPN user.

Both scripts are top-level code that updates local lists in nested loops.
Each loop is a `method` with loop invariants. It is proved equal to a
specification function: `AddInvoices`, `FirstSeen`, `Resolve` or
`Reconcile`. The lemmas about those functions state what the scripts promise.

Inputs and outputs:

- Remote reads are inputs. An invoice carries its full list of top-level
  items, and each item carries its children. The VPN script receives the
  account's users, with their details, and its subnets.
- Remote writes and console warnings become a list of `Action`s in the order
  the script issues them.
- Amounts are integer cents.

Files:

- `common.dfy`: Option/Result, `NoDuplicates`, and the string predicates.
- `billing_data.dfy`: invoices, items, host rows, ledger rows and the tables.
- `billing_output_name.dfy`: the output-name check and the sheet names.
- `billing_months.dfy`: the month index.
- `billing_aggregation.dfy`: paging, the summary update and the ledger.
- `billing_properties.dfy`: the lemmas about the billing tables.
- `vpn_access.dfy`: the VPN reconciliation.
- `vpn_properties.dfy`: the lemmas about the VPN reconciliation.

## Model

| member | source | states |
|---|---|---|
| BillingOutputName.OutputSheets | Billing/getConsolidatedBillingInfo.py:78-90 | The name is accepted iff it is given and, at its start, at least one non-newline character is followed by `.csv` (`re.match`, not anchored at the end). When accepted, the name starts with the prefix plus `.csv` and the sheets are prefix + `_Sheet1.csv` / `_Sheet2.csv`. Otherwise the result is an error. |
| BillingOutputName.CsvMatchFrom | Billing/getConsolidatedBillingInfo.py:82 | The scan from position i succeeds iff `.csv` occurs at some j >= i with no newline before j. |
| BillingOutputName.TextBeforeCsv | Billing/getConsolidatedBillingInfo.py:88 | `split('.csv')[0]`: a prefix of the name with no `.csv` inside it, ended by the first `.csv` or by the end of the name. |
| BillingOutputName.SheetsFromFirstCsv | Billing/getConsolidatedBillingInfo.py:82-90 | For any name p + `.csv` + rest, where p is non-empty, has no newline and has no earlier `.csv`, the sheets are p + `_Sheet1.csv` and p + `_Sheet2.csv`, even when more text follows `.csv`. |
| BillingOutputName.RejectsBareSuffix | Billing/getConsolidatedBillingInfo.py:82-86 | `.csv` alone is rejected: `.+` needs at least one character before the suffix. |
| BillingMonths.Month | Billing/getConsolidatedBillingInfo.py:127 | The label is a prefix of the creation date of length min(7, its length). |
| BillingMonths.FirstIndex | Billing/getConsolidatedBillingInfo.py:128 | For a present element, gives its first position: the element is there and not earlier. |
| BillingMonths.FirstIndexOfExtended | Billing/getConsolidatedBillingInfo.py:128-129 | Appending leaves the first position of an element already present unchanged. |
| BillingMonths.Months | Billing/getConsolidatedBillingInfo.py:126-127 | One label per invoice, in invoice order. |
| BillingMonths.FirstSeenCharacterised | Billing/getConsolidatedBillingInfo.py:126-131 | The first-seen list has no duplicates, holds exactly the elements of its input, and orders them by first occurrence. `monthlist.sort` is never called, so nothing is sorted. |
| BillingMonths.BuildMonthIndex | Billing/getConsolidatedBillingInfo.py:121-131 | The month loop yields the first-seen list of the invoices' labels. It has no duplicates, and a label is in it iff some invoice has that month. |
| BillingAggregation.Clamp | Billing/getConsolidatedBillingInfo.py:148-149 | A page bound never exceeds the item count and equals the requested bound when that is within range. |
| BillingAggregation.PageOffsets | Billing/getConsolidatedBillingInfo.py:147-148 | The offsets are exactly 0, 10, 20, … strictly below the top-level item count, and together they cover the count. A count of 0 or less requests no page. |
| BillingAggregation.OverwriteCell | Billing/getConsolidatedBillingInfo.py:161-163 | The loop over `hostinfo` sets the month cell of every row named for the host; see CellOfOverwritten. |
| BillingAggregation.AccumulateCell | Billing/getConsolidatedBillingInfo.py:181-186 | The loop over `hostinfo` adds to the month cell of every row named for the host, or sets the cell when it is missing; see CellOfAccumulated. |
| BillingAggregation.ChildRows | Billing/getConsolidatedBillingInfo.py:170-172 | One ledger row per child item. |
| BillingAggregation.AppendChildRows | Billing/getConsolidatedBillingInfo.py:169-172 | The children loop appends their rows, in order, after the ledger's earlier rows. |
| BillingAggregation.AddTopItem | Billing/getConsolidatedBillingInfo.py:152-188 | Processing one top-level item gives exactly the tables of the fold step `AddItem`. |
| BillingAggregation.AddItemsConcat | Billing/getConsolidatedBillingInfo.py:148-152 | Folding a list of items page by page equals folding the whole list. |
| BillingAggregation.PagesCompose | Billing/getConsolidatedBillingInfo.py:148-149 | The items fetched before offset k·10, followed by the page at k·10, are the items before (k+1)·10. |
| BillingAggregation.Aggregate | Billing/getConsolidatedBillingInfo.py:139-188 | The invoice, page and item loops yield the fold `AddInvoices` of every invoice from empty tables. |
| BillingProperties.CellOfOverwritten | Billing/getConsolidatedBillingInfo.py:161-163 | After the overwrite loop, the host's month cell holds the cost if the host has a row. Every other cell is as before. |
| BillingProperties.CellOfAccumulated | Billing/getConsolidatedBillingInfo.py:181-186 | After the accumulate loop, the host's month cell is old + cost, or cost when it was missing. Every other cell is as before. |
| BillingProperties.CellOfAppended | Billing/getConsolidatedBillingInfo.py:157-159 | Appending a row for a host without one leaves every other host's cells unchanged and adds that host's cells. |
| BillingProperties.HostListNamesRows | Billing/getConsolidatedBillingInfo.py:157 | When the two lists are in step, `fullhostname not in hostlist` is the same as "no summary row is named for it". |
| BillingProperties.HostableKeyIsNotNoHost | Billing/getConsolidatedBillingInfo.py:154 | A server key always holds a `.`, so it is never `<none>`. |
| BillingProperties.AddItemKeepsInStep | Billing/getConsolidatedBillingInfo.py:157-159 | One item keeps `hostlist` duplicate-free and in step with `hostinfo`. A new host is appended at the end, and otherwise `hostlist` is unchanged. |
| BillingProperties.ServerItemOverwrites | Billing/getConsolidatedBillingInfo.py:153-163 | A server or guest_core item sets the (host, month) cell of `hostName.domainName` to its pre-tax total, whatever the cell held. No other cell changes. |
| BillingProperties.OtherItemAccumulates | Billing/getConsolidatedBillingInfo.py:173-186 | Any other item makes the `<none>` month cell old + its pre-tax total, or just that total when the cell was missing. No other cell changes. |
| BillingProperties.SameHostLastWins | Billing/getConsolidatedBillingInfo.py:153-163 | Two server items of the same host and month: the summary shows the second one's total. |
| BillingProperties.OtherItemsSum | Billing/getConsolidatedBillingInfo.py:174-186 | Two other items in a month with an empty `<none>` cell: the summary shows the sum of their totals. |
| BillingProperties.AddItemsKeepsInStep | Billing/getConsolidatedBillingInfo.py:152-188 | A whole page of items keeps the two lists in step and only extends `hostlist`. |
| BillingProperties.AddInvoicesKeepsInStep | Billing/getConsolidatedBillingInfo.py:139-188 | Every invoice keeps the two lists in step and only extends `hostlist`. |
| BillingProperties.AggregateInStep | Billing/getConsolidatedBillingInfo.py:121-188 | From empty lists, the whole run leaves `hostlist` duplicate-free and naming the summary rows one for one. |
| BillingProperties.ItemLedgerRows | Billing/getConsolidatedBillingInfo.py:166-172 | A server item appends its own row at the after-tax total and then one row per child, in order, at the child's total. Another item appends one row at the pre-tax total. All rows carry the item's host key, the month and the invoice id, and earlier rows are kept. |
| BillingProperties.ChildrenOnlyReachLedger | Billing/getConsolidatedBillingInfo.py:169-172 | Child items never touch `hostlist` or the summary. |
| BillingProperties.AddItemsLedgerGrows | Billing/getConsolidatedBillingInfo.py:152-188 | Over a page of items, the earlier ledger is a prefix of the new one. |
| BillingProperties.LedgerAppendOnly | Billing/getConsolidatedBillingInfo.py:139-188 | Over any invoices, the earlier ledger is a prefix of the new one. |
| BillingProperties.NonZero | Billing/getConsolidatedBillingInfo.py:145 | Keeps exactly the invoices whose total is not the string `"0"`. |
| BillingProperties.ZeroInvoicesAddNothing | Billing/getConsolidatedBillingInfo.py:145 | Invoices totalling `"0"` change neither table: the run equals the run over the other invoices. |
| BillingProperties.FetchedCoversAllItems | Billing/getConsolidatedBillingInfo.py:147-149 | When the top-level count matches the items, paging fetches every item, in order. |
| VpnAccess.CheckArgs | Networking/updateVPNAccess.py:52-66 | The run goes on iff a user is named, exactly one of add/replace is chosen, and at least one of `--ip`/`--subnet` is given; the mode is add iff `-a`. Each failure gives its own error, in the source's order. |
| VpnAccess.FindUserIsLastMatch | Networking/updateVPNAccess.py:70-72 | The lookup finds nothing iff no user has the name. Otherwise it holds the last user with that name. |
| VpnAccess.LookupUser | Networking/updateVPNAccess.py:70-72 | The lookup loop returns that user, or no user when none has the name. A found user is in the account and has the name. |
| VpnAccess.Deletions | Networking/updateVPNAccess.py:79-84 | One deletion per stored override, in order, with the override's id. |
| VpnAccess.SeedWorkingSet | Networking/updateVPNAccess.py:74-84 | The seeding loops give `Seed` and the deletions of every stored override. |
| VpnAccess.ResolveSubnetLabel | Networking/updateVPNAccess.py:91-101 | The subnet loop for a label gives `Absorb`. `doesExist` is true iff some subnet's display label contains the label. |
| VpnAccess.ResolveIp | Networking/updateVPNAccess.py:108-118 | The nested loops for an address give `Absorb`. `doesExist` is true iff some subnet lists the address. |
| VpnAccess.ResolveConcat | Networking/updateVPNAccess.py:89-121 | Resolving two runs of values equals resolving the first run and, unless it stopped, then the second, with warnings kept in order. |
| VpnAccess.ResolveOneMore | Networking/updateVPNAccess.py:90-104 | One more value either stops resolution with that value, when it is outside the private ranges, or is absorbed, adding a warning iff it matched nothing. |
| VpnAccess.ResolveSubnetLabels | Networking/updateVPNAccess.py:89-104 | The `--subnet` loop gives `Resolve` over the label requests. |
| VpnAccess.ResolveIps | Networking/updateVPNAccess.py:106-121 | The `--ip` loop gives `Resolve` over the address requests. |
| VpnAccess.FlagActions | Networking/updateVPNAccess.py:123-129 | Each flag is switched on iff it is off, and nothing else is issued, each at most once. |
| VpnAccess.ReconcileInTwoPasses | Networking/updateVPNAccess.py:89-132 | Resolving labels and then addresses in two passes, stopping after either, gives `Reconcile`. |
| VpnAccess.ReconcileUser | Networking/updateVPNAccess.py:74-132 | For a found user, the seeding, resolution, flag and submit steps issue exactly `Reconcile`'s actions and error. |
| VpnAccess.UpdateVpnAccess | Networking/updateVPNAccess.py:52-132 | The whole script issues exactly `Run`'s actions and error. |
| VpnProperties.GrowsTransitive | Networking/updateVPNAccess.py:97-99 | Two fresh extensions of the working lists make one. |
| VpnProperties.SeedIsInStep | Networking/updateVPNAccess.py:74-84 | The seed keeps the two lists in step. Add mode keeps the stored overrides in order; replace mode starts empty. |
| VpnProperties.AbsorbGrows | Networking/updateVPNAccess.py:94-99 | Resolving one value only appends (subnetId, userId) entries whose ids were unseen, each once, with the seen list kept in step. |
| VpnProperties.AbsorbMatchesExactly | Networking/updateVPNAccess.py:94-99 | Every matching subnet's id ends up seen, because matching does not stop at the first hit. Every appended id belongs to a matching subnet. |
| VpnProperties.AbsorbWithoutMatch | Networking/updateVPNAccess.py:100-101 | A value that matches no subnet leaves both lists unchanged. |
| VpnProperties.ResolveGrows | Networking/updateVPNAccess.py:97-99 | Over all values, the lists only grow by fresh entries. Every warning is an accepted value that matched no subnet. |
| VpnProperties.ResolveRejectsFirstPublic | Networking/updateVPNAccess.py:92-104 | Resolution is rejected iff some value starts with neither `10.` nor `100.`, and then at the first such value. |
| VpnProperties.PublicValueAbortsRun | Networking/updateVPNAccess.py:102-104 | A run with a public value ends in that error at the first such value. The stored overrides have been deleted, only warnings follow, and no flag, creation or user push is issued. |
| VpnProperties.PrivateValuesSubmitOverrides | Networking/updateVPNAccess.py:123-132 | A run whose values are all private issues, in order: deletions, warnings, flag enables, then the creation of the seed plus fresh entries, then the VPN-user push. |
| VpnProperties.NoActionBeforeChecks | Networking/updateVPNAccess.py:52-72 | Nothing is deleted, created or switched on when the arguments fail or no user has the name. The error says which. |

## Left out

- Client construction, configuration and credential loading, and argument parsing (`Billing/getConsolidatedBillingInfo.py:13-44`, `Networking/updateVPNAccess.py:17-50`): these are foreign library code. The parsed arguments are an input.
- Start/end date parsing and ordering with `time.strptime` (`Billing/getConsolidatedBillingInfo.py:50-76`): this is a library date parser. The invoice query is left out too, and its result is an input.
- Remote calls are not modelled as calls:
  - The billing reads (invoices, the pages of top-level items, each item's children) and the VPN reads (users and their details, public then private subnets) are inputs.
  - The writes (override deletions, flag edits, override creation, the VPN-user push) and the warnings are `Action`s.
  - Transport errors, partial failure and retries are not modelled. A failure between the deletions and the creation leaves no rollback in the source either.
- A page is the slice of the invoice's item list at that offset, clamped to the list. How the server pages is not part of this model.
- CSV writing, file handles and console progress messages (`Billing/getConsolidatedBillingInfo.py:193-216`): these are I/O.
- Amounts: `float(...)` parsing and `round(x, 2)` are not modelled. Amounts are exact integer cents, so the rounding of accumulated `<none>` cells is absent too.
- A summary row is a host name plus a map from month to amount. The source's dict shares its key space between `'Host Name'` and the months, but a month label has at most 7 characters and so cannot be `'Host Name'`.
- The unbound `updateUser` when no user has the name is an explicit `UserNotFound` error, not Python's NameError.
- In add mode, `newOverrides` aliases the user's own override list (`Networking/updateVPNAccess.py:78`). This has no observable effect on what is submitted, and the model copies the list.
- Stored overrides kept in add mode are submitted again as they are (`Existing` entries, with their ids). What the server does with them is not part of this model.
- Behaviour kept as written, not corrected:
  - Summary cells hold pre-tax totals while ledger rows of server items hold after-tax totals.
  - Server cells are overwritten while `<none>` cells are summed.
  - Months keep first-seen order because `monthlist.sort` is never called.
- The output name is checked with `re.match('.+\.csv', …)`. So the name must start with at least one non-newline character followed by `.csv`, and text after `.csv` is allowed (`a.csv.bak` is accepted, with prefix `a`). The model follows this code, not the stricter reading "must end in `.csv`".
