# Multi-client order fan-out, modelled in Dafny

This project models the batch handlers of a brokerage gateway. Each handler takes
one request naming several clients and fans it out into one upstream call per
client or per position. It then joins the per-client outcomes into a single
answer. Three handlers are modelled:

- **`exitPosition`** (`Order/ExitTrade.js`) resolves the clients' stored
  credentials. It queries each client's position book and keeps the open
  positions that pass five optional wildcard filters. It orders the close list
  with every SELL-side position before every BUY-side one. For each item it calls
  the loopback place-order endpoint with the closing side and the quantity in lots, and it
  sums up the results (SUCCESS iff some item succeeded).
- **`ExitPositionSDK`** (`Order/ExitTradeSDK.js`) queries each requested client
  through the SDK. A client whose query fails is skipped and the others go on.
  The close list keeps enumeration order. Quantities become lots by ceiling
  division, and the lot size falls back to 1.
- **`PlaceOrderSDK`** (`Order/PlaceOrderSDk.js`) validates the request in layers
  (MO8001, then MO8002, then MO8003). It builds one order per stored credential,
  taking the quantity from the first position of that client in `client_ids`.
  Each task refreshes its token, writing it back to the store, and places the
  order. Missing reply fields take their defaults. `getLocalIp` finds the first
  external IPv4 interface.

Modules:

| module | what it holds |
|---|---|
| `Common` | `Option`, the response constants, and JavaScript string truthiness (`""` stands for an absent field, `Or` is `a \|\| b`) |
| `Credentials` | the credential records, the `$in` lookup, the missing-ID list, and the `CredentialStore` class whose `UpdateToken` performs the token write-back |
| `Positions` | positions, net side, close side and quantity, the shared filter predicate, and the SELL-before-BUY partition |
| `Aggregate` | the per-item result record and the batch summary |
| `ExitTrade`, `ExitTradeProperties` | `exitPosition` |
| `ExitTradeSdk`, `ExitTradeSdkProperties` | `ExitPositionSDK` and the `getLotSize` fallback |
| `PlaceOrderSdk`, `PlaceOrderSdkProperties` | `PlaceOrderSDK` and `getLocalIp` |

The outside world enters as parameters:

- position-book replies, keyed by credential or by client id;
- lot-size lookups, keyed by symbol token;
- order replies, keyed by payload or close item;
- login replies, keyed by credential;
- the network interface table;
- the MAC and public IP addresses.

`Promise.all` keeps input order, so every concurrent map is a sequential map in
input order. The selection loops, the per-credential task, the handler's task
loop and `getLocalIp` are imperative methods. Each is proved equal to a
specification function, and the properties are proved about those functions.

## Model

| member | source | states |
|---|---|---|
| Common.ToUpper | Order/ExitTrade.js:111-113 | upper-casing keeps the length and maps every character through the ASCII upper-case map, as used on the side and exchange filters |
| Credentials.Lookup | Order/ExitTrade.js:39-41 | the records fetched with `$in` are exactly the stored records whose client_id is requested, never more than the store holds |
| Credentials.LookupAppend | Order/ExitTrade.js:39-41 | the lookup keeps store order: looking up a concatenated store gives the lookup of each part, in turn |
| Credentials.LookupOne | Order/ExitTrade.js:39-41 | a single record is fetched iff its client_id is requested |
| Credentials.Missing | Order/ExitTrade.js:44-46 | an id is in the missing list iff it is requested and has no record; the list is in request order (duplicates kept) and no longer than the request |
| Credentials.MissingAfterLookup | Order/PlaceOrderSDk.js:116-122 | the missing list computed against the fetched records equals the one computed against the whole store |
| Credentials.MissingMessageNamesEach | Order/ExitTrade.js:47-52 | the MO8003 message names one missing id alone, and a longer list as the first id, ", ", then the rest, in order |
| Credentials.WithToken | Order/PlaceOrderSDk.js:184-187 | `updateOne` by client_id: only the first record with that id gets the new token; every other record is unchanged |
| Credentials.CredentialStore.UpdateToken | Order/PlaceOrderSDk.js:184-187 | the store's records after the write-back are `WithToken` of the records before it |
| Positions.CloseSide | Order/ExitTrade.js:156-157 | the closing side is the opposite of the net side (BUY iff net > 0) |
| Positions.CloseQuantity | Order/ExitTrade.js:156-158 | the closing quantity is \|buy − sell\|, strictly positive for an open position |
| Positions.ClosingOrderFlattens | Order/ExitTrade.js:156-158 | filling the closing order brings the net quantity of the position to zero |
| Positions.CriteriaAreConjunctive | Order/ExitTrade.js:107-123 | `MatchesFilters`: a position passes the filters iff it passes each supplied criterion on its own, so adding a criterion only narrows the selection |
| Positions.NoFiltersSelectsEveryOpenPosition | Order/ExitTrade.js:107-123 | with every filter absent, a position is kept iff it is open |
| Positions.SideFilterIgnoresCase | Order/ExitTrade.js:111 | the side filter "sell"/"buy" selects exactly what "SELL"/"BUY" selects |
| Positions.OpenPositionsMembers | Order/ExitTrade.js:99-101 | the open-position filter keeps exactly the positions with buy ≠ sell |
| Positions.MatchingMembers | Order/ExitTrade.js:107-123 | a candidate of a client is a position of its book that passes all five filters |
| Positions.KeptOfMembers | Order/ExitTradeSDK.js:79-92 | a kept candidate is exactly a book position that is open and passes all five filters (the predicate both exit handlers share) |
| Positions.OfSideMembers | Order/ExitTrade.js:124-125 | a side bucket holds exactly the candidates whose net side is that side |
| Positions.OfSideSnoc | Order/ExitTrade.js:124-131 | pushing a candidate extends only the bucket of its own side |
| Positions.OfSideAppend | Order/ExitTrade.js:96-134 | bucketing a concatenation is the concatenation of the buckets (client after client) |
| Positions.OfSideIdempotent | Order/ExitTrade.js:124-125 | bucketing a bucket again changes nothing |
| Positions.OfSideOther | Order/ExitTrade.js:124-125 | a bucket holds nothing of the other side |
| Positions.OfSidePartition | Order/ExitTrade.js:124-131 | the two buckets together are a permutation of the candidates |
| Positions.SellFirstIsPermutation | Order/ExitTrade.js:137 | the close list is a permutation of the kept candidates: each appears exactly once |
| Positions.SellFirstSellsBeforeBuys | Order/ExitTrade.js:137 | in the close list no SELL-side item follows a BUY-side one |
| Positions.SellFirstKeepsOrderWithinSide | Order/ExitTrade.js:137 | within each side, the close list keeps client-then-position enumeration order |
| Aggregate.SuccessCount | Order/ExitTrade.js:219-221 | the success count is at most the number of results and is positive iff some result is SUCCESS |
| Aggregate.SuccessCountAppend | Order/ExitTrade.js:219-221 | the count of a concatenation is the sum of the counts: together with `SuccessCountOne` it is the number of SUCCESS results |
| Aggregate.SuccessCountOne | Order/ExitTrade.js:219-221 | one result counts 1 iff its status is SUCCESS, else 0 |
| Aggregate.Summarize | Order/ExitTrade.js:228-232 | the summary carries the results unchanged; it is SUCCESS iff some result succeeded and ERROR iff none did; the message is "Closed k out of n open positions" |
| ExitTrade.CandidatesMembership | Order/ExitTrade.js:96-134 | a candidate is kept iff it is a selected position of a client whose book reply has no error and status SUCCESS |
| ExitTrade.PushMatching | Order/ExitTrade.js:103-133 | the inner loop appends to the SELL array exactly the client's matching SELL-side candidates, and to the BUY array its BUY-side ones, in book order |
| ExitTrade.SelectPositions | Order/ExitTrade.js:94-137 | the two push loops build exactly the sell-first arrangement of all kept candidates |
| ExitTrade.FirstFor | Order/ExitTrade.js:182-184 | the reply entry picked is the first one with the item's client_id, and there is none only when no entry has it |
| ExitTrade.CloseOne | Order/ExitTrade.js:154-211 | an item's result carries its client, symbol, token, closing side and full quantity, and always an errorcode |
| ExitTrade.CloseAll | Order/ExitTrade.js:154-216 | one result per close-list item, in close-list order |
| ExitTrade.FirstLotFailure | Order/ExitTrade.js:159 | there is no failure iff no item's lot-size lookup throws |
| ExitTrade.Dispatch | Order/ExitTrade.js:139-241 | nothing to close gives 200 SUCCESS; a throwing lot download gives 500 ERROR MO8000 with no results; otherwise 200 with one result per item, SUCCESS iff some item is, and "Closed k out of n open positions" with k the success count |
| ExitTrade.ExitPosition | Order/ExitTrade.js:23-241 | MO8001 on an absent or empty id list; MO8003 naming exactly the ids without a record; otherwise the dispatch of the sell-first close list of the fetched books |
| ExitTradeProperties.ItemResultFromFirstEntry | Order/ExitTrade.js:182-199 | status, message and errorcode (defaulting to "") come from the first reply entry of the client; without one the item is ERROR, "No response for client_id", MO8004 |
| ExitTradeProperties.ItemResultOnThrow | Order/ExitTrade.js:200-210 | a thrown call gives ERROR, the response message or else the error message, and the response errorcode or else MO8000 |
| ExitTradeProperties.DispatchOutcome | Order/ExitTrade.js:139-232 | no kept position gives 200 SUCCESS with no results; a throwing lot lookup gives 500 MO8000; otherwise one result per item in order, each closing an open position on the opposite side, SUCCESS iff some item is, "Closed k out of n" |
| ExitTradeSdk.QueryClient | Order/ExitTradeSDK.js:49-69 | a query that is absent, not SUCCESS or throws yields no positions; a SUCCESS query yields its data and no error |
| ExitTradeSdk.QueryAll | Order/ExitTradeSDK.js:49-72 | one query record per requested client, in `client_ids` order: record i is the query of the i-th id |
| ExitTradeSdk.ToCloseItem | Order/ExitTradeSDK.js:94-100 | the item closes its candidate: same client and position, opposite side, quantity \|net\| |
| ExitTradeSdk.CandidatesComplete | Order/ExitTradeSDK.js:76-101 | every open, matching position of a record without an error becomes a candidate |
| ExitTradeSdk.CandidatesSound | Order/ExitTradeSDK.js:76-101 | every candidate is an open, matching position of a record without an error |
| ExitTradeSdk.CollectClient | Order/ExitTradeSDK.js:79-101 | the inner loop appends the close items of exactly the client's open positions that pass the filters, in book order |
| ExitTradeSdk.CollectPositions | Order/ExitTradeSDK.js:75-103 | the nested loops build exactly the close items of all kept candidates in client-then-book order, with no reordering by side |
| ExitTradeSdk.LotSizeOf | Order/ExitTradeSDK.js:8-19 | the listed lot size when found, else 1 (token unknown or lookup failed) |
| ExitTradeSdk.CeilDivIsLeastCover | Order/ExitTradeSDK.js:120 | the lot count times the lot size covers the quantity, and one lot fewer does not |
| ExitTradeSdk.ExitOrderFor | Order/ExitTradeSDK.js:119-134 | the payload goes to the item's client and position on its closing side, as a MARKET DAY order at price 0 tagged EXIT, product type `productname` or else NORMAL, in the least number of lots covering the quantity |
| ExitTradeSdk.CloseOne | Order/ExitTradeSDK.js:136-169 | an item is SUCCESS iff the reply has status SUCCESS, else ERROR; it keeps the item's client, symbol, token, side and quantity; the message is the reply's on SUCCESS, the reply's or else "Unknown error" on a reply without SUCCESS or no reply, and the error's on a throw |
| ExitTradeSdk.CloseAll | Order/ExitTradeSDK.js:116-173 | one result per item, in order, from the order built with the item's lot size |
| ExitTradeSdk.Dispatch | Order/ExitTradeSDK.js:105-183 | no item gives SUCCESS with no results; otherwise one result per item, no errorcode, SUCCESS iff some item is, and "Closed k out of n open positions" with k the success count |
| ExitTradeSdk.ExitPositionSDK | Order/ExitTradeSDK.js:32-193 | MO8001 on an absent or empty id list; otherwise the dispatch of the close items collected from all client queries |
| ExitTradeSdkProperties.CandidatesMembership | Order/ExitTradeSDK.js:49-92 | a candidate is kept iff it is a selected position from a client whose query returned SUCCESS; other clients' failures do not remove it |
| ExitTradeSdkProperties.ExitOrderCoversQuantity | Order/ExitTradeSDK.js:119-134 | the exit order goes to the item's client on its closing side, in the least number of lots covering the quantity |
| ExitTradeSdkProperties.LotsForHundredAtSeventyFive | Order/ExitTradeSDK.js:120 | a quantity of 100 at lot size 75 needs 2 lots |
| ExitTradeSdkProperties.DispatchOutcome | Order/ExitTradeSDK.js:105-183 | no item gives SUCCESS with no results; otherwise one result per item in order, each SUCCESS iff its reply is, batch SUCCESS iff some item is, "Closed k out of n" |
| ExitTradeSdkProperties.CloseItemsCloseInFull | Order/ExitTradeSDK.js:94-100 | each close item has the candidate's client, the opposite side and the full quantity |
| PlaceOrderSdk.FirstExternal | Order/PlaceOrderSDk.js:51-61 | the address of the first IPv4, non-internal entry, else "127.0.0.1" |
| PlaceOrderSdk.FirstExternalAt | Order/PlaceOrderSDk.js:53-57 | once an external entry is the first one, entries after it do not change the answer |
| PlaceOrderSdk.GetLocalIp | Order/PlaceOrderSDk.js:51-61 | the nested search with early return over the interface groups answers `FirstExternal` of all entries in iteration order |
| PlaceOrderSdk.Validate | Order/PlaceOrderSDk.js:90-113 | a request passes iff the id list is a non-empty array, every required field is truthy and `quantityinlot` is an array as long as the id list |
| PlaceOrderSdk.IndexOf | Order/PlaceOrderSDk.js:133 | `indexOf` answers the first position holding the id |
| PlaceOrderSdk.OrderDataFor | Order/PlaceOrderSDk.js:133-145 | the order carries the credential's client code and the quantity at `IndexOf` its id (the first position); price is present iff truthy, and then unchanged |
| PlaceOrderSdk.SourceType | Order/PlaceOrderSDk.js:152 | "MOB" iff the token ends with "_M", else "WEB" |
| PlaceOrderSdk.RefreshGuardAlwaysHolds | Order/PlaceOrderSDk.js:167 | the refresh guard holds for every string token, "" included |
| PlaceOrderSdk.TokenStepFor | Order/PlaceOrderSDk.js:167-195 | a new token is taken iff the guard holds and the login reply is SUCCESS with a token |
| PlaceOrderSdk.ErrorResult | Order/PlaceOrderSDk.js:216-226 | a failed task is ERROR with no order id, a non-empty message, and the response errorcode or else MO8000 |
| PlaceOrderSdk.ReplyResult | Order/PlaceOrderSDk.js:205-215 | the reply fields with their defaults: status SUCCESS, message "Order placed", errorcode "", order id from the top level else from data else "" |
| PlaceOrderSdk.TaskResult | Order/PlaceOrderSDk.js:149-226 | each task's result is labelled with its own credential's client_id |
| PlaceOrderSdk.PlaceForCredential | Order/PlaceOrderSDk.js:149-226 | one task's result, and the store after it: a refreshed token is written back, a failed login writes nothing |
| PlaceOrderSdk.TaskResults | Order/PlaceOrderSDk.js:132-145 | one task result per credential |
| PlaceOrderSdk.TaskResultsAt | Order/PlaceOrderSDk.js:132-226 | result i is the task of credential i, placing the order `OrderDataFor` builds for it (its quantity at the first index of its id) |
| PlaceOrderSdk.TaskResultsContents | Order/PlaceOrderSDk.js:132-226 | every result, at once, is its own credential's task with its `OrderDataFor` order |
| PlaceOrderSdk.RunTasks | Order/PlaceOrderSDk.js:132-242 | running the tasks one per credential yields exactly the task results in credential order, and the store after all their write-backs |
| PlaceOrderSdk.PlaceOutcome | Order/PlaceOrderSDk.js:90-247 | the handler places orders iff the request is accepted and no requested id lacks a record, then with one result per fetched credential; every rejection is a 400 ERROR |
| PlaceOrderSdk.StoreAfter | Order/PlaceOrderSDk.js:90-247 | a rejected request (MO8001, MO8002 or MO8003) leaves the store unchanged |
| PlaceOrderSdk.PlaceOrderSDK | Order/PlaceOrderSDk.js:64-247 | the response and the final store are those of the layered validation followed by one task per fetched credential, in credential order |
| PlaceOrderSdkProperties.RejectionIgnoresStore | Order/PlaceOrderSDk.js:90-113 | MO8001, then MO8002, are decided before the store is read: the answer does not depend on it and the store is unchanged |
| PlaceOrderSdkProperties.MissingCredentialsRejected | Order/PlaceOrderSDk.js:116-129 | an accepted request is rejected with MO8003 iff some requested id has no record, naming exactly those ids; the store is unchanged |
| PlaceOrderSdkProperties.TaskResultsClientIds | Order/PlaceOrderSDk.js:132-247 | the i-th result carries the client_id of the i-th credential |
| PlaceOrderSdkProperties.OneResultPerCredential | Order/PlaceOrderSDk.js:132-247 | one result per fetched credential in credential order, and every requested id gets a result |
| PlaceOrderSdkProperties.TaskResultShape | Order/PlaceOrderSDk.js:205-226 | every result has the credential's id, a non-empty status and message, and one without an order id is an ERROR |
| PlaceOrderSdkProperties.LoginFailureIsError | Order/PlaceOrderSDk.js:178-226 | a login reply without SUCCESS and a token makes the result ERROR with MO8000 (or the thrown errorcode) and "Failed to refresh token for …", and writes nothing |
| PlaceOrderSdkProperties.RefreshedTokenIsUsed | Order/PlaceOrderSDk.js:152-205 | after a good login the order goes out with the new token under the old token's source type, and the new token is written back |
| PlaceOrderSdkProperties.WriteBacksChangeOnlyTokens | Order/PlaceOrderSDk.js:184-187 | write-backs keep the store's length, client ids and API keys |
| PlaceOrderSdkProperties.DuplicateIdsPlaceOnce | Order/PlaceOrderSDk.js:132-142 | an id listed twice with one record gives one result, sized by its first quantity |

Where the code's own comments or its sibling handler suggest a different intent,
the model follows the code as written:

- The refresh guard is modelled as written (`auth_token || auth_token.length < 10`,
  `Order/PlaceOrderSDk.js:167`). It holds for every string, so every task logs in
  first. The comment on the line above (`:166`) says the token is refreshed only
  when it is missing or invalid.
- `exitPosition` divides the quantity by the lot size without rounding
  (`Order/ExitTrade.js:160`), while `ExitPositionSDK` rounds up with `Math.ceil`
  (`Order/ExitTradeSDK.js:120`). Each handler is modelled with its own arithmetic.
- In `exitPosition`, a failing lot-size download (`Order/ExitTrade.js:159`) is
  outside the per-item `try`, so it fails the whole batch with 500/MO8000, not
  just its own item.

## Left out

- Logging, latency timing and the HTTP transport (axios instance, retry policy, DNS and keep-alive setup) are I/O with no effect on the answers.
- Fetching the MAC and public IP addresses is left out; both are parameters. A MAC lookup failure, which rejects the whole request with 500, is not modelled.
- `Logout` in the task's `finally` block is left out; its failures are logged and ignored.
- The login arguments (fallback password, date of birth, TOTP secret) and `apiSecret` are left out. The login reply is a parameter per credential.
- ExitTrade.Dispatch: the float `quantity / lotSize` (NaN when the lot lookup answers "Symbol not found") and the loopback payload built from it are not modelled. Only a throwing lot download is, and it fails the batch.
- ExitTrade.FirstLotFailure: when several lot downloads throw, the model reports the first in close-list order. `Promise.all` reports the one that fails first in time.
- ExitTradeSdk.LotSizeOf: the lot size is a positive integer. A listed lot size that `parseInt` turns into NaN or 0, which would make the lot count NaN or Infinity, is not modelled.
- PlaceOrderSdk.OrderDataFor: `parseFloat` of price and quantity is not modelled; both are integers.
- PlaceOrderSdk.TokenStepFor: tokens are strings. A record without any `auth_token` field, where the guard itself throws a TypeError and the task ends in ERROR/MO8000, is not modelled.
- Common.ToUpper: only ASCII letters are upper-cased; JavaScript's full Unicode case mapping is not modelled.
- A position-book or order reply whose `data` is not an array is not modelled; replies carry sequences.
- A failing `updateOne` write-back is not modelled; in the code it ends that task in ERROR.
- The outer catch-all paths that answer 500/MO8000 on an unexpected exception are not modelled. These are a failing credential query, a failing MAC lookup and a thrown TypeError. `exitPosition`'s throwing lot download is the one exception that is modelled.
- Concurrency is not modelled beyond the order-preserving join: tasks run one after another in input order. The SDK tasks' token write-backs are applied in credential order.
