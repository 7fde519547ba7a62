# Aptoide store ledger, modelled in Dafny

This project models the transaction engine of a small digital storefront.
The `AptoideStore` object owns a few things:

- the catalogue of apps and their items;
- the user directory, with each user's balance and purchase history;
- the store's own balance and commission;
- the transaction log.

The store offers two operations:

- **purchase** checks a request `(app, item, buyer)`. If it is accepted, the
  price is split between the app's developer and the store, a PURCHASE record
  is logged, the purchase is added to the buyer's history, and the reward
  rule runs.
- **reward** counts the buyer's recorded purchases of the app. From the
  second purchase to the tenth, the store pays the buyer 5% of the amount.
  From the eleventh on it pays 10%. Each reward is logged as a REWARD record.

The files:

- `money.dfy` (module `Money`): exact money arithmetic. Amounts are whole
  cents and commissions are basis points (10000 = 1). `round(x, 2)` becomes
  `RoundHalfEven`, which rounds the exact rational to the nearest cent, with
  ties going to the even cent.
- `model.dfy` (module `Model`): the records `Item`, `App`, `Purchase`,
  `User`, `Transaction` and the whole store as a value, `StoreState`. It also
  holds the id-keyed maps that the loaders build (`IndexBy`) and the two store
  invariants. The first, `WellFormed`, says every user sits under its own id
  and every app's developer is a known user. The second, `ConsecutiveIds`,
  says log ids run 1, 2, 3, ….
- `engine.dfy` (module `Engine`): both operations as functions on
  `StoreState`: `Validate`, `Settle`, `PurchaseSpec`, `Count`, `RewardRate`
  and `RewardSpec`. It also holds the lemmas about them.
- `store.dfy` (module `Store`): the class `AptoideStore`. Its methods update
  its fields step by step, as the source does. Each method is proved to
  leave the store in the state that the matching `Engine` function computes.
  Each also keeps the class invariant `Valid()`.
- `scenarios.dfy` (module `Scenarios`): the store's test scenarios, stated
  on a concrete snapshot. The snapshot file the tests load is not part of
  this model, so the snapshot is rebuilt from what the tests assert.
- `wrappers.dfy` (module `Wrappers`): `Option` and `Result`.

Modelling choices:

- A rejected purchase returns `Failure(e)`. The kind `e` stands for the
  diagnostic the store prints. The source returns `None` there.
- The `User` objects of the source are reachable only through the store's
  `users` dictionary. That makes them values inside the store's `users` map.
  Every update goes through the buyer's or the developer's key. So when the
  buyer is the app's own developer, both updates land on the same entry, in
  the source's order.
- Settlement (challenge.py:91-120) is a separate method, `SettlePurchase`,
  that `PurchaseTransaction` calls after its checks. This keeps each proof
  small.
- `receivers` is built the way the source builds it: the developer's entry
  first, then the store's entry. If the developer's id equals the store's
  id, the later entry wins.

## Model

| member | source | states |
|---|---|---|
| Money.RoundHalfEven | challenge.py:91-92 | `round(x, 2)` on an exact value: the result is within half a unit of `n / d`, and an exact tie goes to the even neighbour |
| Money.RoundExact | challenge.py:91-92 | an amount that is already a whole number of cents is not changed by rounding |
| Money.Share | challenge.py:91-92 | a commission's share of an amount is within half a cent of the exact product |
| Money.SharesWithinOneCent | challenge.py:87-92 | when the two commissions add up to 1, the two shares, each rounded on its own, add up to the price give or take one cent |
| Money.SharesMayLoseOneCent | challenge.py:91-92 | the one-cent residue really happens: two 50% shares of one cent both round to zero |
| Model.IndexBy | challenge.py:60-62 | `{x['id']: x for x in xs}`: the keys are exactly the ids in the list, each key maps to a listed record that carries that id, and the list's final record is kept under its id |
| Model.IndexByLastWins | challenge.py:60-62 | for every id, the record the map keeps is the last one in the list with that id, wherever it stands |
| Model.NewApp | challenge.py:36-43 | `App(**app)`: the id, developer and commission are carried over, and the item list becomes a map from each item's id to that item, holding only listed items |
| Model.LoadApps | challenge.py:56-58 | the catalogue's keys are exactly the listed apps' ids, and each key maps to the app built by `NewApp` from a listed record with that id |
| Model.LoadAppsLastWins | challenge.py:56-58 | of several listed apps with one id, the catalogue keeps the one built from the last |
| Model.AppendKeepsIdsConsecutive | challenge.py:111-119 | appending the record numbered `len(log) + 1` keeps the log numbered 1, 2, 3, … |
| Engine.Count | challenge.py:130 | the number of history entries for the app is at most the history's length, and is zero exactly when no entry is for that app |
| Engine.CountAppend | challenge.py:120-130 | appending one history entry raises the app's count by one exactly when the entry is for that app |
| Engine.RewardRate | challenge.py:131-133 | the tiers: no reward for a count of 0 or 1, 5% for 2 to 10, 10% for 11 or more, each an if-and-only-if |
| Engine.RewardRateMonotone | challenge.py:131 | more purchases never earn a lower rate |
| Engine.RewardPaid | challenge.py:131-135 | the reward paid is 0 below two purchases, and otherwise within half a cent of 5% or 10% of the amount |
| Engine.RewardSpec | challenge.py:129-157 | no reward and no change iff the count is 0 or 1. Otherwise the user gains the reward and the store loses it, with no check on the store's funds. One REWARD record is appended with id `len(log) + 1`, empty app and item, currency `€`, the store as sender and the user as sole receiver. Nothing else changes |
| Engine.Validate | challenge.py:66-89 | the checks in the source's order: unknown app, then unknown buyer, then unknown item, then balance below price (reported with the buyer's id), then commissions not adding up to 1. Each error holds iff every earlier check passed and this one fails. A balance equal to the price passes |
| Engine.SettleEffects | challenge.py:91-120 | settlement's effects: the buyer pays the price, the store gains its share, and the developer gains its share (the buyer gets both changes when the buyer is the developer). The PURCHASE record is `{app, item, currency, price, buyer, {dev: dev share, store: store share}}` with id `len(log) + 1`. The buyer's history gains `{app, item, price}`. No other user or history changes |
| Engine.PurchaseSpec | challenge.py:64-127 | a purchase fails iff a check fails. On failure it reports the first failing check and leaves the store exactly as it was. On success it returns the PURCHASE record that settlement logs, whose fields `SettleEffects` gives. It keeps the store well formed and never changes the catalogue, the store's id or its commission |
| Engine.PurchaseAppendsToLog | challenge.py:109-123 | a purchase only appends to the log: nothing on failure; otherwise its PURCHASE record at position `len(log)`, possibly followed by one REWARD record; each new record's id is its position plus one |
| Engine.PurchaseRecordsHistory | challenge.py:120 | an accepted purchase adds exactly one entry to the buyer's history. No other history changes, and no user other than the buyer and the developer changes at all |
| Engine.PurchaseKeepsIdsConsecutive | challenge.py:109-149 | ids stay 1, 2, 3, … across PURCHASE and REWARD records mixed |
| Engine.RewardFiresFromSecondPurchase | challenge.py:120-133 | because the history entry is added before the reward is counted, a REWARD follows an accepted purchase iff the buyer had already bought from that app |
| Engine.PurchaseBalances | challenge.py:91-137 | after a whole purchase: store balance = old + store share − reward; buyer balance = old − price + reward (+ developer share if the buyer is the developer); developer balance = old + developer share; the reward is the one the buyer's count, this purchase included, earns |
| Engine.PurchaseConservesWithinOneCent | challenge.py:91-137 | the net money created or lost by a purchase, summed over store, buyer and developer, is at most one cent |
| Store.AptoideStore.constructor | challenge.py:48-62 | builds the store from a snapshot: each listed app built with its items indexed and keyed by id (`LoadApps`), users keyed by id, an empty log; the store invariant holds |
| Store.AptoideStore.PurchaseTransaction | challenge.py:64-127 | the in-place purchase leaves the store in the state `PurchaseSpec` computes from the old state, returns its result, and keeps the store invariant |
| Store.AptoideStore.SettlePurchase | challenge.py:91-120 | the in-place settlement steps leave the store in the state `Settle` computes, and keep the store invariant |
| Store.AptoideStore.RewardTransaction | challenge.py:129-157 | the in-place reward leaves the store in the state `RewardSpec` computes, returns its record, and keeps the store invariant |
| Scenarios.FirstPurchaseSplitsThePrice | tests.py:18-28 | a 1.00 item with 25% store commission: app, item, the currency `â‚¬` as the test writes it, amount 1.00, sender user1, receivers {dev1: 0.75, store1: 0.25}, store 1.00 → 1.25, developer 0.75, buyer 10.00 → 9.00, no reward |
| Scenarios.ShortBuyerIsTurnedDown | tests.py:31-33 | a buyer with 0.50 buying a 1.00 item is rejected with the balance error and nothing changes |
| Scenarios.RewardTiersInTurn | tests.py:39-62 | two recorded purchases earn 0.05 (store 0.95, user 10.05); eleven earn 0.10 (store 0.85, user 10.15); one earns nothing and changes nothing |

## Left out

- `main()`: reading the JSON snapshot, the input loop, splitting the input line, and handling malformed input (challenge.py:159-178). This is I/O. The model starts from a snapshot handed to the constructor.
- All printed output: error messages, receipts and balance summaries, `Transaction.__str__`, `User.__str__` and `App.__str__`. This is presentation only. The `balances` dictionary at challenge.py:103-107 and challenge.py:151-154 exists only to be printed, so it is not modelled.
- `TransactionInput` and the pydantic field validation (challenge.py:6-9). These check the schema of string fields, which is a library concern. Only the id-keyed maps that the validators build are modelled (`IndexBy`, `NewApp`, `LoadApps`).
- Float arithmetic: money is exact integer cents and commissions are basis points. So the `!= 1` commission test at challenge.py:87 is an exact integer comparison. Binary-float effects, where two fractions that should sum to 1 do not, are not reproduced. `round(…, 2)` is rounding to the nearest cent with ties to even. This is Python's rule for exact values, not its behaviour on the float nearest a decimal.
- Insertion order of `receivers`: a Dafny map has no order. Only its keys and values are modelled.
- Store.AptoideStore.PurchaseTransaction: a missing developer is excluded by the store invariant rather than modelled. In the source, `self.users[app.dev_id]` at challenge.py:96 would raise `KeyError` after the buyer and the store balances have already changed, and the `except` at challenge.py:126-127 re-raises it. The model makes the developer's existence part of `WellFormed`, which the constructor requires. This precondition covers the whole store: a snapshot in which any one app's developer is missing is outside the model, even though in the source purchases of the other apps would still succeed on it.
- Store.AptoideStore.RewardTransaction: requires the user to exist. The source would raise `KeyError` at challenge.py:130 for an unknown user, and `purchase_transaction` only calls it for a buyer it has already found.
- Store.AptoideStore.constructor: the log always starts empty. Loading a snapshot that already contains transactions is not modelled. The default commissions (0.25 for the store, 0.75 for an app) are the constants `DEFAULT_STORE_COMMISSION` and `DEFAULT_APP_COMMISSION`, not default arguments.
