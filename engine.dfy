/**
 * The transaction engine as functions on the store's value: the checks a
 * purchase request goes through, the settlement of an accepted purchase, and
 * the loyalty reward that follows it. The `Store` module's methods change the
 * store in place and are proved to agree with these functions.
 */
module Engine {
  import opened Wrappers
  import opened Money
  import opened Model

  /** The currency symbol of every reward. */
  const REWARD_CURRENCY: string := "€"

  /** Reward rates: 5% from the 2nd to the 10th purchase of an app, 10% from the 11th. */
  const LOW_REWARD_RATE: BasisPoints := 500
  const HIGH_REWARD_RATE: BasisPoints := 1000

  /** Why a purchase request was turned down, one kind per diagnostic the store prints. */
  datatype PurchaseError =
    | InvalidApp
    | InvalidSender
    | InvalidItem
    | InsufficientBalance(userId: Id)
    | CommissionMismatch

  // ---------------------------------------------------------------------
  // Reward rule
  // ---------------------------------------------------------------------

  /** The number of entries of `history` that are purchases of app `appId`. */
  function Count(history: seq<Purchase>, appId: Id): (n: nat)
    ensures n <= |history|
    ensures n == 0 <==> forall i | 0 <= i < |history| :: history[i].appId != appId
  {
    if history == [] then 0
    else (if history[0].appId == appId then 1 else 0) + Count(history[1..], appId)
  }

  /** Appending one entry raises the count by one exactly when the entry is for the app. */
  lemma {:induction false} CountAppend(history: seq<Purchase>, p: Purchase, appId: Id)
    ensures Count(history + [p], appId) == Count(history, appId) + (if p.appId == appId then 1 else 0)
  {
    if history == [] {
      assert history + [p] == [p];
      assert [p][1..] == [];
    } else {
      assert (history + [p])[1..] == history[1..] + [p];
      CountAppend(history[1..], p, appId);
    }
  }

  /** The reward rate that `count` purchases of an app earn, if any. */
  function RewardRate(count: nat): (rate: Option<BasisPoints>)
    ensures rate == None <==> count <= 1
    ensures rate == Some(LOW_REWARD_RATE) <==> 2 <= count <= 10
    ensures rate == Some(HIGH_REWARD_RATE) <==> count >= 11
  {
    if 2 <= count <= 10 then Some(LOW_REWARD_RATE)
    else if count >= 11 then Some(HIGH_REWARD_RATE)
    else None
  }

  /** More purchases never earn a lower rate. */
  lemma RewardRateMonotone(fewer: nat, more: nat)
    requires fewer <= more && RewardRate(fewer).Some?
    ensures RewardRate(more).Some? && RewardRate(fewer).value <= RewardRate(more).value
  {
  }

  /** What the store pays in reward for `count` purchases of an app at `amount` cents. */
  function RewardPaid(count: nat, amount: Cents): (paid: Cents)
    ensures count <= 1 ==> paid == 0
    ensures 2 <= count <= 10 ==> 2 * Abs(LOW_REWARD_RATE * amount - paid * WHOLE) <= WHOLE
    ensures count >= 11 ==> 2 * Abs(HIGH_REWARD_RATE * amount - paid * WHOLE) <= WHOLE
  {
    match RewardRate(count)
    case None => 0
    case Some(rate) => Share(rate, amount)
  }

  /**
   * `reward_transaction(userId, appId, amount)`: counts the user's recorded
   * purchases of the app and, from the second one on, moves the reward from
   * the store to the user and logs a REWARD record.
   */
  function RewardSpec(s: StoreState, userId: Id, appId: Id, amount: Cents): (r: (StoreState, Option<Transaction>))
    requires userId in s.users
    ensures var count := Count(s.users[userId].purchases, appId);
      && (r.1.None? <==> count <= 1)
      && (r.1.None? ==> r.0 == s)
      && (r.1.Some? ==>
            var tx := r.1.value;
            && tx.txType == REWARD
            && tx.amount == RewardPaid(count, amount)
            && tx.id == |s.transactions| + 1
            && tx.appId == "" && tx.itemId == "" && tx.currency == REWARD_CURRENCY
            && tx.sender == s.storeId
            && tx.receivers == map[userId := tx.amount]
            && r.0.transactions == s.transactions + [tx]
            // the money comes out of the store and goes to the user, unchecked
            && r.0.users.Keys == s.users.Keys
            && r.0.users[userId].balance == s.users[userId].balance + tx.amount
            && r.0.storeBalance == s.storeBalance - tx.amount
            // nothing else changes
            && r.0.users[userId].purchases == s.users[userId].purchases
            && r.0.users[userId].id == s.users[userId].id
            && (forall u | u in s.users && u != userId :: r.0.users[u] == s.users[u])
            && r.0.storeId == s.storeId && r.0.commission == s.commission && r.0.apps == s.apps)
    // the reward, zero when none is due, moves from the store to the user: no money is created
    ensures var paid := RewardPaid(Count(s.users[userId].purchases, appId), amount);
      && r.0.storeBalance == s.storeBalance - paid
      && userId in r.0.users
      && r.0.users[userId].balance == s.users[userId].balance + paid
  {
    var user := s.users[userId];
    var count := Count(user.purchases, appId);
    match RewardRate(count)
    case None => (s, None)
    case Some(rate) =>
      var paid := Share(rate, amount);
      var tx := Transaction(REWARD, |s.transactions| + 1, "", "", REWARD_CURRENCY, paid, s.storeId, map[userId := paid]);
      (s.(storeBalance := s.storeBalance - paid,
          users := s.users[userId := user.(balance := user.balance + paid)],
          transactions := s.transactions + [tx]),
       Some(tx))
  }

  // ---------------------------------------------------------------------
  // Purchase
  // ---------------------------------------------------------------------

  /** The request passes every check. */
  ghost predicate Acceptable(s: StoreState, appId: Id, itemId: Id, senderId: Id) {
    && appId in s.apps
    && senderId in s.users
    && itemId in s.apps[appId].items
    && s.users[senderId].balance >= s.apps[appId].items[itemId].price
    && s.commission + s.apps[appId].commission == WHOLE
  }

  /**
   * The checks of `purchase_transaction`, in the order the store makes them;
   * the first that fails decides the error.
   */
  function Validate(s: StoreState, appId: Id, itemId: Id, senderId: Id): (e: Option<PurchaseError>)
    ensures e == None <==> Acceptable(s, appId, itemId, senderId)
    ensures e == Some(InvalidApp) <==> appId !in s.apps
    ensures e == Some(InvalidSender) <==> appId in s.apps && senderId !in s.users
    ensures e == Some(InvalidItem) <==>
      appId in s.apps && senderId in s.users && itemId !in s.apps[appId].items
    ensures (e.Some? && e.value.InsufficientBalance?) <==>
      && appId in s.apps && senderId in s.users && itemId in s.apps[appId].items
      && s.users[senderId].balance < s.apps[appId].items[itemId].price
    ensures e.Some? && e.value.InsufficientBalance? ==> e.value.userId == s.users[senderId].id
    ensures e == Some(CommissionMismatch) <==>
      && appId in s.apps && senderId in s.users && itemId in s.apps[appId].items
      && s.users[senderId].balance >= s.apps[appId].items[itemId].price
      && s.commission + s.apps[appId].commission != WHOLE
  {
    if appId !in s.apps then Some(InvalidApp)
    else if senderId !in s.users then Some(InvalidSender)
    else if itemId !in s.apps[appId].items then Some(InvalidItem)
    else
      var app := s.apps[appId];
      var sender := s.users[senderId];
      var amount := app.items[itemId].price;
      if sender.balance < amount then Some(InsufficientBalance(sender.id))
      else if s.commission + app.commission != WHOLE then Some(CommissionMismatch)
      else None
  }

  /**
   * The settlement of an accepted purchase, before the reward: the buyer
   * pays the price, the store and the developer are credited their rounded
   * shares, a PURCHASE record is logged and the buyer's history grows.
   */
  function Settle(s: StoreState, appId: Id, itemId: Id, senderId: Id): (r: (StoreState, Transaction))
    requires Acceptable(s, appId, itemId, senderId) && s.apps[appId].devId in s.users
  {
    var app := s.apps[appId];
    var item := app.items[itemId];
    var amount := item.price;
    var storeShare := Share(s.commission, amount);
    var devShare := Share(app.commission, amount);
    var paidBy := s.users[senderId := s.users[senderId].(balance := s.users[senderId].balance - amount)];
    var paidTo := paidBy[app.devId := paidBy[app.devId].(balance := paidBy[app.devId].balance + devShare)];
    var tx := Transaction(PURCHASE, |s.transactions| + 1, appId, itemId, item.currency, amount, senderId,
                          map[app.devId := devShare][s.storeId := storeShare]);
    var recorded := paidTo[senderId := paidTo[senderId].(purchases := paidTo[senderId].purchases + [Purchase(appId, itemId, amount)])];
    (s.(storeBalance := s.storeBalance + storeShare, users := recorded, transactions := s.transactions + [tx]), tx)
  }

  /**
   * What settlement does: the PURCHASE record it logs, the three balances it
   * moves, the history entry it appends, and that it touches nothing else.
   */
  lemma SettleEffects(s: StoreState, appId: Id, itemId: Id, senderId: Id)
    requires WellFormed(s) && Acceptable(s, appId, itemId, senderId)
    ensures var app := s.apps[appId];
      var amount := app.items[itemId].price;
      var storeShare := Share(s.commission, amount);
      var devShare := Share(app.commission, amount);
      var r := Settle(s, appId, itemId, senderId);
      var tx := r.1;
      && tx.txType == PURCHASE
      && tx.id == |s.transactions| + 1
      && tx.appId == appId && tx.itemId == itemId
      && tx.currency == app.items[itemId].currency && tx.amount == amount
      && tx.sender == senderId
      && tx.receivers == map[app.devId := devShare][s.storeId := storeShare]
      && r.0.transactions == s.transactions + [tx]
      && r.0.users.Keys == s.users.Keys
      && r.0.storeBalance == s.storeBalance + storeShare
      && r.0.users[senderId].balance ==
           s.users[senderId].balance - amount + (if app.devId == senderId then devShare else 0)
      && (app.devId != senderId ==> r.0.users[app.devId].balance == s.users[app.devId].balance + devShare)
      && r.0.users[senderId].purchases == s.users[senderId].purchases + [Purchase(appId, itemId, amount)]
      && (forall u | u in s.users && u != senderId :: r.0.users[u].purchases == s.users[u].purchases)
      && (forall u | u in s.users && u != senderId && u != app.devId :: r.0.users[u] == s.users[u])
      && WellFormed(r.0)
      && r.0.storeId == s.storeId && r.0.commission == s.commission && r.0.apps == s.apps
  {
  }

  /**
   * `purchase_transaction(appId, itemId, senderId)`: on any failed check the
   * store is left as it was; otherwise the purchase is settled and the
   * reward rule is applied to the buyer's history, which by then includes
   * this purchase.
   */
  function PurchaseSpec(s: StoreState, appId: Id, itemId: Id, senderId: Id): (r: (StoreState, Result<Transaction, PurchaseError>))
    requires WellFormed(s)
    ensures r.1.Failure? <==> !Acceptable(s, appId, itemId, senderId)
    ensures r.1.Failure? ==> Validate(s, appId, itemId, senderId) == Some(r.1.error) && r.0 == s
    ensures r.1.Success? ==> r.1.value == Settle(s, appId, itemId, senderId).1
    ensures WellFormed(r.0)
    ensures r.0.storeId == s.storeId && r.0.commission == s.commission && r.0.apps == s.apps
  {
    match Validate(s, appId, itemId, senderId)
    case Some(e) => (s, Failure(e))
    case None =>
      SettleEffects(s, appId, itemId, senderId);
      var (settled, tx) := Settle(s, appId, itemId, senderId);
      var (rewarded, _) := RewardSpec(settled, senderId, appId, tx.amount);
      (rewarded, Success(tx))
  }

  // ---------------------------------------------------------------------
  // Properties of a whole purchase, reward included
  // ---------------------------------------------------------------------

  /**
   * A purchase only appends to the log: nothing on failure, otherwise the
   * PURCHASE record numbered one past the end, then possibly a REWARD.
   */
  lemma PurchaseAppendsToLog(s: StoreState, appId: Id, itemId: Id, senderId: Id)
    requires WellFormed(s)
    ensures var (after, result) := PurchaseSpec(s, appId, itemId, senderId);
      && |s.transactions| <= |after.transactions| <= |s.transactions| + 2
      && after.transactions[..|s.transactions|] == s.transactions
      && (forall i | |s.transactions| <= i < |after.transactions| :: after.transactions[i].id == i + 1)
      && (result.Failure? ==> after.transactions == s.transactions)
      && (result.Success? ==>
            && |after.transactions| > |s.transactions|
            && after.transactions[|s.transactions|] == result.value
            && result.value.txType == PURCHASE
            && (|after.transactions| == |s.transactions| + 2 ==>
                  after.transactions[|s.transactions| + 1].txType == REWARD))
  {
  }

  /**
   * An accepted purchase adds exactly one entry, `{app, item, price}`, to the
   * buyer's history; no other history changes, and no user other than the
   * buyer and the app's developer changes at all.
   */
  lemma PurchaseRecordsHistory(s: StoreState, appId: Id, itemId: Id, senderId: Id)
    requires WellFormed(s) && Acceptable(s, appId, itemId, senderId)
    ensures var after := PurchaseSpec(s, appId, itemId, senderId).0;
      var dev := s.apps[appId].devId;
      && after.users.Keys == s.users.Keys
      && after.users[senderId].purchases ==
           s.users[senderId].purchases + [Purchase(appId, itemId, s.apps[appId].items[itemId].price)]
      && (forall u | u in s.users && u != senderId :: after.users[u].purchases == s.users[u].purchases)
      && (forall u | u in s.users && u != senderId && u != dev :: after.users[u] == s.users[u])
  {
  }

  /** A purchase keeps the log's ids 1, 2, 3, ... whether or not a reward follows it. */
  lemma PurchaseKeepsIdsConsecutive(s: StoreState, appId: Id, itemId: Id, senderId: Id)
    requires WellFormed(s) && ConsecutiveIds(s.transactions)
    ensures ConsecutiveIds(PurchaseSpec(s, appId, itemId, senderId).0.transactions)
  {
  }

  /**
   * The history entry is recorded before the reward rule looks at it, so a
   * REWARD follows an accepted purchase exactly when the buyer had already
   * bought from the same app: the first reward comes with the second purchase.
   */
  lemma RewardFiresFromSecondPurchase(s: StoreState, appId: Id, itemId: Id, senderId: Id)
    requires WellFormed(s) && Acceptable(s, appId, itemId, senderId)
    ensures var after := PurchaseSpec(s, appId, itemId, senderId).0;
      |after.transactions| == |s.transactions| + 2 <==> Count(s.users[senderId].purchases, appId) >= 1
  {
    var amount := s.apps[appId].items[itemId].price;
    CountAppend(s.users[senderId].purchases, Purchase(appId, itemId, amount), appId);
  }

  /**
   * The three balances an accepted purchase moves: the buyer pays the price,
   * the developer earns its share, the store earns its share; then the store
   * pays the buyer the reward earned by the buyer's purchases of the app,
   * this one included. A buyer who is the app's own developer gets both.
   */
  lemma PurchaseBalances(s: StoreState, appId: Id, itemId: Id, senderId: Id)
    requires WellFormed(s) && Acceptable(s, appId, itemId, senderId)
    ensures var after := PurchaseSpec(s, appId, itemId, senderId).0;
      var app := s.apps[appId];
      var amount := app.items[itemId].price;
      var storeShare := Share(s.commission, amount);
      var devShare := Share(app.commission, amount);
      var reward := RewardPaid(Count(s.users[senderId].purchases, appId) + 1, amount);
      && after.storeBalance == s.storeBalance + storeShare - reward
      && after.users[senderId].balance ==
           s.users[senderId].balance - amount + (if app.devId == senderId then devShare else 0) + reward
      && (app.devId != senderId ==> after.users[app.devId].balance == s.users[app.devId].balance + devShare)
  {
    var amount := s.apps[appId].items[itemId].price;
    SettleEffects(s, appId, itemId, senderId);
    var settled := Settle(s, appId, itemId, senderId).0;
    CountAppend(s.users[senderId].purchases, Purchase(appId, itemId, amount), appId);
    assert Count(settled.users[senderId].purchases, appId) == Count(s.users[senderId].purchases, appId) + 1;
    var after := RewardSpec(settled, senderId, appId, amount).0;
    assert PurchaseSpec(s, appId, itemId, senderId).0 == after;
    var dev := s.apps[appId].devId;
    if dev != senderId {
      assert after.users[dev] == settled.users[dev];
    }
  }

  /**
   * Money is conserved up to rounding: the price the buyer pays and the two
   * rounded shares differ by at most one cent, and the reward moves money
   * without creating any.
   */
  lemma PurchaseConservesWithinOneCent(s: StoreState, appId: Id, itemId: Id, senderId: Id)
    requires WellFormed(s) && Acceptable(s, appId, itemId, senderId)
    ensures var after := PurchaseSpec(s, appId, itemId, senderId).0;
      var dev := s.apps[appId].devId;
      var net := (after.storeBalance - s.storeBalance)
               + (after.users[senderId].balance - s.users[senderId].balance)
               + (if dev != senderId then after.users[dev].balance - s.users[dev].balance else 0);
      Abs(net) <= 1
  {
    PurchaseBalances(s, appId, itemId, senderId);
    SharesWithinOneCent(s.commission, s.apps[appId].commission, s.apps[appId].items[itemId].price);
  }
}
