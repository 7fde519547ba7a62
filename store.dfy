/**
 * The store object: a single owner of the catalogue, the user directory,
 * the store's own balance and the transaction log, updated in place by the
 * two engine operations.
 */
module Store {
  import opened Wrappers
  import opened Money
  import opened Model
  import opened Engine

  class AptoideStore {
    var storeId: Id
    var storeBalance: Cents
    var commission: BasisPoints
    var apps: map<Id, App>
    var users: map<Id, User>
    var transactions: seq<Transaction>

    /** The store's fields as one value, the state the engine functions speak of. */
    function State(): StoreState
      reads this
    {
      StoreState(storeId, storeBalance, commission, apps, users, transactions)
    }

    /** The store invariant: a well-formed directory and a log numbered 1, 2, 3, ... */
    ghost predicate Valid()
      reads this
    {
      WellFormed(State()) && ConsecutiveIds(transactions)
    }

    /**
     * Builds the store from a snapshot: each listed app is built with its
     * items indexed, the apps and the users are keyed by id, and the log
     * starts empty.
     */
    constructor (storeId: Id, storeBalance: Cents, commission: BasisPoints, apps: seq<AppRecord>, users: seq<User>)
      requires forall a | a in apps :: a.devId in set u | u in users :: u.id
      ensures Valid()
      ensures State() == StoreState(storeId, storeBalance, commission,
                                    LoadApps(apps), IndexBy(users, UserKey), [])
    {
      this.storeId := storeId;
      this.storeBalance := storeBalance;
      this.commission := commission;
      this.apps := LoadApps(apps);
      this.users := IndexBy(users, UserKey);
      this.transactions := [];
    }

    /**
     * `purchase_transaction`: checks the request, settles it step by step,
     * then grants the reward the buyer's history now earns.
     */
    method PurchaseTransaction(appId: Id, itemId: Id, senderId: Id) returns (result: Result<Transaction, PurchaseError>)
      requires Valid()
      modifies this
      ensures Valid()
      ensures (State(), result) == PurchaseSpec(old(State()), appId, itemId, senderId)
    {
      ghost var before := State();
      if appId !in apps {
        return Failure(InvalidApp);
      }
      if senderId !in users {
        return Failure(InvalidSender);
      }
      if itemId !in apps[appId].items {
        return Failure(InvalidItem);
      }
      var app := apps[appId];
      var item := app.items[itemId];
      var sender := users[senderId];
      var amount := item.price;
      if sender.balance < amount {
        return Failure(InsufficientBalance(sender.id));
      }
      if commission + app.commission != WHOLE {
        return Failure(CommissionMismatch);
      }

      assert Validate(before, appId, itemId, senderId) == None;
      var tx := SettlePurchase(appId, itemId, senderId);
      ghost var settled := State();

      assert sender.id == senderId;
      var _ := RewardTransaction(sender.id, appId, amount);
      assert State() == RewardSpec(settled, senderId, appId, amount).0;
      return Success(tx);
    }

    /**
     * The settlement steps of `purchase_transaction` once every check has
     * passed: debit the buyer, credit the store and the developer, log the
     * PURCHASE record and append the purchase to the buyer's history.
     */
    method SettlePurchase(appId: Id, itemId: Id, senderId: Id) returns (tx: Transaction)
      requires Valid() && Acceptable(State(), appId, itemId, senderId)
      modifies this
      ensures Valid()
      ensures (State(), tx) == Settle(old(State()), appId, itemId, senderId)
    {
      ghost var before := State();
      var app := apps[appId];
      var item := app.items[itemId];
      var sender := users[senderId];
      var amount := item.price;
      assert sender.id == senderId && app.devId in users;
      var storeShare := Share(commission, amount);
      var devShare := Share(app.commission, amount);

      users := users[senderId := users[senderId].(balance := users[senderId].balance - amount)];
      storeBalance := storeBalance + storeShare;
      users := users[app.devId := users[app.devId].(balance := users[app.devId].balance + devShare)];

      assert users[app.devId].id == app.devId;
      var receivers := map[users[app.devId].id := devShare][storeId := storeShare];
      tx := Transaction(PURCHASE, |transactions| + 1, appId, itemId, item.currency, amount, sender.id, receivers);
      transactions := transactions + [tx];
      users := users[senderId := users[senderId].(purchases := users[senderId].purchases + [Purchase(appId, itemId, amount)])];
      assert (State(), tx) == Settle(before, appId, itemId, senderId);
      AppendKeepsIdsConsecutive(before.transactions, tx);
      SettleEffects(before, appId, itemId, senderId);
    }

    /**
     * `reward_transaction`: from the second recorded purchase of the app on,
     * the store pays the user 5% (10% from the eleventh) and logs a REWARD.
     */
    method RewardTransaction(userId: Id, appId: Id, amount: Cents) returns (reward: Option<Transaction>)
      requires Valid() && userId in users
      modifies this
      ensures Valid()
      ensures (State(), reward) == RewardSpec(old(State()), userId, appId, amount)
    {
      var count := Count(users[userId].purchases, appId);
      var rate := RewardRate(count);
      if rate.None? {
        return None;
      }

      var paid := Share(rate.value, amount);
      users := users[userId := users[userId].(balance := users[userId].balance + paid)];
      storeBalance := storeBalance - paid;

      var tx := Transaction(REWARD, |transactions| + 1, "", "", REWARD_CURRENCY, paid, storeId, map[userId := paid]);
      transactions := transactions + [tx];
      return Some(tx);
    }
  }
}
