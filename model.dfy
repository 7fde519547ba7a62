/**
 * The records of the store: catalogue entries, users with their purchase
 * history, transaction receipts, and the whole store as one value.
 */
module Model {
  import opened Money

  type Id = string

  /** An item of an app's catalogue, with its price in cents. */
  datatype Item = Item(id: Id, currency: string, price: Cents)

  /**
   * An app: its developer (a user id), its items keyed by item id, and the
   * developer's commission in basis points.
   */
  datatype App = App(id: Id, devId: Id, items: map<Id, Item>, commission: BasisPoints)

  /** One entry of a user's purchase history. */
  datatype Purchase = Purchase(appId: Id, itemId: Id, amount: Cents)

  datatype User = User(id: Id, balance: Cents, purchases: seq<Purchase>)

  datatype TxType = PURCHASE | REWARD

  /** An immutable receipt; `receivers` maps each paid id to what it received. */
  datatype Transaction = Transaction(
    txType: TxType,
    id: int,
    appId: Id,
    itemId: Id,
    currency: string,
    amount: Cents,
    sender: Id,
    receivers: map<Id, Cents>)

  /** Everything the store owns, as a value. */
  datatype StoreState = StoreState(
    storeId: Id,
    storeBalance: Cents,
    commission: BasisPoints,
    apps: map<Id, App>,
    users: map<Id, User>,
    transactions: seq<Transaction>)

  /** The commissions a store and an app start with when none is given. */
  const DEFAULT_STORE_COMMISSION: BasisPoints := 2500
  const DEFAULT_APP_COMMISSION: BasisPoints := 7500

  function ItemKey(item: Item): Id { item.id }
  function AppKey(app: App): Id { app.id }
  function UserKey(user: User): Id { user.id }

  /**
   * The dictionary comprehension `{x['id']: x for x in xs}`: the records
   * keyed by their id; of two records with the same id the later one wins.
   */
  function IndexBy<T>(xs: seq<T>, key: T -> Id): (m: map<Id, T>)
    ensures m.Keys == set x | x in xs :: key(x)
    ensures forall k | k in m :: key(m[k]) == k && m[k] in xs
    ensures |xs| > 0 ==> m[key(xs[|xs| - 1])] == xs[|xs| - 1]
  {
    if xs == [] then map[]
    else
      var init := xs[..|xs| - 1];
      var last := xs[|xs| - 1];
      assert xs == init + [last];
      IndexBy(init, key)[key(last) := last]
  }

  /** Whatever its position, the last record with a given id is the one kept under it. */
  lemma {:induction false} IndexByLastWins<T>(xs: seq<T>, key: T -> Id, i: nat)
    requires i < |xs| && forall j | i < j < |xs| :: key(xs[j]) != key(xs[i])
    ensures IndexBy(xs, key)[key(xs[i])] == xs[i]
  {
    if i < |xs| - 1 {
      var init := xs[..|xs| - 1];
      assert init[i] == xs[i];
      assert forall j | i < j < |init| :: init[j] == xs[j];
      IndexByLastWins(init, key, i);
    }
  }

  /** An app as the snapshot lists it: its items still a list. */
  datatype AppRecord = AppRecord(id: Id, devId: Id, items: seq<Item>, commission: BasisPoints)

  /** `App(**app)`: the app's fields carried over, its item list indexed by item id. */
  function NewApp(raw: AppRecord): (app: App)
    ensures app.id == raw.id && app.devId == raw.devId && app.commission == raw.commission
    ensures app.items.Keys == set i | i in raw.items :: i.id
    ensures forall k | k in app.items :: app.items[k].id == k && app.items[k] in raw.items
  {
    App(raw.id, raw.devId, IndexBy(raw.items, ItemKey), raw.commission)
  }

  /**
   * The catalogue loader `{app['id']: App(**app) for app in apps}`: each
   * listed app built and keyed by its id, the later of two with one id winning.
   */
  function LoadApps(raws: seq<AppRecord>): (m: map<Id, App>)
    ensures m.Keys == set a | a in raws :: a.id
    ensures forall k | k in m :: exists a | a in raws :: a.id == k && m[k] == NewApp(a)
  {
    var built := BuildApps(raws);
    var m := IndexBy(built, AppKey);
    forall k | k in m ensures exists a | a in raws :: a.id == k && m[k] == NewApp(a) {
      var i :| 0 <= i < |built| && built[i] == m[k];
      assert raws[i] in raws;
    }
    forall a | a in raws ensures a.id in m {
      var i :| 0 <= i < |raws| && raws[i] == a;
      assert built[i] in built;
    }
    m
  }

  /** Of two listed apps with one id, the later is the one the catalogue keeps. */
  lemma LoadAppsLastWins(raws: seq<AppRecord>, i: nat)
    requires i < |raws| && forall j | i < j < |raws| :: raws[j].id != raws[i].id
    ensures LoadApps(raws)[raws[i].id] == NewApp(raws[i])
  {
    IndexByLastWins(BuildApps(raws), AppKey, i);
  }

  /** Each listed app built in turn. */
  function BuildApps(raws: seq<AppRecord>): (apps: seq<App>)
    ensures |apps| == |raws| && forall i | 0 <= i < |raws| :: apps[i] == NewApp(raws[i])
  {
    if raws == [] then [] else [NewApp(raws[0])] + BuildApps(raws[1..])
  }

  /**
   * What the engine relies on: every user is stored under its own id, and
   * the developer of every app is a known user.
   */
  ghost predicate WellFormed(s: StoreState) {
    && (forall u | u in s.users :: s.users[u].id == u)
    && (forall a | a in s.apps :: s.apps[a].devId in s.users)
  }

  /** Transaction ids are 1, 2, 3, ... in log order, whatever their kind. */
  ghost predicate ConsecutiveIds(log: seq<Transaction>) {
    forall i | 0 <= i < |log| :: log[i].id == i + 1
  }

  /** Appending the record numbered one past the end keeps the ids consecutive. */
  lemma AppendKeepsIdsConsecutive(log: seq<Transaction>, tx: Transaction)
    requires ConsecutiveIds(log) && tx.id == |log| + 1
    ensures ConsecutiveIds(log + [tx])
  {
  }
}
