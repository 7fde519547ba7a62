/**
 * The store's test scenarios, stated on a concrete snapshot: a store with
 * 1.00 of its own, a 25% commission; an app whose developer takes 75% and
 * whose two items cost 1.00; a buyer with 10.00 and one with 0.50.
 * The snapshot file the tests load is not part of this model: the snapshot
 * here is rebuilt from what the tests assert about it.
 */
module Scenarios {
  import opened Wrappers
  import opened Model
  import opened Engine

  /**
   * The items' currency exactly as tests.py:22 asserts it, `"â‚¬"` (the
   * euro sign's UTF-8 bytes read as Windows-1252), not the `"€"` that
   * REWARD records carry.
   */
  const ITEM_CURRENCY: string := "â‚¬"

  function Snapshot(buyerHistory: seq<Purchase>): (s: StoreState)
    ensures WellFormed(s)
  {
    StoreState(
      "store1", 100, DEFAULT_STORE_COMMISSION,
      map["app1" := App("app1", "dev1",
                        map["item1" := Item("item1", ITEM_CURRENCY, 100), "item2" := Item("item2", ITEM_CURRENCY, 100)],
                        DEFAULT_APP_COMMISSION)],
      map["user1" := User("user1", 1000, buyerHistory),
          "user2" := User("user2", 50, []),
          "dev1" := User("dev1", 0, [])],
      [])
  }

  /** A first purchase pays 0.75 to the developer and 0.25 to the store, and earns no reward. */
  lemma FirstPurchaseSplitsThePrice()
    ensures var (after, result) := PurchaseSpec(Snapshot([]), "app1", "item1", "user1");
      && result.Success?
      && result.value.txType == PURCHASE && result.value.id == 1
      && result.value.appId == "app1" && result.value.itemId == "item1"
      && result.value.currency == ITEM_CURRENCY && result.value.amount == 100 && result.value.sender == "user1"
      && result.value.receivers == map["store1" := 25, "dev1" := 75]
      && after.storeBalance == 125
      && after.users["dev1"].balance == 75
      && after.users["user1"].balance == 900
      && after.transactions == [result.value]
  {
  }

  /** A buyer with 0.50 cannot buy a 1.00 item; nothing changes. */
  lemma ShortBuyerIsTurnedDown()
    ensures var (after, result) := PurchaseSpec(Snapshot([]), "app1", "item2", "user2");
      && result == Failure(InsufficientBalance("user2"))
      && after.users["user2"].balance == 50
      && after == Snapshot([])
  {
  }

  /**
   * The reward tiers on one store in turn: two recorded purchases of the app
   * earn 5% of 1.00, eleven earn 10%, and a history cut back to a single
   * purchase earns nothing and changes nothing.
   */
  lemma RewardTiersInTurn()
    ensures var p := Purchase("app1", "item1", 100);
      var (s1, r1) := RewardSpec(Snapshot(Repeat(p, 2)), "user1", "app1", 100);
      var (s2, r2) := RewardSpec(s1.(users := s1.users["user1" := s1.users["user1"].(purchases := Repeat(p, 11))]),
                                 "user1", "app1", 100);
      var s3 := s2.(users := s2.users["user1" := s2.users["user1"].(purchases := [p])]);
      && r1.Some? && r1.value.txType == REWARD && r1.value.amount == 5
      && s1.storeBalance == 95 && s1.users["user1"].balance == 1005
      && r2.Some? && r2.value.txType == REWARD && r2.value.amount == 10
      && s2.storeBalance == 85 && s2.users["user1"].balance == 1015
      && RewardSpec(s3, "user1", "app1", 100) == (s3, None)
      && s3.storeBalance == 85 && s3.users["user1"].balance == 1015
  {
    var p := Purchase("app1", "item1", 100);
    CountRepeat(p, 2);
    CountRepeat(p, 11);
  }

  /** A history of `n` purchases of one app counts `n` for that app. */
  lemma {:induction false} CountRepeat(p: Purchase, n: nat)
    ensures Count(Repeat(p, n), p.appId) == n
  {
    if n > 0 {
      assert Repeat(p, n)[1..] == Repeat(p, n - 1);
      CountRepeat(p, n - 1);
    }
  }

  function Repeat(p: Purchase, n: nat): (ps: seq<Purchase>)
    ensures |ps| == n && forall i | 0 <= i < n :: ps[i] == p
  {
    if n == 0 then [] else [p] + Repeat(p, n - 1)
  }
}
