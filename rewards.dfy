/** The reward storefront: the static catalog, the affordability rule and
    the redemption that settles a reward against the cached score, as the
    page does it (read-modify-write PUTs, errors swallowed, no retries). */
module Rewards {
  import opened Common
  import opened LedgerStore
  import Game

  /** The four reward categories; `Tag` is the string the page uses
      (and sends as the exchange `type`). */
  datatype Category = Dice | LAT | USDT | SDWH {
    function Tag(): string
    {
      match this
      case Dice => "骰子"
      case LAT => "LAT"
      case USDT => "USDT"
      case SDWH => "sDWH"
    }
  }

  datatype Reward = Reward(id: string, name: string, cost: int, amount: real, category: Category)

  /** The eight rewards the page offers. */
  const Catalog: seq<Reward> := [
    Reward("1", "Dice", 10, 1.0, Dice),
    Reward("2", "LAT", 8, 8.88, LAT),
    Reward("3", "LAT", 10, 9.99, LAT),
    Reward("4", "LAT", 15, 16.88, LAT),
    Reward("5", "LAT", 30, 26.88, LAT),
    Reward("6", "USDT", 120, 1.0, USDT),
    Reward("7", "sDWH", 200, 1.0, SDWH),
    Reward("8", "sDWH", 898, 5.0, SDWH)
  ]

  /** The catalog has eight entries with distinct ids and positive costs,
      and every Dice entry grants a whole number of plays. */
  lemma CatalogWellFormed()
    ensures |Catalog| == 8
    ensures forall i, j :: 0 <= i < j < |Catalog| ==> Catalog[i].id != Catalog[j].id
    ensures forall i :: 0 <= i < |Catalog| ==> Catalog[i].cost > 0
    ensures forall i :: 0 <= i < |Catalog| && Catalog[i].category == Dice ==>
      Catalog[i].amount == Catalog[i].amount.Floor as real
  {
  }

  /** `rewards.find(r => r.id === id)`: the first reward with that id. */
  function FindReward(rewards: seq<Reward>, id: string): (r: Option<Reward>)
    ensures r.None? <==> forall k :: 0 <= k < |rewards| ==> rewards[k].id != id
    ensures r.Some? ==> exists k :: 0 <= k < |rewards| && rewards[k] == r.value && r.value.id == id
                                    && forall j :: 0 <= j < k ==> rewards[j].id != id
  {
    if |rewards| == 0 then None
    else if rewards[0].id == id then Some(rewards[0])
    else
      var r := FindReward(rewards[1..], id);
      assert r.Some? ==> exists k :: 1 <= k < |rewards| && rewards[k] == r.value && r.value.id == id
                                     && forall j :: 0 <= j < k ==> rewards[j].id != id by {
        if r.Some? {
          var k :| 0 <= k < |rewards[1..]| && rewards[1..][k] == r.value
                   && forall j :: 0 <= j < k ==> rewards[1..][j].id != id;
          assert rewards[k + 1] == r.value;
          assert forall j :: 1 <= j < k + 1 ==> rewards[j].id == rewards[1..][j - 1].id;
        }
      }
      r
  }

  /** Every catalog entry is found by its own id (the ids are distinct,
      so the first match is that entry). */
  lemma FindInCatalog(k: int)
    requires 0 <= k < |Catalog|
    ensures FindReward(Catalog, Catalog[k].id) == Some(Catalog[k])
  {
    CatalogWellFormed();
    var r := FindReward(Catalog, Catalog[k].id);
    var i :| 0 <= i < |Catalog| && Catalog[i] == r.value && forall j :: 0 <= j < i ==> Catalog[j].id != Catalog[k].id;
    assert i == k;
  }

  /** Whether the cached score covers a reward's cost: the page's guard. */
  predicate CanAfford(score: int, reward: Reward)
  {
    !(score < reward.cost)
  }

  /** `disabled={userScore < reward.cost}` on the redeem button. */
  function ButtonDisabled(score: int, reward: Reward): (disabled: bool)
    ensures disabled <==> !CanAfford(score, reward)
    ensures !disabled ==> score - reward.cost >= 0
  {
    score < reward.cost
  }

  // ---------------------------------------------------------------------
  // What the helpers read before they write
  // ---------------------------------------------------------------------

  /** `value || 0`: a falsy `sDWH` (absent, 0 or "") becomes the number 0. */
  function OrZero(v: Sdwh): Sdwh
  {
    match v
    case Missing => Number(0.0)
    case Number(x) => v
    case Text(t) => if t == "" then Number(0.0) else v
  }

  /** `parseFloat` of the field: a number is itself, absent is NaN, and a
      string is whatever `parseText` makes of it (`None` for NaN). */
  function ParseFloat(v: Sdwh, parseText: string -> Option<real>): Option<real>
  {
    match v
    case Missing => None
    case Number(x) => Some(x)
    case Text(t) => parseText(t)
  }

  /** The value `updateUserSDFW` starts from, read from a GET answer:
      `parseFloat(data?.data?.sDWH || 0)`. */
  function CurrentSdwh(r: Reply, parseText: string -> Option<real>): Option<real>
  {
    ParseFloat(OrZero(if r.Answered? && r.data.Some? then r.data.value.sdwh else Missing), parseText)
  }

  /** The value `updateRemainingTimes` starts from: `data?.data?.RemainingTimes || 0`. */
  function CurrentRemainingTimes(r: Reply): int
  {
    if r.Answered? && r.data.Some? then r.data.value.remainingTimes else 0
  }

  /** The sDWH write is skipped exactly when the stored field is a
      non-empty string that does not parse; an absent record, an absent
      field and every number read as a value. */
  lemma SdwhParseFails(records: map<string, Account>, address: string, parseText: string -> Option<real>)
    ensures CurrentSdwh(Serve(records, address, true), parseText).None?
        <==> address in records && records[address].sdwh.Text? && records[address].sdwh.text != ""
             && parseText(records[address].sdwh.text).None?
    ensures address !in records ==> CurrentSdwh(Serve(records, address, true), parseText) == Some(0.0)
  {
  }

  // ---------------------------------------------------------------------
  // The four helpers
  // ---------------------------------------------------------------------

  /** `exchangeReward`: POST `{address, type, amount}` to the rail. */
  method ExchangeReward(ledger: Ledger, address: string, reward: Reward, railAccepted: bool)
    returns (ok: bool)
    modifies ledger
    ensures ok == railAccepted
    ensures ledger.records == old(ledger.records)
    ensures ledger.sent == old(ledger.sent) + [PostExchange(address, reward.category.Tag(), reward.amount)]
  {
    ok := ledger.Exchange(address, reward.category.Tag(), reward.amount, railAccepted);
  }

  /** `updateRemainingTimes`: GET the record, then PUT `{address,
      RemainingTimes}` with the stored value (or 0) plus `added`. A failed
      GET ends the helper before the PUT; a refused PUT is swallowed. */
  method UpdateRemainingTimes(ledger: Ledger, address: string, added: int, readOk: bool, putAccepted: bool)
    modifies ledger
    ensures !readOk ==> ledger.records == old(ledger.records) && ledger.sent == old(ledger.sent)
    ensures readOk ==>
      var body := RemainingTimesPatch(CurrentRemainingTimes(Serve(old(ledger.records), address, true)) + added);
      && ledger.records == Updated(old(ledger.records), address, body, putAccepted)
      && ledger.sent == old(ledger.sent) + [PutUser(address, body)]
  {
    var reply := ledger.Get(address, readOk);
    if reply.Thrown? {
      return;
    }
    var updated := CurrentRemainingTimes(reply) + added;
    var _ := ledger.Put(address, RemainingTimesPatch(updated), putAccepted);
  }

  /** `updateUserScore`: PUT `{address, points}` with an absolute value. */
  method UpdateUserScore(ledger: Ledger, address: string, newScore: int, putAccepted: bool)
    modifies ledger
    ensures ledger.records == Updated(old(ledger.records), address, PointsPatch(newScore), putAccepted)
    ensures ledger.sent == old(ledger.sent) + [PutUser(address, PointsPatch(newScore))]
  {
    var _ := ledger.Put(address, PointsPatch(newScore), putAccepted);
  }

  /** `updateUserSDFW`: GET the record, parse its `sDWH` (or 0), then PUT
      `{address, sDWH}` with the parsed value plus `added`. A failed GET or
      a value that does not parse ends the helper before the PUT. */
  method UpdateUserSdwh(ledger: Ledger, address: string, added: real, readOk: bool,
                        parseText: string -> Option<real>, putAccepted: bool)
    modifies ledger
    ensures var current := CurrentSdwh(Serve(old(ledger.records), address, true), parseText);
      if readOk && current.Some? then
        && ledger.records == Updated(old(ledger.records), address, SdwhPatch(current.value + added), putAccepted)
        && ledger.sent == old(ledger.sent) + [PutUser(address, SdwhPatch(current.value + added))]
      else
        ledger.records == old(ledger.records) && ledger.sent == old(ledger.sent)
  {
    var reply := ledger.Get(address, readOk);
    if reply.Thrown? {
      return;
    }
    var current := CurrentSdwh(reply, parseText);
    if current.None? {
      return;
    }
    var _ := ledger.Put(address, SdwhPatch(current.value + added), putAccepted);
  }

  // ---------------------------------------------------------------------
  // The page
  // ---------------------------------------------------------------------

  /** Outcomes of the external calls one redemption may make. */
  datatype Outcomes = Outcomes(
    railAccepted: bool,     // the exchange answered `success`
    fieldRead: bool,        // the helper's GET gave a readable answer
    fieldAccepted: bool,    // the helper's PUT was stored
    pointsAccepted: bool)   // the points PUT was stored

  /** The rewards page: the connected wallet, the cached score and the
      reward list it shows. */
  class RewardsPage {
    var walletAddress: Option<string>
    var userScore: int
    var rewards: seq<Reward>
    const ledger: Ledger

    /** The reward list is empty until the effect installs the catalog. */
    ghost predicate Valid()
      reads this
    {
      rewards == [] || rewards == Catalog
    }

    constructor (ledger: Ledger, wallet: Option<string>)
      ensures Valid()
      ensures walletAddress == wallet && userScore == 0 && rewards == [] && this.ledger == ledger
    {
      walletAddress := wallet;
      userScore := 0;
      rewards := [];
      this.ledger := ledger;
    }

    /** The page's effect: with a connected wallet, cache the score read
        from the store (0 on failure); in every case install the catalog. */
    method Load(delivered: bool)
      modifies this`userScore, this`rewards
      ensures Valid() && rewards == Catalog
      ensures userScore == if IsTruthy(walletAddress)
        then Game.FetchUserScore(Serve(ledger.records, walletAddress.value, delivered))
        else old(userScore)
    {
      if IsTruthy(walletAddress) {
        var reply := ledger.Get(walletAddress.value, delivered);
        userScore := Game.FetchUserScore(reply);
      }
      rewards := Catalog;
    }

    /** Whether `handleRedemption(rewardId)` returns before any request:
        no wallet, an unknown id, or a cached score below the cost. */
    ghost predicate Declines(rewardId: string)
      reads this
    {
      !IsTruthy(walletAddress) || FindReward(rewards, rewardId).None?
      || !CanAfford(userScore, FindReward(rewards, rewardId).value)
    }

    /** `handleRedemption`. The new points value is the cached score minus
        the cost, written as an absolute value after the category's own
        step; only a refused exchange stops it. */
    method HandleRedemption(rewardId: string, o: Outcomes, parseText: string -> Option<real>)
      modifies this`userScore, ledger
      ensures old(Declines(rewardId)) ==>
        && ledger.records == old(ledger.records) && ledger.sent == old(ledger.sent)
        && userScore == old(userScore)
      ensures !old(Declines(rewardId)) ==>
        var address := walletAddress.value;
        var reward := FindReward(rewards, rewardId).value;
        var newScore := old(userScore) - reward.cost;
        var debit := PutUser(address, PointsPatch(newScore));
        && newScore >= 0
        && (reward.category == LAT || reward.category == USDT ==>
              var pay := PostExchange(address, reward.category.Tag(), reward.amount);
              && ledger.sent == old(ledger.sent) + [pay] + (if o.railAccepted then [debit] else [])
              && ledger.records == Updated(old(ledger.records), address, PointsPatch(newScore),
                                           o.railAccepted && o.pointsAccepted)
              && userScore == if o.railAccepted then newScore else old(userScore))
        && (reward.category == Dice ==>
              var body := RemainingTimesPatch(
                CurrentRemainingTimes(Serve(old(ledger.records), address, true)) + reward.amount.Floor);
              && ledger.sent == old(ledger.sent) + (if o.fieldRead then [PutUser(address, body)] else []) + [debit]
              && ledger.records == Updated(Updated(old(ledger.records), address, body, o.fieldRead && o.fieldAccepted),
                                           address, PointsPatch(newScore), o.pointsAccepted)
              && userScore == newScore)
        && (reward.category == SDWH ==>
              var current := CurrentSdwh(Serve(old(ledger.records), address, true), parseText);
              var writes := o.fieldRead && current.Some?;
              var body := SdwhPatch(if current.Some? then current.value + reward.amount else 0.0);
              && ledger.sent == old(ledger.sent) + (if writes then [PutUser(address, body)] else []) + [debit]
              && ledger.records == Updated(Updated(old(ledger.records), address, body, writes && o.fieldAccepted),
                                           address, PointsPatch(newScore), o.pointsAccepted)
              && userScore == newScore)
    {
      if !IsTruthy(walletAddress) {
        return;
      }
      var address := walletAddress.value;
      var found := FindReward(rewards, rewardId);
      if found.None? {
        return;
      }
      var reward := found.value;
      if userScore < reward.cost {
        return;
      }
      var newScore := userScore - reward.cost;
      match reward.category {
        case LAT | USDT =>
          var exchanged := ExchangeReward(ledger, address, reward, o.railAccepted);
          if !exchanged {
            return;
          }
          UpdateUserScore(ledger, address, newScore, o.pointsAccepted);
          userScore := newScore;
        case Dice =>
          UpdateRemainingTimes(ledger, address, reward.amount.Floor, o.fieldRead, o.fieldAccepted);
          UpdateUserScore(ledger, address, newScore, o.pointsAccepted);
          userScore := newScore;
        case SDWH =>
          UpdateUserSdwh(ledger, address, reward.amount, o.fieldRead, parseText, o.fieldAccepted);
          UpdateUserScore(ledger, address, newScore, o.pointsAccepted);
          userScore := newScore;
      }
    }
  }

  /** On a page in a valid state, a Dice reward that `handleRedemption`
      finds grants a whole number of plays, so adding `amount.Floor` to
      `RemainingTimes` adds exactly the reward's amount. */
  lemma DiceAmountExact(p: RewardsPage, rewardId: string)
    requires p.Valid()
    ensures var found := FindReward(p.rewards, rewardId);
      found.Some? && found.value.category == Dice ==> found.value.amount == found.value.amount.Floor as real
  {
    CatalogWellFormed();
  }

  /** The button and the handler agree: on the catalog page with a wallet
      connected, a reward's redeem button is disabled exactly when
      `handleRedemption` of its id would return before sending anything. */
  lemma ButtonMatchesHandler(p: RewardsPage, k: int)
    requires p.rewards == Catalog && IsTruthy(p.walletAddress) && 0 <= k < |Catalog|
    ensures ButtonDisabled(p.userScore, Catalog[k]) <==> p.Declines(Catalog[k].id)
  {
    FindInCatalog(k);
  }
}
