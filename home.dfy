/** The home page's identity resolution: look the wallet up in the store,
    create the default record on first sight, and show the score and an
    abbreviated address. */
module Home {
  import opened Common
  import opened LedgerStore

  /** `fetchUserData`: the record when the status is ok and the envelope
      has `success` and `data`; `null` in every other case, including a
      thrown request. */
  function FetchUserData(r: Reply): (user: Option<Account>)
    ensures user.Some? <==> r.Answered? && r.statusOk && r.success && r.data.Some?
    ensures user.Some? ==> user == r.data
  {
    if r.Answered? && r.statusOk && r.success && r.data.Some? then r.data else None
  }

  /** The body `addUserToDatabase` posts for a new wallet. */
  function NewUserRecord(address: string): Account
  {
    Account(address, 0, 0, 1, None, 0, Missing)
  }

  /** A stored default record reads back through `fetchUserData` with the
      values the page assumes when it shows a score of 0: no points, no
      completed steps, one free attempt, no purchased plays, no reset date. */
  lemma NewUserReadsBack(records: map<string, Account>, address: string)
    requires address !in records
    ensures var user := FetchUserData(Serve(Inserted(records, NewUserRecord(address), true), address, true));
      && user == Some(NewUserRecord(address))
      && user.value.address == address && user.value.points == 0 && user.value.completedSteps == 0
      && user.value.freeAttemptsToday == 1 && user.value.lastResetDate == None
      && user.value.remainingTimes == 0 && user.value.sdwh == Missing
  {
  }

  /** The lookup finds a record exactly when the GET was delivered and the
      store holds one, and then finds that record. */
  lemma FetchFindsStored(records: map<string, Account>, address: string, delivered: bool)
    ensures FetchUserData(Serve(records, address, delivered))
         == if delivered && address in records then Some(records[address]) else None
  {
  }

  /** The store after one `connectMetaMask` for `address`: unchanged when
      the lookup found the record, otherwise after the POST of the default
      record. */
  function Resolved(records: map<string, Account>, address: string, readDelivered: bool, postAccepted: bool)
    : map<string, Account>
  {
    if FetchUserData(Serve(records, address, readDelivered)).Some? then records
    else Inserted(records, NewUserRecord(address), postAccepted)
  }

  /** Resolution never removes or alters a record that was there; the
      address is held afterwards when it was before or when the POST was
      stored, and a newly held address holds the default record. */
  lemma ResolvedKeepsAndCreates(records: map<string, Account>, address: string, readDelivered: bool, postAccepted: bool)
    ensures var after := Resolved(records, address, readDelivered, postAccepted);
      && (forall k :: k in records ==> k in after && after[k] == records[k])
      && (address in after <==> address in records || postAccepted)
      && (forall k :: k in after && k !in records ==> k == address && after[k] == NewUserRecord(address))
  {
  }

  /** Resolution is idempotent: once the store holds the address, a second
      connect with a delivered lookup changes nothing. */
  lemma ResolvedIdempotent(records: map<string, Account>, address: string,
                            firstRead: bool, firstPost: bool, secondPost: bool)
    requires address in Resolved(records, address, firstRead, firstPost)
    ensures var once := Resolved(records, address, firstRead, firstPost);
      Resolved(once, address, true, secondPost) == once
  {
    var once := Resolved(records, address, firstRead, firstPost);
    FetchFindsStored(once, address, true);
  }

  /** A lookup that fails for an address the store already holds is taken
      for a new wallet: the page then POSTs the default record (points 0)
      for that address, and the held record survives only because the
      store keeps the first record per address. */
  lemma LookupFailureReposts(records: map<string, Account>, address: string, postAccepted: bool)
    requires address in records
    ensures FetchUserData(Serve(records, address, false)).None?
    ensures Resolved(records, address, false, postAccepted)
         == Inserted(records, NewUserRecord(address), postAccepted)
    ensures NewUserRecord(address).points == 0
  {
  }

  /** The address as the page shows it: `slice(0, 6) + "..." + slice(-4)`. */
  function Abbreviate(address: string): (shown: string)
    ensures |shown| == Min(6, |address|) + 3 + Min(4, |address|)
    ensures shown[..Min(6, |address|)] == address[..Min(6, |address|)]
    ensures shown[Min(6, |address|)..Min(6, |address|) + 3] == "..."
    ensures shown[|shown| - Min(4, |address|)..] == address[|address| - Min(4, |address|)..]
  {
    address[..Min(6, |address|)] + "..." + address[Max(|address| - 4, 0)..]
  }

  /** For an address of ten characters or more the display keeps its first
      six and its last four characters and drops exactly the middle: the
      address is the two shown ends with the dropped middle between them. */
  lemma AbbreviateElidesMiddle(address: string)
    requires |address| >= 10
    ensures var shown := Abbreviate(address);
      && |shown| == 13
      && address == shown[..6] + address[6..|address| - 4] + shown[9..]
  {
    var shown := Abbreviate(address);
    assert shown[9..] == address[|address| - 4..];
    assert address == address[..6] + address[6..|address| - 4] + address[|address| - 4..];
  }

  /** The home page state: the connected wallet and the score it shows. */
  class HomePage {
    var walletAddress: Option<string>
    var score: int
    const ledger: Ledger

    constructor (ledger: Ledger)
      ensures walletAddress == None && score == 0 && this.ledger == ledger
    {
      walletAddress := None;
      score := 0;
      this.ledger := ledger;
    }

    /** `connectMetaMask`. `hasProvider` is whether `window.ethereum`
        exists, `account` the wallet's first account (`None` when the
        request is refused), `readDelivered` whether the lookup's fetch
        succeeded, `postAccepted` whether the server stores the POST and
        `postAnswered` whether its answer parses (otherwise the catch skips
        the score reset). */
    method ConnectMetaMask(hasProvider: bool, account: Option<string>, readDelivered: bool,
                           postAccepted: bool, postAnswered: bool)
      modifies this, ledger
      ensures !hasProvider || account.None? ==>
        && walletAddress == old(walletAddress) && score == old(score)
        && ledger.records == old(ledger.records) && ledger.sent == old(ledger.sent)
      ensures hasProvider && account.Some? ==>
        var address := account.value;
        var user := FetchUserData(Serve(old(ledger.records), address, readDelivered));
        && walletAddress == Some(address)
        && ledger.records == Resolved(old(ledger.records), address, readDelivered, postAccepted)
        && (user.Some? ==> ledger.sent == old(ledger.sent) && score == user.value.points)
        && (user.None? ==>
              && ledger.sent == old(ledger.sent) + [PostUser(NewUserRecord(address))]
              && score == if postAnswered then 0 else old(score))
    {
      if !hasProvider || account.None? {
        return;
      }
      var userAddress := account.value;
      walletAddress := Some(userAddress);
      var reply := ledger.Get(userAddress, readDelivered);
      var user := FetchUserData(reply);
      if user.Some? {
        score := user.value.points;
      } else {
        var _ := ledger.Post(NewUserRecord(userAddress), postAccepted);
        if postAnswered {
          score := 0;
        }
      }
    }
  }
}
