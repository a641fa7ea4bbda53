/** The remote user store behind `/api/users` and the exchange endpoint
    `/api/exchange`, as the pages see them: a GET is a lookup, a PUT
    overwrites the fields named in its body, a POST inserts a record.
    Whether a request reaches the server and is stored is decided outside
    the client, so every operation takes that outcome as a parameter. */
module LedgerStore {
  import opened Common

  /** The `sDWH` field of a stored record: absent (records created by the
      home page do not have it), a JSON number, or a JSON string. */
  datatype Sdwh = Missing | Number(value: real) | Text(text: string)

  /** One stored user record. The JSON names are `points`, `completed_steps`,
      `freeAttemptsToday`, `lastResetDate` (a date string or `null`),
      `RemainingTimes` and `sDWH`. */
  datatype Account = Account(
    address: string,
    points: int,
    completedSteps: int,
    freeAttemptsToday: int,
    lastResetDate: Option<string>,
    remainingTimes: int,
    sdwh: Sdwh)

  /** The fields a PUT body names besides `address`; `None` means that the
      field is not in the body. */
  datatype Patch = Patch(
    points: Option<int>,
    remainingTimes: Option<int>,
    sdwh: Option<real>,
    lastResetDate: Option<string>)

  function PointsPatch(v: int): Patch { Patch(Some(v), None, None, None) }
  function RemainingTimesPatch(v: int): Patch { Patch(None, Some(v), None, None) }
  function SdwhPatch(v: real): Patch { Patch(None, None, Some(v), None) }
  function LastResetDatePatch(d: string): Patch { Patch(None, None, None, Some(d)) }

  /** A record after the store applied a PUT body: the named fields are
      replaced, every other field is kept. */
  function Apply(a: Account, p: Patch): Account
  {
    a.(points := if p.points.Some? then p.points.value else a.points,
       remainingTimes := if p.remainingTimes.Some? then p.remainingTimes.value else a.remainingTimes,
       sdwh := if p.sdwh.Some? then Number(p.sdwh.value) else a.sdwh,
       lastResetDate := if p.lastResetDate.Some? then Some(p.lastResetDate.value) else a.lastResetDate)
  }

  /** What a `fetch` of `GET /users/{address}` gives the page once
      `response.json()` is done: `Thrown` when the request or the body
      failed, otherwise the HTTP status flag and the JSON envelope
      `{success, data}`. */
  datatype Reply = Thrown | Answered(statusOk: bool, success: bool, data: Option<Account>)

  /** The store's answer to `GET /users/{address}`: the record with
      `success` when it holds one, and a not-found answer otherwise;
      `delivered` false stands for a network failure. */
  function Serve(records: map<string, Account>, address: string, delivered: bool): Reply
  {
    if !delivered then Thrown
    else if address in records then Answered(true, true, Some(records[address]))
    else Answered(false, false, None)
  }

  /** The store after `PUT /users/{address}` with `body`: only an existing
      record can be updated, and only when the server stores the request. */
  function Updated(records: map<string, Account>, address: string, body: Patch, accepted: bool)
    : (r: map<string, Account>)
    ensures r.Keys == records.Keys
    ensures forall other :: other in records && other != address ==> r[other] == records[other]
    ensures address in records ==>
      r[address] == if accepted then Apply(records[address], body) else records[address]
  {
    if accepted && address in records then records[address := Apply(records[address], body)]
    else records
  }

  /** The store after `POST /users` with `record`: the address is a unique
      key, so a record is added only for an address the store lacks. */
  function Inserted(records: map<string, Account>, record: Account, accepted: bool)
    : (r: map<string, Account>)
    ensures record.address in records ==> r == records
    ensures r.Keys == if accepted then records.Keys + {record.address} else records.Keys
    ensures accepted && record.address !in records ==> r[record.address] == record
    ensures forall k :: k in records ==> r[k] == records[k]
  {
    if accepted && record.address !in records then records[record.address := record]
    else records
  }

  /** Every record is stored under its own address. */
  predicate KeyedByAddress(records: map<string, Account>)
  {
    forall k :: k in records ==> records[k].address == k
  }

  /** The pages' writes keep every record under its own address: a PUT
      never changes the `address` field, and a POST keys the record by it. */
  lemma WritesKeepKeys(records: map<string, Account>, address: string, body: Patch,
                       record: Account, accepted: bool)
    requires KeyedByAddress(records)
    ensures KeyedByAddress(Updated(records, address, body, accepted))
    ensures KeyedByAddress(Inserted(records, record, accepted))
  {
  }

  /** A request that asks the backend to change something. */
  datatype Request =
    | PutUser(address: string, body: Patch)
    | PostUser(record: Account)
    | PostExchange(address: string, kind: string, amount: real)

  /** Sending the same PUT body twice leaves the store as one stored copy
      of it would: a PUT overwrites, it does not accumulate. */
  lemma UpdatedTwice(records: map<string, Account>, address: string, body: Patch, first: bool, second: bool)
    ensures Updated(Updated(records, address, body, first), address, body, second)
         == Updated(records, address, body, first || second)
  {
    if address in records {
      var a := records[address];
      assert Apply(Apply(a, body), body) == Apply(a, body);
    }
  }

  /** Each of the page's PUT bodies changes its one named field of the
      target record, and only when the server stores it. */
  lemma SingleFieldPuts(records: map<string, Account>, address: string, n: int, x: real, d: string, accepted: bool)
    requires address in records
    ensures var a := records[address];
      Updated(records, address, PointsPatch(n), accepted)[address]
        == a.(points := if accepted then n else a.points)
    ensures var a := records[address];
      Updated(records, address, RemainingTimesPatch(n), accepted)[address]
        == a.(remainingTimes := if accepted then n else a.remainingTimes)
    ensures var a := records[address];
      Updated(records, address, SdwhPatch(x), accepted)[address]
        == a.(sdwh := if accepted then Number(x) else a.sdwh)
    ensures var a := records[address];
      Updated(records, address, LastResetDatePatch(d), accepted)[address]
        == a.(lastResetDate := if accepted then Some(d) else a.lastResetDate)
  {
  }

  /** The backend as the client sees it: the user records it holds and
      the changing requests the client has sent to it, in order. */
  class Ledger {
    var records: map<string, Account>
    var sent: seq<Request>

    constructor (initial: map<string, Account>)
      ensures records == initial && sent == []
    {
      records := initial;
      sent := [];
    }

    /** `GET /users/{address}`. */
    method Get(address: string, delivered: bool) returns (r: Reply)
      ensures r.Answered? <==> delivered
      ensures r.Answered? ==> (r.data.Some? <==> address in records)
      ensures r.Answered? && r.data.Some? ==> r.data.value == records[address] && r.success
      ensures r == Serve(records, address, delivered)
    {
      r := Serve(records, address, delivered);
    }

    /** `PUT /users/{address}`; `accepted` is whether the server stores it. */
    method Put(address: string, body: Patch, accepted: bool) returns (ok: bool)
      modifies this
      ensures ok == (accepted && address in old(records))
      ensures records == Updated(old(records), address, body, accepted)
      ensures sent == old(sent) + [PutUser(address, body)]
    {
      ok := accepted && address in records;
      records := Updated(records, address, body, accepted);
      sent := sent + [PutUser(address, body)];
    }

    /** `POST /users`; `accepted` is whether the server stores it. */
    method Post(record: Account, accepted: bool) returns (ok: bool)
      modifies this
      ensures ok == (accepted && record.address !in old(records))
      ensures records == Inserted(old(records), record, accepted)
      ensures sent == old(sent) + [PostUser(record)]
    {
      ok := accepted && record.address !in records;
      records := Inserted(records, record, accepted);
      sent := sent + [PostUser(record)];
    }

    /** `POST /exchange {address, type, amount}`: a payout on the external
        rail, which does not touch the user records; `accepted` is the
        rail's `success`. */
    method Exchange(address: string, kind: string, amount: real, accepted: bool) returns (ok: bool)
      modifies this
      ensures ok == accepted
      ensures records == old(records)
      ensures sent == old(sent) + [PostExchange(address, kind, amount)]
    {
      ok := accepted;
      sent := sent + [PostExchange(address, kind, amount)];
    }
  }
}
