/** The bookkeeping of the game page: the zero-defaulting reads of the
    user record, the remaining-plays display and the login-date write. */
module Game {
  import opened Common
  import opened LedgerStore

  // ---------------------------------------------------------------------
  // Reads that default to zero
  // ---------------------------------------------------------------------

  /** Whether the page accepts a GET answer: `data.success && data.data`
      (the HTTP status is not looked at). */
  predicate Usable(r: Reply)
  {
    r.Answered? && r.success && r.data.Some?
  }

  /** `fetchUserScore`: the stored `points`, or 0 when the answer is not
      usable or the request threw. */
  function FetchUserScore(r: Reply): (points: int)
    ensures Usable(r) ==> points == r.data.value.points
    ensures !Usable(r) ==> points == 0
  {
    if Usable(r) then r.data.value.points else 0
  }

  /** `fetchUserFreeAttempts`: the stored `freeAttemptsToday`, or 0. */
  function FetchUserFreeAttempts(r: Reply): (attempts: int)
    ensures Usable(r) ==> attempts == r.data.value.freeAttemptsToday
    ensures !Usable(r) ==> attempts == 0
  {
    if Usable(r) then r.data.value.freeAttemptsToday else 0
  }

  /** The remaining-plays figure after one `getRemainingTimes`: the stored
      `RemainingTimes` plus the free attempts the page held when the effect
      started; an unusable answer leaves the figure as it was. */
  function RemainingTimesShown(r: Reply, freeAttempts: int, shown: int): (next: int)
    ensures Usable(r) ==> next - freeAttempts == r.data.value.remainingTimes
    ensures !Usable(r) ==> next == shown
  {
    if Usable(r) then r.data.value.remainingTimes + freeAttempts else shown
  }

  /** Against the store, the two reads give the stored fields exactly when
      the GET was delivered and the record exists, and 0 in every other case. */
  lemma ReadsOfStore(records: map<string, Account>, address: string, delivered: bool)
    ensures FetchUserScore(Serve(records, address, delivered))
         == (if delivered && address in records then records[address].points else 0)
    ensures FetchUserFreeAttempts(Serve(records, address, delivered))
         == (if delivered && address in records then records[address].freeAttemptsToday else 0)
  {
  }

  /** Against the store, the remaining-plays figure is the stored
      `RemainingTimes` plus the page's free attempts exactly when the GET was
      delivered and the record exists; otherwise the figure is kept. */
  lemma RemainingTimesOfStore(records: map<string, Account>, address: string, delivered: bool,
                              freeAttempts: int, shown: int)
    ensures RemainingTimesShown(Serve(records, address, delivered), freeAttempts, shown)
         == if delivered && address in records then records[address].remainingTimes + freeAttempts else shown
  {
  }

  // ---------------------------------------------------------------------
  // The date written as `lastResetDate`
  // ---------------------------------------------------------------------

  /** A UTC instant as `Date.prototype.toISOString` breaks it down
      (month and day count from 1). */
  datatype DateTime = DateTime(
    year: int, month: nat, day: nat,
    hour: nat, minute: nat, second: nat, millisecond: nat)

  /** The field ranges of an instant `toISOString` can write (years of
      the ECMAScript time range, section 21.4.1.1 of ECMA-262). */
  predicate ValidDateTime(t: DateTime)
  {
    -271821 <= t.year <= 275760 && 1 <= t.month <= 12 && 1 <= t.day <= 31
    && t.hour < 24 && t.minute < 60 && t.second < 60 && t.millisecond < 1000
  }

  predicate IsDigit(c: char)
  {
    '0' <= c <= '9'
  }

  function DigitChar(d: nat): (c: char)
    requires d < 10
    ensures IsDigit(c)
  {
    (48 + d) as char
  }

  /** The last `width` decimal digits of `n`, zero-padded on the left. */
  function Digits(n: nat, width: nat): (s: string)
    ensures |s| == width
    ensures forall i :: 0 <= i < |s| ==> IsDigit(s[i])
  {
    if width == 0 then "" else Digits(n / 10, width - 1) + [DigitChar(n % 10)]
  }

  function Abs(y: int): nat
  {
    if y < 0 then -y else y
  }

  /** The year as `toISOString` writes it: four digits for 0000-9999,
      otherwise a sign and six digits. */
  function YearText(y: int): string
  {
    if 0 <= y <= 9999 then Digits(y, 4)
    else (if y < 0 then "-" else "+") + Digits(Abs(y), 6)
  }

  /** The calendar date in the extended format of ISO 8601:2004, section
      4.1.2.2 (`YYYY-MM-DD`). */
  function CalendarDate(t: DateTime): string
  {
    YearText(t.year) + "-" + Digits(t.month, 2) + "-" + Digits(t.day, 2)
  }

  /** `toISOString()`: `YYYY-MM-DDTHH:mm:ss.sssZ`. */
  function ToIsoString(t: DateTime): string
  {
    CalendarDate(t) + "T" + Digits(t.hour, 2) + ":" + Digits(t.minute, 2) + ":"
      + Digits(t.second, 2) + "." + Digits(t.millisecond, 3) + "Z"
  }

  /** `s.split("T")[0]`: the text before the first `T`, or all of `s`. */
  function DatePart(s: string): (d: string)
    ensures |d| <= |s| && d == s[..|d|]
    ensures 'T' !in d
    ensures |d| < |s| ==> s[|d|] == 'T'
  {
    if s == [] then []
    else if s[0] == 'T' then []
    else [s[0]] + DatePart(s[1..])
  }

  /** Splitting at the first `T` gives back the text before a `T` that
      does not itself contain one. */
  lemma {:induction false} DatePartOfJoin(a: string, b: string)
    requires 'T' !in a
    ensures DatePart(a + "T" + b) == a
  {
    if a != [] {
      assert (a + "T" + b)[1..] == a[1..] + "T" + b;
      DatePartOfJoin(a[1..], b);
    } else {
      assert (a + "T" + b) == "T" + b;
    }
  }

  lemma YearTextShape(y: int)
    ensures 'T' !in YearText(y)
    ensures |YearText(y)| == if 0 <= y <= 9999 then 4 else 7
    ensures 0 <= y <= 9999 ==> forall i :: 0 <= i < 4 ==> IsDigit(YearText(y)[i])
  {
    var s := YearText(y);
    if 0 <= y <= 9999 {
      assert forall i :: 0 <= i < |s| ==> IsDigit(s[i]);
    } else {
      var sign := if y < 0 then "-" else "+";
      var ds := Digits(Abs(y), 6);
      assert s == sign + ds;
      assert forall i :: 1 <= i < |s| ==> s[i] == ds[i - 1];
    }
  }

  /** The written `lastResetDate` is the calendar date of the instant:
      it contains no `T`, and for the years 0000-9999 it is ten characters
      of the form `YYYY-MM-DD` (digits with dashes at positions 4 and 7). */
  lemma LoginDateIsCalendarDate(t: DateTime)
    ensures DatePart(ToIsoString(t)) == CalendarDate(t)
    ensures 'T' !in CalendarDate(t)
    ensures |CalendarDate(t)| == if 0 <= t.year <= 9999 then 10 else 13
    ensures 0 <= t.year <= 9999 ==>
      var d := CalendarDate(t);
      d[4] == '-' && d[7] == '-' &&
      forall i :: 0 <= i < 10 && i != 4 && i != 7 ==> IsDigit(d[i])
  {
    var y := YearText(t.year);
    var m := Digits(t.month, 2);
    var dd := Digits(t.day, 2);
    var d := CalendarDate(t);
    YearTextShape(t.year);
    assert d == y + "-" + m + "-" + dd;
    assert forall i :: 0 <= i < |y| ==> d[i] == y[i];
    assert d[|y|] == '-';
    assert forall i :: 0 <= i < 2 ==> d[|y| + 1 + i] == m[i];
    assert d[|y| + 3] == '-';
    assert forall i :: 0 <= i < 2 ==> d[|y| + 4 + i] == dd[i];
    assert forall i :: 0 <= i < |d| ==> d[i] != 'T';
    var rest := Digits(t.hour, 2) + ":" + Digits(t.minute, 2) + ":"
      + Digits(t.second, 2) + "." + Digits(t.millisecond, 3) + "Z";
    assert ToIsoString(t) == d + "T" + rest;
    DatePartOfJoin(d, rest);
  }

  /** Two instants of the same UTC day write the same `lastResetDate`. */
  lemma SameDaySameDate(t1: DateTime, t2: DateTime)
    requires t1.year == t2.year && t1.month == t2.month && t1.day == t2.day
    ensures DatePart(ToIsoString(t1)) == DatePart(ToIsoString(t2))
  {
    LoginDateIsCalendarDate(t1);
    LoginDateIsCalendarDate(t2);
  }

  /** The body of the login PUT, for the instant `now`. */
  function LoginPatch(now: DateTime): Patch
  {
    LastResetDatePatch(DatePart(ToIsoString(now)))
  }

  /** The login PUT changes `lastResetDate` and nothing else: the points,
      the free attempts, the purchased plays and every other record keep
      their values, whether or not the server stores it. */
  lemma LoginWriteTouchesOnlyDate(records: map<string, Account>, address: string, now: DateTime, accepted: bool)
    requires address in records
    ensures Updated(records, address, LoginPatch(now), accepted)[address]
         == records[address].(lastResetDate :=
              if accepted then Some(CalendarDate(now)) else records[address].lastResetDate)
  {
    LoginDateIsCalendarDate(now);
  }

  /** Repeating the login write on the same UTC day leaves the store as
      one stored write would. */
  lemma LoginWriteSameDayIdempotent(records: map<string, Account>, address: string,
                                    t1: DateTime, t2: DateTime, first: bool, second: bool)
    requires t1.year == t2.year && t1.month == t2.month && t1.day == t2.day
    ensures Updated(Updated(records, address, LoginPatch(t1), first), address, LoginPatch(t2), second)
         == Updated(records, address, LoginPatch(t1), first || second)
  {
    SameDaySameDate(t1, t2);
    UpdatedTwice(records, address, LoginPatch(t1), first, second);
  }

  /** The login write is invisible to the three reads of the page, so the
      order in which the four requests of the effect complete does not
      change what the page shows. */
  lemma LoginWriteInvisibleToReads(records: map<string, Account>, address: string, now: DateTime,
                                   accepted: bool, delivered: bool, freeAttempts: int, shown: int)
    ensures var after := Updated(records, address, LoginPatch(now), accepted);
      && FetchUserScore(Serve(after, address, delivered)) == FetchUserScore(Serve(records, address, delivered))
      && FetchUserFreeAttempts(Serve(after, address, delivered))
         == FetchUserFreeAttempts(Serve(records, address, delivered))
      && RemainingTimesShown(Serve(after, address, delivered), freeAttempts, shown)
         == RemainingTimesShown(Serve(records, address, delivered), freeAttempts, shown)
  {
  }

  /** The effect settles on the promised figure. The first run stores the
      free attempts it read; that change of `freeAttemptsToday` starts the
      effect again, and in the second run, whatever the login write of the
      first run did, the free attempts read back the same and the figure
      shown is the stored `RemainingTimes` plus those free attempts. */
  lemma RefreshSettles(records: map<string, Account>, address: string, now: DateTime,
                       accepted: bool, shown: int)
    requires address in records
    ensures var free := FetchUserFreeAttempts(Serve(records, address, true));
      var after := Updated(records, address, LastResetDatePatch(CalendarDate(now)), accepted);
      && FetchUserFreeAttempts(Serve(after, address, true)) == free
      && RemainingTimesShown(Serve(after, address, true), free, shown) == records[address].remainingTimes + free
  {
  }

  /** `updateUserLastLoginTime`: PUT `{address, lastResetDate}` with the
      date part of the current instant; every failure is swallowed. */
  method UpdateUserLastLoginTime(ledger: Ledger, address: string, now: DateTime, accepted: bool)
    requires ValidDateTime(now)
    modifies ledger
    ensures ledger.records == Updated(old(ledger.records), address, LastResetDatePatch(CalendarDate(now)), accepted)
    ensures ledger.sent == old(ledger.sent) + [PutUser(address, LastResetDatePatch(CalendarDate(now)))]
  {
    var currentDate := DatePart(ToIsoString(now));
    LoginDateIsCalendarDate(now);
    var _ := ledger.Put(address, LastResetDatePatch(currentDate), accepted);
  }

  // ---------------------------------------------------------------------
  // The page
  // ---------------------------------------------------------------------

  /** The state the game page keeps: the score, today's free attempts and
      the remaining-plays figure it shows. */
  class GamePage {
    var score: int
    var freeAttemptsToday: int
    var remainingTimes: int
    const ledger: Ledger

    constructor (ledger: Ledger)
      ensures score == 0 && freeAttemptsToday == 0 && remainingTimes == 0
      ensures this.ledger == ledger
    {
      score := 0;
      freeAttemptsToday := 0;
      remainingTimes := 0;
      this.ledger := ledger;
    }

    /** One run of the page's effect for the connected wallet: the three
        reads and the login-date write, taken one after the other. The
        remaining-plays figure adds the free attempts the page held when
        the run started (the effect runs again once they change). */
    method Refresh(wallet: Option<string>, scoreRead: bool, freeRead: bool, remainingRead: bool,
                   now: DateTime, loginAccepted: bool)
      requires ValidDateTime(now)
      modifies this, ledger
      ensures !IsTruthy(wallet) ==>
        && score == old(score) && freeAttemptsToday == old(freeAttemptsToday)
        && remainingTimes == old(remainingTimes)
        && ledger.records == old(ledger.records) && ledger.sent == old(ledger.sent)
      ensures IsTruthy(wallet) ==>
        var address := wallet.value;
        && score == FetchUserScore(Serve(old(ledger.records), address, scoreRead))
        && freeAttemptsToday == FetchUserFreeAttempts(Serve(old(ledger.records), address, freeRead))
        && remainingTimes == RemainingTimesShown(Serve(old(ledger.records), address, remainingRead),
                                                 old(freeAttemptsToday), old(remainingTimes))
        && ledger.records == Updated(old(ledger.records), address, LastResetDatePatch(CalendarDate(now)), loginAccepted)
        && ledger.sent == old(ledger.sent) + [PutUser(address, LastResetDatePatch(CalendarDate(now)))]
    {
      if !IsTruthy(wallet) {
        return;
      }
      var address := wallet.value;
      var captured := freeAttemptsToday;
      var r1 := ledger.Get(address, scoreRead);
      score := FetchUserScore(r1);
      var r2 := ledger.Get(address, freeRead);
      freeAttemptsToday := FetchUserFreeAttempts(r2);
      var r3 := ledger.Get(address, remainingRead);
      remainingTimes := RemainingTimesShown(r3, captured, remainingTimes);
      UpdateUserLastLoginTime(ledger, address, now, loginAccepted);
    }
  }
}
