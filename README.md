# Reward ledger of the event pages, modelled in Dafny

This project models the client-side reward ledger of a wallet-gated event
site. The site has a jumping game, a leaderboard and a reward storefront.
The pages keep one remote record per wallet, with the fields `points`,
`RemainingTimes`, `freeAttemptsToday`, `lastResetDate`, `sDWH` and
`completed_steps`. They read and rewrite those records over REST.

What is modelled:

- **The store** (`ledger.dfy`, module `LedgerStore`). The class `Ledger`
  holds the records as `map<string, Account>` and the log `sent` of
  requests that change something, in the order the client sent them:
  the PUTs, the POSTs and the exchange calls. A GET is a lookup
  (`Serve`). A PUT overwrites the fields its body names (`Patch`,
  `Apply`, `Updated`). A POST inserts a record (`Inserted`). Whether a
  request reaches the server and is stored is an input of every
  operation. That is how the pages' real failure paths appear.
- **Redemption** (`rewards.dfy`). The catalog of eight rewards, the
  lookup by id, the affordability rule and the button rule. Then the
  four helpers and `handleRedemption`, modelled as the code does them:
  - the new points value is the cached score minus the cost, written
    as an absolute value;
  - LAT/USDT call the exchange rail first, and a refused exchange stops
    the redemption;
  - Dice and sDWH read, add and write their own field, then debit the
    points even when that field write failed or was skipped.

  There are no version tokens, no compare-and-set and no retries.
- **Identity resolution** (`home.dfy`). `fetchUserData`, the default
  record, and `connectMetaMask`'s lookup-or-create. Also the abbreviated
  address display.
- **Game-page bookkeeping** (`game.dfy`). The reads that default to 0,
  the remaining-plays figure, and the `lastResetDate` write. That date is
  the part of `toISOString()` before the first `T`. For years 0000-9999
  it is the complete calendar date in the extended format of ISO
  8601:2004, section 4.1.2.2.
- **Leaderboard ranking** (`leaderboard.dfy`). Project each user to
  (address, points), sort by points, highest first, and number the rows
  1..n. The sort is stable, as ECMA-262 (2023 edition, section 23.1.3.30)
  requires of `Array.prototype.sort`, so users with the same points keep
  server order.
- **Locale toggle** (`navbar.dfy`). A two-value switch with a persisted
  copy of the current value.

Behaviour of the code that the model keeps:

- A Dice or sDWH redemption can debit points without crediting the
  reward. This happens when the helper's GET fails, when its PUT is
  refused, or when a stored `sDWH` string does not parse. The helpers
  swallow their errors and the points PUT follows regardless.
- The cached score is set to the new value even when the points PUT is
  refused.
- Records carry no version. Every write is a plain overwrite from the
  cached or freshly read value.
- Nothing on the game page resets `freeAttemptsToday`. The
  remaining-plays figure adds the free attempts the page held when its
  effect started.

Modelling choices:

- A GET for an address the store lacks is assumed to answer with a
  non-ok status and `success` false.
- A PUT to an address the store lacks stores nothing.
- A POST for an address the store already holds stores nothing: the
  address is a unique key.
- `parseFloat` of a string `sDWH` is the parameter
  `parseText: string -> Option<real>`, with `None` standing for NaN.
  Numbers and the `|| 0` default are modelled exactly.
- Amounts are `real`. `RemainingTimes` is an `int`, so the Dice branch
  adds `amount.Floor`. `Rewards.CatalogWellFormed` proves that every
  Dice amount in the catalog is a whole number, so nothing is lost.
- The current instant is a parameter `now: DateTime`, in UTC fields. Its fields are required to lie in the ranges `toISOString` can write (`Game.ValidDateTime`).
- Records are assumed to be stored under their own address (`LedgerStore.KeyedByAddress`). The pages' writes keep that (`LedgerStore.WritesKeepKeys`).
- The two `fetchUserScore` functions, in `src/app/game/page.tsx` and
  `src/app/rewards/page.tsx`, are identical. Both pages use
  `Game.FetchUserScore`: `Rewards.RewardsPage.Load` uses it for the
  rewards page.

## Model

| member | source | states |
|---|---|---|
| `LedgerStore.Updated` | src/app/rewards/page.tsx:107-119 | A PUT keeps the set of addresses and leaves every other record as it was. The target record becomes the body applied to it, only when the server stores the request. |
| `LedgerStore.Inserted` | src/components/Home.tsx:66-83 | A POST adds the record only for an absent address and only when stored. Existing records are never changed. |
| `LedgerStore.UpdatedTwice` | src/app/game/page.tsx:66-78 | Sending the same PUT body twice leaves the store as a single stored copy would. |
| `LedgerStore.SingleFieldPuts` | src/app/rewards/page.tsx:107-187 | Each PUT body the pages send (points, RemainingTimes, sDWH, lastResetDate) changes exactly its named field of the target record, and only when stored. |
| `LedgerStore.WritesKeepKeys` | src/app/rewards/page.tsx:107-119 | If every record is stored under its own address, it still is after any PUT, since a PUT never changes the `address` field, and after any POST, since a POST keys the record by it. |
| `LedgerStore.Ledger.Get` | src/components/Home.tsx:36-38 | A GET changes nothing. A delivered GET carries the stored record exactly when the store holds the address. |
| `LedgerStore.Ledger.Put` | src/app/rewards/page.tsx:107-119 | The request is logged. The store becomes `Updated(...)`. The result says whether the record was updated. |
| `LedgerStore.Ledger.Post` | src/components/Home.tsx:67-80 | The request is logged. The store becomes `Inserted(...)`. The result says whether the record was added. |
| `LedgerStore.Ledger.Exchange` | src/app/rewards/page.tsx:64-74 | The rail request is logged and no record changes. The result is the rail's answer. |
| `Rewards.CatalogWellFormed` | src/app/rewards/page.tsx:235-244 | The catalog has 8 entries with pairwise distinct ids and positive costs. Dice amounts are whole numbers. |
| `Rewards.FindReward` | src/app/rewards/page.tsx:253 | `None` exactly when no reward has the id. Otherwise the result is the first reward with that id. |
| `Rewards.FindInCatalog` | src/app/rewards/page.tsx:235-253 | Each catalog entry is found by its own id. |
| `Rewards.DiceAmountExact` | src/app/rewards/page.tsx:282-286 | On a page whose reward list is empty or the catalog, which are the only lists the constructor and `Load` give it, a Dice reward the handler finds has a whole amount. So the `amount.Floor` the model adds is the amount the page adds. |
| `Rewards.ButtonMatchesHandler` | src/app/rewards/page.tsx:377 | On the catalog page with a wallet connected, a reward's button is disabled exactly when `handleRedemption` of its id would return before sending any request (the guards at lines 248-258). |
| `Rewards.SdwhParseFails` | src/app/rewards/page.tsx:164-169 | The sDWH value fails to parse exactly when the stored field is a non-empty string that the parse rejects. A missing record reads as 0. |
| `Rewards.ExchangeReward` | src/app/rewards/page.tsx:62-88 | Sends `{address, type, amount}` to the rail, returns the rail's answer and changes no record. |
| `Rewards.UpdateRemainingTimes` | src/app/rewards/page.tsx:91-126 | A failed GET sends nothing. Otherwise exactly one PUT is sent, holding only RemainingTimes = stored value (or 0) + added. Only that field of that record can change. |
| `Rewards.UpdateUserScore` | src/app/rewards/page.tsx:129-154 | Exactly one PUT holding only `points = newScore` is sent. Only that field can change. |
| `Rewards.UpdateUserSdwh` | src/app/rewards/page.tsx:157-197 | When the GET is delivered and the value parses, one PUT with sDWH = parsed + added is sent. Otherwise nothing is sent and nothing changes. |
| `Rewards.RewardsPage.Load` | src/app/rewards/page.tsx:224-244 | Installs the catalog and keeps the page valid (reward list empty or the catalog). With a connected wallet, caches the score read from the store, or 0 on failure. |
| `Rewards.RewardsPage.HandleRedemption` | src/app/rewards/page.tsx:247-308 | With no wallet, an unknown id or an unaffordable reward, no request is sent and nothing changes. LAT/USDT send the rail call before any write; a refused rail changes no record and keeps the cached score. Dice and sDWH send their field PUT (when reached) and then the points PUT. Every points write is cached score - cost >= 0, and the new store is stated per branch. |
| `Home.NewUserReadsBack` | src/components/Home.tsx:72-79 | A stored default record reads back as points 0, completed_steps 0, freeAttemptsToday 1, lastResetDate null, RemainingTimes 0, no sDWH. |
| `Home.FetchFindsStored` | src/components/Home.tsx:34-63 | The lookup yields the stored record exactly when the GET was delivered and the store holds the address, and null in every other case. |
| `Home.LookupFailureReposts` | src/components/Home.tsx:152-161 | A failed lookup for an address already held gives null. The page then POSTs the default record with points 0, and the store becomes `Inserted` of that record. |
| `Home.ResolvedKeepsAndCreates` | src/components/Home.tsx:152-162 | Under the unique-key store, where a POST for a held address is not stored, resolution alters no existing record. Afterwards the address is held iff it was before or the POST was stored. A new record is the default one. |
| `Home.ResolvedIdempotent` | src/components/Home.tsx:152-161 | Once the address is held, a second connect with a delivered lookup leaves the store unchanged. |
| `Home.Abbreviate` | src/components/Home.tsx:201-202 | The display is the first min(6, n) characters, then "...", then the last min(4, n) characters, and has exactly that length. |
| `Home.AbbreviateElidesMiddle` | src/components/Home.tsx:201-202 | For addresses of 10 or more characters the display has 13 characters. The address is the two shown ends with the dropped middle between them. |
| `Home.HomePage.ConnectMetaMask` | src/components/Home.tsx:141-169 | No provider or a refused account request changes nothing. A found record: no POST, store unchanged, score = record points. No record: exactly one POST of the default record, store = `Resolved`, and score 0 unless the POST threw. |
| `Game.RemainingTimesOfStore` | src/app/game/page.tsx:123-131 | Against the store, the figure is the stored RemainingTimes plus the page's free attempts when the GET is delivered and the record exists. Otherwise the old figure is kept. |
| `Game.RefreshSettles` | src/app/game/page.tsx:118-141 | The free attempts the first run stores start a second run, because they are in the effect's dependencies. Whatever that run's login write did, the free attempts read back the same, and the figure shown is the stored RemainingTimes plus them, as line 129 promises. |
| `Game.ReadsOfStore` | src/app/game/page.tsx:17-49 | Against the store, `fetchUserScore` gives the stored points and `fetchUserFreeAttempts` the stored freeAttemptsToday when the GET is delivered and the record exists, and both give 0 in every other case. |
| `Game.DatePart` | src/app/game/page.tsx:55 | The result is the prefix of the string before the first `T`. It contains no `T`. |
| `Game.LoginDateIsCalendarDate` | src/app/game/page.tsx:55 | The written date is the calendar date of the instant and contains no `T`. For years 0000-9999 it has length 10, with digits except dashes at positions 4 and 7; otherwise length 13. |
| `Game.SameDaySameDate` | src/app/game/page.tsx:55 | Two instants of the same UTC day write the same date. |
| `Game.LoginWriteTouchesOnlyDate` | src/app/game/page.tsx:73-76 | The login PUT changes only lastResetDate. Points, free attempts and RemainingTimes are untouched. |
| `Game.LoginWriteSameDayIdempotent` | src/app/game/page.tsx:55-78 | Repeating the login write on the same day gives the store one stored write would give. |
| `Game.LoginWriteInvisibleToReads` | src/app/game/page.tsx:136-139 | The login write does not change what the three reads give, so the order of the four requests does not matter. |
| `Game.UpdateUserLastLoginTime` | src/app/game/page.tsx:52-95 | For an instant within the ranges `toISOString` writes, sends exactly one PUT holding only lastResetDate = the calendar date of `now`. The store is updated accordingly. |
| `Game.GamePage.Refresh` | src/app/game/page.tsx:110-141 | Without a wallet, nothing changes. With one: score and free attempts come from the zero-defaulting reads, the remaining figure is stored RemainingTimes + the free attempts held at the start, and the login PUT is sent. |
| `Leaderboard.Project` | src/app/leaderboard/page.tsx:65-68 | One (address, points) pair per user, in server order. |
| `Leaderboard.SortDescending` | src/app/leaderboard/page.tsx:71-73 | The sorted list has the same length and non-increasing points. |
| `Leaderboard.SortPermutes` | src/app/leaderboard/page.tsx:71-73 | The sorted list is a permutation of the input. |
| `Leaderboard.SortStable` | src/app/leaderboard/page.tsx:71-73 | The users with any given points appear in server order. |
| `Leaderboard.BuildLeaderboard` | src/app/leaderboard/page.tsx:65-82 | Output length = input length. Ranks are 1..n in order. Scores do not increase. The multiset of (username, score) equals the multiset of (address, points). Equal-score rows keep input order. |
| `Leaderboard.NextLeaderboard` | src/app/leaderboard/page.tsx:63-87 | After a usable answer (`success && data`) the leaderboard has one row per user, ranks 1..n, non-increasing scores, the same (address, points) pairs as the answer, and equal-score rows in server order. Any other answer leaves the previous leaderboard unchanged. |
| `NavbarLocale.Toggle` | src/components/Navbar.tsx:32 | The result is "en" exactly when the input is "zh", and is always "zh" or "en". |
| `NavbarLocale.Label` | src/components/Navbar.tsx:60 | The label key is "english" exactly when the locale is "zh", and "chinese" otherwise. |
| `NavbarLocale.ToggleTwice` | src/components/Navbar.tsx:32 | Two toggles return to the start value exactly when it is "zh" or "en". Any other start ends on "en". |
| `NavbarLocale.LabelNamesTarget` | src/components/Navbar.tsx:32-60 | The label names the language a click switches to. |
| `NavbarLocale.Navbar.constructor` | src/components/Navbar.tsx:12 | The initial locale is "zh". |
| `NavbarLocale.Navbar.LoadSaved` | src/components/Navbar.tsx:20-28 | A saved non-empty locale replaces the current one and the i18n language. Otherwise both are kept. |
| `NavbarLocale.Navbar.SwitchLanguage` | src/components/Navbar.tsx:31-36 | The locale becomes `Toggle` of the old one. The persisted locale and the i18n language equal the new current locale. |

## Left out

- Home.ResolvedKeepsAndCreates: that held records survive rests on the assumption that the store keeps the first record per address. The page itself POSTs the default record (points 0) for a held address whenever the lookup fails (`Home.LookupFailureReposts`). A store that overwrote on a duplicate POST would reset that user's points, and the model does not cover such a store.

- Presentation: JSX, animation, toasts, `alert`, the `isClient` render gating and the category colours.
- Transport: `fetch`, HTTP headers and JSON parsing. A request's fate is a boolean input: delivered, stored, or answered.
- The wallet and the chain: the MetaMask and `ethers` connection, the `checkConnection` effect on the home page, `interact` and `getTotalInteractions`. These are calls into code that is not part of this model.
- Floating point: `parseFloat` of a string is the `parseText` parameter. Addition of amounts is exact `real` addition, with no IEEE rounding.
- Concurrency: the four requests of the game-page effect run in parallel and are taken one after the other. `Game.LoginWriteInvisibleToReads` shows that their order does not change what the page shows. Races between tabs are not modelled.
- The rewards page's `fetchUserSDWH` and its `userSDWH` display: they only show a value and write nothing.
- The other pages repeat locale loading into i18n. Only the navbar's state machine is modelled.
- `JumpGame`, `WalletContext` and `UserAvatar` are not part of this model. So play consumption, score accumulation during play and the shared wallet context are not modelled: `Home.HomePage.ConnectMetaMask` keeps one wallet field for the page's and the context's copy.
- `src/components/Payment.tsx`, `src/lib/i18n.ts` and `next.config.ts`: a dialog and configuration.
