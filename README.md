# Coins account store, modelled in Dafny

`Coins/data_sheet.py` is the persistence layer of a chat-bot currency
("Coins"). It keeps three tables:

- **users**: `userid` maps to the balance `Coins` and the activity time `last_login`.
- **groups**: `groupid` maps to the check-in flag `allow`.
- **pay_data**: a log of (`userid`, `date`, `volume`) records, meant to hold one record per user and day.

On top of these tables it offers:
- lazy creation of users and groups;
- balance changes rounded to three decimals, which also refresh the activity time;
- a daily payment log that accumulates repeated payments of the same day;
- queries for a user's payment history and today's volume;
- a leaderboard sorted by balance;
- an inactivity sweep that lowers the balance of users idle for more than a day who hold more than 1 Coin by a random amount of at most one Coin after rounding.

The model has three files:

- `pynum.dfy` (module `PyNum`) has the two Python conversions the store uses, over exact reals:
  - `round` is round half to even.
  - `int()` on a float truncates toward zero.
- `data_sheet.dfy` (module `DataSheet`) has:
  - the table rows as datatypes (`User`, `PayRecord`, with `PayEntry` and `Standing` for query results);
  - the read-only queries as functions over the tables: `IsInTable`, `GetCoins`, `CheckGroupAllow`, `GetPayData`, `GetTodayPayData`, `GetSorted`;
  - the effect of every update as a function of the old table, written the way the source performs it: `WithNewUser`, `WithActivity`, `WithCoinsAdded`, `WithGroupAllow`, `WithPayment`, `AfterSweep`. `AddPayment` is the two-branch form of a payment of a whole amount, and the lemmas about payments are stated on it;
  - the class `Store`, whose fields are the three tables (`map<int, User>`, `map<int, bool>`, `seq<PayRecord>`). Its methods update the tables in place, and each method's postcondition ties the new table to the function above and says that the other tables are unchanged. The sweep is a loop over the user rows.
- `data_sheet_properties.dfy` (module `DataSheetProperties`) has the lemmas that relate the operations to each other.

Balances are fixed-point integers in thousandths of a Coin, so 10.0 Coins is `10000`.
`round(x, 3)` becomes round-half-to-even of `1000 * x`.
The amount passed to `set_Coins` and the volume passed to `insert_pay` stay `real`, so the rounding and the truncation are modelled rather than assumed away.

The outside world is passed in as parameters:
- `now`: the Unix time in seconds;
- `today`: the local calendar day as a string;
- `draws`: the random numbers of the sweep, one per user, each in [0, 1).

The store's invariant is `OnePerDay`: the payment log never holds two records of one user on one day.
`Store.Valid()` states it, and `Store.InsertPay` keeps it.

## Model

| member | source | states |
|---|---|---|
| `PyNum.RoundHalfEven` | Coins/data_sheet.py:111 | `round` returns an integer within one half of its argument; a tie goes to the even neighbour |
| `PyNum.TruncateToInt` | Coins/data_sheet.py:147 | `int(volume)` truncates toward zero: the result has the sign of the input and lies less than 1 from it, on the side nearer zero |
| `DataSheet.Round3` | Coins/data_sheet.py:111 | `round(x, 3)` in thousandths lies within half a thousandth of `1000 * x` |
| `DataSheet.IsInTable` | Coins/data_sheet.py:67-70 | `is_in_table` is true exactly when the users table has a row keyed by `userid`; it has no contract beyond that lookup |
| `DataSheet.GetCoins` | Coins/data_sheet.py:96-99 | `get_Coins` requires the user to have a row (otherwise the source fails on `None`) and returns that row's balance |
| `DataSheet.WithNewUser` | Coins/data_sheet.py:73-81 | `add_new_user` needs an absent user (primary key); afterwards the user exists with 10.0 Coins and `last_login = now`, and every other row is unchanged |
| `DataSheet.WithActivity` | Coins/data_sheet.py:84-93 | after `update_activity` the user exists with `last_login = now`; an existing user keeps its balance and a new one has 10.0; no other user changes |
| `DataSheet.WithCoinsAdded` | Coins/data_sheet.py:102-115 | `set_Coins` needs an existing user; the new balance is within half a thousandth of old + amount, `last_login = now`, the set of users and all other rows are unchanged |
| `DataSheet.CheckGroupAllow` | Coins/data_sheet.py:118-124 | a group with no row is not allowed |
| `DataSheet.WithGroupAllow` | Coins/data_sheet.py:127-137 | after `set_group_allow(g, a)` the group has a row and reads back `a`, even though the row is first inserted with `allow = False`; other groups keep their rows |
| `DataSheet.GetTodayPayData` | Coins/data_sheet.py:190-212 | a user with no record today reads 0 |
| `DataSheet.GetTodayPayDataTwoReads` | Coins/data_sheet.py:190-212 | the query as written, with its two date readings as separate parameters: it fails only when the two readings differ; with no record on the first day it reads 0; otherwise it reads the volume of the second day |
| `DataSheet.GetPayData` | Coins/data_sheet.py:181-187 | an entry is in the history exactly when some log record of the user has that date and volume; the history is no longer than the log |
| `DataSheet.SetDayVolume` | Coins/data_sheet.py:172-174 | the SQL update rewrites the volume of every record of the user on the day and leaves every other record as it was |
| `DataSheet.WithPayment` | Coins/data_sheet.py:145-178 | the three branches of `insert_pay` come to the two of `AddPayment` applied to the truncated volume. With a record today, that record grows by the volume; without one, one record (user, today, volume) is appended |
| `DataSheet.Punish` | Coins/data_sheet.py:218-220 | an idle user holding more than 1 Coin loses between 0 and 1 Coin inclusive and keeps a positive balance; any other user is unchanged; `last_login` never changes |
| `DataSheet.AfterSweep` | Coins/data_sheet.py:215-221 | the sweep keeps the set of users and every `last_login`; it changes only users idle for more than 86400 s that hold more than 1 Coin, each by at most 1 Coin, keeping the balance positive |
| `DataSheet.GetSorted` | Coins/data_sheet.py:224-230 | the leaderboard lists every user exactly once, with its balance, in non-increasing order of balance |
| `DataSheet.Store.constructor` | Coins/data_sheet.py:64 | the three tables start empty and the one-record-per-day invariant holds |
| `DataSheet.Store.AddNewUser` | Coins/data_sheet.py:73-81 | requires the user absent; the users table becomes `WithNewUser` of the old one; groups and payments are unchanged |
| `DataSheet.Store.UpdateActivity` | Coins/data_sheet.py:84-93 | creates the user when missing, then stamps it; the users table becomes `WithActivity` of the old one; groups and payments are unchanged |
| `DataSheet.Store.SetCoins` | Coins/data_sheet.py:102-115 | requires the user present; the users table becomes `WithCoinsAdded` of the old one; groups and payments are unchanged |
| `DataSheet.Store.SetGroupAllow` | Coins/data_sheet.py:127-137 | the groups table becomes `WithGroupAllow` of the old one; users and payments are unchanged |
| `DataSheet.Store.InsertPay` | Coins/data_sheet.py:145-178 | the log becomes `WithPayment` of the old one and keeps one record per user and day; users and groups are unchanged |
| `DataSheet.Store.PunishAllInactiveUsers` | Coins/data_sheet.py:215-221 | one pass over the user rows leaves the users table equal to `AfterSweep` of the old one; groups and payments are unchanged |
| `DataSheetProperties.NewUserStartsWithTen` | Coins/data_sheet.py:67-99 | a user absent from the table exists after `update_activity`, with 10.0 Coins and `last_login = now` |
| `DataSheetProperties.ActivityKeepsLastClockReading` | Coins/data_sheet.py:84-93 | of the two clock readings in `update_activity` for a new user, only the second remains |
| `DataSheetProperties.ActivityTwice` | Coins/data_sheet.py:84-93 | stamping twice equals stamping once with the later time |
| `DataSheetProperties.CreditWhole` | Coins/data_sheet.py:102-115 | adding a whole number of thousandths changes the balance by exactly that amount |
| `DataSheetProperties.CreditRoundTrip` | Coins/data_sheet.py:102-115 | adding and then taking away the same three-decimal amount restores the balance |
| `DataSheetProperties.CreditRoundTripAnyAmount` | Coins/data_sheet.py:102-115 | for any amount, adding it and then taking it away ends within one thousandth of the original balance |
| `DataSheetProperties.CreditsAdd` | Coins/data_sheet.py:102-115 | two three-decimal balance changes equal one change by their sum |
| `DataSheetProperties.SetThenCheckGroup` | Coins/data_sheet.py:118-137 | after `set_group_allow(g, a)`, `check_group_allow(g)` is `a` and every other group reads as before |
| `DataSheetProperties.SetGroupIsUpsert` | Coins/data_sheet.py:127-137 | the insert-then-update equals a plain upsert, so the last setting wins |
| `DataSheetProperties.TodayIsFirstMatch` | Coins/data_sheet.py:194-209 | with a record today, the query reads the volume of the user's first record of the day |
| `DataSheetProperties.TodayOfUniqueRecord` | Coins/data_sheet.py:194-209 | under the one-record-per-day invariant, the query reads the volume of the record of the day |
| `DataSheetProperties.TodayAfterAppend` | Coins/data_sheet.py:156 | appending a record changes today's volume only for a (user, day) that had no record |
| `DataSheetProperties.TodayAfterSetDay` | Coins/data_sheet.py:172-174 | the in-place update sets today's volume of that user and day and changes no other |
| `DataSheetProperties.TodayAfterAddPayment` | Coins/data_sheet.py:151-177 | a payment adds its amount to the payer's volume today and changes the volume of no other user or day |
| `DataSheetProperties.TodayAfterPayment` | Coins/data_sheet.py:145-178 | `insert_pay` adds its truncated volume to the payer's volume today and changes the volume of no other user or day |
| `DataSheetProperties.TwoPaymentsSameDay` | Coins/data_sheet.py:145-212 | two payments on one day read back as the sum of their truncated volumes |
| `DataSheetProperties.SameDayReadsAgree` | Coins/data_sheet.py:190-212 | when both date readings fall on one day, the query as written never fails and reads the same as `GetTodayPayData` |
| `DataSheetProperties.MidnightReadFails` | Coins/data_sheet.py:194-209 | a user with a record on 2023-02-04 whose query reads the date once before midnight and once after gets an error |
| `DataSheetProperties.PaymentKeepsOnePerDay` | Coins/data_sheet.py:145-178 | a payment adds one record exactly when the user has none today; afterwards the user has a record today and the log still has one record per user and day |
| `DataSheetProperties.PayDataAfterAppend` | Coins/data_sheet.py:181-187 | appending a record adds its entry at the end of its user's history and leaves every other history unchanged |
| `DataSheetProperties.PayDataAfterSetDay` | Coins/data_sheet.py:172-174 | the in-place update keeps each history's days and order and replaces only that user's volume for that day |
| `DataSheetProperties.PayDataAfterPayment` | Coins/data_sheet.py:145-187 | after a payment, other users' histories are unchanged; the payer's history gains the entry (today, volume) at the end, or its entry for today grows by the volume |
| `DataSheetProperties.PayDataOneEntryPerDay` | Coins/data_sheet.py:181-187 | under the invariant a user's history names each day at most once |
| `DataSheetProperties.SweepSparesActiveUser` | Coins/data_sheet.py:215-221 | a user stamped at the time of the sweep is not changed by it |
| `DataSheetProperties.SweepKeepsBalancesPositive` | Coins/data_sheet.py:215-221 | the sweep never raises a balance and never takes a positive balance to zero or below |
| `DataSheetProperties.SweepWithZeroDraws` | Coins/data_sheet.py:218-220 | when every draw is 0 the sweep changes nothing, because rounding a whole number of thousandths is exact |
| `DataSheetProperties.LeaderboardStartsWithRichest` | Coins/data_sheet.py:224-230 | the first entry of a non-empty leaderboard holds the largest balance |

## Findings

| source | as written | input that shows it | evidently intended | confidence | as-written member | corrected member |
|---|---|---|---|---|---|---|
| Coins/data_sheet.py:194-209 | `get_today_pay_data` calls `get_today()` twice: once to test whether a record exists, once to read it. When midnight falls between the two calls, the second query finds no row and `.volume` fails on `None`. | the log holds (7, "2023-02-04", 150); the first call to `get_today()` returns "2023-02-04" and the second returns "2023-02-05" | resolve the day once and read the record of that day, or 0 | not executed; the input needs a call that crosses midnight | `DataSheetProperties.MidnightReadFails` (on `DataSheet.GetTodayPayDataTwoReads`) | `DataSheet.GetTodayPayData`, with `DataSheetProperties.SameDayReadsAgree` and `DataSheetProperties.TodayAfterPayment` |

## Left out

- The SQL engine, the sessions and commits, the sqlite file and the creation of its directory (Coins/data_sheet.py:20-31, 64) are left out. Each operation is modelled as one atomic update of in-memory tables.
- Floating point is left out. Balances are exact thousandths, and `round` is round-half-to-even on exact reals. The binary representation of a Python float, and rounding errors in `current + length`, are not modelled.
- The clock is left out. `time.time()` and `get_today()` (Coins/data_sheet.py:140-142) become the parameters `now` and `today`.
- `DataSheet.Store.PunishAllInactiveUsers` reads one `now` for the whole sweep. The source reads the clock once per row, and that float time can also differ from an integer time by less than a second.
- `DataSheet.GetTodayPayData`: the single-reading query returns an `int`. The source returns a float `0.0` when there is no record. The two-reading form is modelled separately (see Findings).
- `random.random()` becomes the `draws` map, one draw in [0, 1) per user. Which users consumed which random numbers is not modelled.
- Races between concurrent read-modify-write calls are left out, because the module has no concurrency of its own.
- The leaderboard's tie-break order is left out. The model picks a larger balance first, then a smaller `userid`, but no contract states this order, because the source does not define it.
- The surrogate key `PayData.id` (Coins/data_sheet.py:58) is left out. Log order stands in for the order in which rows are retrieved.
- Storage failures and the error that a missing user causes in `get_Coins` and `set_Coins` are left out. A missing user is a precondition, and so is the duplicate key in `add_new_user`.
