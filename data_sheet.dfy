/**
 * The Coins account store: three tables (users, groups, the payment log),
 * the read-only queries over them, the effect of every update as a function
 * of the old table, and the `Store` object whose methods apply those updates
 * in place.
 *
 * Balances are fixed-point: one Coin is 1000 units, the three decimals to
 * which every write of a balance is rounded. The clock (`now`, seconds since
 * the epoch), the local calendar day (`today`) and the random draws of the
 * inactivity sweep are parameters.
 */
module DataSheet {
  import opened PyNum

  /** Units per Coin: balances are kept in thousandths. */
  const MilliPerCoin: int := 1000
  /** The balance of a user when the row is created: 10.0 Coins. */
  const StartingCoins: int := 10 * MilliPerCoin
  /** A user is idle once more than this many seconds have passed since the last activity. */
  const IdleSeconds: int := 86400
  /** Only balances above this (1.0 Coins) are lowered by the inactivity sweep. */
  const PunishFloor: int := MilliPerCoin

  /** A row of the users table; the key, `userid`, is the map's key. */
  datatype User = User(coins: int, lastLogin: int)

  /** A row of the payment log: the volume one user transferred on one day. */
  datatype PayRecord = PayRecord(userid: int, date: string, volume: int)

  /** One entry of a user's payment history. */
  datatype PayEntry = PayEntry(date: string, volume: int)

  /** One line of the leaderboard. */
  datatype Standing = Standing(userid: int, coins: int)

  /** A balance in units of Coins. */
  function ToCoins(milli: int): real
  {
    milli as real / MilliPerCoin as real
  }

  /** Python's `round(x, 3)` on an amount of Coins, in thousandths. */
  function Round3(x: real): (milli: int)
    ensures x * 1000.0 - 0.5 <= milli as real <= x * 1000.0 + 0.5
  {
    RoundHalfEven(x * MilliPerCoin as real)
  }

  // ---------------------------------------------------------------- users

  /** Whether the user has a row. */
  function IsInTable(users: map<int, User>, userid: int): (present: bool)
    ensures present <==> userid in users.Keys
  {
    userid in users
  }

  /** The user's balance; only defined for a user that has a row. */
  function GetCoins(users: map<int, User>, userid: int): (coins: int)
    requires userid in users
    ensures coins == users[userid].coins
  {
    users[userid].coins
  }

  /** The users table after `add_new_user`; the primary key forbids a second row. */
  function WithNewUser(users: map<int, User>, userid: int, now: int): (r: map<int, User>)
    requires userid !in users
    ensures r.Keys == users.Keys + {userid}
    ensures IsInTable(r, userid) && GetCoins(r, userid) == StartingCoins && r[userid].lastLogin == now
    ensures forall v :: v in users ==> r[v] == users[v]
  {
    users[userid := User(StartingCoins, now)]
  }

  /** The users table after `update_activity`: create the row if missing, then stamp it. */
  function WithActivity(users: map<int, User>, userid: int, now: int): (r: map<int, User>)
    ensures r.Keys == users.Keys + {userid}
    ensures r[userid].lastLogin == now
    ensures r[userid].coins == if userid in users then users[userid].coins else StartingCoins
    ensures forall v :: v in users && v != userid ==> r[v] == users[v]
  {
    var present := if IsInTable(users, userid) then users else WithNewUser(users, userid, now);
    present[userid := present[userid].(lastLogin := now)]
  }

  /** The users table after `set_Coins`: add `length` Coins, round to three
      decimals, and stamp the activity time. */
  function WithCoinsAdded(users: map<int, User>, userid: int, length: real, now: int): (r: map<int, User>)
    requires userid in users
    ensures r.Keys == users.Keys
    ensures r[userid].lastLogin == now
    ensures users[userid].coins as real + length * 1000.0 - 0.5 <= r[userid].coins as real
    ensures r[userid].coins as real <= users[userid].coins as real + length * 1000.0 + 0.5
    ensures forall v :: v in users && v != userid ==> r[v] == users[v]
  {
    var current := GetCoins(users, userid);
    users[userid := User(Round3(ToCoins(current) + length), now)]
  }

  // ---------------------------------------------------------------- groups

  /** Whether check-in is allowed in the group; a group without a row is not allowed. */
  function CheckGroupAllow(groups: map<int, bool>, groupid: int): (allowed: bool)
    ensures groupid !in groups ==> !allowed
  {
    if groupid in groups then groups[groupid] else false
  }

  /** The groups table after `set_group_allow`: insert a disallowed row if
      missing, then set the flag. */
  function WithGroupAllow(groups: map<int, bool>, groupid: int, allow: bool): (r: map<int, bool>)
    ensures r.Keys == groups.Keys + {groupid}
    ensures CheckGroupAllow(r, groupid) == allow
    ensures forall h :: h in groups && h != groupid ==> r[h] == groups[h]
  {
    var present := if groupid in groups then groups else groups[groupid := false];
    present[groupid := allow]
  }

  // ---------------------------------------------------------------- payments

  /** The record is the one of this user on this day. */
  predicate Matches(rec: PayRecord, userid: int, date: string)
  {
    rec.userid == userid && rec.date == date
  }

  /** The log holds some record of the user. */
  predicate HasUser(log: seq<PayRecord>, userid: int)
  {
    exists i :: 0 <= i < |log| && log[i].userid == userid
  }

  /** The log holds a record of the user on the day. */
  predicate HasDay(log: seq<PayRecord>, userid: int, date: string)
  {
    exists i :: 0 <= i < |log| && Matches(log[i], userid, date)
  }

  /** The invariant the store keeps: at most one record per user and day. */
  predicate OnePerDay(log: seq<PayRecord>)
  {
    forall i, j :: 0 <= i < j < |log| ==> !Matches(log[j], log[i].userid, log[i].date)
  }

  /** The volume of the first record of the user on the day, or 0 when there is none. */
  function GetTodayPayData(log: seq<PayRecord>, userid: int, today: string): (v: int)
    ensures !HasDay(log, userid, today) ==> v == 0
  {
    if log == [] then 0
    else if Matches(log[0], userid, today) then log[0].volume
    else
      var v := GetTodayPayData(log[1..], userid, today);
      assert forall i :: 0 < i < |log| ==> log[i] == log[1..][i - 1];
      v
  }

  /** The outcome of `get_today_pay_data` as written: it resolves the date
      twice, once to test for the record and once to read it, and reading a
      record that is not there raises an error. */
  datatype TodayRead = Volume(volume: int) | MissingRow

  /** `get_today_pay_data` with the two date readings as separate parameters. */
  function GetTodayPayDataTwoReads(log: seq<PayRecord>, userid: int, testedDay: string, readDay: string): (r: TodayRead)
    ensures r == MissingRow ==> testedDay != readDay
    ensures !HasDay(log, userid, testedDay) ==> r == Volume(0)
    ensures r.Volume? && HasDay(log, userid, testedDay) ==> r.volume == GetTodayPayData(log, userid, readDay)
  {
    if HasDay(log, userid, testedDay) then
      if HasDay(log, userid, readDay) then Volume(GetTodayPayData(log, userid, readDay)) else MissingRow
    else Volume(0)
  }

  /** The user's records, projected to date and volume, in log order. */
  function GetPayData(log: seq<PayRecord>, userid: int): (h: seq<PayEntry>)
    ensures |h| <= |log|
    ensures forall e :: e in h <==>
      exists i :: 0 <= i < |log| && log[i].userid == userid && e == PayEntry(log[i].date, log[i].volume)
  {
    if log == [] then []
    else
      var rest := GetPayData(log[1..], userid);
      assert forall i :: 0 < i < |log| ==> log[i] == log[1..][i - 1];
      if log[0].userid == userid then [PayEntry(log[0].date, log[0].volume)] + rest else rest
  }

  /** The log after the SQL update that sets the volume of every record of
      the user on the day. */
  function SetDayVolume(log: seq<PayRecord>, userid: int, date: string, volume: int): (r: seq<PayRecord>)
    ensures |r| == |log|
    ensures forall i {:trigger r[i]} :: 0 <= i < |log| ==>
      r[i] == if Matches(log[i], userid, date) then log[i].(volume := volume) else log[i]
  {
    if log == [] then []
    else
      var head := if Matches(log[0], userid, date) then log[0].(volume := volume) else log[0];
      [head] + SetDayVolume(log[1..], userid, date, volume)
  }

  /** A payment of a whole `amount` today: it accumulates into the user's
      record of the day when there is one, and is appended as a new record
      otherwise. */
  function AddPayment(log: seq<PayRecord>, userid: int, amount: int, today: string): (r: seq<PayRecord>)
  {
    if HasDay(log, userid, today) then
      SetDayVolume(log, userid, today, GetTodayPayData(log, userid, today) + amount)
    else
      log + [PayRecord(userid, today, amount)]
  }

  /** The log after `insert_pay`, branch by branch: the volume is truncated
      to an integer; a user without any record gets a new record, a user
      with a record today has it increased, a user with records on other
      days only gets a new record. The first and the last branch do the
      same, so this is `AddPayment` of the truncated volume. */
  function WithPayment(log: seq<PayRecord>, userid: int, volume: real, today: string): (r: seq<PayRecord>)
    ensures r == AddPayment(log, userid, TruncateToInt(volume), today)
  {
    var v := TruncateToInt(volume);
    if !HasUser(log, userid) then
      assert !HasDay(log, userid, today);
      log + [PayRecord(userid, today, v)]
    else if HasDay(log, userid, today) then
      SetDayVolume(log, userid, today, GetTodayPayData(log, userid, today) + v)
    else
      log + [PayRecord(userid, today, v)]
  }

  // ---------------------------------------------------------------- inactivity sweep

  /** The sweep lowers this user's balance: idle for more than a day and holding more than 1 Coin. */
  predicate Punishable(user: User, now: int)
  {
    now - user.lastLogin > IdleSeconds && user.coins > PunishFloor
  }

  /** One user's row after the sweep, given the random draw in [0, 1) made for it. */
  function Punish(user: User, now: int, draw: real): (r: User)
    requires 0.0 <= draw < 1.0
    ensures r.lastLogin == user.lastLogin
    ensures !Punishable(user, now) ==> r == user
    ensures Punishable(user, now) ==>
      user.coins - MilliPerCoin <= r.coins <= user.coins && 0 < r.coins
  {
    if Punishable(user, now) then user.(coins := Round3(ToCoins(user.coins) - draw)) else user
  }

  /** The draws cover every user and lie in [0, 1). */
  predicate DrawsFor(users: map<int, User>, draws: map<int, real>)
  {
    forall u :: u in users ==> u in draws && 0.0 <= draws[u] < 1.0
  }

  /** The users table after `punish_all_inactive_users`. */
  function AfterSweep(users: map<int, User>, now: int, draws: map<int, real>): (r: map<int, User>)
    requires DrawsFor(users, draws)
    ensures r.Keys == users.Keys
    ensures forall u :: u in users ==> r[u].lastLogin == users[u].lastLogin
    ensures forall u :: u in users && !Punishable(users[u], now) ==> r[u] == users[u]
    ensures forall u :: u in users && Punishable(users[u], now) ==>
      users[u].coins - MilliPerCoin <= r[u].coins <= users[u].coins && 0 < r[u].coins
  {
    map u | u in users :: Punish(users[u], now, draws[u])
  }

  // ---------------------------------------------------------------- leaderboard

  /** A non-empty set has a member to pick. */
  lemma NonEmptyHasMember(s: set<int>)
    requires s != {}
    ensures exists x :: x in s
  {
    if forall x :: x !in s {
      assert false;
    }
  }

  /** `a` comes before `b`: a larger balance, or the same balance and a smaller id. */
  predicate Outranks(users: map<int, User>, a: int, b: int)
    requires a in users && b in users
  {
    users[a].coins > users[b].coins || (users[a].coins == users[b].coins && a <= b)
  }

  /** `top` comes before every user. */
  predicate IsTop(users: map<int, User>, top: int)
    requires top in users
  {
    forall v :: v in users ==> Outranks(users, top, v)
  }

  /** A non-empty users table has a first user. */
  lemma {:induction false} TopExists(users: map<int, User>)
    requires users.Keys != {}
    ensures exists top :: top in users && IsTop(users, top)
    decreases |users.Keys|
  {
    var keys := users.Keys;
    NonEmptyHasMember(keys);
    var k :| k in keys;
    var rest := users - {k};
    assert rest.Keys == users.Keys - {k};
    if rest.Keys == {} {
      assert users.Keys == {k};
      assert IsTop(users, k);
    } else {
      TopExists(rest);
      var t :| t in rest && IsTop(rest, t);
      assert forall v :: v in rest ==> rest[v] == users[v] && Outranks(users, t, v);
      if Outranks(users, t, k) {
        assert IsTop(users, t);
      } else {
        assert IsTop(users, k);
      }
    }
  }

  /** The first user of a non-empty table: there is exactly one. */
  function Top(users: map<int, User>): (top: int)
    requires users.Keys != {}
    ensures top in users && IsTop(users, top)
  {
    TopExists(users);
    var top :| top in users && IsTop(users, top);
    top
  }

  /** Coins never increase along the board. */
  predicate NonIncreasing(board: seq<Standing>)
  {
    forall i, j :: 0 <= i < j < |board| ==> board[i].coins >= board[j].coins
  }

  /** `get_sorted`: every user once, with its balance, richest first. */
  function GetSorted(users: map<int, User>): (board: seq<Standing>)
    ensures |board| == |users|
    ensures forall s :: s in board <==> s.userid in users && s.coins == users[s.userid].coins
    ensures forall i, j :: 0 <= i < j < |board| ==> board[i].userid != board[j].userid
    ensures NonIncreasing(board)
    decreases |users.Keys|
  {
    if users.Keys == {} then []
    else
      var top := Top(users);
      var rest := users - {top};
      assert rest.Keys == users.Keys - {top};
      [Standing(top, users[top].coins)] + GetSorted(rest)
  }

  // ---------------------------------------------------------------- the store

  /** The three tables, updated in place by the store's operations. */
  class Store {
    var users: map<int, User>
    var groups: map<int, bool>
    var payments: seq<PayRecord>

    /** The payment log never holds two records of one user on one day. */
    ghost predicate Valid()
      reads this
    {
      OnePerDay(payments)
    }

    /** Fresh, empty tables. */
    constructor ()
      ensures Valid()
      ensures users == map[] && groups == map[] && payments == []
    {
      users := map[];
      groups := map[];
      payments := [];
    }

    /** `add_new_user`: a new row with 10.0 Coins, last active now. */
    method AddNewUser(userid: int, now: int)
      requires userid !in users
      modifies this
      ensures users == WithNewUser(old(users), userid, now)
      ensures groups == old(groups) && payments == old(payments)
    {
      users := users[userid := User(StartingCoins, now)];
    }

    /** `update_activity`: create the user if missing, then set its activity time to now. */
    method UpdateActivity(userid: int, now: int)
      modifies this
      ensures users == WithActivity(old(users), userid, now)
      ensures groups == old(groups) && payments == old(payments)
    {
      if !IsInTable(users, userid) {
        AddNewUser(userid, now);
      }
      users := users[userid := users[userid].(lastLogin := now)];
    }

    /** `set_Coins`: add `length` Coins to the balance, rounded to three decimals, and stamp the activity time. */
    method SetCoins(userid: int, length: real, now: int)
      requires userid in users
      modifies this
      ensures users == WithCoinsAdded(old(users), userid, length, now)
      ensures groups == old(groups) && payments == old(payments)
    {
      var current := GetCoins(users, userid);
      users := users[userid := User(Round3(ToCoins(current) + length), now)];
    }

    /** `set_group_allow`: insert a disallowed row if missing, then set the flag. */
    method SetGroupAllow(groupid: int, allow: bool)
      modifies this
      ensures groups == WithGroupAllow(old(groups), groupid, allow)
      ensures users == old(users) && payments == old(payments)
    {
      if groupid !in groups {
        groups := groups[groupid := false];
      }
      groups := groups[groupid := allow];
    }

    /** `insert_pay`: record a transfer of `volume` (truncated to an integer) for today. */
    method InsertPay(userid: int, volume: real, today: string)
      requires Valid()
      modifies this
      ensures Valid()
      ensures payments == WithPayment(old(payments), userid, volume, today)
      ensures users == old(users) && groups == old(groups)
    {
      var v := TruncateToInt(volume);
      if !HasUser(payments, userid) {
        payments := payments + [PayRecord(userid, today, v)];
      } else if HasDay(payments, userid, today) {
        var current := GetTodayPayData(payments, userid, today);
        payments := SetDayVolume(payments, userid, today, current + v);
      } else {
        payments := payments + [PayRecord(userid, today, v)];
      }
    }

    /** `punish_all_inactive_users`: one pass over the users table. */
    method PunishAllInactiveUsers(now: int, draws: map<int, real>)
      requires DrawsFor(users, draws)
      modifies this
      ensures users == AfterSweep(old(users), now, draws)
      ensures groups == old(groups) && payments == old(payments)
    {
      var pending := users.Keys;
      while pending != {}
        invariant pending <= users.Keys
        invariant users.Keys == old(users).Keys
        invariant forall u :: u in users ==>
          users[u] == if u in pending then old(users)[u] else Punish(old(users)[u], now, draws[u])
        invariant groups == old(groups) && payments == old(payments)
        decreases pending
      {
        NonEmptyHasMember(pending);
        var u :| u in pending;
        var row := users[u];
        if Punishable(row, now) {
          users := users[u := Punish(row, now, draws[u])];
        }
        pending := pending - {u};
      }
      ghost var swept := AfterSweep(old(users), now, draws);
      assert users.Keys == swept.Keys;
      assert forall u :: u in users ==> users[u] == swept[u];
    }
  }
}
