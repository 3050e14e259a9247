/**
 * What the account store's operations promise when taken together: a new
 * user's balance, the effect of the activity stamp, the round trip of a
 * balance change, the group flag read back after it is set, the daily
 * accumulation of payments and the history they leave, the bounds of the
 * inactivity sweep, and the leaderboard's order.
 */
module DataSheetProperties {
  import opened PyNum
  import opened DataSheet

  // ---------------------------------------------------------------- users

  /** A user never seen before has no row; after the activity stamp it has
      one, with 10.0 Coins and the current time. */
  lemma NewUserStartsWithTen(users: map<int, User>, userid: int, now: int)
    requires !IsInTable(users, userid)
    ensures IsInTable(WithActivity(users, userid, now), userid)
    ensures GetCoins(WithActivity(users, userid, now), userid) == StartingCoins
    ensures WithActivity(users, userid, now)[userid].lastLogin == now
  {
  }

  /** `update_activity` reads the clock twice when it creates the row (once
      in `add_new_user`, once for the stamp); only the second reading stays. */
  lemma ActivityKeepsLastClockReading(users: map<int, User>, userid: int, created: int, now: int)
    requires userid !in users
    ensures WithActivity(WithNewUser(users, userid, created), userid, now) == WithActivity(users, userid, now)
  {
    var a := WithActivity(WithNewUser(users, userid, created), userid, now);
    var b := WithActivity(users, userid, now);
    assert a.Keys == b.Keys;
    assert forall v :: v in a ==> a[v] == b[v];
  }

  /** Stamping twice is stamping once with the later time: the balance is never touched. */
  lemma ActivityTwice(users: map<int, User>, userid: int, earlier: int, now: int)
    ensures WithActivity(WithActivity(users, userid, earlier), userid, now) == WithActivity(users, userid, now)
  {
    var a := WithActivity(WithActivity(users, userid, earlier), userid, now);
    var b := WithActivity(users, userid, now);
    assert a.Keys == b.Keys;
    assert forall v :: v in a ==> a[v] == b[v];
  }

  // ---------------------------------------------------------------- balances

  /** Adding a whole number of thousandths is exact: no rounding happens. */
  lemma {:induction false} CreditWhole(users: map<int, User>, userid: int, k: int, now: int)
    requires userid in users
    ensures GetCoins(WithCoinsAdded(users, userid, ToCoins(k), now), userid) == GetCoins(users, userid) + k
  {
    var c := users[userid].coins;
    assert (ToCoins(c) + ToCoins(k)) * 1000.0 == (c + k) as real;
    RoundWhole(c + k);
  }

  /** Adding and then taking away the same whole number of thousandths gives
      back the balance. */
  lemma {:induction false} CreditRoundTrip(users: map<int, User>, userid: int, k: int, t1: int, t2: int)
    requires userid in users
    ensures var once := WithCoinsAdded(users, userid, ToCoins(k), t1);
      GetCoins(WithCoinsAdded(once, userid, -ToCoins(k), t2), userid) == GetCoins(users, userid)
  {
    var once := WithCoinsAdded(users, userid, ToCoins(k), t1);
    CreditWhole(users, userid, k, t1);
    assert -ToCoins(k) == ToCoins(-k);
    CreditWhole(once, userid, -k, t2);
  }

  /** For any amount, adding and then taking it away ends within one
      thousandth of the balance (each write rounds once). */
  lemma CreditRoundTripAnyAmount(users: map<int, User>, userid: int, length: real, t1: int, t2: int)
    requires userid in users
    ensures var once := WithCoinsAdded(users, userid, length, t1);
      var twice := WithCoinsAdded(once, userid, -length, t2);
      GetCoins(users, userid) - 1 <= GetCoins(twice, userid) <= GetCoins(users, userid) + 1
  {
  }

  /** Two balance changes by whole thousandths add up to one change by their sum. */
  lemma {:induction false} CreditsAdd(users: map<int, User>, userid: int, j: int, k: int, t1: int, t2: int)
    requires userid in users
    ensures WithCoinsAdded(WithCoinsAdded(users, userid, ToCoins(j), t1), userid, ToCoins(k), t2)
         == WithCoinsAdded(users, userid, ToCoins(j + k), t2)
  {
    var a := WithCoinsAdded(WithCoinsAdded(users, userid, ToCoins(j), t1), userid, ToCoins(k), t2);
    var b := WithCoinsAdded(users, userid, ToCoins(j + k), t2);
    CreditWhole(users, userid, j, t1);
    CreditWhole(WithCoinsAdded(users, userid, ToCoins(j), t1), userid, k, t2);
    CreditWhole(users, userid, j + k, t2);
    assert a.Keys == b.Keys;
    assert forall v :: v in a ==> a[v] == b[v];
  }

  // ---------------------------------------------------------------- groups

  /** After setting a group's flag, reading it gives the flag set; every
      other group reads as before, configured or not. */
  lemma SetThenCheckGroup(groups: map<int, bool>, groupid: int, allow: bool, other: int)
    ensures CheckGroupAllow(WithGroupAllow(groups, groupid, allow), other)
         == if other == groupid then allow else CheckGroupAllow(groups, other)
  {
  }

  /** The implicit insert with `allow = False` leaves no trace: setting the
      flag is a plain upsert, so the last setting wins. */
  lemma SetGroupIsUpsert(groups: map<int, bool>, groupid: int, first: bool, allow: bool)
    ensures WithGroupAllow(groups, groupid, allow) == groups[groupid := allow]
    ensures WithGroupAllow(WithGroupAllow(groups, groupid, first), groupid, allow)
         == WithGroupAllow(groups, groupid, allow)
  {
    var a := WithGroupAllow(groups, groupid, allow);
    assert a.Keys == groups[groupid := allow].Keys;
    assert forall h :: h in a ==> a[h] == groups[groupid := allow][h];
    var b := WithGroupAllow(WithGroupAllow(groups, groupid, first), groupid, allow);
    assert b.Keys == a.Keys;
    assert forall h :: h in b ==> b[h] == a[h];
  }

  // ---------------------------------------------------------------- payments: today's volume

  /** Today's volume is the volume of the user's first record of the day. */
  lemma {:induction false} TodayIsFirstMatch(log: seq<PayRecord>, userid: int, today: string)
    requires HasDay(log, userid, today)
    ensures exists i :: (0 <= i < |log| && Matches(log[i], userid, today) &&
      GetTodayPayData(log, userid, today) == log[i].volume &&
      forall j :: 0 <= j < i ==> !Matches(log[j], userid, today))
  {
    if Matches(log[0], userid, today) {
      assert 0 <= 0 < |log| && Matches(log[0], userid, today);
    } else {
      var k :| 0 <= k < |log| && Matches(log[k], userid, today);
      assert log[1..][k - 1] == log[k];
      TodayIsFirstMatch(log[1..], userid, today);
      var i :| 0 <= i < |log[1..]| && Matches(log[1..][i], userid, today) &&
        GetTodayPayData(log[1..], userid, today) == log[1..][i].volume &&
        forall j :: 0 <= j < i ==> !Matches(log[1..][j], userid, today);
      assert log[i + 1] == log[1..][i];
      forall j | 0 <= j < i + 1 ensures !Matches(log[j], userid, today) {
        if j > 0 {
          assert log[j] == log[1..][j - 1];
        }
      }
    }
  }

  /** When the log keeps one record per day, today's volume is that of any
      record of the user today. */
  lemma {:induction false} TodayOfUniqueRecord(log: seq<PayRecord>, userid: int, today: string, i: int)
    requires OnePerDay(log)
    requires 0 <= i < |log| && Matches(log[i], userid, today)
    ensures GetTodayPayData(log, userid, today) == log[i].volume
  {
    TodayIsFirstMatch(log, userid, today);
  }

  /** Today's volume after a record is appended: the earlier record wins,
      otherwise the new one counts if it matches. */
  lemma {:induction false} TodayAfterAppend(log: seq<PayRecord>, rec: PayRecord, userid: int, date: string)
    ensures GetTodayPayData(log + [rec], userid, date)
         == if HasDay(log, userid, date) then GetTodayPayData(log, userid, date)
            else if Matches(rec, userid, date) then rec.volume
            else 0
  {
    if log != [] {
      assert (log + [rec])[1..] == log[1..] + [rec];
      assert HasDay(log, userid, date) <==> Matches(log[0], userid, date) || HasDay(log[1..], userid, date) by {
        if HasDay(log, userid, date) && !Matches(log[0], userid, date) {
          var i :| 0 <= i < |log| && Matches(log[i], userid, date);
          assert log[1..][i - 1] == log[i];
        }
        if HasDay(log[1..], userid, date) {
          var i :| 0 <= i < |log[1..]| && Matches(log[1..][i], userid, date);
          assert log[i + 1] == log[1..][i];
        }
      }
      TodayAfterAppend(log[1..], rec, userid, date);
    }
  }

  /** Today's volume after the in-place update of the user's records on a day. */
  lemma {:induction false} TodayAfterSetDay(log: seq<PayRecord>, userid: int, date: string, volume: int,
                                           who: int, day: string)
    ensures GetTodayPayData(SetDayVolume(log, userid, date, volume), who, day)
         == if who == userid && day == date && HasDay(log, userid, date) then volume
            else GetTodayPayData(log, who, day)
  {
    if log != [] {
      var r := SetDayVolume(log, userid, date, volume);
      assert r[1..] == SetDayVolume(log[1..], userid, date, volume);
      assert HasDay(log, userid, date) <==> Matches(log[0], userid, date) || HasDay(log[1..], userid, date) by {
        if HasDay(log, userid, date) && !Matches(log[0], userid, date) {
          var i :| 0 <= i < |log| && Matches(log[i], userid, date);
          assert log[1..][i - 1] == log[i];
        }
        if HasDay(log[1..], userid, date) {
          var i :| 0 <= i < |log[1..]| && Matches(log[1..][i], userid, date);
          assert log[i + 1] == log[1..][i];
        }
      }
      TodayAfterSetDay(log[1..], userid, date, volume, who, day);
    }
  }

  /** A payment adds its amount to the user's volume of the day and changes
      no other user's or day's volume. */
  lemma {:induction false} TodayAfterAddPayment(log: seq<PayRecord>, userid: int, amount: int, today: string,
                                                who: int, day: string)
    ensures GetTodayPayData(AddPayment(log, userid, amount, today), who, day)
         == if who == userid && day == today
            then GetTodayPayData(log, userid, today) + amount
            else GetTodayPayData(log, who, day)
  {
    var r := AddPayment(log, userid, amount, today);
    if HasDay(log, userid, today) {
      var total := GetTodayPayData(log, userid, today) + amount;
      assert r == SetDayVolume(log, userid, today, total);
      TodayAfterSetDay(log, userid, today, total, who, day);
    } else {
      var rec := PayRecord(userid, today, amount);
      assert r == log + [rec];
      TodayAfterAppend(log, rec, who, day);
    }
  }

  /** `insert_pay` adds its truncated volume to the user's volume today and
      changes no other user's or day's volume. */
  lemma {:induction false} TodayAfterPayment(log: seq<PayRecord>, userid: int, volume: real, today: string,
                                             who: int, day: string)
    ensures GetTodayPayData(WithPayment(log, userid, volume, today), who, day)
         == if who == userid && day == today
            then GetTodayPayData(log, userid, today) + TruncateToInt(volume)
            else GetTodayPayData(log, who, day)
  {
    TodayAfterAddPayment(log, userid, TruncateToInt(volume), today, who, day);
  }

  /** With both date readings on the same day, `get_today_pay_data` as
      written agrees with the single-reading query and never fails. */
  lemma SameDayReadsAgree(log: seq<PayRecord>, userid: int, today: string)
    ensures GetTodayPayDataTwoReads(log, userid, today, today) == Volume(GetTodayPayData(log, userid, today))
  {
  }

  /** A call that starts just before midnight and reads the clock again just
      after it finds yesterday's record, then fails to read today's. */
  lemma MidnightReadFails()
    ensures GetTodayPayDataTwoReads([PayRecord(7, "2023-02-04", 150)], 7, "2023-02-04", "2023-02-05") == MissingRow
  {
    var log := [PayRecord(7, "2023-02-04", 150)];
    assert Matches(log[0], 7, "2023-02-04");
    assert "2023-02-04"[9] != "2023-02-05"[9];
  }

  /** Two payments on the same day are read back as their sum. */
  lemma {:induction false} TwoPaymentsSameDay(log: seq<PayRecord>, userid: int, first: real, second: real, today: string)
    ensures GetTodayPayData(WithPayment(WithPayment(log, userid, first, today), userid, second, today), userid, today)
         == GetTodayPayData(log, userid, today) + TruncateToInt(first) + TruncateToInt(second)
  {
    TodayAfterPayment(log, userid, first, today, userid, today);
    TodayAfterPayment(WithPayment(log, userid, first, today), userid, second, today, userid, today);
  }

  // ---------------------------------------------------------------- payments: the log

  /** A payment appends exactly one record when the user has none today and
      none otherwise; afterwards the user has a record today, and the log
      keeps at most one record per user and day. */
  lemma {:induction false} PaymentKeepsOnePerDay(log: seq<PayRecord>, userid: int, amount: int, today: string)
    requires OnePerDay(log)
    ensures |AddPayment(log, userid, amount, today)| == if HasDay(log, userid, today) then |log| else |log| + 1
    ensures OnePerDay(AddPayment(log, userid, amount, today))
    ensures HasDay(AddPayment(log, userid, amount, today), userid, today)
  {
    var r := AddPayment(log, userid, amount, today);
    if HasDay(log, userid, today) {
      assert forall i :: 0 <= i < |log| ==> r[i].userid == log[i].userid && r[i].date == log[i].date;
      var i :| 0 <= i < |log| && Matches(log[i], userid, today);
      assert Matches(r[i], userid, today);
    } else {
      assert Matches(r[|log|], userid, today);
    }
  }

  /** The history after a record is appended: the record is added at the end
      if it is the user's. */
  lemma {:induction false} PayDataAfterAppend(log: seq<PayRecord>, rec: PayRecord, userid: int)
    ensures GetPayData(log + [rec], userid)
         == GetPayData(log, userid) + (if rec.userid == userid then [PayEntry(rec.date, rec.volume)] else [])
  {
    if log == [] {
      assert GetPayData([rec][1..], userid) == [];
    } else {
      assert (log + [rec])[1..] == log[1..] + [rec];
      PayDataAfterAppend(log[1..], rec, userid);
    }
  }

  /** The history after the in-place update of `userid`'s records on `date`:
      the same days in the same order, that day's volume replaced, and the
      histories of all other users untouched. */
  lemma {:induction false} PayDataAfterSetDay(log: seq<PayRecord>, userid: int, date: string, volume: int, who: int)
    ensures who != userid ==> GetPayData(SetDayVolume(log, userid, date, volume), who) == GetPayData(log, who)
    ensures var before := GetPayData(log, who);
      var after := GetPayData(SetDayVolume(log, userid, date, volume), who);
      |after| == |before| &&
      forall k :: 0 <= k < |before| ==>
        after[k] == if who == userid && before[k].date == date then before[k].(volume := volume) else before[k]
  {
    if log != [] {
      var r := SetDayVolume(log, userid, date, volume);
      assert r[1..] == SetDayVolume(log[1..], userid, date, volume);
      PayDataAfterSetDay(log[1..], userid, date, volume, who);
    }
  }

  /** `get_pay_data` after a payment: other users' histories are unchanged;
      the payer's gains an entry for today, or today's entry grows by the
      amount. */
  lemma {:induction false} PayDataAfterPayment(log: seq<PayRecord>, userid: int, amount: int, today: string, who: int)
    ensures who != userid ==> GetPayData(AddPayment(log, userid, amount, today), who) == GetPayData(log, who)
    ensures !HasDay(log, userid, today) ==>
      GetPayData(AddPayment(log, userid, amount, today), userid) == GetPayData(log, userid) + [PayEntry(today, amount)]
    ensures HasDay(log, userid, today) ==>
      var before := GetPayData(log, userid);
      var after := GetPayData(AddPayment(log, userid, amount, today), userid);
      |after| == |before| &&
      forall k :: 0 <= k < |before| ==>
        after[k] == if before[k].date == today
                    then before[k].(volume := GetTodayPayData(log, userid, today) + amount)
                    else before[k]
  {
    if HasDay(log, userid, today) {
      var total := GetTodayPayData(log, userid, today) + amount;
      PayDataAfterSetDay(log, userid, today, total, who);
      PayDataAfterSetDay(log, userid, today, total, userid);
    } else {
      PayDataAfterAppend(log, PayRecord(userid, today, amount), who);
      PayDataAfterAppend(log, PayRecord(userid, today, amount), userid);
    }
  }


  /** No day appears twice in the history. */
  predicate DistinctDates(h: seq<PayEntry>)
  {
    forall i, j :: 0 <= i < j < |h| ==> h[i].date != h[j].date
  }

  /** While the log keeps one record per day, a user's history names each day at most once. */
  lemma {:induction false} PayDataOneEntryPerDay(log: seq<PayRecord>, userid: int)
    requires OnePerDay(log)
    ensures DistinctDates(GetPayData(log, userid))
  {
    if log != [] {
      assert OnePerDay(log[1..]) by {
        forall i, j | 0 <= i < j < |log[1..]|
          ensures !Matches(log[1..][j], log[1..][i].userid, log[1..][i].date)
        {
          assert log[1..][i] == log[i + 1] && log[1..][j] == log[j + 1];
        }
      }
      PayDataOneEntryPerDay(log[1..], userid);
      var rest := GetPayData(log[1..], userid);
      if log[0].userid == userid {
        forall k | 0 <= k < |rest| ensures rest[k].date != log[0].date {
          assert rest[k] in rest;
          var i :| 0 <= i < |log[1..]| && log[1..][i].userid == userid
            && rest[k] == PayEntry(log[1..][i].date, log[1..][i].volume);
          assert log[1..][i] == log[i + 1];
        }
        var h := GetPayData(log, userid);
        assert h == [PayEntry(log[0].date, log[0].volume)] + rest;
        forall i, j | 0 <= i < j < |h| ensures h[i].date != h[j].date {
          if i == 0 {
            assert h[0].date == log[0].date && h[j] == rest[j - 1];
          } else {
            assert h[i] == rest[i - 1] && h[j] == rest[j - 1];
          }
        }
      } else {
        assert GetPayData(log, userid) == rest;
      }
    }
  }

  // ---------------------------------------------------------------- inactivity sweep

  /** A user stamped at the time of the sweep is left as it is. */
  lemma SweepSparesActiveUser(users: map<int, User>, userid: int, now: int, draws: map<int, real>)
    requires DrawsFor(WithActivity(users, userid, now), draws)
    ensures AfterSweep(WithActivity(users, userid, now), now, draws)[userid] == WithActivity(users, userid, now)[userid]
  {
  }

  /** Nobody's balance is driven to zero or below by the sweep, and nobody's
      balance grows. */
  lemma SweepKeepsBalancesPositive(users: map<int, User>, now: int, draws: map<int, real>)
    requires DrawsFor(users, draws)
    ensures forall u :: u in users ==> AfterSweep(users, now, draws)[u].coins <= users[u].coins
    ensures forall u :: u in users && users[u].coins > 0 ==> AfterSweep(users, now, draws)[u].coins > 0
  {
  }

  /** With a draw of zero the sweep changes nothing: rounding a whole number
      of thousandths is exact. (The one-Coin bound for any draw is stated by
      `AfterSweep` and `SweepKeepsBalancesPositive`.) */
  lemma SweepWithZeroDraws(users: map<int, User>, now: int, draws: map<int, real>)
    requires DrawsFor(users, draws)
    requires forall u :: u in draws ==> draws[u] == 0.0
    ensures AfterSweep(users, now, draws) == users
  {
    var r := AfterSweep(users, now, draws);
    forall u | u in users ensures r[u] == users[u] {
      if Punishable(users[u], now) {
        assert (ToCoins(users[u].coins) - 0.0) * 1000.0 == users[u].coins as real;
        RoundWhole(users[u].coins);
      }
    }
  }

  // ---------------------------------------------------------------- leaderboard

  /** The first line of the leaderboard holds a largest balance. */
  lemma LeaderboardStartsWithRichest(users: map<int, User>)
    requires users != map[]
    ensures var board := GetSorted(users);
      |board| > 0 && board[0].userid in users &&
      forall u :: u in users ==> board[0].coins >= users[u].coins
  {
    var board := GetSorted(users);
    forall u | u in users ensures board[0].coins >= users[u].coins {
      assert Standing(u, users[u].coins) in board;
    }
  }
}
