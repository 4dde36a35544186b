/**
 * Properties of the customer flow that span several requests: blocking,
 * the OTP round trip and its attempt limit, orders as the customer sees
 * them, clearing a table and the sweep.
 */
module Flows {
  import opened Util
  import opened Phone
  import opened Orders
  import opened Handlers

  /** `/block` and `/send-otp` normalise alike: a blocked number gets no OTP, however it is typed. */
  lemma BlockedNumberRefused(config: Config, st: State, raw: string, blockedAt: int,
                             scanId: string, phone: string, now: int, random: real)
    requires 0.0 <= random < 1.0
    requires DigitsOnly(phone) == DigitsOnly(raw)
    ensures var r := SendOtpStep(config, BlockStep(st, raw, blockedAt).state, scanId, phone, now, random);
            r.reply.Refused? && r.state.sessions == if r.reply == Refused(Timeout) then st.sessions - {scanId} else st.sessions
  {
  }

  /** Blocking a number changes nothing for a number with other digits. */
  lemma BlockOnlyThatNumber(config: Config, st: State, raw: string, blockedAt: int,
                            scanId: string, phone: string, now: int, random: real)
    requires 0.0 <= random < 1.0
    requires DigitsOnly(phone) != DigitsOnly(raw)
    ensures var before := SendOtpStep(config, st, scanId, phone, now, random);
            var after := SendOtpStep(config, BlockStep(st, raw, blockedAt).state, scanId, phone, now, random);
            after.reply == before.reply && after.state.sessions == before.state.sessions
            && after.state.rateLimit == before.state.rateLimit
  {
    PhoneKeyMatches(phone, raw);
  }

  /** The code `/send-otp` issues is accepted by `/verify-otp` within its lifetime, and the table is taken. */
  lemma OtpRoundTrip(config: Config, st: State, scanId: string, phone: string, sentAt: int, random: real,
                     enteredAt: int, orderCode: string)
    requires Valid(config, st)
    requires 0.0 <= random < 1.0
    requires SendOtpStep(config, st, scanId, phone, sentAt, random).reply.OtpPage?
    requires enteredAt <= sentAt + OtpLifetime
    ensures var sent := SendOtpStep(config, st, scanId, phone, sentAt, random);
            var r := VerifyOtpStep(config, sent.state, scanId, sent.reply.otp, enteredAt, orderCode);
            var t := st.sessions[scanId].table;
            && r.reply == MenuPage(orderCode)
            && r.state.sessions[scanId].status == Active
            && r.state.sessions[scanId].phone == Some(PhoneKey(phone))
            && t in r.state.tables && r.state.tables[t].sessionId == scanId
  {
  }

  /**
   * A third wrong code still leaves the session in place, with no tries
   * left; the next submission, even of the right code, deletes it.
   */
  lemma ThirdWrongCodeKeepsSession(config: Config, st: State, scanId: string, phone: string, sentAt: int, random: real,
                                   wrong1: string, wrong2: string, wrong3: string, fourth: string,
                                   at1: int, at2: int, at3: int, at4: int, c1: string, c2: string, c3: string, c4: string)
    requires Valid(config, st)
    requires 0.0 <= random < 1.0
    requires SendOtpStep(config, st, scanId, phone, sentAt, random).reply.OtpPage?
    requires var otp := OtpCode(random); wrong1 != otp && wrong2 != otp && wrong3 != otp
    requires at1 <= sentAt + OtpLifetime && at2 <= sentAt + OtpLifetime
    requires at3 <= sentAt + OtpLifetime && at4 <= sentAt + OtpLifetime
    ensures var s0 := SendOtpStep(config, st, scanId, phone, sentAt, random).state;
            var r1 := VerifyOtpStep(config, s0, scanId, wrong1, at1, c1);
            var r2 := VerifyOtpStep(config, r1.state, scanId, wrong2, at2, c2);
            var r3 := VerifyOtpStep(config, r2.state, scanId, wrong3, at3, c3);
            var r4 := VerifyOtpStep(config, r3.state, scanId, fourth, at4, c4);
            && r1.reply == Refused(WrongOtp(2))
            && r2.reply == Refused(WrongOtp(1))
            && r3.reply == Refused(WrongOtp(0))
            && scanId in r3.state.sessions && r3.state.sessions[scanId].status == PendingOtp
            && r4.reply == Refused(TooManyWrongTries)
            && scanId !in r4.state.sessions
  {
    var s0 := SendOtpStep(config, st, scanId, phone, sentAt, random).state;
    var r1 := VerifyOtpStep(config, s0, scanId, wrong1, at1, c1);
    assert r1.state.sessions[scanId].otpAttempts == Some(1);
    var r2 := VerifyOtpStep(config, r1.state, scanId, wrong2, at2, c2);
    assert r2.state.sessions[scanId].otpAttempts == Some(2);
    var r3 := VerifyOtpStep(config, r2.state, scanId, wrong3, at3, c3);
    assert r3.state.sessions[scanId].otpAttempts == Some(3);
  }

  /** The placeholder order written on verification never shows on anyone's order page or bill. */
  lemma PlaceholderNotShown(config: Config, st: State, scanId: string, entered: string, now: int, orderCode: string, who: string)
    requires Valid(config, st)
    ensures var r := VerifyOtpStep(config, st, scanId, entered, now, orderCode);
            r.reply.MenuPage? ==> orderCode in r.state.orders && !Shown(r.state.orders[orderCode], who)
  {
  }

  /** A placed order shows on the customer's page, under its new code, with the total of its lines. */
  lemma PlacedOrderShown(config: Config, menu: seq<MenuItem>, st: State, scanId: string, orderCode: string,
                         notes: string, form: map<int, int>, now: int, newCode: string, listing: seq<(string, Order)>)
    requires Valid(config, st)
    requires PlaceOrderStep(config, menu, st, scanId, orderCode, notes, form, now, newCode).reply.OrderPlaced?
    requires IsListing(listing, PlaceOrderStep(config, menu, st, scanId, orderCode, notes, form, now, newCode).state.orders)
    ensures var orders := PlaceOrderStep(config, menu, st, scanId, orderCode, notes, form, now, newCode).state.orders;
            && newCode in orders
            && (newCode, orders[newCode]) in Mine(listing, scanId)
            && orders[newCode].total == SumSubtotals(orders[newCode].items)
  {
    var orders := PlaceOrderStep(config, menu, st, scanId, orderCode, notes, form, now, newCode).state.orders;
    MineExact(listing, orders, scanId, newCode);
    var o :| (newCode, o) in Mine(listing, scanId);
    var i :| 0 <= i < |listing| && listing[i] == (newCode, o);
  }

  /** The bill's total, summed over lines, is the order page's total, summed over orders. */
  lemma BillMatchesMyOrders(config: Config, st: State, listing: seq<(string, Order)>, scanId: string)
    requires Valid(config, st)
    requires IsListing(listing, st.orders)
    ensures SumSubtotals(AllItems(Mine(listing, scanId))) == GrandTotal(NewestFirstSort(Mine(listing, scanId)))
  {
    var mine := Mine(listing, scanId);
    forall i | 0 <= i < |mine|
      ensures Consistent(mine[i].1)
    {
      assert mine[i] in mine;
      var j :| 0 <= j < |listing| && listing[j] == mine[i];
    }
    BillMatchesOrders(mine);
    SortKeepsTotal(mine);
  }

  /** After `/clear-table/n`, the session that held table n can place no more orders. */
  lemma ClearedSessionCannotOrder(config: Config, menu: seq<MenuItem>, st: State, num: int, orderCode: string,
                                  notes: string, form: map<int, int>, now: int, newCode: string)
    requires Valid(config, st)
    requires num in st.tables && st.tables[num].sessionId in st.sessions && st.tables[num].sessionId != ""
    ensures var cleared := ClearTableStep(config, st, num).state;
            var id := st.tables[num].sessionId;
            && cleared.sessions[id].status == Closed
            && PlaceOrderStep(config, menu, cleared, id, orderCode, notes, form, now, newCode).reply == Refused(SessionExpired)
  {
  }

  /**
   * The sweep frees the table of every stale session, even when another,
   * live session now holds that table.
   */
  lemma SweepFreesOccupiedTable(config: Config, st: State, now: int, stale: string, holder: string, t: int)
    requires stale in st.sessions && Stale(st.sessions[stale], now) && st.sessions[stale].table == t && t != 0
    requires holder in st.sessions && !Stale(st.sessions[holder], now)
    requires t in st.tables && st.tables[t].sessionId == holder
    ensures var r := SweepStep(config, st, now).state;
            holder in r.sessions && r.sessions[holder] == st.sessions[holder] && t !in r.tables
  {
  }

  /** A session the sweep removes is gone for every later request: `/place-order` reports it expired. */
  lemma SweptSessionCannotOrder(config: Config, menu: seq<MenuItem>, st: State, now: int, scanId: string,
                                orderCode: string, notes: string, form: map<int, int>, later: int, newCode: string)
    requires Valid(config, st)
    requires scanId in st.sessions && Stale(st.sessions[scanId], now)
    ensures var swept := SweepStep(config, st, now).state;
            PlaceOrderStep(config, menu, swept, scanId, orderCode, notes, form, later, newCode).reply == Refused(SessionExpired)
  {
  }
}
