/**
 * The customer flow of server.js as transitions over its five stores
 * (sessions, orders, tables, rateLimit, blacklist). Each route handler is a
 * function from the stores and the request to the new stores and the page
 * sent back; the `Server` class runs the same handlers field by field.
 *
 * The clock (`Date.now()`, the hour `isOpen` reads), `Math.random()` and
 * `genCode()` are parameters. Each handler reads the clock once.
 */
module Handlers {
  import opened Util
  import Token
  import opened Phone
  import opened RateLimit
  import opened Orders

  datatype Status = PendingPhone | PendingOtp | Active | Closed

  /**
   * A sessions-store record. Fields the source adds later, or deletes, are
   * optional: `phone` from `/send-otp`, the `otp*` fields while an OTP is
   * pending, the rest from `/verify-otp` (`verifiedAt` also stands for
   * `verified: true`).
   */
  datatype Session = Session(
    table: int,
    status: Status,
    ip: string,
    scannedAt: int,
    phone: Option<string>,
    otp: Option<string>,
    otpExpiry: Option<int>,
    otpAttempts: Option<int>,
    verifiedAt: Option<int>,
    expiresAt: Option<int>,
    orderCode: Option<string>,
    orderCount: Option<int>)

  /** A tables-store record `{ occupied: true, sessionId, phone, orderCode, since }`, keyed by table number. */
  datatype Occupancy = Occupancy(sessionId: string, phone: Option<string>, orderCode: string, since: int)

  /** The settings the handlers read: `TOTAL_TABLES`, opening hours and `SESSION_EXPIRY` in milliseconds. */
  datatype Config = Config(totalTables: int, openHour: int, closeHour: int, sessionExpiry: int)

  datatype State = State(
    sessions: map<string, Session>,
    orders: map<string, Order>,
    tables: map<int, Occupancy>,
    rateLimit: map<string, Window>,
    blacklist: map<string, int>)

  /** The error pages, by title. */
  datatype Refusal =
    | TooFast
    | InvalidQrCode
    | SessionExpired
    | Timeout
    | InvalidNumber
    | NumberBlocked
    | TooManyAttempts
    | OtpExpired
    | TooManyWrongTries
    | WrongOtp(left: int)
    | Expired
    | Invalid
    | LimitReached
    | NothingSelected

  datatype Reply =
    | Refused(why: Refusal)
    | ShopClosed
    | PhonePage(scanId: string, table: int)
    | OtpPage(otp: string)
    | MenuPage(orderCode: string)
    | OrderPlaced(code: string, total: int)
    | Done

  datatype Step = Step(state: State, reply: Reply)

  const ScanMax := 5
  const ScanWindow := 60000
  const OtpSendMax := 3
  const OtpSendWindow := 3600000
  /** `/send-otp` must come within 5 minutes of the scan. */
  const PhoneTimeout := 300000
  /** An OTP is valid for 5 minutes. */
  const OtpLifetime := 300000
  const MaxWrongOtp := 3
  const MaxOrders := 10
  /** The sweep drops unverified sessions 10 minutes after the scan. */
  const StuckAfter := 600000
  /** The sweep's `rateLimit.cleanup('start', 3600000)`. */
  const RateMaxAge := 3600000

  /**
   * `isOpen()` at the given hour of the day: from the opening hour up to,
   * not including, the closing hour. Hours that run past midnight
   * (closing before opening) leave the shop closed all day.
   */
  function IsOpen(config: Config, hour: int): (open: bool)
    ensures open ==> config.openHour <= hour && hour < config.closeHour
    ensures !open ==> hour < config.openHour || config.closeHour <= hour
    ensures open ==> config.openHour < config.closeHour
  {
    config.openHour <= hour < config.closeHour
  }

  /** `isBlocked(phone)`: blacklist records are objects, so any stored record counts. */
  function IsBlocked(st: State, phone: string): (blocked: bool)
    ensures blocked <==> Get(st.blacklist, phone).Some?
  {
    phone in st.blacklist
  }

  /** What a session record promises in each status. */
  predicate SessionOk(config: Config, s: Session) {
    && 1 <= s.table <= config.totalTables
    && (s.status.PendingOtp? ==>
          && s.phone.Some? && s.otp.Some? && IsOtp(s.otp.value)
          && s.otpExpiry.Some? && s.otpAttempts.Some?
          && 0 <= s.otpAttempts.value <= MaxWrongOtp)
    && (s.status.Active? ==>
          && s.expiresAt.Some? && s.orderCode.Some? && s.orderCount.Some?
          && 0 <= s.orderCount.value <= MaxOrders)
  }

  /**
   * The invariant every handler keeps: sessions are well formed (so an
   * active session never has more than 10 orders), occupied tables are in
   * range, and every order's total is the sum of its lines.
   */
  ghost predicate Valid(config: Config, st: State) {
    && (forall id :: id in st.sessions ==> SessionOk(config, st.sessions[id]))
    && (forall t :: t in st.tables ==> 1 <= t <= config.totalTables)
    && (forall c :: c in st.orders ==> Consistent(st.orders[c]))
  }

  /** The record `/scan` stores. */
  function NewSession(table: int, ip: string, now: int): Session {
    Session(table, PendingPhone, ip, now, None, None, None, None, None, None, None, None)
  }

  /** Storing a well-formed session keeps the stores valid. */
  lemma SessionAddedKeepsValid(config: Config, st: State, id: string, s: Session)
    ensures Valid(config, st) && SessionOk(config, s) ==> Valid(config, st.(sessions := st.sessions[id := s]))
  {
  }

  /** `/scan/:token`. */
  function ScanStep(config: Config, codec: Token.Codec, st: State, ip: string, hour: int, token: string, scanId: string, now: int): (r: Step)
    ensures r.state.orders == st.orders && r.state.tables == st.tables && r.state.blacklist == st.blacklist
    ensures r.state.rateLimit == Charge(st.rateLimit, Key("scan", ip), now, ScanMax, ScanWindow).1
    ensures r.reply.PhonePage? <==>
              && Charge(st.rateLimit, Key("scan", ip), now, ScanMax, ScanWindow).0
              && IsOpen(config, hour)
              && Token.VerifyToken(codec, config.totalTables, token).Valid?
    ensures r.reply.PhonePage? ==>
              && r.reply.scanId == scanId
              && r.reply.table == Token.VerifyToken(codec, config.totalTables, token).table
              && 1 <= r.reply.table <= config.totalTables
              && r.state.sessions == st.sessions[scanId := NewSession(r.reply.table, ip, now)]
    ensures r.reply == Refused(TooFast) <==> !Charge(st.rateLimit, Key("scan", ip), now, ScanMax, ScanWindow).0
    ensures r.reply == ShopClosed <==>
              Charge(st.rateLimit, Key("scan", ip), now, ScanMax, ScanWindow).0 && !IsOpen(config, hour)
    ensures r.reply == Refused(InvalidQrCode) <==>
              && Charge(st.rateLimit, Key("scan", ip), now, ScanMax, ScanWindow).0
              && IsOpen(config, hour)
              && Token.VerifyToken(codec, config.totalTables, token).Invalid?
    ensures !r.reply.PhonePage? ==> r.state.sessions == st.sessions
    ensures Valid(config, st) ==> Valid(config, r.state)
  {
    var charged := Charge(st.rateLimit, Key("scan", ip), now, ScanMax, ScanWindow);
    var st1 := st.(rateLimit := charged.1);
    if !charged.0 then Step(st1, Refused(TooFast))
    else if !IsOpen(config, hour) then Step(st1, ShopClosed)
    else
      match Token.VerifyToken(codec, config.totalTables, token)
      case Invalid => Step(st1, Refused(InvalidQrCode))
      case Valid(t) =>
        SessionAddedKeepsValid(config, st1, scanId, NewSession(t, ip, now));
        Step(st1.(sessions := st1.sessions[scanId := NewSession(t, ip, now)]), PhonePage(scanId, t))
  }

  /** `/send-otp`; `random` is the `Math.random()` draw. */
  function SendOtpStep(config: Config, st: State, scanId: string, phone: string, now: int, random: real): (r: Step)
    requires 0.0 <= random < 1.0
    ensures r.state.orders == st.orders && r.state.tables == st.tables && r.state.blacklist == st.blacklist
    ensures r.reply.OtpPage? || r.reply.Refused?
    ensures r.reply.OtpPage? <==>
              && scanId in st.sessions && st.sessions[scanId].status.PendingPhone?
              && now - st.sessions[scanId].scannedAt <= PhoneTimeout
              && |DigitsOnly(phone)| == PhoneDigits
              && !IsBlocked(st, PhoneKey(phone))
              && Admit(Get(st.rateLimit, Key("otp", PhoneKey(phone))), now, OtpSendMax, OtpSendWindow).Allow?
    ensures r.reply.OtpPage? ==>
              var s := st.sessions[scanId];
              && IsOtp(r.reply.otp)
              && r.reply.otp == OtpCode(random)
              && r.state.sessions == st.sessions[scanId := s.(
                   status := PendingOtp, phone := Some(PhoneKey(phone)), otp := Some(r.reply.otp),
                   otpExpiry := Some(now + OtpLifetime), otpAttempts := Some(0))]
              && r.state.rateLimit == Charge(st.rateLimit, Key("otp", PhoneKey(phone)), now, OtpSendMax, OtpSendWindow).1
    ensures r.reply.Refused? ==> r.state.rateLimit == st.rateLimit
    ensures r.reply == Refused(Timeout) <==>
              scanId in st.sessions && st.sessions[scanId].status.PendingPhone? && now - st.sessions[scanId].scannedAt > PhoneTimeout
    ensures r.reply == Refused(Timeout) ==> r.state.sessions == st.sessions - {scanId}
    ensures r.reply == Refused(SessionExpired) <==> !(scanId in st.sessions && st.sessions[scanId].status.PendingPhone?)
    ensures r.reply == Refused(InvalidNumber) <==>
              && scanId in st.sessions && st.sessions[scanId].status.PendingPhone?
              && now - st.sessions[scanId].scannedAt <= PhoneTimeout
              && |DigitsOnly(phone)| != PhoneDigits
    ensures r.reply == Refused(NumberBlocked) <==>
              && scanId in st.sessions && st.sessions[scanId].status.PendingPhone?
              && now - st.sessions[scanId].scannedAt <= PhoneTimeout
              && |DigitsOnly(phone)| == PhoneDigits
              && IsBlocked(st, PhoneKey(phone))
    ensures r.reply == Refused(TooManyAttempts) <==>
              && scanId in st.sessions && st.sessions[scanId].status.PendingPhone?
              && now - st.sessions[scanId].scannedAt <= PhoneTimeout
              && |DigitsOnly(phone)| == PhoneDigits
              && !IsBlocked(st, PhoneKey(phone))
              && Admit(Get(st.rateLimit, Key("otp", PhoneKey(phone))), now, OtpSendMax, OtpSendWindow).Refuse?
    ensures r.reply.Refused? && r.reply != Refused(Timeout) ==> r.state.sessions == st.sessions
    ensures Valid(config, st) ==> Valid(config, r.state)
  {
    if scanId !in st.sessions || !st.sessions[scanId].status.PendingPhone? then Step(st, Refused(SessionExpired))
    else
      var s := st.sessions[scanId];
      if now - s.scannedAt > PhoneTimeout then Step(st.(sessions := st.sessions - {scanId}), Refused(Timeout))
      else
        var cleanPhone := DigitsOnly(phone);
        if |cleanPhone| != PhoneDigits then Step(st, Refused(InvalidNumber))
        else
          var fullPhone := PhoneKey(phone);
          if IsBlocked(st, fullPhone) then Step(st, Refused(NumberBlocked))
          else
            var charged := Charge(st.rateLimit, Key("otp", fullPhone), now, OtpSendMax, OtpSendWindow);
            if !charged.0 then Step(st, Refused(TooManyAttempts))
            else
              var otp := OtpCode(random);
              var s' := s.(status := PendingOtp, phone := Some(fullPhone), otp := Some(otp),
                           otpExpiry := Some(now + OtpLifetime), otpAttempts := Some(0));
              Step(st.(sessions := st.sessions[scanId := s'], rateLimit := charged.1), OtpPage(otp))
  }

  /** The placeholder order `/verify-otp` stores under the new order code. */
  function Placeholder(table: int, phone: Option<string>, scanId: string, now: int): Order {
    Order(table, phone, scanId, None, [], None, 0, now, "verified")
  }

  /** Activating a session, taking its table and writing the placeholder keep the stores valid. */
  lemma VerifiedKeepsValid(config: Config, st: State, id: string, s: Session, occupancy: Occupancy, code: string, o: Order)
    requires Valid(config, st) && SessionOk(config, s) && Consistent(o)
    ensures Valid(config, st.(sessions := st.sessions[id := s], tables := st.tables[s.table := occupancy],
                              orders := st.orders[code := o]))
  {
  }

  /** `/verify-otp`; `entered` is the four digit fields joined, `orderCode` the fresh `genCode()`. */
  function VerifyOtpStep(config: Config, st: State, scanId: string, entered: string, now: int, orderCode: string): (r: Step)
    requires Valid(config, st)
    ensures r.state.rateLimit == st.rateLimit && r.state.blacklist == st.blacklist
    ensures r.reply.MenuPage? || r.reply.Refused?
    ensures !(scanId in st.sessions && st.sessions[scanId].status.PendingOtp?) ==> r == Step(st, Refused(SessionExpired))
    ensures scanId in st.sessions && st.sessions[scanId].status.PendingOtp? ==>
              var s := st.sessions[scanId];
              && (now > s.otpExpiry.value ==>
                    r == Step(st.(sessions := st.sessions - {scanId}), Refused(OtpExpired)))
              && (now <= s.otpExpiry.value && s.otpAttempts.value >= MaxWrongOtp ==>
                    r == Step(st.(sessions := st.sessions - {scanId}), Refused(TooManyWrongTries)))
              && (now <= s.otpExpiry.value && s.otpAttempts.value < MaxWrongOtp && entered != s.otp.value ==>
                    && r.reply == Refused(WrongOtp(MaxWrongOtp - (s.otpAttempts.value + 1)))
                    && 0 <= r.reply.why.left < MaxWrongOtp
                    && r.state == st.(sessions := st.sessions[scanId := s.(otpAttempts := Some(s.otpAttempts.value + 1))]))
              && (r.reply.MenuPage? <==> now <= s.otpExpiry.value && s.otpAttempts.value < MaxWrongOtp && entered == s.otp.value)
    ensures r.reply.MenuPage? ==>
              var s := st.sessions[scanId];
              && r.reply.orderCode == orderCode
              && r.state.sessions == st.sessions[scanId := s.(
                   status := Active, verifiedAt := Some(now), expiresAt := Some(now + config.sessionExpiry),
                   orderCode := Some(orderCode), orderCount := Some(0),
                   otp := None, otpExpiry := None, otpAttempts := None)]
              && r.state.tables == st.tables[s.table := Occupancy(scanId, s.phone, orderCode, now)]
              && r.state.orders == st.orders[orderCode := Placeholder(s.table, s.phone, scanId, now)]
    ensures !r.reply.MenuPage? ==> r.state.tables == st.tables && r.state.orders == st.orders
    ensures Valid(config, r.state)
  {
    if scanId !in st.sessions || !st.sessions[scanId].status.PendingOtp? then Step(st, Refused(SessionExpired))
    else
      var s := st.sessions[scanId];
      if now > s.otpExpiry.value then Step(st.(sessions := st.sessions - {scanId}), Refused(OtpExpired))
      else if s.otpAttempts.value >= MaxWrongOtp then Step(st.(sessions := st.sessions - {scanId}), Refused(TooManyWrongTries))
      else if entered != s.otp.value then
        var attempts := s.otpAttempts.value + 1;
        Step(st.(sessions := st.sessions[scanId := s.(otpAttempts := Some(attempts))]), Refused(WrongOtp(MaxWrongOtp - attempts)))
      else
        var s' := s.(status := Active, verifiedAt := Some(now), expiresAt := Some(now + config.sessionExpiry),
                     orderCode := Some(orderCode), orderCount := Some(0),
                     otp := None, otpExpiry := None, otpAttempts := None);
        VerifiedKeepsValid(config, st, scanId, s', Occupancy(scanId, s.phone, orderCode, now), orderCode,
                           Placeholder(s.table, s.phone, scanId, now));
        Step(st.(sessions := st.sessions[scanId := s'],
                 tables := st.tables[s.table := Occupancy(scanId, s.phone, orderCode, now)],
                 orders := st.orders[orderCode := Placeholder(s.table, s.phone, scanId, now)]),
             MenuPage(orderCode))
  }

  /** Counting one more order against an active session keeps the stores valid. */
  lemma PlacedKeepsValid(config: Config, st: State, scanId: string, code: string, o: Order)
    requires Valid(config, st)
    requires scanId in st.sessions && st.sessions[scanId].status.Active?
    requires st.sessions[scanId].orderCount.value < MaxOrders
    requires Consistent(o)
    ensures var s := st.sessions[scanId];
            Valid(config, st.(orders := st.orders[code := o],
                              sessions := st.sessions[scanId := s.(orderCount := Some(s.orderCount.value + 1))]))
  {
  }

  /** `/place-order`; `form` holds the quantity fields and `newCode` is the fresh `genCode()`. */
  function PlaceOrderStep(config: Config, menu: seq<MenuItem>, st: State, scanId: string, orderCode: string,
                          notes: string, form: map<int, int>, now: int, newCode: string): (r: Step)
    requires Valid(config, st)
    ensures r.state.tables == st.tables && r.state.rateLimit == st.rateLimit && r.state.blacklist == st.blacklist
    ensures r.reply.OrderPlaced? || r.reply.Refused?
    ensures r.reply.OrderPlaced? <==>
              && scanId in st.sessions && st.sessions[scanId].status.Active?
              && now <= st.sessions[scanId].expiresAt.value
              && st.sessions[scanId].orderCode == Some(orderCode)
              && st.sessions[scanId].orderCount.value < MaxOrders
              && Selected(menu, form) != []
    ensures r.reply.Refused? ==> r.state == st
    ensures r.reply == Refused(SessionExpired) <==> !(scanId in st.sessions && st.sessions[scanId].status.Active?)
    ensures r.reply == Refused(Expired) <==>
              scanId in st.sessions && st.sessions[scanId].status.Active? && now > st.sessions[scanId].expiresAt.value
    ensures r.reply == Refused(Invalid) <==>
              && scanId in st.sessions && st.sessions[scanId].status.Active?
              && now <= st.sessions[scanId].expiresAt.value
              && st.sessions[scanId].orderCode != Some(orderCode)
    ensures r.reply == Refused(LimitReached) <==>
              && scanId in st.sessions && st.sessions[scanId].status.Active?
              && now <= st.sessions[scanId].expiresAt.value
              && st.sessions[scanId].orderCode == Some(orderCode)
              && st.sessions[scanId].orderCount.value >= MaxOrders
    ensures r.reply == Refused(NothingSelected) <==>
              && scanId in st.sessions && st.sessions[scanId].status.Active?
              && now <= st.sessions[scanId].expiresAt.value
              && st.sessions[scanId].orderCode == Some(orderCode)
              && st.sessions[scanId].orderCount.value < MaxOrders
              && Selected(menu, form) == []
    ensures r.reply == Refused(NothingSelected) ==> forall i :: 0 <= i < |menu| ==> Quantity(form, menu[i].id) <= 0
    ensures r.reply.OrderPlaced? ==>
              var s := st.sessions[scanId];
              var o := Order(s.table, s.phone, scanId, Some(newCode), Selected(menu, form), Some(notes), MenuTotal(menu, form), now, "new");
              && r.reply == OrderPlaced(newCode, o.total)
              && r.state.orders == st.orders[newCode := o]
              && o.total == SumSubtotals(o.items)
              && r.state.sessions == st.sessions[scanId := s.(orderCount := Some(s.orderCount.value + 1))]
              && s.orderCount.value + 1 <= MaxOrders
    ensures Valid(config, r.state)
  {
    if scanId !in st.sessions || !st.sessions[scanId].status.Active? then Step(st, Refused(SessionExpired))
    else
      var s := st.sessions[scanId];
      if now > s.expiresAt.value then Step(st, Refused(Expired))
      else if s.orderCode != Some(orderCode) then Step(st, Refused(Invalid))
      else if s.orderCount.value >= MaxOrders then Step(st, Refused(LimitReached))
      else
        var items := Selected(menu, form);
        if items == [] then
          NothingSelectedIff(menu, form);
          Step(st, Refused(NothingSelected))
        else
          var total := MenuTotal(menu, form);
          SelectedTotal(menu, form);
          var o := Order(s.table, s.phone, scanId, Some(newCode), items, Some(notes), total, now, "new");
          PlacedKeepsValid(config, st, scanId, newCode, o);
          Step(st.(orders := st.orders[newCode := o],
                   sessions := st.sessions[scanId := s.(orderCount := Some(s.orderCount.value + 1))]),
               OrderPlaced(newCode, total))
  }

  /** `/api/status/:code/:status`: an existing order takes the new status; nothing else changes. */
  function SetStatusStep(st: State, code: string, status: string): (r: Step)
    ensures r.reply == Done
    ensures r.state.sessions == st.sessions && r.state.tables == st.tables
    ensures r.state.rateLimit == st.rateLimit && r.state.blacklist == st.blacklist
    ensures r.state.orders.Keys == st.orders.Keys
    ensures forall c :: c in st.orders ==>
              r.state.orders[c] == if c == code then st.orders[c].(status := status) else st.orders[c]
  {
    match Get(st.orders, code)
    case Some(o) => Step(st.(orders := st.orders[code := o.(status := status)]), Done)
    case None => Step(st, Done)
  }

  /** `/block/:phone`: records the number in its stored form. */
  function BlockStep(st: State, raw: string, now: int): (r: Step)
    ensures r.reply == Done
    ensures IsBlocked(r.state, PhoneKey(raw))
    ensures forall p :: p != PhoneKey(raw) ==> (IsBlocked(r.state, p) <==> IsBlocked(st, p))
    ensures r.state == st.(blacklist := r.state.blacklist)
  {
    Step(st.(blacklist := st.blacklist[PhoneKey(raw) := now]), Done)
  }

  /** The session a table record names, when it names one that exists. */
  function Occupant(st: State, num: int): (r: Option<string>)
    ensures r.Some? ==> num in st.tables && r.value == st.tables[num].sessionId && r.value in st.sessions
  {
    if num in st.tables && st.tables[num].sessionId != "" && st.tables[num].sessionId in st.sessions
    then Some(st.tables[num].sessionId) else None
  }

  /** `/clear-table/:num`. */
  function ClearTableStep(config: Config, st: State, num: int): (r: Step)
    ensures r.reply == Done
    ensures num !in r.state.tables
    ensures forall t :: t != num ==> (t in r.state.tables <==> t in st.tables)
    ensures forall t :: t in r.state.tables ==> r.state.tables[t] == st.tables[t]
    ensures r.state.sessions.Keys == st.sessions.Keys
    ensures forall id :: id in st.sessions ==>
              r.state.sessions[id] == if Occupant(st, num) == Some(id) then st.sessions[id].(status := Closed) else st.sessions[id]
    ensures r.state.orders == st.orders && r.state.rateLimit == st.rateLimit && r.state.blacklist == st.blacklist
    ensures Valid(config, st) ==> Valid(config, r.state)
  {
    var sessions := match Occupant(st, num)
      case Some(id) => st.sessions[id := st.sessions[id].(status := Closed)]
      case None => st.sessions;
    Step(st.(sessions := sessions, tables := st.tables - {num}), Done)
  }

  /** The sweep's test: expired, or still unverified 10 minutes after the scan. */
  function Stale(s: Session, now: int): (stale: bool)
    ensures stale && (s.status.Active? || s.status.Closed?) ==>
              s.expiresAt.Some? && s.expiresAt.value != 0 && now > s.expiresAt.value
    ensures !stale && (s.status.PendingPhone? || s.status.PendingOtp?) ==> now - s.scannedAt <= StuckAfter
    ensures s.expiresAt.Some? && s.expiresAt.value != 0 && now > s.expiresAt.value ==> stale
  {
    || (s.expiresAt.Some? && s.expiresAt.value != 0 && now > s.expiresAt.value)
    || ((s.status.PendingPhone? || s.status.PendingOtp?) && now - s.scannedAt > StuckAfter)
  }

  /** A session the sweep would drop at one time, it drops at every later time. */
  lemma StaleStaysStale(s: Session, now: int, later: int)
    requires Stale(s, now) && now <= later
    ensures Stale(s, later)
  {
  }

  /** The tables the sweep frees on behalf of the stale sessions among `ids`. */
  function Freed(sessions: map<string, Session>, ids: set<string>, now: int): set<int> {
    set id | id in ids && id in sessions && Stale(sessions[id], now) && sessions[id].table != 0 :: sessions[id].table
  }

  /** The body of the 5-minute `setInterval` sweep. */
  function SweepStep(config: Config, st: State, now: int): (r: Step)
    ensures r.reply == Done
    ensures forall id :: id in r.state.sessions <==> id in st.sessions && !Stale(st.sessions[id], now)
    ensures forall id :: id in r.state.sessions ==> r.state.sessions[id] == st.sessions[id]
    ensures forall t :: t in r.state.tables <==>
              t in st.tables && !exists id :: id in st.sessions && Stale(st.sessions[id], now) && st.sessions[id].table == t && t != 0
    ensures forall t :: t in r.state.tables ==> r.state.tables[t] == st.tables[t]
    ensures r.state.rateLimit == Pruned(st.rateLimit, now, RateMaxAge)
    ensures r.state.orders == st.orders && r.state.blacklist == st.blacklist
    ensures Valid(config, st) ==> Valid(config, r.state)
  {
    var freed := Freed(st.sessions, st.sessions.Keys, now);
    Step(st.(sessions := map id | id in st.sessions && !Stale(st.sessions[id], now) :: st.sessions[id],
             tables := map t | t in st.tables && t !in freed :: st.tables[t],
             rateLimit := Pruned(st.rateLimit, now, RateMaxAge)),
         Done)
  }
}
