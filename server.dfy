/**
 * The Express app of server.js as an object over its five stores. Each
 * route handler is a method that reads a store record, changes it field by
 * field and writes it back, and is proved to make exactly the transition
 * its `Handlers` step function describes.
 */
module Server {
  import opened Util
  import Token
  import opened Phone
  import opened RateLimit
  import opened Orders
  import opened Handlers
  import Flows

  /** The `/my-orders/:scanId` page: not found, or the table, the orders newest first and their grand total. */
  datatype OrdersPage = OrdersNotFound | OrdersPage(table: int, orders: seq<(string, Order)>, grandTotal: int)

  /** The `/request-bill/:scanId` page: not found, or the table, every ordered line and their sum. */
  datatype BillPage = BillNotFound | BillPage(table: int, items: seq<Item>, grandTotal: int)

  class Server {
    const config: Config
    /** The token codec and HMAC keyed by `SECRET_KEY`. */
    const codec: Token.Codec
    /** `db.menu.get('items') || []`. */
    const menu: seq<MenuItem>

    var sessions: map<string, Session>
    var orders: map<string, Order>
    var tables: map<int, Occupancy>
    var rateLimit: map<string, Window>
    var blacklist: map<string, int>

    function Stores(): State
      reads this
    {
      State(sessions, orders, tables, rateLimit, blacklist)
    }

    ghost predicate Valid()
      reads this
    {
      Handlers.Valid(config, Stores())
    }

    /**
     * A server over the stores its files hold when it starts: `initial`,
     * with an empty store for each file that did not exist yet.
     */
    constructor (config: Config, codec: Token.Codec, menu: seq<MenuItem>, initial: State)
      requires Handlers.Valid(config, initial)
      ensures Valid()
      ensures this.config == config && this.codec == codec && this.menu == menu
      ensures Stores() == initial
    {
      this.config := config;
      this.codec := codec;
      this.menu := menu;
      sessions := initial.sessions;
      orders := initial.orders;
      tables := initial.tables;
      rateLimit := initial.rateLimit;
      blacklist := initial.blacklist;
    }

    /** `checkRate(id, type, max, windowMs)` at time `now`. */
    method CheckRate(id: string, kind: string, max: int, windowMs: int, now: int) returns (allowed: bool)
      modifies this
      ensures (allowed, rateLimit) == Charge(old(rateLimit), Key(kind, id), now, max, windowMs)
      ensures sessions == old(sessions) && orders == old(orders) && tables == old(tables) && blacklist == old(blacklist)
    {
      var key := Key(kind, id);
      var entry := Get(rateLimit, key);
      if entry.None? || now - entry.value.start > windowMs {
        rateLimit := rateLimit[key := Window(1, now)];
        return true;
      }
      var window := entry.value;
      if window.count >= max {
        return false;
      }
      window := window.(count := window.count + 1);
      rateLimit := rateLimit[key := window];
      return true;
    }

    /** `GET /scan/:token` from address `ip` at `hour` o'clock; `scanId` is the fresh `genCode()`. */
    method Scan(ip: string, hour: int, token: string, scanId: string, now: int) returns (reply: Reply)
      requires Valid()
      modifies this
      ensures Valid()
      ensures Step(Stores(), reply) == ScanStep(config, codec, old(Stores()), ip, hour, token, scanId, now)
    {
      var allowed := CheckRate(ip, "scan", ScanMax, ScanWindow, now);
      if !allowed {
        return Refused(TooFast);
      }
      if !IsOpen(config, hour) {
        return ShopClosed;
      }
      var check := Token.VerifyToken(codec, config.totalTables, token);
      if check.Invalid? {
        return Refused(InvalidQrCode);
      }
      var table := check.table;
      sessions := sessions[scanId := NewSession(table, ip, now)];
      return PhonePage(scanId, table);
    }

    /** `POST /send-otp`; `random` is the `Math.random()` draw. */
    method SendOtp(scanId: string, phone: string, now: int, random: real) returns (reply: Reply)
      requires Valid()
      requires 0.0 <= random < 1.0
      modifies this
      ensures Valid()
      ensures Step(Stores(), reply) == SendOtpStep(config, old(Stores()), scanId, phone, now, random)
    {
      var found := Get(sessions, scanId);
      if found.None? || !found.value.status.PendingPhone? {
        return Refused(SessionExpired);
      }
      var session := found.value;
      if now - session.scannedAt > PhoneTimeout {
        sessions := sessions - {scanId};
        return Refused(Timeout);
      }
      var cleanPhone := DigitsOnly(phone);
      if |cleanPhone| != PhoneDigits {
        return Refused(InvalidNumber);
      }
      var fullPhone := CountryCode + cleanPhone;
      if IsBlocked(Stores(), fullPhone) {
        return Refused(NumberBlocked);
      }
      var allowed := CheckRate(fullPhone, "otp", OtpSendMax, OtpSendWindow, now);
      if !allowed {
        return Refused(TooManyAttempts);
      }
      var otp := OtpCode(random);
      session := session.(status := PendingOtp);
      session := session.(phone := Some(fullPhone));
      session := session.(otp := Some(otp));
      session := session.(otpExpiry := Some(now + OtpLifetime));
      session := session.(otpAttempts := Some(0));
      sessions := sessions[scanId := session];
      return OtpPage(otp);
    }

    /** `POST /verify-otp` with the four digit fields; `orderCode` is the fresh `genCode()`. */
    method VerifyOtp(scanId: string, d1: string, d2: string, d3: string, d4: string, now: int, orderCode: string)
      returns (reply: Reply)
      requires Valid()
      modifies this
      ensures Valid()
      ensures Step(Stores(), reply) == VerifyOtpStep(config, old(Stores()), scanId, d1 + d2 + d3 + d4, now, orderCode)
    {
      var entered := d1 + d2 + d3 + d4;
      var found := Get(sessions, scanId);
      if found.None? || !found.value.status.PendingOtp? {
        return Refused(SessionExpired);
      }
      var session := found.value;
      if now > session.otpExpiry.value {
        sessions := sessions - {scanId};
        return Refused(OtpExpired);
      }
      if session.otpAttempts.value >= MaxWrongOtp {
        sessions := sessions - {scanId};
        return Refused(TooManyWrongTries);
      }
      if entered != session.otp.value {
        session := session.(otpAttempts := Some(session.otpAttempts.value + 1));
        sessions := sessions[scanId := session];
        var left := MaxWrongOtp - session.otpAttempts.value;
        return Refused(WrongOtp(left));
      }
      var table := session.table;
      session := session.(status := Active);
      session := session.(verifiedAt := Some(now));
      session := session.(expiresAt := Some(now + config.sessionExpiry));
      session := session.(orderCode := Some(orderCode));
      session := session.(orderCount := Some(0));
      session := session.(otp := None);
      session := session.(otpExpiry := None);
      session := session.(otpAttempts := None);
      sessions := sessions[scanId := session];
      tables := tables[table := Occupancy(scanId, session.phone, orderCode, now)];
      orders := orders[orderCode := Placeholder(table, session.phone, scanId, now)];
      return MenuPage(orderCode);
    }

    /** `POST /place-order`; `form` holds the quantity fields and `newCode` is the fresh `genCode()`. */
    method PlaceOrder(scanId: string, orderCode: string, notes: string, form: map<int, int>, now: int, newCode: string)
      returns (reply: Reply)
      requires Valid()
      modifies this
      ensures Valid()
      ensures Step(Stores(), reply) == PlaceOrderStep(config, menu, old(Stores()), scanId, orderCode, notes, form, now, newCode)
    {
      ghost var st0 := Stores();
      var found := Get(sessions, scanId);
      if found.None? || !found.value.status.Active? {
        return Refused(SessionExpired);
      }
      var session := found.value;
      if now > session.expiresAt.value {
        return Refused(Expired);
      }
      if session.orderCode != Some(orderCode) {
        return Refused(Invalid);
      }
      if session.orderCount.value >= MaxOrders {
        return Refused(LimitReached);
      }
      var selectedItems, total := SelectItems(menu, form);
      if |selectedItems| == 0 {
        return Refused(NothingSelected);
      }
      orders := orders[newCode := Order(session.table, session.phone, scanId, Some(newCode), selectedItems, Some(notes), total, now, "new")];
      session := session.(orderCount := Some(session.orderCount.value + 1));
      sessions := sessions[scanId := session];
      assert Stores() == PlaceOrderStep(config, menu, st0, scanId, orderCode, notes, form, now, newCode).state;
      return OrderPlaced(newCode, total);
    }

    /** `GET /my-orders/:scanId`, with `listing` the order `Object.entries` visits the orders store in. */
    function MyOrders(scanId: string, listing: seq<(string, Order)>): (page: OrdersPage)
      reads this
      requires IsListing(listing, orders)
      ensures page.OrdersNotFound? <==> scanId !in sessions
      ensures page.OrdersPage? ==>
                && page.table == sessions[scanId].table
                && multiset(page.orders) == multiset(Mine(listing, scanId))
                && NewestFirst(page.orders)
                && page.grandTotal == GrandTotal(Mine(listing, scanId))
    {
      match Get(sessions, scanId)
      case None => OrdersNotFound
      case Some(session) =>
        var mine := Mine(listing, scanId);
        var sorted := NewestFirstSort(mine);
        SortKeepsTotal(mine);
        OrdersPage(session.table, sorted, GrandTotal(sorted))
    }

    /** `GET /request-bill/:scanId`: every line of the customer's orders and the sum of their subtotals. */
    function RequestBill(scanId: string, listing: seq<(string, Order)>): (page: BillPage)
      reads this
      requires IsListing(listing, orders)
      ensures page.BillNotFound? <==> scanId !in sessions
      ensures page.BillPage? ==>
                && page.table == sessions[scanId].table
                && page.items == AllItems(Mine(listing, scanId))
                && page.grandTotal == SumSubtotals(page.items)
      ensures page.BillPage? && Valid() ==> page.grandTotal == MyOrders(scanId, listing).grandTotal
    {
      match Get(sessions, scanId)
      case None => BillNotFound
      case Some(session) =>
        var allItems := AllItems(Mine(listing, scanId));
        BillTotal(config, Stores(), listing, scanId);
        BillPage(session.table, allItems, SumSubtotals(allItems))
    }

    /** `GET /api/status/:code/:status`. */
    method SetStatus(code: string, status: string)
      requires Valid()
      modifies this
      ensures Valid()
      ensures Stores() == SetStatusStep(old(Stores()), code, status).state
    {
      var found := Get(orders, code);
      if found.Some? {
        var order := found.value;
        order := order.(status := status);
        orders := orders[code := order];
      }
    }

    /** `GET /block/:phone` at time `now`. */
    method Block(phone: string, now: int)
      requires Valid()
      modifies this
      ensures Valid()
      ensures Stores() == BlockStep(old(Stores()), phone, now).state
    {
      blacklist := blacklist[CountryCode + DigitsOnly(phone) := now];
    }

    /** `GET /clear-table/:num` for a numeric `num`. */
    method ClearTable(num: int)
      requires Valid()
      modifies this
      ensures Valid()
      ensures Stores() == ClearTableStep(config, old(Stores()), num).state
    {
      var data := Get(tables, num);
      if data.Some? && data.value.sessionId != "" {
        var found := Get(sessions, data.value.sessionId);
        if found.Some? {
          var s := found.value;
          s := s.(status := Closed);
          sessions := sessions[data.value.sessionId := s];
        }
      }
      tables := tables - {num};
    }

    /** The body of the 5-minute sweep, at time `now`. */
    method Sweep(now: int)
      requires Valid()
      modifies this
      ensures Valid()
      ensures Stores() == SweepStep(config, old(Stores()), now).state
    {
      ghost var st0 := Stores();
      DropStale(now);
      KeptNone(st0.sessions, now);
      rateLimit := Pruned(rateLimit, now, RateMaxAge);
      assert Stores() == SweepStep(config, st0, now).state;
    }

    /** The sweep's loop over `Object.entries(sessions)`: deletes each stale session and its table. */
    method DropStale(now: int)
      modifies this
      ensures sessions == Kept(old(sessions), {}, now)
      ensures tables == Unfreed(old(tables), Freed(old(sessions), old(sessions).Keys, now))
      ensures orders == old(orders) && rateLimit == old(rateLimit) && blacklist == old(blacklist)
    {
      var snapshot := sessions;
      var tables0 := tables;
      var todo := snapshot.Keys;
      KeptAll(snapshot, now);
      UnfreedNone(tables0);
      while todo != {}
        invariant todo <= snapshot.Keys
        invariant sessions == Kept(snapshot, todo, now)
        invariant tables == Unfreed(tables0, Freed(snapshot, snapshot.Keys - todo, now))
        invariant orders == old(orders) && rateLimit == old(rateLimit) && blacklist == old(blacklist)
        decreases |todo|
      {
        var id :| id in todo;
        KeptStep(snapshot, todo, id, now);
        FreedStep(snapshot, snapshot.Keys - todo, id, now);
        UnfreedStep(tables0, Freed(snapshot, snapshot.Keys - todo, now), snapshot[id].table);
        Visit(id, snapshot[id], now);
        assert snapshot.Keys - (todo - {id}) == (snapshot.Keys - todo) + {id};
        todo := todo - {id};
      }
    }

    /** One entry of the sweep: a stale session is deleted, and its table with it. */
    method Visit(id: string, s: Session, now: int)
      modifies this
      ensures sessions == if Stale(s, now) then old(sessions) - {id} else old(sessions)
      ensures tables == if Stale(s, now) && s.table != 0 then old(tables) - {s.table} else old(tables)
      ensures orders == old(orders) && rateLimit == old(rateLimit) && blacklist == old(blacklist)
    {
      if Stale(s, now) {
        sessions := sessions - {id};
        if s.table != 0 {
          tables := tables - {s.table};
        }
      }
    }
  }

  /** Under the invariant the bill's sum equals the order page's sum. */
  lemma BillTotal(config: Config, st: State, listing: seq<(string, Order)>, scanId: string)
    ensures Handlers.Valid(config, st) && IsListing(listing, st.orders) ==>
              SumSubtotals(AllItems(Mine(listing, scanId))) == GrandTotal(NewestFirstSort(Mine(listing, scanId)))
  {
    if Handlers.Valid(config, st) && IsListing(listing, st.orders) {
      Flows.BillMatchesMyOrders(config, st, listing, scanId);
    }
  }

  /** The sessions the sweep keeps, counting those in `pending` as not yet visited. */
  function Kept(sessions: map<string, Session>, pending: set<string>, now: int): map<string, Session> {
    map id | id in sessions && (id in pending || !Stale(sessions[id], now)) :: sessions[id]
  }

  /** The tables left once the tables in `freed` are deleted. */
  function Unfreed(tables: map<int, Occupancy>, freed: set<int>): map<int, Occupancy> {
    map t | t in tables && t !in freed :: tables[t]
  }

  lemma KeptAll(sessions: map<string, Session>, now: int)
    ensures Kept(sessions, sessions.Keys, now) == sessions
  {
  }

  lemma KeptNone(sessions: map<string, Session>, now: int)
    ensures Kept(sessions, {}, now) == map id | id in sessions && !Stale(sessions[id], now) :: sessions[id]
  {
  }

  lemma KeptStep(sessions: map<string, Session>, pending: set<string>, id: string, now: int)
    requires id in pending && pending <= sessions.Keys
    ensures Kept(sessions, pending - {id}, now)
         == if Stale(sessions[id], now) then Kept(sessions, pending, now) - {id} else Kept(sessions, pending, now)
  {
  }

  lemma UnfreedNone(tables: map<int, Occupancy>)
    ensures Unfreed(tables, {}) == tables
  {
  }

  lemma UnfreedStep(tables: map<int, Occupancy>, freed: set<int>, t: int)
    ensures Unfreed(tables, freed + {t}) == Unfreed(tables, freed) - {t}
  {
  }

  /** Visiting one more session adds its table to the freed set when it is stale. */
  lemma FreedStep(sessions: map<string, Session>, done: set<string>, id: string, now: int)
    requires id in sessions
    ensures Freed(sessions, done + {id}, now)
         == Freed(sessions, done, now) + (if Stale(sessions[id], now) && sessions[id].table != 0 then {sessions[id].table} else {})
  {
  }
}
