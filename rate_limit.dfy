/**
 * `checkRate` of server.js: a fixed-window counter per `<type>_<id>` key in
 * the rateLimit store. A missing or expired window restarts at count 1; a
 * full window refuses without writing; otherwise the count goes up by one.
 */
module RateLimit {
  import opened Util
  import Database

  /** A rateLimit entry `{ count, start }`. */
  datatype Window = Window(count: int, start: int)

  /** The outcome of one check: allowed with the entry to store, or refused. */
  datatype Verdict = Allow(entry: Window) | Refuse

  /** The store key `${type}_${id}`: the kind, an underscore, then the identifier. */
  function Key(kind: string, id: string): (r: string)
    ensures |r| == |kind| + 1 + |id|
    ensures r[..|kind|] == kind && r[|kind|] == '_' && r[|kind| + 1..] == id
  {
    kind + "_" + id
  }

  /** Within one kind, different identifiers get different keys. */
  lemma KeyInjective(kind: string, a: string, b: string)
    requires Key(kind, a) == Key(kind, b)
    ensures a == b
  {
    assert a == Key(kind, a)[|kind| + 1..];
  }

  /** A `scan_` key never names the same entry as an `otp_` key. */
  lemma ScanAndOtpKeysDisjoint(ip: string, phone: string)
    ensures Key("scan", ip) != Key("otp", phone)
  {
    assert Key("scan", ip)[0] == 's' && Key("otp", phone)[0] == 'o';
  }

  /** The decision of `checkRate` on the current entry at time `now`. */
  function Admit(entry: Option<Window>, now: int, max: int, windowMs: int): (r: Verdict)
    ensures r.Refuse? <==> entry.Some? && now - entry.value.start <= windowMs && entry.value.count >= max
    ensures entry.None? || now - entry.value.start > windowMs ==> r == Allow(Window(1, now))
    ensures r.Allow? && entry.Some? && now - entry.value.start <= windowMs ==>
              r.entry == Window(entry.value.count + 1, entry.value.start)
  {
    if entry.None? || now - entry.value.start > windowMs then Allow(Window(1, now))
    else if entry.value.count >= max then Refuse
    else Allow(entry.value.(count := entry.value.count + 1))
  }

  /** The rateLimit store after one check of `key`: written only when allowed. */
  function Charge(store: map<string, Window>, key: string, now: int, max: int, windowMs: int): (r: (bool, map<string, Window>))
    ensures r.0 <==> Admit(Get(store, key), now, max, windowMs).Allow?
    ensures r.0 ==> r.1 == store[key := Admit(Get(store, key), now, max, windowMs).entry]
    ensures !r.0 ==> r.1 == store
  {
    match Admit(Get(store, key), now, max, windowMs)
    case Allow(w) => (true, store[key := w])
    case Refuse => (false, store)
  }

  /**
   * Checks of one key at the given times, in order: how many were allowed
   * and the entry left behind.
   */
  function Run(entry: Option<Window>, times: seq<int>, max: int, windowMs: int): (r: (nat, Option<Window>))
    ensures r.0 <= |times|
    ensures entry.Some? ==> r.1.Some?
    decreases |times|
  {
    if times == [] then (0, entry)
    else
      match Admit(entry, times[0], max, windowMs)
      case Allow(w) =>
        var rest := Run(Some(w), times[1..], max, windowMs);
        (rest.0 + 1, rest.1)
      case Refuse => Run(entry, times[1..], max, windowMs)
  }

  /**
   * Inside one window the count is the number of checks allowed since the
   * window opened, so the window `w` lets through at most `max - w.count`
   * more checks and keeps its start.
   */
  lemma {:induction false} InWindowBound(w: Window, times: seq<int>, max: int, windowMs: int)
    requires forall i :: 0 <= i < |times| ==> times[i] - w.start <= windowMs
    ensures var r := Run(Some(w), times, max, windowMs);
            && r.1 == Some(Window(w.count + r.0, w.start))
            && (w.count <= max ==> w.count + r.0 <= max)
    decreases |times|
  {
    if times != [] {
      InWindowBound(if w.count >= max then w else w.(count := w.count + 1), times[1..], max, windowMs);
    }
  }

  /**
   * At most `max` checks are allowed per window: the check at `first`
   * starts a new window, and no later check within `windowMs` of it takes
   * the total past `max`.
   */
  lemma AtMostMaxPerWindow(entry: Option<Window>, first: int, later: seq<int>, max: int, windowMs: int)
    requires max >= 1
    requires entry.None? || first - entry.value.start > windowMs
    requires forall i :: 0 <= i < |later| ==> later[i] - first <= windowMs
    ensures Run(entry, [first] + later, max, windowMs).0 <= max
  {
    assert ([first] + later)[1..] == later;
    InWindowBound(Window(1, first), later, max, windowMs);
  }

  /** `rateLimit.cleanup('start', maxAge)`: entries whose truthy start is older than `maxAge` go. */
  function Pruned(store: map<string, Window>, now: int, maxAge: int): (r: map<string, Window>)
    ensures forall k :: k in r <==> k in store && !Database.AgedOut(store[k].start, now, maxAge)
    ensures forall k :: k in r ==> r[k] == store[k]
  {
    map k | k in store && !Database.AgedOut(store[k].start, now, maxAge) :: store[k]
  }

  /** The JSON record `{ count, start }` the rateLimit file holds for a window. */
  function WindowJson(w: Window): Database.Json {
    Database.JObj(map["count" := Database.JNum(w.count), "start" := Database.JNum(w.start)])
  }

  /** The rateLimit file's values for a typed store. */
  function StoreJson(store: map<string, Window>): map<string, Database.Json> {
    map k | k in store :: WindowJson(store[k])
  }

  /**
   * `Pruned` is `SimpleDB.cleanup('start', maxAge)` seen through the typed
   * store: on the file's JSON form, `Database.Pruned` keeps the same keys
   * with the same records.
   */
  lemma PrunedIsCleanup(store: map<string, Window>, keys: seq<string>, now: int, maxAge: int)
    requires Database.WellFormed(Database.Entries(keys, StoreJson(store)))
    ensures Database.Pruned(Database.Entries(keys, StoreJson(store)), "start", now, maxAge).values
         == StoreJson(Pruned(store, now, maxAge))
  {
    var e := Database.Entries(keys, StoreJson(store));
    forall k | k in store
      ensures Database.Aged(WindowJson(store[k]), "start", now, maxAge) <==> Database.AgedOut(store[k].start, now, maxAge)
    {
    }
    assert Database.Pruned(e, "start", now, maxAge).values == StoreJson(Pruned(store, now, maxAge));
  }

  /**
   * The periodic cleanup never changes a later decision when its age limit
   * is at least the window: a pruned entry had expired anyway.
   */
  lemma PruneKeepsDecisions(store: map<string, Window>, key: string, now: int, later: int, maxAge: int, max: int, windowMs: int)
    requires windowMs <= maxAge && now <= later
    ensures Admit(Get(Pruned(store, now, maxAge), key), later, max, windowMs)
         == Admit(Get(store, key), later, max, windowMs)
  {
  }
}
