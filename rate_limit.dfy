/**
 * The in-process fixed-window rate limiter of the BirthdayDeals backend.
 *
 * A process-wide store maps a composite key (client address, URL path,
 * window length) to a counter record `{count, reset}`.  Each call either
 * creates the record, replaces it when its window has expired, increments
 * it, or refuses the request and leaves the store alone.  Records are never
 * evicted.
 */
module RateLimit {
  import opened Wrappers
  import opened Text

  /** Identity substituted when the request carries no client address. */
  const UNKNOWN_CLIENT: string := "unknown"

  /** The composite key; two calls share a counter exactly when all three parts agree. */
  datatype Key = Key(ip: string, path: string, window: int)

  /** The counter record of one key: admissions in the current window and its end. */
  datatype Entry = Entry(count: int, reset: int)

  type Store = map<Key, Entry>

  /** The outcome of one limiter call: the verdict and the store afterwards. */
  datatype Decision = Decision(admitted: bool, store: Store)

  function ClientIp(client: Option<string>): string {
    if client.Some? then client.value else UNKNOWN_CLIENT
  }

  function MakeKey(client: Option<string>, path: string, window: int): Key {
    Key(ClientIp(client), path, window)
  }

  /** The record that opens a new window anchored at `now`. */
  function Opened(window: int, now: int): Entry {
    Entry(1, now + window)
  }

  /** An entry is current at `now` unless `now` is strictly past its reset time. */
  predicate Current(e: Entry, now: int) {
    now <= e.reset
  }

  /** One limiter call: the functional specification of `RateLimiter.CheckRateLimit`. */
  function Check(store: Store, client: Option<string>, path: string, limit: int, window: int, now: int): Decision
  {
    var key := MakeKey(client, path, window);
    if key !in store then
      Decision(true, store[key := Opened(window, now)])
    else if !Current(store[key], now) then
      Decision(true, store[key := Opened(window, now)])
    else if store[key].count >= limit then
      Decision(false, store)
    else
      Decision(true, store[key := Entry(store[key].count + 1, store[key].reset)])
  }

  // ---------------------------------------------------------------------------
  // The four branches of one call

  /** A call leaves a record for its key and changes no other key's record. */
  lemma CheckOnlyTouchesKey(store: Store, client: Option<string>, path: string, limit: int, window: int, now: int)
    ensures var key := MakeKey(client, path, window);
            var d := Check(store, client, path, limit, window, now);
            d.store.Keys == store.Keys + {key} &&
            forall k :: k in store && k != key ==> d.store[k] == store[k]
  {
  }

  lemma CheckCreates(store: Store, client: Option<string>, path: string, limit: int, window: int, now: int)
    requires MakeKey(client, path, window) !in store
    ensures Check(store, client, path, limit, window, now)
         == Decision(true, store[MakeKey(client, path, window) := Entry(1, now + window)])
  {
  }

  lemma CheckResetsExpired(store: Store, client: Option<string>, path: string, limit: int, window: int, now: int)
    requires MakeKey(client, path, window) in store
    requires now > store[MakeKey(client, path, window)].reset
    ensures Check(store, client, path, limit, window, now)
         == Decision(true, store[MakeKey(client, path, window) := Entry(1, now + window)])
  {
  }

  lemma CheckRefusesExhausted(store: Store, client: Option<string>, path: string, limit: int, window: int, now: int)
    requires MakeKey(client, path, window) in store
    requires now <= store[MakeKey(client, path, window)].reset
    requires store[MakeKey(client, path, window)].count >= limit
    ensures Check(store, client, path, limit, window, now) == Decision(false, store)
  {
  }

  lemma CheckIncrements(store: Store, client: Option<string>, path: string, limit: int, window: int, now: int)
    requires MakeKey(client, path, window) in store
    requires now <= store[MakeKey(client, path, window)].reset
    requires store[MakeKey(client, path, window)].count < limit
    ensures var e := store[MakeKey(client, path, window)];
            (Check(store, client, path, limit, window, now)
             == Decision(true, store[MakeKey(client, path, window) := Entry(e.count + 1, e.reset)]))
  {
  }

  /** The reset time itself still belongs to the old window: the comparison is strict. */
  lemma ResetInstantIsCurrent(store: Store, client: Option<string>, path: string, limit: int, window: int)
    requires MakeKey(client, path, window) in store
    ensures var key := MakeKey(client, path, window);
            var d := Check(store, client, path, limit, window, store[key].reset);
            d.store[key].reset == store[key].reset &&
            (d.admitted <==> store[key].count < limit)
  {
  }

  /** A call is refused exactly when a current record has used up the limit, and a refusal changes nothing. */
  lemma RefusalIsFree(store: Store, client: Option<string>, path: string, limit: int, window: int, now: int)
    ensures var key := MakeKey(client, path, window);
            var d := Check(store, client, path, limit, window, now);
            (!d.admitted <==> key in store && Current(store[key], now) && store[key].count >= limit) &&
            (!d.admitted ==> d.store == store)
  {
  }

  // ---------------------------------------------------------------------------
  // Keys

  /** Two calls share a counter exactly when address, path and window all agree. */
  lemma KeysAgree(c1: Option<string>, p1: string, w1: int, c2: Option<string>, p2: string, w2: int)
    ensures MakeKey(c1, p1, w1) == MakeKey(c2, p2, w2) <==> ClientIp(c1) == ClientIp(c2) && p1 == p2 && w1 == w2
  {
  }

  /**
   * The string the source actually uses as the dictionary key:
   * address, path and window joined with `":"`.
   */
  function KeyText(k: Key): string
    requires k.window >= 0
  {
    k.ip + ":" + k.path + ":" + NatText(k.window)
  }

  /** An address as a connection reports it never contains `/`, and a URL path starts with one. */
  predicate Plausible(k: Key) {
    '/' !in k.ip && |k.path| >= 1 && k.path[0] == '/' && k.window >= 0
  }

  /**
   * For plausible keys the joined string is as fine as the tuple: it collides
   * exactly when the keys are equal, even though IPv6 addresses and paths may
   * contain colons.
   */
  lemma KeyTextInjective(k1: Key, k2: Key)
    requires Plausible(k1) && Plausible(k2)
    ensures KeyText(k1) == KeyText(k2) <==> k1 == k2
  {
    if KeyText(k1) == KeyText(k2) {
      var w1, w2 := NatText(k1.window), NatText(k2.window);
      var r1, r2 := k1.path + ":" + w1, k2.path + ":" + w2;
      assert KeyText(k1) == k1.ip + ":" + r1;
      assert KeyText(k2) == k2.ip + ":" + r2;
      SplitAtFirst(k1.ip, r1, k2.ip, r2);
      SplitAtLast(k1.path, w1, k2.path, w2);
      NatTextInjective(k1.window, k2.window);
    }
  }

  /** Splitting at the first `:` after a part free of `/`, when what follows starts with `/`. */
  lemma SplitAtFirst(a1: string, r1: string, a2: string, r2: string)
    requires '/' !in a1 && '/' !in a2
    requires |r1| >= 1 && r1[0] == '/' && |r2| >= 1 && r2[0] == '/'
    requires a1 + ":" + r1 == a2 + ":" + r2
    ensures a1 == a2 && r1 == r2
  {
    var s := a1 + ":" + r1;
    var n1, n2 := |a1|, |a2|;
    assert s[n1 + 1] == '/' && s[n2 + 1] == '/';
    assert a1 == s[..n1] == a2;
    assert r1 == s[n1 + 1..] == r2;
  }

  /** Splitting at the last `:`, when what follows it is all digits. */
  lemma SplitAtLast(p1: string, w1: string, p2: string, w2: string)
    requires forall i :: 0 <= i < |w1| ==> '0' <= w1[i] <= '9'
    requires forall i :: 0 <= i < |w2| ==> '0' <= w2[i] <= '9'
    requires p1 + ":" + w1 == p2 + ":" + w2
    ensures p1 == p2 && w1 == w2
  {
    var s := p1 + ":" + w1;
    var m1, m2 := |w1|, |w2|;
    assert s[|s| - m1 - 1] == ':' && s[|s| - m2 - 1] == ':';
    assert w1 == s[|s| - m1..] == w2;
    assert p1 == s[..|s| - m1 - 1] == p2;
  }

  /** Without the address condition the joined string is ambiguous. */
  lemma KeyTextCollides()
    ensures Key("a:/b", "/c", 60) != Key("a", "/b:/c", 60)
    ensures KeyText(Key("a:/b", "/c", 60)) == KeyText(Key("a", "/b:/c", 60))
  {
  }

  /**
   * Callers without a client address all fall back to the same sentinel: two such
   * calls on a path and window, the second inside the window the first opened, are
   * counted on one record.
   */
  lemma AnonymousCallersShare(store: Store, path: string, limit: int, window: int, now: int, now': int)
    requires Key(UNKNOWN_CLIENT, path, window) !in store
    requires now' <= now + window && limit > 1
    ensures var d := Check(store, None, path, limit, window, now);
            var d' := Check(d.store, None, path, limit, window, now');
            d'.admitted && d'.store == store[Key(UNKNOWN_CLIENT, path, window) := Entry(2, now + window)]
  {
  }

  // ---------------------------------------------------------------------------
  // Invariants of the store

  /** Every record carries at least one admission. */
  ghost predicate PositiveCounts(store: Store) {
    forall k :: k in store ==> store[k].count >= 1
  }

  /** The record of `key`, if any, never shows more admissions than `limit`. */
  ghost predicate BoundedAt(store: Store, key: Key, limit: int) {
    key in store ==> 1 <= store[key].count <= limit
  }

  lemma CheckKeepsPositive(store: Store, client: Option<string>, path: string, limit: int, window: int, now: int)
    requires PositiveCounts(store)
    ensures PositiveCounts(Check(store, client, path, limit, window, now).store)
  {
  }

  lemma CheckKeepsBound(store: Store, client: Option<string>, path: string, limit: int, window: int, now: int)
    requires limit >= 1
    requires BoundedAt(store, MakeKey(client, path, window), limit)
    ensures BoundedAt(Check(store, client, path, limit, window, now).store, MakeKey(client, path, window), limit)
  {
  }

  // ---------------------------------------------------------------------------
  // Sequences of calls

  datatype Call = Call(client: Option<string>, path: string, limit: int, window: int, now: int)

  function KeyOf(c: Call): Key {
    MakeKey(c.client, c.path, c.window)
  }

  datatype Trace = Trace(results: seq<bool>, store: Store)

  /** The verdicts and final store of a sequence of calls made one after another. */
  function Replay(store: Store, calls: seq<Call>): (t: Trace)
    ensures |t.results| == |calls|
  {
    if calls == [] then Trace([], store)
    else
      var prev := Replay(store, calls[..|calls| - 1]);
      var c := calls[|calls| - 1];
      var d := Check(prev.store, c.client, c.path, c.limit, c.window, c.now);
      Trace(prev.results + [d.admitted], d.store)
  }

  function Min(a: int, b: int): int {
    if a <= b then a else b
  }

  /** The last call of a sequence acts on the store the earlier ones leave. */
  lemma ReplayLast(store: Store, calls: seq<Call>)
    requires calls != []
    ensures var prev := Replay(store, calls[..|calls| - 1]);
            var c := calls[|calls| - 1];
            var d := Check(prev.store, c.client, c.path, c.limit, c.window, c.now);
            Replay(store, calls).results == prev.results + [d.admitted] &&
            Replay(store, calls).store == d.store
  {
  }

  /** The `j`-th call (from 0) in the window, on a record that holds `Min(j, n)`. */
  lemma CheckInWindow(store: Store, client: Option<string>, path: string, n: int, window: int, now: int, j: nat, reset: int)
    requires n >= 1 && j >= 1 && now <= reset
    ensures var key := MakeKey(client, path, window);
            var d := Check(store[key := Entry(Min(j, n), reset)], client, path, n, window, now);
            d.admitted == (j < n) && d.store == store[key := Entry(Min(j + 1, n), reset)]
  {
  }

  /**
   * A key with no record, or with one whose window has expired, used with a fixed
   * limit `n >= 1`, all calls inside the window the first one opens: the first `n`
   * calls are admitted and every later one is refused; the record then holds
   * `min(#calls, n)` and the window the first call opened, and no other key changes.
   */
  lemma {:induction false} OneWindowAdmitsFirst(store: Store, calls: seq<Call>, client: Option<string>, path: string, n: int, window: int)
    requires |calls| >= 1 && n >= 1
    requires var key := MakeKey(client, path, window);
             key !in store || !Current(store[key], calls[0].now)
    requires forall i :: 0 <= i < |calls| ==> calls[i] == Call(client, path, n, window, calls[i].now)
    requires forall i :: 0 <= i < |calls| ==> calls[i].now <= calls[0].now + window
    ensures forall i :: 0 <= i < |calls| ==> Replay(store, calls).results[i] == (i < n)
    ensures Replay(store, calls).store
         == store[MakeKey(client, path, window) := Entry(Min(|calls|, n), calls[0].now + window)]
  {
    var key := MakeKey(client, path, window);
    var m := |calls|;
    if m == 1 {
      assert calls[..0] == [];
      assert Replay(store, calls) == Trace([true], store[key := Entry(1, calls[0].now + window)]);
    } else {
      var init := calls[..m - 1];
      assert forall i :: 0 <= i < |init| ==> init[i] == calls[i];
      OneWindowAdmitsFirst(store, init, client, path, n, window);
      var prev := Replay(store, init);
      var c := calls[m - 1];
      assert c == Call(client, path, n, window, c.now);
      CheckInWindow(store, client, path, n, window, c.now, m - 1, calls[0].now + window);
      ReplayLast(store, calls);
      forall i | 0 <= i < m
        ensures Replay(store, calls).results[i] == (i < n)
      {
        if i < m - 1 {
          assert Replay(store, calls).results[i] == prev.results[i];
        }
      }
    }
  }

  /** While every call on `key` uses the same limit `l >= 1`, `1 <= count <= l` holds for it. */
  lemma {:induction false} ReplayKeepsBound(store: Store, calls: seq<Call>, key: Key, l: int)
    requires l >= 1
    requires BoundedAt(store, key, l)
    requires forall i :: 0 <= i < |calls| && KeyOf(calls[i]) == key ==> calls[i].limit == l
    ensures BoundedAt(Replay(store, calls).store, key, l)
  {
    if calls != [] {
      var init := calls[..|calls| - 1];
      ReplayKeepsBound(store, init, key, l);
      var c := calls[|calls| - 1];
      var prev := Replay(store, init);
      if KeyOf(c) == key {
        CheckKeepsBound(prev.store, c.client, c.path, l, c.window, c.now);
      }
    }
  }

  /**
   * With `limit = 2` and a one-second window, three immediate calls give
   * admitted, admitted, refused; a call at the reset instant is still refused, and
   * the first call past it is admitted with a count back at one.
   */
  lemma LimitTwoScenario(store: Store, ip: string, path: string, t: int)
    requires Key(ip, path, 1) !in store
    ensures var calls := [Call(Some(ip), path, 2, 1, t), Call(Some(ip), path, 2, 1, t), Call(Some(ip), path, 2, 1, t),
                          Call(Some(ip), path, 2, 1, t + 1), Call(Some(ip), path, 2, 1, t + 2)];
            Replay(store, calls).results == [true, true, false, false, true] &&
            Replay(store, calls).store == store[Key(ip, path, 1) := Entry(1, t + 3)]
  {
    var c := Call(Some(ip), path, 2, 1, t);
    var calls := [c, c, c, Call(Some(ip), path, 2, 1, t + 1), Call(Some(ip), path, 2, 1, t + 2)];
    var key := Key(ip, path, 1);
    OneWindowAdmitsFirst(store, calls[..4], Some(ip), path, 2, 1);
    assert calls[..4][..3] == calls[..3];
    OneWindowAdmitsFirst(store, calls[..3], Some(ip), path, 2, 1);
    assert calls[..5][..4] == calls[..4];
    assert calls[..5] == calls;
  }

  // ---------------------------------------------------------------------------
  // The store object

  /** The process-wide `_rate_store` table and the call that consults it. */
  class RateLimiter {
    var store: Store

    ghost predicate Valid()
      reads this
    {
      PositiveCounts(store)
    }

    /** The table starts empty when the process starts. */
    constructor ()
      ensures Valid() && store == map[]
    {
      store := map[];
    }

    method CheckRateLimit(client: Option<string>, path: string, limit: int, window: int, now: int) returns (ok: bool)
      requires Valid()
      modifies this
      ensures Valid()
      ensures ok == Check(old(store), client, path, limit, window, now).admitted
      ensures store == Check(old(store), client, path, limit, window, now).store
    {
      var ip := if client.Some? then client.value else UNKNOWN_CLIENT;
      var key := Key(ip, path, window);
      if key !in store {
        store := store[key := Entry(1, now + window)];
        return true;
      }
      var entry := store[key];
      if now > entry.reset {
        store := store[key := Entry(1, now + window)];
        return true;
      }
      if entry.count >= limit {
        return false;
      }
      store := store[key := entry.(count := entry.count + 1)];
      return true;
    }
  }
}
