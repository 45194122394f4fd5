/** The Redis server as the cache uses it, and the Redis-backed permission cache. */
module Redis {
  import opened Basics
  import opened Keys
  import opened Glob
  import opened CacheSpec

  /** A stored string, as the codec reads it: a permission array, the word null, or anything else. */
  datatype Payload = Array(perms: seq<Permission>) | Null | Garbage(raw: string)

  function Encode(v: Slice): Payload {
    if v.Some? then Array(v.value) else Null
  }

  function Decode(p: Payload): Slice {
    if p.Array? then Some(p.perms) else None
  }

  const KEY_PREFIX := "helios:perms:"
  const NANOS_PER_SECOND := 1_000_000_000
  const MIN64 := -0x8000_0000_0000_0000
  const MAX64 := 0x7fff_ffff_ffff_ffff

  /** 64-bit two's complement reading of an integer. */
  function Wrap64(x: int): int {
    var m := x % 0x1_0000_0000_0000_0000;
    if m > MAX64 then m - 0x1_0000_0000_0000_0000 else m
  }

  /** The one 64-bit value that differs from x by whole turns. */
  lemma WrapTurns(x: int) returns (turns: int)
    ensures MIN64 <= Wrap64(x) <= MAX64 && Wrap64(x) == x + turns * 0x1_0000_0000_0000_0000
  {
    turns := -(x / 0x1_0000_0000_0000_0000) - (if x % 0x1_0000_0000_0000_0000 > MAX64 then 1 else 0);
  }

  function SecondsToDuration(s: int): int {
    if s <= 0 then 0 else Wrap64(s * NANOS_PER_SECOND)
  }

  /** The conversion is exact for positive seconds exactly up to 9223372036. */
  lemma DurationExactIff(s: int)
    requires MIN64 <= s <= MAX64
    ensures s > 0 ==> (SecondsToDuration(s) == s * NANOS_PER_SECOND <==> s <= 9223372036)
    ensures s <= 0 ==> SecondsToDuration(s) == 0
  {
    var x := s * NANOS_PER_SECOND;
    if 0 < s <= 9223372036 {
      assert 0 <= x <= MAX64;
    } else if s > 9223372036 {
      assert x > MAX64;
      assert Wrap64(x) <= MAX64;
    }
  }

  datatype Entry = Entry(payload: Payload, deadline: Option<int>)

  type Db = map<string, Entry>

  /** Only a positive duration puts a deadline on the key. */
  function Deadline(now: int, ttl: int): Option<int> {
    if SecondsToDuration(ttl) > 0 then Some(now + SecondsToDuration(ttl)) else None
  }

  function CoerceTtl(ttl: int): int {
    if ttl < 0 then 0 else ttl
  }

  function CoercePrefix(prefix: string): string {
    if prefix == "" then KEY_PREFIX else prefix
  }

  /** A key at or past its deadline is gone. */
  function Expire(db: Db, now: int): Db {
    map k | k in db && (db[k].deadline.None? || now < db[k].deadline.value) :: db[k]
  }

  datatype Config = Config(prefix: string, ttl: int)

  function KeyIn(c: Config, p: Pair): string {
    RedisKey(c.prefix, p.user, p.tenant)
  }

  /** One successful cache operation on the server's database; the tenant case is an undisturbed, complete scan. */
  function DbStep(c: Config, db: Db, now: int, op: Op): Db {
    match op
    case Get(_) => db
    case Set(p, v) =>
      if KeyIn(c, p) in db then db else db[KeyIn(c, p) := Entry(Encode(v), Deadline(now, c.ttl))]
    case WriteThrough(p, v) => db[KeyIn(c, p) := Entry(Encode(v), Deadline(now, c.ttl))]
    case Invalidate(p) => db - {KeyIn(c, p)}
    case InvalidateTenant(t) => map k | k in db && !GlobMatch(TenantPattern(c.prefix, t), k) :: db[k]
  }

  function DbAnswer(c: Config, db: Db, op: Op): Slice {
    if op.Get? && KeyIn(c, op.p) in db then Decode(db[KeyIn(c, op.p)].payload) else None
  }

  /** What other clients, or expiry, do to the database between two of our commands. */
  datatype Event = Put(key: string, entry: Entry) | Drop(key: string)

  datatype ScanReply = ScanFailed | Batch(keys: seq<string>, next: nat)

  datatype ScanCall = ScanCall(cursor: nat, pattern: string, count: nat)

  const SCAN_BATCH_SIZE := 100

  /** A DEL either succeeds, is executed with its reply lost, or never reaches the server. */
  datatype DelFate = Deleted | ReplyLost | Refused

  /** One turn of the scan loop as the server and the other clients play it. */
  datatype Round = Round(before: seq<Event>, reply: ScanReply, between: seq<Event>, del: DelFate)

  function ApplyOne(db: Db, e: Event): Db {
    match e
    case Put(k, entry) => db[k := entry]
    case Drop(k) => db - {k}
  }

  function Apply(db: Db, events: seq<Event>): Db
    decreases |events|
  {
    if events == [] then db else Apply(ApplyOne(db, events[0]), events[1..])
  }

  /** The server: single commands are atomic, and a command that fails for want of a connection changes nothing. */
  class RedisServer {
    var db: Db
    var now: int
    /** The SCAN commands received, in order. */
    var scans: seq<ScanCall>

    constructor ()
      ensures db == map[] && now == 0 && scans == []
    {
      db, now, scans := map[], 0, [];
    }

    method Advance(nanos: nat)
      modifies this`now, this`db
      ensures now == old(now) + nanos && db == Expire(old(db), now)
    {
      now := now + nanos;
      db := Expire(db, now);
    }

    method SetNX(key: string, payload: Payload, deadline: Option<int>) returns (stored: bool)
      modifies this`db
      ensures stored == (key !in old(db))
      ensures db == if stored then old(db)[key := Entry(payload, deadline)] else old(db)
    {
      stored := key !in db;
      if stored {
        db := db[key := Entry(payload, deadline)];
      }
    }

    /** A SCAN call: others act first, then the server answers as it likes. */
    method Scan(cursor: nat, pattern: string, count: nat, round: Round) returns (reply: ScanReply)
      modifies this`db, this`scans
      ensures db == Apply(old(db), round.before) && reply == round.reply
      ensures scans == old(scans) + [ScanCall(cursor, pattern, count)]
    {
      scans := scans + [ScanCall(cursor, pattern, count)];
      db := Apply(db, round.before);
      reply := round.reply;
    }

    /** A multi-key DEL: the count is of keys that were really there. */
    method Del(keys: seq<string>, round: Round) returns (n: Option<nat>)
      modifies this`db
      ensures var d := Apply(old(db), round.between);
              && db == (if round.del.Refused? then d else d - ToSet(keys))
              && n == (if round.del.Deleted? then Some(|d.Keys * ToSet(keys)|) else None)
    {
      db := Apply(db, round.between);
      n := None;
      if round.del.Deleted? {
        n := Some(|db.Keys * ToSet(keys)|);
      }
      if !round.del.Refused? {
        db := db - ToSet(keys);
      }
    }
  }

  /** The round ends the loop: an error, or cursor 0. */
  predicate Fails(r: Round) {
    r.reply.ScanFailed? || (r.reply.keys != [] && !r.del.Deleted?)
  }

  predicate Stops(r: Round) {
    Fails(r) || r.reply.next == 0
  }

  predicate Ends(rounds: seq<Round>) {
    rounds != [] && (Stops(rounds[0]) || Ends(rounds[1..]))
  }

  function After(db: Db, r: Round): Db {
    var d := Apply(db, r.before);
    if r.reply.ScanFailed? || r.reply.keys == [] then d
    else
      var d' := Apply(d, r.between);
      if r.del.Refused? then d' else d' - ToSet(r.reply.keys)
  }

  /** How many keys the round's DEL reports. */
  function Counted(db: Db, r: Round): nat {
    if r.reply.ScanFailed? || r.reply.keys == [] || !r.del.Deleted? then 0
    else |Apply(Apply(db, r.before), r.between).Keys * ToSet(r.reply.keys)|
  }

  datatype ScanOutcome = ScanOutcome(db: Db, failed: bool, deleted: nat)

  function ScanRun(db: Db, rounds: seq<Round>): ScanOutcome
    requires Ends(rounds)
    decreases |rounds|
  {
    var r := rounds[0];
    if Stops(r) then ScanOutcome(After(db, r), Fails(r), Counted(db, r))
    else
      var rest := ScanRun(After(db, r), rounds[1..]);
      rest.(deleted := Counted(db, r) + rest.deleted)
  }

  /** The SCAN commands that the loop sends. */
  function Calls(cursor: nat, pattern: string, rounds: seq<Round>): seq<ScanCall>
    requires Ends(rounds)
    decreases |rounds|
  {
    [ScanCall(cursor, pattern, SCAN_BATCH_SIZE)] +
    if Stops(rounds[0]) then [] else Calls(rounds[0].reply.next, pattern, rounds[1..])
  }

  function MoreDeleted(out: ScanOutcome, n: nat): ScanOutcome {
    out.(deleted := n + out.deleted)
  }

  /** Where the scan loop stands: the database, the commands sent, and its three variables. */
  datatype ScanState = ScanState(db: Db, scans: seq<ScanCall>, cursor: nat, total: nat, turn: nat)

  /** What is done and what is still to come add up to the whole scan. */
  predicate Scanning(start: ScanState, pattern: string, rounds: seq<Round>, at: ScanState) {
    && at.turn < |rounds| && Ends(rounds) && Ends(rounds[at.turn..])
    && ScanRun(start.db, rounds) == MoreDeleted(ScanRun(at.db, rounds[at.turn..]), at.total)
    && start.scans + Calls(0, pattern, rounds) == at.scans + Calls(at.cursor, pattern, rounds[at.turn..])
  }

  lemma ScanBegins(start: ScanState, pattern: string, rounds: seq<Round>)
    requires Ends(rounds) && start.cursor == 0 && start.total == 0 && start.turn == 0
    ensures Scanning(start, pattern, rounds, start) && 0 < |rounds|
  {
    assert rounds[0..] == rounds;
  }

  lemma ScanGoesOn(start: ScanState, pattern: string, rounds: seq<Round>, at: ScanState)
    requires Scanning(start, pattern, rounds, at) && !Stops(rounds[at.turn])
    ensures var r := rounds[at.turn];
            && at.turn + 1 < |rounds|
            && Scanning(start, pattern, rounds,
                        ScanState(After(at.db, r), at.scans + [ScanCall(at.cursor, pattern, SCAN_BATCH_SIZE)],
                                 r.reply.next, at.total + Counted(at.db, r), at.turn + 1))
  {
    hide After, Counted;
    var rest := rounds[at.turn..];
    assert rest[0] == rounds[at.turn] && rest[1..] == rounds[at.turn + 1..];
    var call, more := [ScanCall(at.cursor, pattern, SCAN_BATCH_SIZE)], Calls(rest[0].reply.next, pattern, rest[1..]);
    assert at.scans + (call + more) == (at.scans + call) + more;
  }

  lemma ScanEnds(start: ScanState, pattern: string, rounds: seq<Round>, at: ScanState)
    requires Scanning(start, pattern, rounds, at) && Stops(rounds[at.turn])
    ensures var r := rounds[at.turn];
            && ScanRun(start.db, rounds) == ScanOutcome(After(at.db, r), Fails(r), at.total + Counted(at.db, r))
            && start.scans + Calls(0, pattern, rounds) == at.scans + [ScanCall(at.cursor, pattern, SCAN_BATCH_SIZE)]
  {
    hide After, Counted;
    assert rounds[at.turn..][0] == rounds[at.turn];
  }

  class RedisPermissionCache {
    const rdb: RedisServer
    const config: Config

    constructor (rdb: RedisServer, ttlSeconds: int, keyPrefix: string)
      ensures this.rdb == rdb && config == Config(CoercePrefix(keyPrefix), CoerceTtl(ttlSeconds))
      ensures config.ttl == if ttlSeconds > 0 then ttlSeconds else 0
      ensures config.prefix == if keyPrefix != "" then keyPrefix else "helios:perms:"
    {
      this.rdb := rdb;
      this.config := Config(CoercePrefix(keyPrefix), CoerceTtl(ttlSeconds));
    }

    /** A miss, a connection failure and an unreadable value all answer nil. */
    method Get(user: string, tenant: string, up: bool) returns (perms: Slice)
      ensures perms == if up then DbAnswer(config, rdb.db, CacheSpec.Get(Pair(user, tenant))) else None
      ensures forall v :: perms == Some(v) <==>
                var k := config.prefix + user + ":" + tenant; up && k in rdb.db && rdb.db[k].payload == Array(v)
    {
      var k := RedisKey(config.prefix, user, tenant);
      if !up || k !in rdb.db {
        return None;
      }
      perms := Decode(rdb.db[k].payload);
    }

    method Set(user: string, tenant: string, perms: Slice, up: bool) returns (failed: bool)
      modifies rdb`db
      ensures failed == !up
      ensures rdb.db == if up then DbStep(config, old(rdb.db), rdb.now, CacheSpec.Set(Pair(user, tenant), perms))
                        else old(rdb.db)
      ensures var k := config.prefix + user + ":" + tenant;
              && (forall q :: q != k || !up || k in old(rdb.db) ==> Lookup(rdb.db, q) == Lookup(old(rdb.db), q))
              && (up && k !in old(rdb.db) ==> k in rdb.db && Decode(rdb.db[k].payload) == perms)
    {
      failed := !up;
      if up {
        var ok := rdb.SetNX(RedisKey(config.prefix, user, tenant), Encode(perms), Deadline(rdb.now, config.ttl));
      }
    }

    method WriteThrough(user: string, tenant: string, perms: Slice, up: bool) returns (failed: bool)
      modifies rdb`db
      ensures failed == !up
      ensures rdb.db ==
              if up then DbStep(config, old(rdb.db), rdb.now, CacheSpec.WriteThrough(Pair(user, tenant), perms))
              else old(rdb.db)
      ensures var k := config.prefix + user + ":" + tenant;
              && (forall q :: q != k || !up ==> Lookup(rdb.db, q) == Lookup(old(rdb.db), q))
              && (up ==> k in rdb.db && Decode(rdb.db[k].payload) == perms)
    {
      failed := !up;
      if up {
        rdb.db := rdb.db[RedisKey(config.prefix, user, tenant) := Entry(Encode(perms), Deadline(rdb.now, config.ttl))];
      }
    }

    method Invalidate(user: string, tenant: string, up: bool) returns (failed: bool)
      modifies rdb`db
      ensures failed == !up
      ensures rdb.db == if up then DbStep(config, old(rdb.db), rdb.now, CacheSpec.Invalidate(Pair(user, tenant)))
                        else old(rdb.db)
      ensures rdb.db == if up then old(rdb.db) - {config.prefix + user + ":" + tenant} else old(rdb.db)
    {
      failed := !up;
      if up {
        rdb.db := rdb.db - {RedisKey(config.prefix, user, tenant)};
      }
    }

    /** One turn of the loop, with its scripted round: done when there is nothing more to scan or an error came. */
    method ScanTurn(cursor: nat, pattern: string, round: Round) returns (failed: bool, next: nat, deleted: nat)
      modifies rdb`db, rdb`scans
      ensures rdb.scans == old(rdb.scans) + [ScanCall(cursor, pattern, SCAN_BATCH_SIZE)]
      ensures rdb.db == After(old(rdb.db), round)
      ensures failed == Fails(round)
      ensures deleted == Counted(old(rdb.db), round)
      ensures !failed ==> next == round.reply.next
    {
      failed, next, deleted := true, cursor, 0;
      var reply := rdb.Scan(cursor, pattern, SCAN_BATCH_SIZE, round);
      if reply.ScanFailed? {
        return;
      }
      if |reply.keys| > 0 {
        var n := rdb.Del(reply.keys, round);
        if n.None? {
          return;
        }
        deleted := n.value;
      }
      failed, next := false, reply.next;
    }

    /** The SCAN and DEL loop; rounds is what the server and its other clients do at each turn. */
    method InvalidateTenant(tenant: string, rounds: seq<Round>) returns (failed: bool, totalDeleted: nat)
      requires Ends(rounds)
      modifies rdb`db, rdb`scans
      ensures rdb.scans == old(rdb.scans) + Calls(0, TenantPattern(config.prefix, tenant), rounds)
      ensures ScanRun(old(rdb.db), rounds) == ScanOutcome(rdb.db, failed, totalDeleted)
    {
      hide After, Counted, TenantPattern, ScanRun, Scanning, Calls;
      var pattern := TenantPattern(config.prefix, tenant);
      ghost var start := ScanState(rdb.db, rdb.scans, 0, 0, 0);
      var cursor := 0;
      totalDeleted := 0;
      var turn := 0;
      ScanBegins(start, pattern, rounds);
      while true
        invariant Scanning(start, pattern, rounds, ScanState(rdb.db, rdb.scans, cursor, totalDeleted, turn))
        invariant turn < |rounds|
        decreases |rounds| - turn
      {
        ghost var at := ScanState(rdb.db, rdb.scans, cursor, totalDeleted, turn);
        var n;
        failed, cursor, n := ScanTurn(cursor, pattern, rounds[turn]);
        totalDeleted := totalDeleted + n;
        if failed || cursor == 0 {
          ScanEnds(start, pattern, rounds, at);
          break;
        }
        ScanGoesOn(start, pattern, rounds, at);
        turn := turn + 1;
      }
    }
  }
}
