/** The broker's configuration: what each key takes, and how a table of values
    becomes the configuration in force, whole or not at all.

    A name in a table is one of the keys or a string the broker does not own;
    an address in it has been parsed, and says whether it is loopback, private
    or link-local. A number is a real, an integer field the whole number. */
module Configuration {
  import opened Basics

  datatype Tier = Live | Restart

  datatype Kind = Flag | Whole(min: nat, max: nat) | Address | TokenList

  datatype Key =
    | Enabled | BindAddress | Port | AllowPublicBind | MaxConnections | MaxUnauthenticatedConnections
    | HandshakeTimeoutMs | MaxFrameBytes | MaxTypeUrlBytes | RejectedMaxPerSec | BusyMaxPerSec
    | InboundRecordsPerSec | InboundRecordsPerSecTotal | AuthFailuresPerMin | Tokens
    | RingOutLossyRecords | RingOutDurableRecords | RingOutLifecycleRecords
    | RingInSimDriverRecords | RingInHookDriverRecords
    | HeartbeatIntervalMs | DcsAliveThresholdMs | DcsAliveThresholdLoadingMs | LoadTimeoutMs | RequestTimeoutMs
    | SpoolMaxBytes | SpoolRetentionHours
    | MaxLifecycleRecordBytes | MaxLifecycleTopics | TopicFilterMaxTopics
  {
    function TierOf(): Tier {
      match this
      case BindAddress => Restart
      case Port => Restart
      case AllowPublicBind => Restart
      case MaxConnections => Restart
      case RingOutLossyRecords => Restart
      case RingOutDurableRecords => Restart
      case RingOutLifecycleRecords => Restart
      case RingInSimDriverRecords => Restart
      case RingInHookDriverRecords => Restart
      case MaxLifecycleRecordBytes => Restart
      case MaxLifecycleTopics => Restart
      case _ => Live
    }

    function KindOf(): Kind {
      match this
      case Enabled => Flag
      case AllowPublicBind => Flag
      case BindAddress => Address
      case Tokens => TokenList
      case Port => Whole(0, 65535)
      case HandshakeTimeoutMs => Whole(1, U64_MAX)
      case HeartbeatIntervalMs => Whole(1, U64_MAX)
      case DcsAliveThresholdMs => Whole(1, U64_MAX)
      case DcsAliveThresholdLoadingMs => Whole(1, U64_MAX)
      case LoadTimeoutMs => Whole(1, U64_MAX)
      case RequestTimeoutMs => Whole(1, U64_MAX)
      case SpoolMaxBytes => Whole(1, U64_MAX)
      case _ => Whole(1, U32_MAX)
    }

    function Default(): Field {
      match this
      case Enabled => Bool(true)
      case BindAddress => Addr(LOOPBACK)
      case Port => Num(7742)
      case AllowPublicBind => Bool(false)
      case MaxConnections => Num(8)
      case MaxUnauthenticatedConnections => Num(4)
      case HandshakeTimeoutMs => Num(5000)
      case MaxFrameBytes => Num(1_048_576)
      case MaxTypeUrlBytes => Num(256)
      case RejectedMaxPerSec => Num(10)
      case BusyMaxPerSec => Num(100)
      case InboundRecordsPerSec => Num(100)
      case InboundRecordsPerSecTotal => Num(400)
      case AuthFailuresPerMin => Num(5)
      case Tokens => List([])
      case RingOutLossyRecords => Num(3584)
      case RingOutDurableRecords => Num(512)
      case RingOutLifecycleRecords => Num(256)
      case RingInSimDriverRecords => Num(1024)
      case RingInHookDriverRecords => Num(256)
      case HeartbeatIntervalMs => Num(1000)
      case DcsAliveThresholdMs => Num(30_000)
      case DcsAliveThresholdLoadingMs => Num(120_000)
      case LoadTimeoutMs => Num(120_000)
      case RequestTimeoutMs => Num(2000)
      case SpoolMaxBytes => Num(268_435_456)
      case SpoolRetentionHours => Num(24)
      case MaxLifecycleRecordBytes => Num(16_384)
      case MaxLifecycleTopics => Num(64)
      case TopicFilterMaxTopics => Num(256)
    }
  }

  const U32_MAX: nat := 0xFFFF_FFFF
  const U64_MAX: nat := 0xFFFF_FFFF_FFFF_FFFF

  datatype Ip = Ip(bits: nat, nearby: bool)

  const LOOPBACK: Ip := Ip(0x7F00_0001, true)

  datatype Token = Token(secret: string, capabilities: set<nat>)

  datatype Value = Boolean(b: bool) | Number(n: real) | Text(ip: Option<Ip>) | TokenEntries(tokens: seq<Token>)

  datatype Field = Bool(b: bool) | Num(n: nat) | Addr(ip: Ip) | List(tokens: seq<Token>)

  datatype Name = Owned(key: Key) | Foreign(name: string)

  datatype Error = BadValue(key: Key) | Invariant(rule: nat)

  type Config = map<Key, Field>

  // ---- One value ------------------------------------------------------------------------

  /** The double nearest the top of a key's range: 2^64 for 2^64 - 1. */
  function Top(max: nat): nat { if max == U64_MAX then max + 1 else max }

  predicate Fits(kind: Kind, v: Value) {
    match kind
    case Flag => v.Boolean?
    case Whole(min, max) => v.Number? && v.n.Floor as real == v.n && min as real <= v.n <= Top(max) as real
    case Address => v.Text? && v.ip.Some?
    case TokenList => v.TokenEntries?
  }

  function Store(kind: Kind, v: Value): Field
    requires Fits(kind, v)
  {
    match kind
    case Flag => Bool(v.b)
    case Whole(min, max) => Num(Min(v.n.Floor, U64_MAX))
    case Address => Addr(v.ip.value)
    case TokenList => List(v.tokens)
  }

  /** A field holds what its key takes. */
  predicate Holds(kind: Kind, f: Field) {
    match kind
    case Flag => f.Bool?
    case Whole(min, max) => f.Num? && min <= f.n <= max
    case Address => f.Addr?
    case TokenList => f.List?
  }

  lemma StoredHolds(k: Key, v: Value)
    requires Fits(k.KindOf(), v)
    ensures Holds(k.KindOf(), Store(k.KindOf(), v))
  {
  }

  /** The whole numbers in its range fit a key, and no number between two; each
      is stored as itself, but for the one double past a 64-bit range. */
  lemma WholeFits(min: nat, max: nat, n: int, x: real)
    requires min <= max <= U64_MAX && n as real - 1.0 < x < n as real
    ensures Fits(Whole(min, max), Number(n as real)) <==> min <= n <= Top(max)
    ensures !Fits(Whole(min, max), Number(x))
    ensures min <= n <= max ==> Store(Whole(min, max), Number(n as real)) == Num(n)
    ensures n == U64_MAX + 1 && max == U64_MAX ==> Store(Whole(min, max), Number(n as real)) == Num(max)
  {
    assert (n as real).Floor == n && x.Floor == n - 1;
  }

  lemma DefaultsHold(k: Key)
    ensures Holds(k.KindOf(), k.Default())
  {
  }

  ghost predicate Complete(c: Config) {
    forall k: Key :: k in c && Holds(k.KindOf(), c[k])
  }

  function Get(c: Config, k: Key): nat
    requires k in c && c[k].Num?
  {
    c[k].n
  }

  /** The rules that tie one key to another, in the order they are asked; the
      number of the first that is broken, or none. */
  function Broken(c: Config): Option<nat>
    requires Complete(c)
  {
    if Get(c, MaxUnauthenticatedConnections) >= Get(c, MaxConnections) then Some(0)
    else if Get(c, HeartbeatIntervalMs) >= Get(c, DcsAliveThresholdMs) then Some(1)
    else if Get(c, DcsAliveThresholdLoadingMs) < Get(c, LoadTimeoutMs) then Some(2)
    else if !c[AllowPublicBind].b && !c[BindAddress].ip.nearby then Some(3)
    else if Get(c, RingOutLifecycleRecords) <= Get(c, MaxLifecycleTopics) then Some(4)
    else None
  }

  // ---- What the rules are for ---------------------------------------------------------------

  /** An unauthenticated connection always finds the pool not full. */
  predicate PoolSpared(c: Config)
    requires Complete(c)
  {
    c[MaxUnauthenticatedConnections].n < c[MaxConnections].n
  }

  /** The sim never reads dead between beats, nor while a mission loads in the
      time it may take. */
  predicate ReadsAlive(c: Config)
    requires Complete(c)
  {
    c[HeartbeatIntervalMs].n < c[DcsAliveThresholdMs].n && c[LoadTimeoutMs].n <= c[DcsAliveThresholdLoadingMs].n
  }

  /** A public address is listened on only by leave. */
  predicate Sheltered(c: Config)
    requires Complete(c)
  {
    c[BindAddress].ip.nearby || c[AllowPublicBind].b
  }

  /** A replay of the whole set leaves a place free. */
  predicate RingAbove(c: Config)
    requires Complete(c)
  {
    c[MaxLifecycleTopics].n < c[RingOutLifecycleRecords].n
  }

  predicate Guarded(c: Config)
    requires Complete(c)
  {
    PoolSpared(c) && ReadsAlive(c) && Sheltered(c)
  }

  /** No rule is broken exactly when all of that holds; and the rule named is one
      that does not. */
  lemma RulesHold(c: Config)
    requires Complete(c)
    ensures Broken(c) == None <==> Guarded(c) && RingAbove(c)
    ensures Broken(c) == Some(0) ==> !PoolSpared(c)
    ensures Broken(c) == Some(1) || Broken(c) == Some(2) ==> PoolSpared(c) && !ReadsAlive(c)
    ensures Broken(c) == Some(3) ==> PoolSpared(c) && ReadsAlive(c) && !Sheltered(c)
    ensures Broken(c) == Some(4) ==> Guarded(c) && !RingAbove(c)
    ensures Broken(c).Some? ==> Broken(c).value < 5
  {
    assert Holds(BindAddress.KindOf(), c[BindAddress]) && Holds(AllowPublicBind.KindOf(), c[AllowPublicBind]);
  }

  /** With the keys they ask about as they come, the rules hold. */
  lemma AsTheyCome(c: Config)
    requires Complete(c)
    requires c[MaxUnauthenticatedConnections] == MaxUnauthenticatedConnections.Default()
    requires c[MaxConnections] == MaxConnections.Default()
    requires c[HeartbeatIntervalMs] == HeartbeatIntervalMs.Default()
    requires c[DcsAliveThresholdMs] == DcsAliveThresholdMs.Default()
    requires c[DcsAliveThresholdLoadingMs] == DcsAliveThresholdLoadingMs.Default()
    requires c[LoadTimeoutMs] == LoadTimeoutMs.Default()
    requires c[BindAddress] == BindAddress.Default()
    ensures Guarded(c)
  {
    hide Complete;
  }

  /** What a table must be to be taken. */
  ghost predicate Accepts(base: Config, table: seq<Row>, everyTier: bool)
    requires Complete(base)
  {
    && AllFit(table) && Complete(InForce(base, table, everyTier))
    && Guarded(InForce(base, table, everyTier)) && RingAbove(InForce(base, table, everyTier))
  }

  // ---- A table ----------------------------------------------------------------------------

  type Row = (Name, Value)

  predicate Bad(row: Row) { row.0.Owned? && !Fits(row.0.key.KindOf(), row.1) }

  ghost predicate AllFit(table: seq<Row>) { forall i | 0 <= i < |table| :: !Bad(table[i]) }

  /** What a table says of a key: the last row that names it. */
  function Says(table: seq<Row>, k: Key): Option<Field>
    requires AllFit(table)
  {
    if table == [] then None else
    var last := table[|table| - 1];
    if last.0 == Owned(k) then Some(Store(k.KindOf(), last.1)) else Says(table[..|table| - 1], k)
  }

  function Or(f: Option<Field>, other: Field): Field { if f.Some? then f.value else other }

  /** What a key is to be: a live key as the table has it, or its default; a
      restart key as it is, unless this is the first table. */
  function Effective(base: Config, table: seq<Row>, everyTier: bool, k: Key): Field
    requires Complete(base) && AllFit(table)
  {
    if k.TierOf() == Live then Or(Says(table, k), k.Default())
    else if everyTier then Or(Says(table, k), base[k])
    else base[k]
  }

  datatype Waiting = Waiting(key: Key, effective: Field, file: Field)

  /** The rows that wait for a restart, in the table's order. */
  function Pending(base: Config, table: seq<Row>, everyTier: bool): seq<Waiting>
    requires Complete(base) && AllFit(table)
  {
    if table == [] then [] else
    var front, last := Pending(base, table[..|table| - 1], everyTier), table[|table| - 1];
    if last.0.Owned? && last.0.key.TierOf() == Restart && !everyTier
       && Store(last.0.key.KindOf(), last.1) != base[last.0.key]
    then front + [Waiting(last.0.key, base[last.0.key], Store(last.0.key.KindOf(), last.1))] else front
  }

  function Unknown(table: seq<Row>): seq<string> {
    if table == [] then [] else
    Unknown(table[..|table| - 1]) + if table[|table| - 1].0.Foreign? then [table[|table| - 1].0.name] else []
  }

  function LiveNamed(table: seq<Row>): nat {
    if table == [] then 0 else
    LiveNamed(table[..|table| - 1])
    + if table[|table| - 1].0.Owned? && table[|table| - 1].0.key.TierOf() == Live then 1 else 0
  }

  datatype Applied = Applied(config: Config, live: nat, pending: seq<Waiting>, unknown: seq<string>)

  function AllKeys(): seq<Key> {
    [Enabled, BindAddress, Port, AllowPublicBind, MaxConnections, MaxUnauthenticatedConnections,
     HandshakeTimeoutMs, MaxFrameBytes, MaxTypeUrlBytes, RejectedMaxPerSec, BusyMaxPerSec,
     InboundRecordsPerSec, InboundRecordsPerSecTotal, AuthFailuresPerMin, Tokens,
     RingOutLossyRecords, RingOutDurableRecords, RingOutLifecycleRecords,
     RingInSimDriverRecords, RingInHookDriverRecords,
     HeartbeatIntervalMs, DcsAliveThresholdMs, DcsAliveThresholdLoadingMs, LoadTimeoutMs, RequestTimeoutMs,
     SpoolMaxBytes, SpoolRetentionHours,
     MaxLifecycleRecordBytes, MaxLifecycleTopics, TopicFilterMaxTopics]
  }

  function PlaceOf(k: Key): (i: nat)
    ensures i < |AllKeys()| && AllKeys()[i] == k
  {
    match k
    case Enabled => 0 case BindAddress => 1 case Port => 2 case AllowPublicBind => 3 case MaxConnections => 4
    case MaxUnauthenticatedConnections => 5 case HandshakeTimeoutMs => 6 case MaxFrameBytes => 7
    case MaxTypeUrlBytes => 8 case RejectedMaxPerSec => 9 case BusyMaxPerSec => 10
    case InboundRecordsPerSec => 11 case InboundRecordsPerSecTotal => 12 case AuthFailuresPerMin => 13
    case Tokens => 14 case RingOutLossyRecords => 15 case RingOutDurableRecords => 16
    case RingOutLifecycleRecords => 17 case RingInSimDriverRecords => 18 case RingInHookDriverRecords => 19
    case HeartbeatIntervalMs => 20 case DcsAliveThresholdMs => 21 case DcsAliveThresholdLoadingMs => 22
    case LoadTimeoutMs => 23 case RequestTimeoutMs => 24 case SpoolMaxBytes => 25 case SpoolRetentionHours => 26
    case MaxLifecycleRecordBytes => 27 case MaxLifecycleTopics => 28 case TopicFilterMaxTopics => 29
  }

  lemma AllListed()
    ensures forall k: Key :: k in AllKeys()
  {
    forall k: Key ensures k in AllKeys() { assert AllKeys()[PlaceOf(k)] == k; }
  }

  function Defaults(): (c: Config)
    ensures Complete(c) && forall k: Key :: c[k] == k.Default()
  {
    AllListed();
    assert forall k: Key :: Holds(k.KindOf(), k.Default());
    map k: Key | k in AllKeys() :: k.Default()
  }

  ghost function InForce(base: Config, table: seq<Row>, everyTier: bool): (c: Config)
    requires Complete(base) && AllFit(table)
    ensures forall k: Key :: k in c && c[k] == Effective(base, table, everyTier, k)
  {
    AllListed();
    map k: Key | k in AllKeys() :: Effective(base, table, everyTier, k)
  }

  lemma {:induction false} SaysHolds(table: seq<Row>, k: Key)
    requires AllFit(table)
    ensures Says(table, k).Some? ==> Holds(k.KindOf(), Says(table, k).value)
  {
    if table != [] {
      var last := table[|table| - 1];
      assert !Bad(last);
      if last.0 == Owned(k) { StoredHolds(k, last.1); } else { SaysHolds(table[..|table| - 1], k); }
    }
  }

  lemma InForceComplete(base: Config, table: seq<Row>, everyTier: bool)
    requires Complete(base) && AllFit(table)
    ensures Complete(InForce(base, table, everyTier))
  {
    forall k: Key ensures Holds(k.KindOf(), InForce(base, table, everyTier)[k]) {
      SaysHolds(table, k);
      DefaultsHold(k);
    }
  }

  /** What is allocated, bound or counted from the start stays as it was started,
      and everything else is as the latest table has it. */
  lemma LaterMoves(base: Config, table: seq<Row>, k: Key)
    requires Complete(base) && AllFit(table)
    ensures InForce(base, table, false)[k]
         == if k in {BindAddress, Port, AllowPublicBind, MaxConnections, MaxLifecycleRecordBytes, MaxLifecycleTopics,
                     RingOutLossyRecords, RingOutDurableRecords, RingOutLifecycleRecords,
                     RingInSimDriverRecords, RingInHookDriverRecords}
            then base[k] else Or(Says(table, k), k.Default())
  {
    hide Complete, Says, AllFit, Key.Default, Key.KindOf;
  }

  /** A row in range changes its own key and no other. */
  lemma InForceNext(base: Config, table: seq<Row>, everyTier: bool, row: Row)
    requires Complete(base) && AllFit(table) && !Bad(row)
    ensures AllFit(table + [row])
    ensures InForce(base, table + [row], everyTier)
         == if row.0.Owned? && (everyTier || row.0.key.TierOf() == Live)
            then InForce(base, table, everyTier)[row.0.key := Store(row.0.key.KindOf(), row.1)]
            else InForce(base, table, everyTier)
  {
    assert (table + [row])[..|table|] == table;
    forall k: Key ensures Says(table + [row], k) == if row.0 == Owned(k) then Some(Store(k.KindOf(), row.1)) else Says(table, k) {}
    hide Says, Key.KindOf, Key.TierOf, Key.Default, Store;
  }

  lemma PendingNext(base: Config, table: seq<Row>, everyTier: bool, row: Row)
    requires Complete(base) && AllFit(table) && !Bad(row)
    ensures AllFit(table + [row])
    ensures Pending(base, table + [row], everyTier)
         == if row.0.Owned? && row.0.key.TierOf() == Restart && !everyTier && Store(row.0.key.KindOf(), row.1) != base[row.0.key]
            then Pending(base, table, everyTier) + [Waiting(row.0.key, base[row.0.key], Store(row.0.key.KindOf(), row.1))]
            else Pending(base, table, everyTier)
    ensures Unknown(table + [row]) == Unknown(table) + if row.0.Foreign? then [row.0.name] else []
    ensures LiveNamed(table + [row]) == LiveNamed(table) + if row.0.Owned? && row.0.key.TierOf() == Live then 1 else 0
  {
    assert (table + [row])[..|table|] == table;
  }

  /** The first of a table's rows that its key does not take. */
  ghost predicate FirstBad(table: seq<Row>, i: nat) {
    i < |table| && Bad(table[i]) && forall j | 0 <= j < i :: !Bad(table[j])
  }

  method Start(base: Config) returns (next: Config)
    requires Complete(base)
    ensures next == InForce(base, [], true) && next == InForce(base, [], false)
  {
    AllListed();
    next := Defaults();
    var keys := AllKeys();
    hide Key.TierOf, Key.Default, AllKeys, Holds;
    for i := 0 to |keys|
      invariant forall k: Key :: k in next && next[k] == if k.TierOf() == Restart && k in keys[..i] then base[k] else k.Default()
    {
      assert keys[..i + 1] == keys[..i] + [keys[i]];
      if keys[i].TierOf() == Restart { next := next[keys[i] := base[keys[i]]]; }
    }
    assert keys[..|keys|] == keys;
    NothingSaid();
    hide Says;
    assert forall k: Key :: next[k] == InForce(base, [], true)[k] == InForce(base, [], false)[k];
  }

  lemma NothingSaid()
    ensures AllFit([]) && forall k: Key :: Says([], k) == None
  {
  }

  /** A table over the configuration `base`: applied whole, or refused whole for
      the first value its key does not take, or the first rule broken by what
      would be in force. */
  method Merge(base: Config, table: seq<Row>, everyTier: bool) returns (r: Result<Applied, Error>)
    requires Complete(base)
    ensures !AllFit(table) ==> r.Err? && r.error.BadValue? && exists i: nat :: FirstBad(table, i) && table[i].0.key == r.error.key
    ensures AllFit(table) ==>
              var c := InForce(base, table, everyTier);
              && Complete(c)
              && r == if Broken(c).Some? then Err(Invariant(Broken(c).value))
                      else Ok(Applied(c, LiveNamed(table), Pending(base, table, everyTier), Unknown(table)))
    ensures r.Ok? <==> Accepts(base, table, everyTier)
  {
    var next := Start(base);
    var live, pending, unknown := 0, [], [];
    for i := 0 to |table|
      invariant AllFit(table[..i]) && forall j | 0 <= j < i :: !Bad(table[j])
      invariant next == InForce(base, table[..i], everyTier)
      invariant live == LiveNamed(table[..i]) && unknown == Unknown(table[..i]) && pending == Pending(base, table[..i], everyTier)
    {
      var row := table[i];
      if Bad(row) {
        assert FirstBad(table, i);
        return Err(BadValue(row.0.key));
      }
      assert table[..i + 1] == table[..i] + [row];
      InForceNext(base, table[..i], everyTier, row);
      PendingNext(base, table[..i], everyTier, row);
      hide Bad, InForce, Pending, LiveNamed, Unknown, Key.KindOf, Key.TierOf, Store;
      match row.0 {
        case Foreign(name) => unknown := unknown + [name];
        case Owned(key) =>
          if key.TierOf() == Live {
            live := live + 1;
            next := next[key := Store(key.KindOf(), row.1)];
          } else if everyTier {
            next := next[key := Store(key.KindOf(), row.1)];
          } else {
            var file := next[key := Store(key.KindOf(), row.1)];
            if next[key] != file[key] { pending := pending + [Waiting(key, next[key], file[key])]; }
          }
      }
    }
    assert table[..|table|] == table;
    InForceComplete(base, table, everyTier);
    RulesHold(next);
    var broken := Broken(next);
    if broken.Some? { return Err(Invariant(broken.value)); }
    return Ok(Applied(next, live, pending, unknown));
  }
}
