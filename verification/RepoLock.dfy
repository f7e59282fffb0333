/** src/repo_lock.py: reentrant repository locks with renewable leases, an opaque-token
    index and notification of blocked chats.  Paths are already normalized; an invalid path
    (where every operation returns at once) is `None` for the class below. */
module RepoLock {
  import opened Wrappers

  datatype Entry = Entry(
    chat: string,
    owner: string,
    refcount: int,
    acquiredAt: real,
    lastActive: real,
    sender: string)

  /** The two-way index between normalized paths and opaque tokens. */
  datatype Tokens = Tokens(ofPath: map<string, string>, ofToken: map<string, string>)

  /** Everything the manager keeps under its mutex. */
  datatype Locks = Locks(locks: map<string, Entry>, blocked: map<string, set<string>>, tokens: Tokens)

  const EMPTY := Locks(map[], map[], Tokens(map[], map[]))
  const MAX_BLOCKED := 10
  const TOKEN_CAPACITY := 1024

  datatype Config = Config(idle: real, hard: real, hash: string -> string)

  datatype AcquireResult = Acquired | Conflict(holder: string, since: real, lastActive: real)

  // ---- The critical sections, as functions of the state ----

  predicate HeldBy(s: Locks, key: string, chat: string, owner: string) {
    key in s.locks && s.locks[key].chat == chat && s.locks[key].owner == owner
  }

  function Block(s: Locks, key: string, chat: string): Locks {
    var waiting := if key in s.blocked then s.blocked[key] else {};
    s.(blocked := s.blocked[key := if |waiting| < MAX_BLOCKED then waiting + {chat} else waiting])
  }

  function Acquire(s: Locks, key: string, chat: string, owner: string, sender: string, now: real): (Locks, AcquireResult) {
    if key !in s.locks then
      (s.(locks := s.locks[key := Entry(chat, owner, 1, now, now, sender)]), Acquired)
    else
      var e := s.locks[key];
      if e.chat == chat && e.owner == owner then
        (s.(locks := s.locks[key := e.(refcount := e.refcount + 1, lastActive := now, sender := sender)]), Acquired)
      else
        (Block(s, key, chat), Conflict(e.chat, e.acquiredAt, e.lastActive))
  }

  function TokensOf(k: Tokens, paths: set<string>): set<string> {
    set p | p in paths && p in k.ofPath :: k.ofPath[p]
  }

  function DropTokens(k: Tokens, paths: set<string>): Tokens {
    Tokens(k.ofPath - paths, k.ofToken - TokensOf(k, paths))
  }

  /** Dropping entries takes their tokens and blocked chats with them. */
  function Remove(s: Locks, keys: set<string>): Locks {
    Locks(s.locks - keys, s.blocked - keys, DropTokens(s.tokens, keys))
  }

  function Release(s: Locks, key: string, chat: string, owner: string, now: real): Locks {
    if !HeldBy(s, key, chat, owner) then s
    else
      var e := s.locks[key];
      if e.refcount - 1 <= 0 then Remove(s, {key})
      else s.(locks := s.locks[key := e.(refcount := e.refcount - 1, lastActive := now)])
  }

  function ForceRelease(s: Locks, key: string): Locks {
    if key in s.locks then Remove(s, {key}) else s
  }

  function Touch(s: Locks, key: string, chat: string, owner: string, now: real): Locks {
    if HeldBy(s, key, chat, owner) then s.(locks := s.locks[key := s.locks[key].(lastActive := now)]) else s
  }

  function IdleExpired(s: Locks, now: real, idle: real): set<string> {
    set p | p in s.locks && s.locks[p].refcount <= 0 && now - s.locks[p].lastActive > idle
  }

  function HardExpired(s: Locks, now: real, hard: real): set<string> {
    set p | p in s.locks && s.locks[p].refcount > 0 && now - s.locks[p].lastActive > hard
  }

  function Orphans(s: Locks): set<string> {
    set p | p in s.tokens.ofPath && p !in s.locks
  }

  function DropOrphans(s: Locks): Locks {
    s.(tokens := DropTokens(s.tokens, Orphans(s)))
  }

  function Cleanup(s: Locks, now: real, idle: real, hard: real): Locks {
    var one := Remove(s, IdleExpired(s, now, idle));
    var two := Remove(one, HardExpired(one, now, hard));
    DropOrphans(two)
  }

  /** `path_to_token`, with the hash of the path given. */
  function IssueToken(s: Locks, key: string, hashed: string): (Locks, string) {
    var k := s.tokens;
    if key in k.ofPath && k.ofPath[key] != "" then (s, k.ofPath[key])
    else
      var purged := if |k.ofToken| >= TOKEN_CAPACITY then DropTokens(k, Orphans(s)) else k;
      if |purged.ofToken| >= TOKEN_CAPACITY then (s.(tokens := purged), hashed)
      else (s.(tokens := Tokens(purged.ofPath[key := hashed], purged.ofToken[hashed := key])), hashed)
  }

  /** `heartbeat_interval` */
  function Heartbeat(hard: real): (h: real)
    ensures h > 0.0
    ensures hard > 0.0 ==> 3.0 * h <= hard
  {
    if hard <= 0.0 then 30.0 else if hard / 3.0 < 30.0 then hard / 3.0 else 30.0
  }

  // ---- Runs ----

  datatype Op =
    | OpAcquire(key: string, chat: string, owner: string, sender: string, p2p: bool)
    | OpRelease(key: string, chat: string, owner: string)
    | OpForce(key: string)
    | OpTouch(key: string, chat: string, owner: string)
    | OpCleanup
    | OpToken(key: string)

  datatype Timed = Timed(op: Op, now: real)

  function Apply(c: Config, s: Locks, t: Timed): Locks {
    match t.op
    case OpAcquire(key, chat, owner, sender, p2p) => if p2p then s else Acquire(s, key, chat, owner, sender, t.now).0
    case OpRelease(key, chat, owner) => Release(s, key, chat, owner, t.now)
    case OpForce(key) => ForceRelease(s, key)
    case OpTouch(key, chat, owner) => Touch(s, key, chat, owner, t.now)
    case OpCleanup => Cleanup(s, t.now, c.idle, c.hard)
    case OpToken(key) => IssueToken(s, key, c.hash(key)).0
  }

  function Run(c: Config, s: Locks, ops: seq<Timed>): Locks {
    if ops == [] then s else Apply(c, Run(c, s, ops[..|ops| - 1]), ops[|ops| - 1])
  }

  // ---- What a step does to one path ----

  /** The lock and the blocked chats of one path. */
  datatype Cell = Cell(entry: Option<Entry>, blocked: Option<set<string>>)

  function CellOf(s: Locks, key: string): Cell {
    Cell(if key in s.locks then Some(s.locks[key]) else None, if key in s.blocked then Some(s.blocked[key]) else None)
  }

  const FREE := Cell(None, None)

  function CellAcquire(x: Cell, chat: string, owner: string, sender: string, now: real): Cell {
    match x.entry
    case None => x.(entry := Some(Entry(chat, owner, 1, now, now, sender)))
    case Some(e) =>
      if e.chat == chat && e.owner == owner then
        x.(entry := Some(e.(refcount := e.refcount + 1, lastActive := now, sender := sender)))
      else
        var waiting := if x.blocked.Some? then x.blocked.value else {};
        x.(blocked := Some(if |waiting| < MAX_BLOCKED then waiting + {chat} else waiting))
  }

  function CellRelease(x: Cell, chat: string, owner: string, now: real): Cell {
    match x.entry
    case None => x
    case Some(e) =>
      if e.chat != chat || e.owner != owner then x
      else if e.refcount <= 1 then FREE
      else x.(entry := Some(e.(refcount := e.refcount - 1, lastActive := now)))
  }

  function CellTouch(x: Cell, chat: string, owner: string, now: real): Cell {
    match x.entry
    case None => x
    case Some(e) => if e.chat == chat && e.owner == owner then x.(entry := Some(e.(lastActive := now))) else x
  }

  function CellCleanup(x: Cell, now: real, idle: real, hard: real): Cell {
    match x.entry
    case None => x
    case Some(e) => if now - e.lastActive > (if e.refcount <= 0 then idle else hard) then FREE else x
  }

  function CellStep(c: Config, x: Cell, t: Timed, key: string): Cell {
    match t.op
    case OpAcquire(k, chat, owner, sender, p2p) => if p2p || k != key then x else CellAcquire(x, chat, owner, sender, t.now)
    case OpRelease(k, chat, owner) => if k != key then x else CellRelease(x, chat, owner, t.now)
    case OpForce(k) => if k != key || x.entry.None? then x else FREE
    case OpTouch(k, chat, owner) => if k != key then x else CellTouch(x, chat, owner, t.now)
    case OpCleanup => CellCleanup(x, t.now, c.idle, c.hard)
    case OpToken(k) => x
  }

  lemma RemoveIsLocal(s: Locks, keys: set<string>, key: string)
    ensures CellOf(Remove(s, keys), key) == if key in keys then FREE else CellOf(s, key)
  {
    hide DropTokens;
  }

  lemma CleanupIsLocal(s: Locks, now: real, idle: real, hard: real, key: string)
    ensures CellOf(Cleanup(s, now, idle, hard), key) == CellCleanup(CellOf(s, key), now, idle, hard)
  {
    hide Remove, DropTokens;
    var one := Remove(s, IdleExpired(s, now, idle));
    RemoveIsLocal(s, IdleExpired(s, now, idle), key);
    RemoveIsLocal(one, HardExpired(one, now, hard), key);
    assert key in IdleExpired(s, now, idle) <==> key in s.locks && s.locks[key].refcount <= 0 && now - s.locks[key].lastActive > idle;
    assert key in HardExpired(one, now, hard) <==> key in one.locks && one.locks[key].refcount > 0 && now - one.locks[key].lastActive > hard;
    assert CellOf(one, key).entry.Some? ==> one.locks[key] == s.locks[key];
  }

  /** A step's effect on a path depends on that path alone. */
  lemma StepIsLocal(c: Config, s: Locks, t: Timed, key: string)
    ensures CellOf(Apply(c, s, t), key) == CellStep(c, CellOf(s, key), t, key)
  {
    hide Remove, DropTokens, Cleanup, Orphans;
    match t.op
    case OpAcquire(k, chat, owner, sender, p2p) =>
    case OpRelease(k, chat, owner) => RemoveIsLocal(s, {k}, key);
    case OpForce(k) => RemoveIsLocal(s, {k}, key);
    case OpTouch(k, chat, owner) =>
    case OpCleanup => CleanupIsLocal(s, t.now, c.idle, c.hard, key);
    case OpToken(k) =>
  }

  // ---- The indexes always agree ----

  ghost predicate GoodHash(hash: string -> string) {
    (forall p :: hash(p) != "") && (forall p, q :: hash(p) == hash(q) ==> p == q)
  }

  ghost predicate TokensAgree(hash: string -> string, k: Tokens) {
    && (forall p :: p in k.ofPath ==> k.ofPath[p] == hash(p) && hash(p) in k.ofToken && k.ofToken[hash(p)] == p)
    && (forall t :: t in k.ofToken ==> k.ofToken[t] in k.ofPath && hash(k.ofToken[t]) == t)
    && |k.ofToken| <= TOKEN_CAPACITY
  }

  lemma DropTokensAgrees(hash: string -> string, k: Tokens, paths: set<string>)
    requires GoodHash(hash) && TokensAgree(hash, k)
    ensures TokensAgree(hash, DropTokens(k, paths))
    ensures |DropTokens(k, paths).ofToken| <= |k.ofToken|
  {
    var d := DropTokens(k, paths);
    SubsetSize(d.ofToken.Keys, k.ofToken.Keys);
    assert |d.ofToken| == |d.ofToken.Keys| && |k.ofToken| == |k.ofToken.Keys|;
    forall t | t in d.ofToken ensures d.ofToken[t] in d.ofPath {
      assert k.ofToken[t] in k.ofPath;
    }
    forall p | p in d.ofPath ensures hash(p) in d.ofToken {
      assert hash(p) in k.ofToken;
    }
  }

  lemma HashIsInjective(hash: string -> string, p: string, q: string)
    requires GoodHash(hash) && hash(p) == hash(q)
    ensures p == q
  {
  }

  lemma AddTokenAgrees(hash: string -> string, k: Tokens, key: string)
    requires GoodHash(hash) && TokensAgree(hash, k) && key !in k.ofPath && |k.ofToken| < TOKEN_CAPACITY
    ensures TokensAgree(hash, Tokens(k.ofPath[key := hash(key)], k.ofToken[hash(key) := key]))
  {
    hide GoodHash;
    if hash(key) in k.ofToken { HashIsInjective(hash, k.ofToken[hash(key)], key); }
    var n := Tokens(k.ofPath[key := hash(key)], k.ofToken[hash(key) := key]);
    assert n.ofToken.Keys == k.ofToken.Keys + {hash(key)};
    forall p | p in n.ofPath ensures n.ofPath[p] == hash(p) && hash(p) in n.ofToken && n.ofToken[hash(p)] == p {
      if p != key && hash(p) == hash(key) { HashIsInjective(hash, p, key); }
    }
    forall t | t in n.ofToken ensures n.ofToken[t] in n.ofPath && hash(n.ofToken[t]) == t {
      assert t != hash(key) ==> t in k.ofToken;
    }
  }

  /** The token handed out is always the hash of the path, cached or not. */
  lemma TokenIsHash(c: Config, s: Locks, key: string)
    requires GoodHash(c.hash) && TokensAgree(c.hash, s.tokens)
    ensures IssueToken(s, key, c.hash(key)).1 == c.hash(key)
    ensures TokensAgree(c.hash, IssueToken(s, key, c.hash(key)).0.tokens)
  {
    hide DropTokens;
    var k := s.tokens;
    DropTokensAgrees(c.hash, k, Orphans(s));
    if key !in k.ofPath {
      var purged := if |k.ofToken| >= TOKEN_CAPACITY then DropTokens(k, Orphans(s)) else k;
      assert key !in purged.ofPath by { DropShrinks(k, Orphans(s)); }
      if |purged.ofToken| < TOKEN_CAPACITY { AddTokenAgrees(c.hash, purged, key); }
    }
  }

  lemma DropShrinks(k: Tokens, paths: set<string>)
    ensures DropTokens(k, paths).ofPath.Keys <= k.ofPath.Keys
  {
  }

  lemma StepTokensAgree(c: Config, s: Locks, t: Timed)
    requires GoodHash(c.hash) && TokensAgree(c.hash, s.tokens)
    ensures TokensAgree(c.hash, Apply(c, s, t).tokens)
  {
    hide DropTokens, TokensAgree, GoodHash, IssueToken;
    match t.op
    case OpAcquire(key, chat, owner, sender, p2p) =>
    case OpRelease(key, chat, owner) => DropTokensAgrees(c.hash, s.tokens, {key});
    case OpForce(key) => DropTokensAgrees(c.hash, s.tokens, {key});
    case OpTouch(key, chat, owner) =>
    case OpCleanup =>
      var one := Remove(s, IdleExpired(s, t.now, c.idle));
      var two := Remove(one, HardExpired(one, t.now, c.hard));
      DropTokensAgrees(c.hash, s.tokens, IdleExpired(s, t.now, c.idle));
      DropTokensAgrees(c.hash, one.tokens, HardExpired(one, t.now, c.hard));
      DropTokensAgrees(c.hash, two.tokens, Orphans(two));
    case OpToken(key) => TokenIsHash(c, s, key);
  }

  function Hashes(hash: string -> string, paths: set<string>): set<string> {
    set p | p in paths :: hash(p)
  }

  lemma NoHashes(hash: string -> string)
    ensures Hashes(hash, {}) == {}
  {
  }

  lemma HashesMore(hash: string -> string, rest: set<string>, p: string)
    requires GoodHash(hash) && p !in rest
    ensures Hashes(hash, rest + {p}) == Hashes(hash, rest) + {hash(p)} && hash(p) !in Hashes(hash, rest)
  {
    forall q | q in rest ensures hash(q) != hash(p) { if hash(q) == hash(p) { HashIsInjective(hash, q, p); } }
  }

  lemma {:induction false} HashesSize(hash: string -> string, paths: set<string>)
    requires GoodHash(hash)
    ensures |Hashes(hash, paths)| == |paths|
    decreases paths
  {
    hide GoodHash, Hashes;
    if paths == {} {
      NoHashes(hash);
    } else {
      var p :| p in paths;
      var rest := paths - {p};
      HashesSize(hash, rest);
      HashesMore(hash, rest, p);
      assert paths == rest + {p};
      assert |paths| == |rest| + 1;
    }
  }

  /** Mutually inverse maps have the same size, so both sides respect the capacity. */
  lemma TokenMapsSameSize(hash: string -> string, k: Tokens)
    requires GoodHash(hash) && TokensAgree(hash, k)
    ensures |k.ofPath| == |k.ofToken| <= TOKEN_CAPACITY
  {
    HashesSize(hash, k.ofPath.Keys);
    assert Hashes(hash, k.ofPath.Keys) == k.ofToken.Keys;
    assert |k.ofPath| == |k.ofPath.Keys| && |k.ofToken| == |k.ofToken.Keys|;
  }

  // ---- The invariant ----

  predicate CellOk(x: Cell) {
    && (x.entry.None? ==> x.blocked.None?)
    && (x.entry.Some? ==> x.entry.value.refcount >= 1)
    && (x.blocked.Some? ==> 0 < |x.blocked.value| <= MAX_BLOCKED)
  }

  ghost predicate Inv(c: Config, s: Locks) {
    (forall key :: CellOk(CellOf(s, key))) && TokensAgree(c.hash, s.tokens)
  }

  lemma CellStepOk(c: Config, x: Cell, t: Timed, key: string)
    requires CellOk(x)
    ensures CellOk(CellStep(c, x, t, key))
  {
  }

  lemma StepKeepsInv(c: Config, s: Locks, t: Timed)
    requires GoodHash(c.hash) && Inv(c, s)
    ensures Inv(c, Apply(c, s, t))
  {
    hide CellOk, Apply, CellStep, TokensAgree;
    StepTokensAgree(c, s, t);
    forall key ensures CellOk(CellOf(Apply(c, s, t), key)) {
      StepIsLocal(c, s, t, key);
      CellStepOk(c, CellOf(s, key), t, key);
    }
  }

  /** In every reachable state: refcounts are at least 1, blocked chats (at most 10) belong
      to held locks, and the token maps are mutual inverses within capacity. */
  lemma {:induction false} RunKeepsInv(c: Config, s: Locks, ops: seq<Timed>)
    requires GoodHash(c.hash) && Inv(c, s)
    ensures Inv(c, Run(c, s, ops))
  {
    hide Inv, GoodHash, Apply;
    if ops != [] {
      RunKeepsInv(c, s, ops[..|ops| - 1]);
      StepKeepsInv(c, Run(c, s, ops[..|ops| - 1]), ops[|ops| - 1]);
    }
  }

  lemma ReachableStates(c: Config, ops: seq<Timed>)
    requires GoodHash(c.hash)
    ensures var s := Run(c, EMPTY, ops);
            && (forall p :: p in s.locks ==> s.locks[p].refcount >= 1)
            && s.blocked.Keys <= s.locks.Keys
            && (forall p :: p in s.blocked ==> |s.blocked[p]| <= MAX_BLOCKED)
            && TokensAgree(c.hash, s.tokens) && |s.tokens.ofPath| <= TOKEN_CAPACITY
            && (forall now :: IdleExpired(s, now, c.idle) == {})
  {
    hide Apply;
    RunKeepsInv(c, EMPTY, ops);
    var s := Run(c, EMPTY, ops);
    TokenMapsSameSize(c.hash, s.tokens);
    forall p | p in s.locks ensures s.locks[p].refcount >= 1 { assert CellOk(CellOf(s, p)); }
    forall p | p in s.blocked ensures p in s.locks && |s.blocked[p]| <= MAX_BLOCKED { assert CellOk(CellOf(s, p)); }
  }

  // ---- Mutual exclusion and reentrancy accounting ----

  predicate Held(x: Cell) { x.entry.Some? }

  function Path(c: Config, s: Locks, ops: seq<Timed>, key: string): Cell { CellOf(Run(c, s, ops), key) }

  /** The lock on key stays held after every prefix of ops. */
  ghost predicate HeldThroughout(c: Config, s: Locks, ops: seq<Timed>, key: string) {
    forall i :: 0 <= i <= |ops| ==> Held(Path(c, s, ops[..i], key))
  }

  lemma PathStep(c: Config, s: Locks, ops: seq<Timed>, t: Timed, key: string)
    ensures Path(c, s, ops + [t], key) == CellStep(c, Path(c, s, ops, key), t, key)
  {
    hide Apply, CellStep;
    assert (ops + [t])[..|ops|] == ops;
    StepIsLocal(c, Run(c, s, ops), t, key);
  }

  predicate AcquiresAs(t: Timed, key: string, chat: string, owner: string) {
    t.op.OpAcquire? && !t.op.p2p && t.op.key == key && t.op.chat == chat && t.op.owner == owner
  }

  predicate ReleasesAs(t: Timed, key: string, chat: string, owner: string) {
    t.op.OpRelease? && t.op.key == key && t.op.chat == chat && t.op.owner == owner
  }

  function Change(t: Timed, key: string, chat: string, owner: string): int {
    if AcquiresAs(t, key, chat, owner) then 1 else if ReleasesAs(t, key, chat, owner) then -1 else 0
  }

  /** Acquires minus releases of one owner on one key. */
  function Balance(ops: seq<Timed>, key: string, chat: string, owner: string): int {
    if ops == [] then 0
    else Balance(ops[..|ops| - 1], key, chat, owner) + Change(ops[|ops| - 1], key, chat, owner)
  }

  /** Another owner asks for the same lock without the p2p privilege. */
  predicate Intrudes(t: Timed, key: string, chat: string, owner: string) {
    t.op.OpAcquire? && !t.op.p2p && t.op.key == key && (t.op.chat != chat || t.op.owner != owner)
  }

  predicate Granted(s: Locks, t: Timed) {
    t.op.OpAcquire? && Acquire(s, t.op.key, t.op.chat, t.op.owner, t.op.sender, t.now).1 == Acquired
  }

  /** What an acquire answers and changes. A free lock and one's own are granted, with one
      more count and a renewed lease; a refused chat is told who holds the lock since when, and
      is recorded while there is room; nothing else changes. */
  lemma AcquireExactly(c: Config, s: Locks, t: Timed, other: string)
    requires t.op.OpAcquire? && !t.op.p2p
    ensures var OpAcquire(key, chat, owner, sender, _) := t.op;
            var after := Apply(c, s, t);
            && (Granted(s, t) <==> key !in s.locks || (s.locks[key].chat == chat && s.locks[key].owner == owner))
            && (Granted(s, t) ==>
                  && key in after.locks && after.locks[key].chat == chat && after.locks[key].owner == owner
                  && after.locks[key].refcount == (if key in s.locks then s.locks[key].refcount else 0) + 1
                  && after.locks[key].lastActive == t.now && after.locks[key].acquiredAt == (if key in s.locks then s.locks[key].acquiredAt else t.now)
                  && after.blocked == s.blocked)
            && (!Granted(s, t) ==>
                  && Acquire(s, key, chat, owner, sender, t.now).1 == Conflict(s.locks[key].chat, s.locks[key].acquiredAt, s.locks[key].lastActive)
                  && after.locks == s.locks && key in after.blocked
                  && (chat in after.blocked[key] <==> (key in s.blocked && chat in s.blocked[key]) || key !in s.blocked || |s.blocked[key]| < MAX_BLOCKED)
                  && (forall d :: d != chat ==> (d in after.blocked[key] <==> key in s.blocked && d in s.blocked[key])))
            && (other != key ==> CellOf(after, other) == CellOf(s, other))
            && after.tokens == s.tokens
  {
  }

  /** The last release of the owner and any forced release free the lock; other releases and
      touches leave it held. */
  lemma FreedExactly(c: Config, s: Locks, t: Timed, key: string)
    requires key in s.locks && s.locks[key].refcount >= 1
    requires t.op.OpRelease? || t.op.OpForce? || t.op.OpTouch? || t.op.OpAcquire? || t.op.OpToken?
    ensures key !in Apply(c, s, t).locks <==>
            || (ReleasesAs(t, key, s.locks[key].chat, s.locks[key].owner) && s.locks[key].refcount == 1)
            || (t.op.OpForce? && t.op.key == key)
  {
  }

  /** A token that was handed out leads back to its path, unless the index is full of paths
      that are all locked. */
  lemma IssuedTokenResolves(c: Config, s: Locks, key: string)
    requires GoodHash(c.hash) && TokensAgree(c.hash, s.tokens)
    ensures var (after, token) := IssueToken(s, key, c.hash(key));
            || (token in after.tokens.ofToken && after.tokens.ofToken[token] == key)
            || (|after.tokens.ofToken| >= TOKEN_CAPACITY && forall p :: p in after.tokens.ofPath ==> p in s.locks)
  {
    if !(key in s.tokens.ofPath && s.tokens.ofPath[key] != "") && |s.tokens.ofToken| < TOKEN_CAPACITY {
      assert c.hash(key) in s.tokens.ofToken[c.hash(key) := key];
    }
  }

  ghost predicate SameHolder(e: Entry, x: Cell) {
    Held(x) && x.entry.value.chat == e.chat && x.entry.value.owner == e.owner && x.entry.value.acquiredAt == e.acquiredAt
  }

  lemma CellAccounting(c: Config, x: Cell, t: Timed, key: string)
    requires Held(x) && Held(CellStep(c, x, t, key))
    ensures var e, y := x.entry.value, CellStep(c, x, t, key);
            SameHolder(e, y) && y.entry.value.refcount == e.refcount + Change(t, key, e.chat, e.owner)
  {
  }

  lemma HeldPrefix(c: Config, s: Locks, ops: seq<Timed>, key: string)
    requires ops != [] && HeldThroughout(c, s, ops, key)
    ensures HeldThroughout(c, s, ops[..|ops| - 1], key) && Held(Path(c, s, ops, key))
  {
    hide Path, Held;
    var before := ops[..|ops| - 1];
    forall i | 0 <= i <= |before| ensures Held(Path(c, s, before[..i], key)) { assert before[..i] == ops[..i]; }
    assert ops[..|ops|] == ops;
  }

  /** While a lock stays held, its refcount moves exactly with its owner's acquires and
      releases. */
  lemma {:induction false} HoldAccounting(c: Config, s: Locks, ops: seq<Timed>, key: string)
    requires Held(CellOf(s, key)) && HeldThroughout(c, s, ops, key)
    ensures var e, x := s.locks[key], Path(c, s, ops, key);
            SameHolder(e, x) && x.entry.value.refcount == e.refcount + Balance(ops, key, e.chat, e.owner)
  {
    hide Apply, CellStep;
    var e := s.locks[key];
    if ops != [] {
      var before, t := ops[..|ops| - 1], ops[|ops| - 1];
      HeldPrefix(c, s, ops, key);
      HoldAccounting(c, s, before, key);
      assert ops == before + [t];
      PathStep(c, s, before, t, key);
      CellAccounting(c, Path(c, s, before, key), t, key);
    }
  }

  lemma {:induction false} NoIntruderIsGranted(c: Config, s: Locks, ops: seq<Timed>, key: string, i: nat)
    requires Held(CellOf(s, key)) && HeldThroughout(c, s, ops, key)
    requires i < |ops| && Intrudes(ops[i], key, s.locks[key].chat, s.locks[key].owner)
    ensures !Granted(Run(c, s, ops[..i]), ops[i])
  {
    hide Apply;
    forall j | 0 <= j <= i ensures Held(Path(c, s, ops[..i][..j], key)) { assert ops[..i][..j] == ops[..j]; }
    HoldAccounting(c, s, ops[..i], key);
  }

  /** From the acquire that created an entry on: refcount = acquires minus releases of its
      owner, and nobody else gets the lock until the entry is removed. */
  lemma CreatedThenHeld(c: Config, s: Locks, a: Timed, ops: seq<Timed>)
    requires a.op.OpAcquire? && !a.op.p2p && a.op.key !in s.locks
    requires HeldThroughout(c, Apply(c, s, a), ops, a.op.key)
    ensures var x := Path(c, Apply(c, s, a), ops, a.op.key);
            && Held(x) && x.entry.value.chat == a.op.chat && x.entry.value.owner == a.op.owner
            && x.entry.value.refcount == 1 + Balance(ops, a.op.key, a.op.chat, a.op.owner)
    ensures forall i :: 0 <= i < |ops| && Intrudes(ops[i], a.op.key, a.op.chat, a.op.owner)
              ==> !Granted(Run(c, Apply(c, s, a), ops[..i]), ops[i])
  {
    var after := Apply(c, s, a);
    assert CellOf(after, a.op.key).entry == Some(Entry(a.op.chat, a.op.owner, 1, a.now, a.now, a.op.sender));
    HoldAccounting(c, after, ops, a.op.key);
    forall i | 0 <= i < |ops| && Intrudes(ops[i], a.op.key, a.op.chat, a.op.owner)
      ensures !Granted(Run(c, after, ops[..i]), ops[i])
    {
      NoIntruderIsGranted(c, after, ops, a.op.key, i);
    }
  }

  // ---- Blocked chats are told ----

  /** What a step notifies: for each removed lock, the chats recorded as blocked on it. */
  function Notified(before: Locks, after: Locks): map<string, set<string>> {
    map p | p in before.blocked && p in before.locks && p !in after.locks && before.blocked[p] != {} :: before.blocked[p]
  }

  predicate Waits(x: Cell, chat: string) {
    Held(x) && x.blocked.Some? && chat in x.blocked.value
  }

  lemma CellKeepsWaiting(c: Config, x: Cell, t: Timed, key: string, chat: string)
    requires CellOk(x) && Waits(x, chat)
    ensures var y := CellStep(c, x, t, key); if Held(y) then Waits(y, chat) else y == FREE
  {
  }

  /** A chat recorded as blocked stays recorded while the lock is held, and is notified by
      the very step that removes the lock, after which the record is gone. */
  lemma {:induction false} BlockedChatIsNotified(c: Config, s: Locks, ops: seq<Timed>, key: string, chat: string) returns (k: nat)
    requires GoodHash(c.hash) && Inv(c, s) && Waits(CellOf(s, key), chat)
    ensures k <= |ops|
    ensures forall i :: 0 <= i <= k ==> Waits(Path(c, s, ops[..i], key), chat)
    ensures k < |ops| ==>
              var before, after := Run(c, s, ops[..k]), Run(c, s, ops[..k + 1]);
              CellOf(after, key) == FREE && key in Notified(before, after) && chat in Notified(before, after)[key]
  {
    hide Inv, GoodHash, Apply, CellStep, CellOk;
    k := 0;
    assert ops[..0] == [];
    while k < |ops| && Held(Path(c, s, ops[..k + 1], key))
      invariant k <= |ops|
      invariant forall i :: 0 <= i <= k ==> Waits(Path(c, s, ops[..i], key), chat)
    {
      WaitingStep(c, s, ops, k, key, chat);
      k := k + 1;
    }
    if k < |ops| { WaitingStep(c, s, ops, k, key, chat); }
  }

  lemma WaitingStep(c: Config, s: Locks, ops: seq<Timed>, k: nat, key: string, chat: string)
    requires GoodHash(c.hash) && Inv(c, s) && k < |ops| && Waits(Path(c, s, ops[..k], key), chat)
    ensures var y := Path(c, s, ops[..k + 1], key); if Held(y) then Waits(y, chat) else y == FREE
    ensures !Held(Path(c, s, ops[..k + 1], key)) ==>
              var before, after := Run(c, s, ops[..k]), Run(c, s, ops[..k + 1]);
              key in Notified(before, after) && chat in Notified(before, after)[key]
  {
    hide GoodHash, Apply, CellStep, CellOk;
    RunKeepsInv(c, s, ops[..k]);
    assert ops[..k + 1] == ops[..k] + [ops[k]];
    PathStep(c, s, ops[..k], ops[k], key);
    CellKeepsWaiting(c, Path(c, s, ops[..k], key), ops[k], key, chat);
  }

  // ---- Leases ----

  predicate Renews(t: Timed, key: string, chat: string, owner: string) {
    AcquiresAs(t, key, chat, owner) || (t.op.OpTouch? && t.op.key == key && t.op.chat == chat && t.op.owner == owner)
  }

  ghost predicate ClockForward(start: real, ops: seq<Timed>) {
    && (forall i :: 0 <= i < |ops| ==> start <= ops[i].now)
    && (forall i, j :: 0 <= i <= j < |ops| ==> ops[i].now <= ops[j].now)
  }

  ghost predicate RenewedShortlyBefore(c: Config, start: real, ops: seq<Timed>, j: nat, key: string, chat: string, owner: string)
    requires j < |ops|
  {
    || ops[j].now - start <= 3.0 * Heartbeat(c.hard)
    || exists i :: 0 <= i < j && Renews(ops[i], key, chat, owner) && ops[j].now - ops[i].now <= 3.0 * Heartbeat(c.hard)
  }

  /** At every cleanup the holder's latest renewal is at most three heartbeats old. */
  ghost predicate RenewedInTime(c: Config, start: real, ops: seq<Timed>, key: string, chat: string, owner: string) {
    forall j :: 0 <= j < |ops| && ops[j].op.OpCleanup? ==> RenewedShortlyBefore(c, start, ops, j, key, chat, owner)
  }

  /** The holder does not give the lock up and nobody forces it open. */
  ghost predicate NotGivenUp(ops: seq<Timed>, key: string, chat: string, owner: string, refcount: int) {
    && (forall i :: 0 <= i < |ops| ==> ops[i].op != OpForce(key))
    && (forall i :: 0 <= i <= |ops| ==> refcount + Balance(ops[..i], key, chat, owner) >= 1)
  }

  /** x has not lost a renewal: its last activity is no earlier than any of them. */
  ghost predicate Renewed(x: Cell, start: real, ops: seq<Timed>, key: string) {
    && Held(x) && x.entry.value.lastActive >= start
    && (forall i :: 0 <= i < |ops| && Renews(ops[i], key, x.entry.value.chat, x.entry.value.owner) ==>
          x.entry.value.lastActive >= ops[i].now)
  }

  lemma LeaseStep(c: Config, x: Cell, t: Timed, key: string)
    requires Held(x) && x.entry.value.refcount >= 1 && t.op != OpForce(key)
    requires x.entry.value.refcount + Change(t, key, x.entry.value.chat, x.entry.value.owner) >= 1
    requires t.op.OpCleanup? ==> t.now - x.entry.value.lastActive <= c.hard
    ensures var e, y := x.entry.value, CellStep(c, x, t, key);
            && SameHolder(e, y)
            && (y.entry.value.lastActive == e.lastActive || y.entry.value.lastActive == t.now)
            && (Renews(t, key, e.chat, e.owner) ==> y.entry.value.lastActive == t.now)
  {
  }

  lemma LeaseIsFresh(c: Config, start: real, ops: seq<Timed>, key: string, x: Cell)
    requires c.hard > 0.0 && ops != [] && ops[|ops| - 1].op.OpCleanup?
    requires Held(x) && RenewedInTime(c, start, ops, key, x.entry.value.chat, x.entry.value.owner)
    requires Renewed(x, start, ops[..|ops| - 1], key)
    ensures ops[|ops| - 1].now - x.entry.value.lastActive <= c.hard
  {
    var j := |ops| - 1;
    var e := x.entry.value;
    assert RenewedShortlyBefore(c, start, ops, j, key, e.chat, e.owner);
    if ops[j].now - start > 3.0 * Heartbeat(c.hard) {
      var i :| 0 <= i < j && Renews(ops[i], key, e.chat, e.owner) && ops[j].now - ops[i].now <= 3.0 * Heartbeat(c.hard);
      assert ops[..j][i] == ops[i];
    }
  }

  lemma LeasePrefix(c: Config, start: real, ops: seq<Timed>, key: string, chat: string, owner: string, refcount: int)
    requires ops != [] && ClockForward(start, ops)
    requires RenewedInTime(c, start, ops, key, chat, owner) && NotGivenUp(ops, key, chat, owner, refcount)
    ensures ClockForward(start, ops[..|ops| - 1])
    ensures RenewedInTime(c, start, ops[..|ops| - 1], key, chat, owner)
    ensures NotGivenUp(ops[..|ops| - 1], key, chat, owner, refcount)
  {
    hide Renews, Heartbeat, Balance;
    var before := ops[..|ops| - 1];
    forall i | 0 <= i <= |before| ensures before[..i] == ops[..i] {}
    forall j | 0 <= j < |before| && before[j].op.OpCleanup? ensures RenewedShortlyBefore(c, start, before, j, key, chat, owner) {
      assert RenewedShortlyBefore(c, start, ops, j, key, chat, owner);
      if ops[j].now - start > 3.0 * Heartbeat(c.hard) {
        var i :| 0 <= i < j && Renews(ops[i], key, chat, owner) && ops[j].now - ops[i].now <= 3.0 * Heartbeat(c.hard);
        assert before[i] == ops[i];
      }
    }
  }

  lemma RenewedExtends(x: Cell, y: Cell, start: real, ops: seq<Timed>, key: string)
    requires ops != [] && ClockForward(start, ops) && Renewed(x, start, ops[..|ops| - 1], key)
    requires SameHolder(x.entry.value, y)
    requires y.entry.value.lastActive == x.entry.value.lastActive || y.entry.value.lastActive == ops[|ops| - 1].now
    requires Renews(ops[|ops| - 1], key, y.entry.value.chat, y.entry.value.owner) ==> y.entry.value.lastActive == ops[|ops| - 1].now
    ensures Renewed(y, start, ops, key)
  {
    hide Renews;
    var n := |ops| - 1;
    forall i | 0 <= i < n ensures ops[..n][i] == ops[i] && ops[i].now <= ops[n].now {}
  }

  /** A holder that renews at least every three heartbeats and does not give the lock up is
      never reclaimed, whatever everybody else does and for however long. */
  lemma {:induction false} RenewedLeaseIsKept(c: Config, s: Locks, ops: seq<Timed>, key: string)
    requires c.hard > 0.0 && key in s.locks && s.locks[key].refcount >= 1
    requires ClockForward(s.locks[key].lastActive, ops)
    requires RenewedInTime(c, s.locks[key].lastActive, ops, key, s.locks[key].chat, s.locks[key].owner)
    requires NotGivenUp(ops, key, s.locks[key].chat, s.locks[key].owner, s.locks[key].refcount)
    ensures HeldThroughout(c, s, ops, key)
    ensures SameHolder(s.locks[key], Path(c, s, ops, key))
    ensures Renewed(Path(c, s, ops, key), s.locks[key].lastActive, ops, key)
  {
    hide Apply, CellStep, Heartbeat, Renews, Change;
    var e := s.locks[key];
    if ops == [] {
      assert forall i :: 0 <= i <= |ops| ==> ops[..i] == [];
    } else {
      var n := |ops| - 1;
      var before, t := ops[..n], ops[n];
      LeasePrefix(c, e.lastActive, ops, key, e.chat, e.owner, e.refcount);
      RenewedLeaseIsKept(c, s, before, key);
      HoldAccounting(c, s, before, key);
      var x := Path(c, s, before, key);
      if t.op.OpCleanup? { LeaseIsFresh(c, e.lastActive, ops, key, x); }
      assert ops[..|ops|] == ops && ops == before + [t];
      assert e.refcount + Balance(ops[..n], key, e.chat, e.owner) >= 1 && e.refcount + Balance(ops[..|ops|], key, e.chat, e.owner) >= 1;
      LeaseStep(c, x, t, key);
      PathStep(c, s, before, t, key);
      RenewedExtends(x, Path(c, s, ops, key), e.lastActive, ops, key);
      forall i | 0 <= i <= |ops| ensures Held(Path(c, s, ops[..i], key)) {
        assert i <= n ==> before[..i] == ops[..i];
      }
    }
  }

  /** After a cleanup exactly the leases within the hard timeout at its clock reading remain. */
  lemma CleanupKeepsExactlyFreshLeases(c: Config, s: Locks, now: real, key: string)
    requires Inv(c, s)
    ensures key in Cleanup(s, now, c.idle, c.hard).locks <==> key in s.locks && now - s.locks[key].lastActive <= c.hard
    ensures key in Cleanup(s, now, c.idle, c.hard).locks ==> Cleanup(s, now, c.idle, c.hard).locks[key] == s.locks[key]
  {
    hide Cleanup;
    assert CellOk(CellOf(s, key));
    CleanupIsLocal(s, now, c.idle, c.hard, key);
    assert CellOf(Cleanup(s, now, c.idle, c.hard), key) == CellCleanup(CellOf(s, key), now, c.idle, c.hard);
  }

  /** After a cleanup the token index holds exactly the tokens of the paths that stay locked. */
  lemma CleanupKeepsTokensOfHeldLocks(c: Config, s: Locks, now: real, key: string)
    requires Inv(c, s)
    ensures key in Cleanup(s, now, c.idle, c.hard).tokens.ofPath <==>
            key in s.tokens.ofPath && key in Cleanup(s, now, c.idle, c.hard).locks
  {
  }
}
