/** The manager object of src/repo_lock.py.  Each method is one critical section on the
    mutable dictionaries, proved against the state functions of module RepoLock. */
module RepoLockManagers {
  import opened Wrappers
  import L = RepoLock

  type Emission = (string, set<string>)

  /** The emissions are the entries of m, each exactly once. */
  ghost predicate Tells(news: seq<Emission>, m: map<string, set<string>>) {
    && (forall i :: 0 <= i < |news| ==> news[i].0 in m && m[news[i].0] == news[i].1)
    && (forall p :: p in m ==> (p, m[p]) in news)
    && (forall i, j :: 0 <= i < j < |news| ==> news[i].0 != news[j].0)
  }

  /** Evicting idle entries nobody holds does not touch the leases that ran out. */
  lemma HardExpiredStay(s: L.Locks, now: real, idle: real, hard: real)
    ensures var one := L.Remove(s, L.IdleExpired(s, now, idle));
            && L.HardExpired(one, now, hard) == L.HardExpired(s, now, hard)
            && forall p :: p in L.HardExpired(s, now, hard) ==> p in one.locks && one.locks[p] == s.locks[p]
  {
  }

  lemma RemoveInTwoSteps(s: L.Locks, a: set<string>, p: string)
    ensures L.Remove(L.Remove(s, a), {p}) == L.Remove(s, a + {p})
  {
    var x, y := L.Remove(L.Remove(s, a), {p}), L.Remove(s, a + {p});
    assert x.locks == y.locks;
    assert x.blocked == y.blocked;
    DropInTwoSteps(s.tokens, a, p);
  }

  lemma DropInTwoSteps(k: L.Tokens, a: set<string>, p: string)
    ensures L.DropTokens(L.DropTokens(k, a), {p}) == L.DropTokens(k, a + {p})
  {
    var x, y := L.DropTokens(L.DropTokens(k, a), {p}), L.DropTokens(k, a + {p});
    assert x.ofPath == y.ofPath;
    forall t ensures t in x.ofToken <==> t in y.ofToken {
      if t in L.TokensOf(k, a + {p}) {
        var q :| q in a + {p} && q in k.ofPath && k.ofPath[q] == t;
        if q !in a { assert L.DropTokens(k, a).ofPath[p] == t; }
      }
    }
    assert x.ofToken == y.ofToken;
  }

  class RepoLockManager {
    const idleTimeout: real
    const hardTimeout: real
    const hash: string -> string
    var locks: map<string, L.Entry>
    var blockedChats: map<string, set<string>>
    var pathToToken: map<string, string>
    var tokenToPath: map<string, string>
    /** What `on_release` and `on_reclaim` have emitted so far. */
    var released: seq<Emission>
    var reclaimed: seq<(string, string)>

    function State(): L.Locks
      reads this
    {
      L.Locks(locks, blockedChats, L.Tokens(pathToToken, tokenToPath))
    }

    constructor (idleTimeout: real, hardTimeout: real, hash: string -> string)
      ensures State() == L.EMPTY && released == [] && reclaimed == []
      ensures this.idleTimeout == idleTimeout && this.hardTimeout == hardTimeout && this.hash == hash
    {
      this.idleTimeout, this.hardTimeout, this.hash := idleTimeout, hardTimeout, hash;
      locks, blockedChats, pathToToken, tokenToPath := map[], map[], map[], map[];
      released, reclaimed := [], [];
    }

    method Acquire(path: Option<string>, chat: string, p2p: bool, sender: string, owner: string, now: real)
      returns (r: L.AcquireResult)
      modifies this`locks, this`blockedChats
      ensures if path.None? || p2p then r == L.Acquired && State() == old(State())
              else (State(), r) == L.Acquire(old(State()), path.value, chat, owner, sender, now)
    {
      if path.None? || p2p { return L.Acquired; }
      var key := path.value;
      if key !in locks {
        locks := locks[key := L.Entry(chat, owner, 1, now, now, sender)];
        return L.Acquired;
      }
      var entry := locks[key];
      if entry.chat == chat && entry.owner == owner {
        locks := locks[key := entry.(refcount := entry.refcount + 1, lastActive := now, sender := sender)];
        return L.Acquired;
      }
      var waiting := if key in blockedChats then blockedChats[key] else {};
      if |waiting| < L.MAX_BLOCKED { waiting := waiting + {chat}; }
      blockedChats := blockedChats[key := waiting];
      return L.Conflict(entry.chat, entry.acquiredAt, entry.lastActive);
    }

    /** Removes one entry with its token and hands back the chats that waited for it. */
    method Pop(key: string) returns (waiting: set<string>)
      modifies this`locks, this`blockedChats, this`pathToToken, this`tokenToPath
      ensures State() == L.Remove(old(State()), {key})
      ensures waiting == if key in old(blockedChats) then old(blockedChats)[key] else {}
    {
      waiting := if key in blockedChats then blockedChats[key] else {};
      locks := locks - {key};
      blockedChats := blockedChats - {key};
      if key in pathToToken {
        assert L.TokensOf(L.Tokens(pathToToken, tokenToPath), {key}) == {pathToToken[key]};
        tokenToPath := tokenToPath - {pathToToken[key]};
        pathToToken := pathToToken - {key};
      } else {
        assert L.TokensOf(L.Tokens(pathToToken, tokenToPath), {key}) == {};
        assert pathToToken - {key} == pathToToken;
      }
    }

    method Release(path: Option<string>, chat: string, owner: string, now: real)
      modifies this`locks, this`blockedChats, this`pathToToken, this`tokenToPath, this`released
      ensures State() == if path.None? then old(State()) else L.Release(old(State()), path.value, chat, owner, now)
      ensures old(released) <= released
      ensures Tells(released[|old(released)|..], L.Notified(old(State()), State()))
    {
      if path.None? || path.value !in locks { return; }
      var key := path.value;
      var entry := locks[key];
      if entry.chat != chat || entry.owner != owner { return; }
      if entry.refcount - 1 <= 0 {
        var notify := Pop(key);
        Announce(key, notify, old(State()));
      } else {
        locks := locks[key := entry.(refcount := entry.refcount - 1, lastActive := now)];
      }
    }

    method ForceRelease(path: Option<string>)
      modifies this`locks, this`blockedChats, this`pathToToken, this`tokenToPath, this`released
      ensures State() == if path.None? then old(State()) else L.ForceRelease(old(State()), path.value)
      ensures old(released) <= released
      ensures Tells(released[|old(released)|..], L.Notified(old(State()), State()))
    {
      if path.None? || path.value !in locks { return; }
      var notify := Pop(path.value);
      Announce(path.value, notify, old(State()));
    }

    method Announce(key: string, notify: set<string>, ghost before: L.Locks)
      requires key in before.locks && State() == L.Remove(before, {key})
      requires notify == if key in before.blocked then before.blocked[key] else {}
      modifies this`released
      ensures old(released) <= released
      ensures Tells(released[|old(released)|..], L.Notified(before, State()))
    {
      ghost var m := L.Notified(before, State());
      if notify != {} {
        assert m == map[key := notify];
        released := released + [(key, notify)];
        assert released[|old(released)|..] == [(key, notify)];
      } else {
        assert m == map[];
      }
    }

    method Touch(path: Option<string>, chat: string, owner: string, now: real)
      modifies this`locks
      ensures State() == if path.None? then old(State()) else L.Touch(old(State()), path.value, chat, owner, now)
    {
      if path.Some? && path.value in locks {
        var entry := locks[path.value];
        if entry.chat == chat && entry.owner == owner {
          locks := locks[path.value := entry.(lastActive := now)];
        }
      }
    }

    /** The pop loop shared by both cleanup phases. */
    method PopAll(paths: set<string>) returns (news: seq<Emission>, holders: seq<(string, string)>)
      requires paths <= locks.Keys
      modifies this`locks, this`blockedChats, this`pathToToken, this`tokenToPath
      ensures State() == L.Remove(old(State()), paths)
      ensures Tells(news, L.Notified(old(State()), State()))
      ensures forall h :: h in holders <==> h.0 in paths && h.1 == old(locks)[h.0].chat
      ensures |holders| == |paths|
    {
      hide L.Remove, L.Notified;
      ghost var before := State();
      var todo := paths;
      news, holders := [], [];
      RemoveNothing(before);
      assert paths - todo == {};
      while todo != {}
        invariant todo <= paths && paths <= before.locks.Keys
        invariant State() == L.Remove(before, paths - todo)
        invariant Told(news, before, paths - todo)
        invariant forall h :: h in holders <==> h.0 in paths - todo && h.1 == before.locks[h.0].chat
        invariant |holders| == |paths| - |todo|
        decreases todo
      {
        var path :| path in todo;
        ghost var done := paths - todo;
        RemoveLeaves(before, done, path);
        var entry := locks[path];
        var waiting := Pop(path);
        RemoveInTwoSteps(before, done, path);
        ToldStep(news, before, done, path, waiting);
        todo := todo - {path};
        assert paths - todo == done + {path};
        if waiting != {} { news := news + [(path, waiting)]; }
        holders := holders + [(path, entry.chat)];
      }
      assert paths - todo == paths;
      ToldAll(news, before, State(), paths);
    }

    method CleanupIdle(now: real)
      modifies this`locks, this`blockedChats, this`pathToToken, this`tokenToPath, this`released, this`reclaimed
      ensures State() == L.Cleanup(old(State()), now, idleTimeout, hardTimeout)
      ensures old(released) <= released
      ensures Tells(released[|old(released)|..], L.Notified(old(State()), State()))
      ensures old(reclaimed) <= reclaimed
      ensures forall h :: h in reclaimed[|old(reclaimed)|..] <==>
                h.0 in L.HardExpired(old(State()), now, hardTimeout) && h.1 == old(locks)[h.0].chat
      ensures |reclaimed| == |old(reclaimed)| + |L.HardExpired(old(State()), now, hardTimeout)|
    {
      hide L.Remove, Tells;
      ghost var before := State();
      var idleNews, idleHolders := PopAll(L.IdleExpired(State(), now, idleTimeout));
      ghost var middle := State();
      var hardNews, hardHolders := PopAll(L.HardExpired(State(), now, hardTimeout));
      ghost var after := State();
      DropOrphanTokens();
      HardExpiredStay(before, now, idleTimeout, hardTimeout);
      reclaimed := reclaimed + hardHolders;
      assert reclaimed[|old(reclaimed)|..] == hardHolders;
      TellsBoth(idleNews, hardNews, before, middle, after, L.IdleExpired(before, now, idleTimeout), L.HardExpired(middle, now, hardTimeout));
      released := released + (idleNews + hardNews);
      assert released[|old(released)|..] == idleNews + hardNews;
    }

    method DropOrphanTokens()
      modifies this`pathToToken, this`tokenToPath
      ensures State() == L.DropOrphans(old(State()))
    {
      ghost var k := L.Tokens(pathToToken, tokenToPath);
      var orphans := L.Orphans(State());
      var todo := orphans;
      while todo != {}
        invariant todo <= orphans <= k.ofPath.Keys
        invariant L.Tokens(pathToToken, tokenToPath) == L.DropTokens(k, orphans - todo)
        decreases todo
      {
        var path :| path in todo;
        DropInTwoSteps(k, orphans - todo, path);
        assert L.TokensOf(L.Tokens(pathToToken, tokenToPath), {path}) == {pathToToken[path]};
        tokenToPath := tokenToPath - {pathToToken[path]};
        pathToToken := pathToToken - {path};
        assert orphans - (todo - {path}) == orphans - todo + {path};
        todo := todo - {path};
      }
      assert orphans - todo == orphans;
    }

    method PathToToken(path: Option<string>) returns (token: string)
      modifies this`pathToToken, this`tokenToPath
      ensures if path.None? then token == "" && State() == old(State())
              else (State(), token) == L.IssueToken(old(State()), path.value, hash(path.value))
    {
      if path.None? { return ""; }
      var key := path.value;
      if key in pathToToken && pathToToken[key] != "" { return pathToToken[key]; }
      token := hash(key);
      if |tokenToPath| >= L.TOKEN_CAPACITY { DropOrphanTokens(); }
      if |tokenToPath| >= L.TOKEN_CAPACITY { return; }
      pathToToken := pathToToken[key := token];
      tokenToPath := tokenToPath[token := key];
    }
  }

  /** The blocked chats of the paths popped so far are told, each once. */
  ghost predicate Told(news: seq<Emission>, before: L.Locks, popped: set<string>) {
    && (forall i :: 0 <= i < |news| ==> news[i].0 in popped && news[i].0 in before.blocked && before.blocked[news[i].0] == news[i].1 && news[i].1 != {})
    && (forall p :: p in popped && p in before.blocked && before.blocked[p] != {} ==> (p, before.blocked[p]) in news)
    && (forall i, j :: 0 <= i < j < |news| ==> news[i].0 != news[j].0)
  }

  lemma RemoveNothing(s: L.Locks)
    ensures L.Remove(s, {}) == s
  {
    var r := L.Remove(s, {});
    assert r.locks == s.locks && r.blocked == s.blocked;
    assert L.TokensOf(s.tokens, {}) == {};
    assert r.tokens.ofPath == s.tokens.ofPath && r.tokens.ofToken == s.tokens.ofToken;
  }

  lemma RemoveLeaves(s: L.Locks, gone: set<string>, path: string)
    requires path in s.locks && path !in gone
    ensures var r := L.Remove(s, gone);
            && path in r.locks && r.locks[path] == s.locks[path]
            && (path in r.blocked <==> path in s.blocked) && (path in s.blocked ==> r.blocked[path] == s.blocked[path])
  {
  }

  lemma ToldStep(news: seq<Emission>, before: L.Locks, popped: set<string>, path: string, waiting: set<string>)
    requires Told(news, before, popped) && path !in popped
    requires waiting == if path in before.blocked then before.blocked[path] else {}
    ensures Told(if waiting != {} then news + [(path, waiting)] else news, before, popped + {path})
  {
  }

  lemma ToldAll(news: seq<Emission>, before: L.Locks, after: L.Locks, popped: set<string>)
    requires Told(news, before, popped) && popped <= before.locks.Keys && after == L.Remove(before, popped)
    ensures Tells(news, L.Notified(before, after))
  {
  }

  lemma TellsBoth(a: seq<Emission>, b: seq<Emission>, before: L.Locks, middle: L.Locks, after: L.Locks, x: set<string>, y: set<string>)
    requires middle == L.Remove(before, x) && after == L.Remove(middle, y)
    requires Tells(a, L.Notified(before, middle)) && Tells(b, L.Notified(middle, after))
    ensures Tells(a + b, L.Notified(before, after))
  {
    var m := L.Notified(before, after);
    forall p | p in m ensures (p, m[p]) in a + b {
      if p in L.Notified(before, middle) { assert (p, m[p]) in a; } else { assert p in L.Notified(middle, after); assert (p, m[p]) in b; }
    }
  }
}
