/**
 * The servers kept for tokens (serverCache in internal/cli/mcp.go). Reads and writes are under a lock, so a run is a
 * sequence of them, each at the time on the clock, which does not go back.
 */
module ServerCache {
  import opened Wrappers

  datatype Entry<S> = Entry(server: S, expires: int)

  type Entries<S> = map<string, Entry<S>>

  function AfterGet<S>(entries: Entries<S>, now: int, token: string): Entries<S>
  {
    if token in entries && now > entries[token].expires then entries - {token} else entries
  }

  function AfterPut<S>(entries: Entries<S>, now: int, ttl: nat, token: string, server: S): Entries<S>
  {
    (map key | key in entries && now <= entries[key].expires :: entries[key])[token := Entry(server, now + ttl)]
  }

  function Found<S>(entries: Entries<S>, now: int, token: string): Option<S>
  {
    if token in entries && now <= entries[token].expires then Some(entries[token].server) else None
  }

  class ServerCache<S(==)> {
    const ttl: nat
    var entries: Entries<S>

    constructor (ttl: nat)
      ensures this.ttl == ttl && entries == map[]
    {
      this.ttl := ttl;
      entries := map[];
    }

    method Get(now: int, token: string) returns (server: Option<S>)
      modifies this
      ensures server == Found(old(entries), now, token) && entries == AfterGet(old(entries), now, token)
    {
      if token !in entries || now > entries[token].expires {
        entries := entries - {token};
        return None;
      }
      return Some(entries[token].server);
    }

    method Put(now: int, token: string, server: S)
      modifies this
      ensures entries == AfterPut(old(entries), now, ttl, token, server)
    {
      var left := entries.Keys;
      while left != {}
        invariant left <= entries.Keys <= old(entries.Keys)
        invariant forall key :: key in entries ==> entries[key] == old(entries)[key] && (key in left || now <= entries[key].expires)
        invariant forall key :: key in old(entries) && now <= old(entries)[key].expires ==> key in entries
        decreases left
      {
        var key :| key in left;
        left := left - {key};
        if now > entries[key].expires {
          entries := entries - {key};
        }
      }
      entries := entries[token := Entry(server, now + ttl)];
    }
  }

  // ----- the log of what was put

  datatype Op<S> = Get(at: int, token: string) | Put(at: int, token: string, server: S)

  /** The simple thing: the last server put for the token, while it has not expired. */
  function LastPut<S>(log: seq<Op<S>>, ttl: nat, token: string): Option<Entry<S>>
  {
    if log == [] then None
    else
      var op := log[|log| - 1];
      if op.Put? && op.token == token then Some(Entry(op.server, op.at + ttl)) else LastPut(log[..|log| - 1], ttl, token)
  }

  function Live<S>(log: seq<Op<S>>, ttl: nat, now: int, token: string): Option<S>
  {
    match LastPut(log, ttl, token)
    case None => None
    case Some(e) => if now <= e.expires then Some(e.server) else None
  }

  function Run<S>(log: seq<Op<S>>, ttl: nat): Entries<S>
  {
    if log == [] then map[]
    else
      var before := Run(log[..|log| - 1], ttl);
      match log[|log| - 1]
      case Get(at, token) => AfterGet(before, at, token)
      case Put(at, token, server) => AfterPut(before, at, ttl, token, server)
  }

  predicate NotBefore<S>(log: seq<Op<S>>, now: int)
  {
    && (forall i, j :: 0 <= i < j < |log| ==> log[i].at <= log[j].at)
    && (forall i :: 0 <= i < |log| ==> log[i].at <= now)
  }

  /** What is kept was the last thing put, and what was last put and has not expired is kept. */
  lemma {:induction false} KeptIsTheLog<S>(log: seq<Op<S>>, ttl: nat, now: int, token: string)
    requires NotBefore(log, now)
    ensures token in Run(log, ttl) ==> LastPut(log, ttl, token) == Some(Run(log, ttl)[token])
    ensures Live(log, ttl, now, token).Some? ==> token in Run(log, ttl)
    decreases |log|
  {
    if log != [] {
      var n := |log| - 1;
      KeptIsTheLog(log[..n], ttl, log[n].at, token);
    }
  }

  /** Forgetting is not seen: at any time, a token is answered with the last server put for it that has not expired. */
  lemma CacheIsTheLog<S>(log: seq<Op<S>>, ttl: nat, now: int, token: string)
    requires NotBefore(log, now)
    ensures Found(Run(log, ttl), now, token) == Live(log, ttl, now, token)
  {
    KeptIsTheLog(log, ttl, now, token);
  }

  /** The cache does not grow with the tokens ever seen: a put leaves exactly the tokens that would still be answered. */
  lemma PutLeavesTheLiving<S>(log: seq<Op<S>>, ttl: nat, token: string)
    requires log != [] && NotBefore(log, log[|log| - 1].at) && log[|log| - 1].Put?
    ensures token in Run(log, ttl) <==> Live(log, ttl, log[|log| - 1].at, token).Some?
  {
    KeptIsTheLog(log, ttl, log[|log| - 1].at, token);
  }

  /** Whatever the times of the operations, an answer is the last server put for the token, never an older one. */
  lemma {:induction false} NeverAnOlderServer<S>(log: seq<Op<S>>, ttl: nat, now: int, token: string)
    ensures Found(Run(log, ttl), now, token).Some? ==> Found(Run(log, ttl), now, token) == Live(log, ttl, now, token)
    ensures token in Run(log, ttl) ==> LastPut(log, ttl, token) == Some(Run(log, ttl)[token])
  {
    if log != [] {
      var n := |log| - 1;
      NeverAnOlderServer(log[..n], ttl, now, token);
    }
  }
}
