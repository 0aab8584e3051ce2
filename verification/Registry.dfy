/** The token registry of the reverse proxy (internal/south/proxy.go). */
module Registry {
  import opened Wrappers
  import opened Tasks
  import L = Lifecycle
  import S = SessionManager

  /** What the runner may present in the Authorization header: the task's context fields, if
      it has a context, and its secrets; a missing field reads as "". */
  datatype TaskTokens = TaskTokens(context: Option<map<string, string>>, secrets: map<string, string>)

  function Field(m: map<string, string>, key: string): string {
    if key in m then m[key] else ""
  }

  function Candidates(t: TaskTokens): seq<string> {
    (match t.context
     case None => []
     case Some(ctx) => [Field(ctx, "token"), Field(ctx, "gitea_runtime_token")])
    + [Field(t.secrets, "GITEA_TOKEN"), Field(t.secrets, "GITHUB_TOKEN")]
  }

  predicate Holds(m: map<string, string>, key: string, tok: string) {
    key in m && m[key] == tok
  }

  /** The two context fields come before the two secrets. */
  lemma CandidatesHold(t: TaskTokens)
    ensures forall tok :: tok != "" ==>
              (tok in Candidates(t) <==>
                || (t.context.Some? && Holds(t.context.value, "token", tok))
                || (t.context.Some? && Holds(t.context.value, "gitea_runtime_token", tok))
                || Holds(t.secrets, "GITEA_TOKEN", tok)
                || Holds(t.secrets, "GITHUB_TOKEN", tok))
  {
    assert Candidates(TaskTokens(None, t.secrets)) == [Field(t.secrets, "GITEA_TOKEN"),
        Field(t.secrets, "GITHUB_TOKEN")];
    if t.context.Some? {
      assert Candidates(t) == [Field(t.context.value, "token"), Field(t.context.value, "gitea_runtime_token"),
                               Field(t.secrets, "GITEA_TOKEN"), Field(t.secrets, "GITHUB_TOKEN")];
    }
  }

  /** What `add` collects: the first occurrence of every non-empty string, in order. */
  function Distinct(all: seq<string>): seq<string> {
    if |all| == 0 then [] else
      var out, s := Distinct(all[..|all| - 1]), all[|all| - 1];
      if s == "" || s in out then out else out + [s]
  }

  /** Each non-empty candidate is there once, and earlier candidates come first. */
  lemma {:induction false} DistinctSpec(all: seq<string>, n: nat)
    requires n <= |all|
    ensures var out := Distinct(all);
      && (forall s :: s in out <==> s in all && s != "")
      && (forall i, j :: 0 <= i < j < |out| ==> out[i] != out[j])
      && Distinct(all[..n]) <= out
    decreases |all|
  {
    if |all| > 0 {
      var rest, s := all[..|all| - 1], all[|all| - 1];
      assert all == rest + [s];
      if n == |all| {
        DistinctSpec(rest, 0);
        assert all[..n] == all;
      } else {
        DistinctSpec(rest, n);
        assert all[..n] == rest[..n];
      }
    }
  }

  /** The calls of `add`, in order. */
  method Collect(all: seq<string>) returns (out: seq<string>)
    ensures out == Distinct(all)
  {
    out := [];
    var seen: set<string> := {};
    var i := 0;
    while i < |all|
      invariant i <= |all| && out == Distinct(all[..i])
      invariant forall s :: s in seen <==> s in out
    {
      assert all[..i + 1][..i] == all[..i];
      if all[i] != "" && all[i] !in seen {
        seen := seen + {all[i]};
        out := out + [all[i]];
      }
      i := i + 1;
    }
    assert all[..i] == all;
  }

  /** runtimeTaskTokens: deduplicated, in precedence order. */
  method RuntimeTaskTokens(t: Option<TaskTokens>) returns (out: seq<string>)
    ensures out == if t.Some? then Distinct(Candidates(t.value)) else []
    ensures t.None? ==> out == []
    ensures t.Some? ==> forall tok :: tok in out <==>
              && tok != ""
              && (|| (t.value.context.Some? && Holds(t.value.context.value, "token", tok))
                  || (t.value.context.Some? && Holds(t.value.context.value, "gitea_runtime_token", tok))
                  || Holds(t.value.secrets, "GITEA_TOKEN", tok)
                  || Holds(t.value.secrets, "GITHUB_TOKEN", tok))
    ensures forall i, j :: 0 <= i < j < |out| ==> out[i] != out[j]
  {
    if t.None? { return []; }
    out := Collect(Candidates(t.value));
    DistinctSpec(Candidates(t.value), 0);
    CandidatesHold(t.value);
  }

  const ENTRY_TTL := 24 * 60 * 60

  datatype Entry<T> = Entry(instance: string, task: T, sessionToken: string, expireAt: int)

  type Entries<T> = map<string, Entry<T>>

  function PutAll<T>(m: Entries<T>, tokens: seq<string>, e: Entry<T>): Entries<T> {
    if |tokens| == 0 then m else PutAll(m, tokens[..|tokens| - 1], e)[tokens[|tokens| - 1] := e]
  }

  lemma {:induction false} PutAllAt<T>(m: Entries<T>, tokens: seq<string>, e: Entry<T>, t: string)
    ensures t in PutAll(m, tokens, e) <==> t in m || t in tokens
    ensures t in tokens ==> PutAll(m, tokens, e)[t] == e
    ensures t !in tokens && t in m ==> PutAll(m, tokens, e)[t] == m[t]
    decreases |tokens|
  {
    if |tokens| > 0 {
      assert tokens == tokens[..|tokens| - 1] + [tokens[|tokens| - 1]];
      PutAllAt(m, tokens[..|tokens| - 1], e, t);
    }
  }

  lemma PutAllIs<T>(m: Entries<T>, tokens: seq<string>, e: Entry<T>)
    ensures PutAll(m, tokens, e) == m + map t | t in tokens :: e
  {
    forall t
      ensures t in PutAll(m, tokens, e) <==> t in m || t in tokens
      ensures t in PutAll(m, tokens, e) ==> PutAll(m, tokens, e)[t] == if t in tokens then e else m[t]
    {
      PutAllAt(m, tokens, e, t);
    }
  }

  /** An entry routes while it is unexpired, its task not Terminal and its session live. */
  predicate Alive<T>(e: Entry<T>, now: int, terminal: bool, live: bool) {
    now < e.expireAt && !terminal && live
  }

  class TokenRegistry {
    var entries: Entries<TaskCtx>
    const sessions: S.Manager

    constructor (sessions: S.Manager)
      ensures entries == map[] && this.sessions == sessions
    {
      entries, this.sessions := map[], sessions;
    }

    method PutEach(toks: seq<string>, e: Entry<TaskCtx>)
      modifies this
      ensures entries == PutAll(old(entries), toks, e)
    {
      var i := 0;
      while i < |toks|
        invariant i <= |toks| && entries == PutAll(old(entries), toks[..i], e)
      {
        entries := entries[toks[i] := e];
        assert toks[..i + 1][..i] == toks[..i];
        i := i + 1;
      }
      assert toks[..i] == toks;
    }

    method PutTaskTokens(task: TaskCtx, tokens: Option<TaskTokens>, sessionToken: string, now: int)
      modifies this
      ensures entries == PutAll(old(entries), if tokens.Some? then Distinct(Candidates(tokens.value)) else [],
                                Entry(task.instance, task, sessionToken, now + ENTRY_TTL))
      ensures forall tok :: tok in entries && (tok !in old(entries) || entries[tok] != old(entries)[tok]) ==>
                entries[tok] == Entry(task.instance, task, sessionToken, now + 86400) && tok != "" && tokens.Some?
      ensures forall tok :: tok in old(entries) ==> tok in entries
      ensures tokens.Some? ==> forall tok :: tok in Candidates(tokens.value) && tok != "" ==>
                tok in entries && entries[tok] == Entry(task.instance, task, sessionToken, now + 86400)
    {
      var toks := RuntimeTaskTokens(tokens);
      PutEach(toks, Entry(task.instance, task, sessionToken, now + ENTRY_TTL));
      PutAllIs(old(entries), toks, Entry(task.instance, task, sessionToken, now + ENTRY_TTL));
      if tokens.Some? {
        CandidatesHold(tokens.value);
        DistinctSpec(Candidates(tokens.value), 0);
      }
    }

    ghost predicate Routes(token: string, now: int)
      reads this, sessions, set e | e in entries.Values :: e.task
    {
      token in entries &&
      Alive(entries[token], now, entries[token].task.status == L.Terminal,
            entries[token].sessionToken in sessions.sessions)
    }

    /** A live entry is returned and kept, a dead one is evicted and reported as unknown. */
    method Lookup(token: string, now: int) returns (instance: Option<string>)
      modifies this
      ensures instance == if old(Routes(token, now)) then Some(old(entries)[token].instance) else None
      ensures instance.Some? <==>
                && token in old(entries) && now < old(entries)[token].expireAt
                && old(entries)[token].task.status != L.Terminal
                    && old(entries)[token].sessionToken in sessions.sessions
      ensures entries == if old(Routes(token, now)) then old(entries) else old(entries) - {token}
    {
      if token !in entries || !(now < entries[token].expireAt) || entries[token].task.status == L.Terminal {
        entries := entries - {token};
        return None;
      }
      var s := sessions.Lookup(entries[token].sessionToken);
      if s == null {
        entries := entries - {token};
        return None;
      }
      return Some(entries[token].instance);
    }
  }
}
