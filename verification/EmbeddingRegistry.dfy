/**
  The embedding-provider registry: a bounded least-recently-used cache in front of a
  validating constructor.  The structural validation is skipped on a hit.
*/
module EmbeddingRegistry {
  import opened Common

  const CACHE_MAX: nat := 256
  const VECTOR_DIM: int := 1024

  /** The full client configuration, which is the cache key. */
  datatype Key = Key(apiKey: string, model: string, baseUrl: Option<string>, sendDimensions: bool,
                     queryInstruction: Option<string>, truncateToDim: Option<int>)

  /** A constructed client; `id` tells instances apart. */
  datatype Provider = Provider(id: nat, config: Key)

  /** Environment values after parsing: a flag or dimension may be malformed; an empty string is unset. */
  datatype Flag = On | Off | BadFlag
  datatype Dimension = Unset | Dim(n: int) | BadDim
  datatype Env = Env(baseUrl: string, endpointToken: string, apiKey: string, model: string, defaultModel: string,
                     sendDimensions: Flag, queryInstruction: string, truncateToDim: Dimension)
  datatype Tenant = Tenant(apiKey: string, model: string)

  datatype Rejection =
    | MalformedSendDimensions | MalformedTruncateToDim
    | BaseUrlWithDimensions | HostedWithoutDimensions | WrongTruncation

  function OrNone(s: string): Option<string> { if s == "" then None else Some(s) }

  datatype Resolution = Refused(reason: Rejection) | NoCredential | Resolved(key: Key)

  function ApiKey(env: Env, tenant: Option<Tenant>): string {
    if env.baseUrl != "" then (if env.endpointToken != "" then env.endpointToken else "tei-no-auth")
    else if tenant.Some? && tenant.value.apiKey != "" then tenant.value.apiKey
    else env.apiKey
  }

  /** A self-hosted endpoint ignores the tenant's model; hosted OpenAI ignores the environment's. */
  function Model(env: Env, tenant: Option<Tenant>): string {
    if env.baseUrl != "" then (if env.model != "" then env.model else env.defaultModel)
    else if tenant.Some? && tenant.value.model != "" then tenant.value.model
    else env.defaultModel
  }

  /** From the environment and the tenant to a cache key; this part runs on every request. */
  function Resolve(env: Env, tenant: Option<Tenant>): Resolution {
    if ApiKey(env, tenant) == "" then NoCredential
    else if env.sendDimensions == BadFlag then Refused(MalformedSendDimensions)
    else if env.truncateToDim == BadDim then Refused(MalformedTruncateToDim)
    else
      var dim := if env.truncateToDim.Dim? then Some(env.truncateToDim.n) else None;
      Resolved(Key(ApiKey(env, tenant), Model(env, tenant), OrNone(env.baseUrl), env.sendDimensions == On,
                   OrNone(env.queryInstruction), dim))
  }

  /** The structural checks that only a cache miss runs. */
  function Validate(key: Key): Option<Rejection> {
    if key.baseUrl.Some? && key.sendDimensions then Some(BaseUrlWithDimensions)
    else if key.baseUrl.None? && !key.sendDimensions then Some(HostedWithoutDimensions)
    else if key.truncateToDim.Some? && key.truncateToDim.value != VECTOR_DIM then Some(WrongTruncation)
    else None
  }

  datatype Answer = Configured(config: Key) | Rejected(reason: Rejection) | Platform | Unconfigured

  /** The registry without a cache: it resolves, validates and constructs every time. */
  function Uncached(env: Env, tenant: Option<Tenant>, platform: bool): Answer {
    match Resolve(env, tenant)
    case Refused(reason) => Rejected(reason)
    case NoCredential => if platform then Platform else Unconfigured
    case Resolved(key) => match Validate(key) case Some(reason) => Rejected(reason) case None => Configured(key)
  }

  /* ---- which configuration answers ---- */

  /** A self-hosted endpoint has its own credentials: nothing of the tenant or of the hosted key reaches it. */
  lemma SelfHostedIsSeparate(env: Env, tenant: Option<Tenant>, platform: bool, hostedKey: string,
                             other: Option<Tenant>, fallback: bool)
    requires env.baseUrl != ""
    ensures Uncached(env, tenant, platform) == Uncached(env.(apiKey := hostedKey), other, fallback)
    ensures var answer := Uncached(env, tenant, platform); answer.Configured? ==>
      && answer.config.baseUrl == Some(env.baseUrl)
      && answer.config.apiKey == (if env.endpointToken == "" then "tei-no-auth" else env.endpointToken)
      && (env.model != "" ==> answer.config.model == env.model)
      && (env.model == "" ==> answer.config.model == env.defaultModel)
  {
  }

  /** Hosted OpenAI looks at neither the endpoint's token nor the environment's model. */
  lemma HostedIsSeparate(env: Env, tenant: Option<Tenant>, platform: bool, token: string, model: string)
    requires env.baseUrl == ""
    ensures Uncached(env, tenant, platform) == Uncached(env.(endpointToken := token, model := model), tenant, platform)
    ensures var answer := Uncached(env, tenant, platform); answer.Configured? ==> answer.config.baseUrl == None
  {
  }

  /** On hosted OpenAI the tenant's key replaces the environment's, and the tenant's model the default. */
  lemma TenantOverrides(env: Env, tenant: Tenant, platform: bool, hostedKey: string, model: string, fallback: bool)
    requires env.baseUrl == ""
    ensures tenant.apiKey != "" ==>
      Uncached(env, Some(tenant), platform) == Uncached(env.(apiKey := hostedKey), Some(tenant), fallback)
    ensures tenant.model != "" ==>
      Uncached(env, Some(tenant), platform) == Uncached(env.(defaultModel := model), Some(tenant), platform)
    ensures var answer := Uncached(env, Some(tenant), platform); answer.Configured? ==>
      && (tenant.apiKey != "" ==> answer.config.apiKey == tenant.apiKey)
      && (tenant.model != "" ==> answer.config.model == tenant.model)
  {
  }

  /** Without an override of the tenant the environment decides, as for a request without a tenant. */
  lemma NothingToOverride(env: Env, tenant: Tenant, platform: bool)
    requires env.baseUrl == "" && tenant.apiKey == "" && tenant.model == ""
    ensures Uncached(env, Some(tenant), platform) == Uncached(env, None, platform)
    ensures var answer := Uncached(env, None, platform); answer.Configured? ==>
      answer.config.apiKey == env.apiKey && answer.config.model == env.defaultModel
  {
  }

  /** Some credential is at hand. */
  predicate HasCredential(env: Env, tenant: Option<Tenant>) {
    env.baseUrl != "" || env.apiKey != "" || (tenant.Some? && tenant.value.apiKey != "")
  }

  /** The platform answers, or nothing does, exactly when there is no credential. */
  lemma NoCredentialIff(env: Env, tenant: Option<Tenant>, platform: bool)
    ensures Uncached(env, tenant, platform) == Platform <==> !HasCredential(env, tenant) && platform
    ensures Uncached(env, tenant, platform) == Unconfigured <==> !HasCredential(env, tenant) && !platform
  {
  }

  /**
    A client is configured exactly when there is a credential, dimensions are sent to hosted OpenAI and to
    no other endpoint, and vectors are truncated to the schema's dimension or not at all.
  */
  lemma ConfiguredIff(env: Env, tenant: Option<Tenant>, platform: bool)
    ensures Uncached(env, tenant, platform).Configured? <==>
      && HasCredential(env, tenant)
      && env.sendDimensions == (if env.baseUrl == "" then On else Off)
      && (env.truncateToDim == Unset || env.truncateToDim == Dim(1024))
    ensures var answer := Uncached(env, tenant, platform); answer.Configured? ==>
      && answer.config.sendDimensions == (env.sendDimensions == On)
      && (answer.config.truncateToDim.Some? <==> env.truncateToDim == Dim(1024))
      && answer.config.queryInstruction == (if env.queryInstruction == "" then None else Some(env.queryInstruction))
  {
  }

  /** A value that cannot be parsed is reported before any combination is, and never without a credential. */
  lemma MalformedFirst(env: Env, tenant: Option<Tenant>, platform: bool)
    ensures Uncached(env, tenant, platform) == Rejected(MalformedSendDimensions) <==>
      HasCredential(env, tenant) && env.sendDimensions == BadFlag
    ensures Uncached(env, tenant, platform) == Rejected(MalformedTruncateToDim) <==>
      HasCredential(env, tenant) && env.sendDimensions != BadFlag && env.truncateToDim == BadDim
    ensures Uncached(env, tenant, platform) == Rejected(BaseUrlWithDimensions) <==>
      env.baseUrl != "" && env.sendDimensions == On && env.truncateToDim != BadDim
    ensures Uncached(env, tenant, platform) == Rejected(HostedWithoutDimensions) <==>
      HasCredential(env, tenant) && env.baseUrl == "" && env.sendDimensions == Off && env.truncateToDim != BadDim
  {
  }

  /* ---- recency order ---- */

  function Remove(s: seq<Key>, k: Key): seq<Key> {
    if s == [] then [] else if s[0] == k then Remove(s[1..], k) else [s[0]] + Remove(s[1..], k)
  }

  /** `k` becomes the most recent key. */
  function Touch(s: seq<Key>, k: Key): seq<Key> {
    Remove(s, k) + [k]
  }

  function LastOf(s: seq<Key>, n: nat): seq<Key> {
    if |s| > n then s[|s| - n..] else s
  }

  /** The cache order after a request for a valid key. */
  function Used(s: seq<Key>, k: Key): seq<Key> {
    LastOf(Touch(s, k), CACHE_MAX)
  }

  lemma {:induction false} RemoveMembers(s: seq<Key>, k: Key)
    ensures forall x :: x in Remove(s, k) <==> x in s && x != k
    ensures k !in s ==> Remove(s, k) == s
  {
    if s != [] {
      RemoveMembers(s[1..], k);
      assert s == [s[0]] + s[1..];
    }
  }

  lemma {:induction false} RemoveDistinct(s: seq<Key>, k: Key)
    requires Distinct(s)
    ensures Distinct(Remove(s, k))
    ensures |Remove(s, k)| == if k in s then |s| - 1 else |s|
  {
    RemoveMembers(s, k);
    if s != [] {
      RemoveMembers(s[1..], k);
      RemoveDistinct(s[1..], k);
      assert forall x :: x in s[1..] ==> x != s[0];
      var rest := Remove(s[1..], k);
      assert forall i :: 0 <= i < |rest| ==> rest[i] in rest;
    }
  }

  lemma {:induction false} RemoveSplits(s: seq<Key>, t: seq<Key>, k: Key)
    ensures Remove(s + t, k) == Remove(s, k) + Remove(t, k)
  {
    if s == [] {
      assert s + t == t;
    } else {
      RemoveSplits(s[1..], t, k);
      assert (s + t)[1..] == s[1..] + t;
    }
  }

  /** The distinct keys of a trace, ordered by their last use. */
  function Recency(trace: seq<Key>): seq<Key> {
    if trace == [] then []
    else if trace[0] in trace[1..] then Recency(trace[1..])
    else [trace[0]] + Recency(trace[1..])
  }

  lemma {:induction false} RecencyFacts(trace: seq<Key>)
    ensures Distinct(Recency(trace)) && forall k :: k in Recency(trace) <==> k in trace
  {
    if trace != [] {
      RecencyFacts(trace[1..]);
    }
  }

  /** Request `n` was for `k`, and none from there on for `l`. */
  ghost predicate UsedLast(trace: seq<Key>, n: int, k: Key, l: Key) {
    0 <= n < |trace| && trace[n] == k && forall m :: n <= m < |trace| ==> trace[m] != l
  }

  /** Of two keys the later in the order was used after the last use of the earlier. */
  lemma {:induction false} RecencyIsByLastUse(trace: seq<Key>, i: nat, j: nat)
    requires i < j < |Recency(trace)|
    ensures exists n :: UsedLast(trace, n, Recency(trace)[j], Recency(trace)[i])
  {
    var rest := trace[1..];
    if trace[0] in rest || i > 0 {
      var a, b := if trace[0] in rest then i else i - 1, if trace[0] in rest then j else j - 1;
      RecencyIsByLastUse(rest, a, b);
      var n :| UsedLast(rest, n, Recency(rest)[b], Recency(rest)[a]);
      UsedInRest(trace, n, Recency(rest)[b], Recency(rest)[a]);
      assert Recency(trace)[i] == Recency(rest)[a] && Recency(trace)[j] == Recency(rest)[b];
    } else {
      RecencyFacts(rest);
      assert Recency(trace)[j] == Recency(rest)[j - 1] && Recency(rest)[j - 1] in rest;
      var n :| 0 <= n < |rest| && rest[n] == Recency(trace)[j];
      assert Recency(trace)[i] == trace[0] && UsedLast(rest, n, Recency(trace)[j], trace[0]);
      UsedInRest(trace, n, Recency(trace)[j], trace[0]);
    }
  }

  lemma UsedInRest(trace: seq<Key>, n: int, k: Key, l: Key)
    requires trace != [] && UsedLast(trace[1..], n, k, l)
    ensures UsedLast(trace, n + 1, k, l)
  {
    forall m | n + 1 <= m < |trace|
      ensures trace[m] != l
    {
      assert trace[m] == trace[1..][m - 1];
    }
  }

  lemma {:induction false} RecencyOfUse(trace: seq<Key>, k: Key)
    ensures Recency(trace + [k]) == Touch(Recency(trace), k)
  {
    if trace != [] {
      RecencyOfUse(trace[1..], k);
      assert (trace + [k])[1..] == trace[1..] + [k];
      RecencyFacts(trace[1..]);
      RemoveMembers(Recency(trace[1..]), k);
    }
  }

  lemma UsedMiss(s: seq<Key>, k: Key)
    requires k !in s && |s| <= CACHE_MAX
    ensures Used(s, k) == if |s| < CACHE_MAX then s + [k] else (s + [k])[1..]
  {
    RemoveMembers(s, k);
  }

  lemma LastOfConcat(x: seq<Key>, y: seq<Key>, n: nat)
    requires |y| >= n
    ensures LastOf(x + y, n) == LastOf(y, n)
  {
  }

  /** Touching a key commutes with forgetting all but the last `n` keys. */
  lemma {:induction false} TouchAfterForgetting(s: seq<Key>, k: Key, n: nat)
    requires Distinct(s) && n >= 1
    ensures LastOf(Touch(LastOf(s, n), k), n) == LastOf(Touch(s, k), n)
  {
    if |s| > n {
      var a, b := s[..|s| - n], s[|s| - n..];
      assert s == a + b;
      RemoveSplits(a, b, k);
      RemoveDistinct(b, k);
      assert Touch(s, k) == Remove(a, k) + Touch(b, k);
      LastOfConcat(Remove(a, k), Touch(b, k), n);
    }
  }

  ghost function CacheAfter(trace: seq<Key>): seq<Key> {
    if trace == [] then [] else Used(CacheAfter(trace[..|trace| - 1]), trace[|trace| - 1])
  }

  /** After any trace of valid requests the cache holds exactly the most recently used distinct keys, in order. */
  lemma {:induction false} CacheHoldsMostRecent(trace: seq<Key>)
    ensures CacheAfter(trace) == LastOf(Recency(trace), CACHE_MAX)
  {
    if trace != [] {
      var rest, k := trace[..|trace| - 1], trace[|trace| - 1];
      CacheHoldsMostRecent(rest);
      assert trace == rest + [k];
      RecencyOfUse(rest, k);
      RecencyFacts(rest);
      TouchAfterForgetting(Recency(rest), k, CACHE_MAX);
    }
  }

  /* ---- the registry ---- */

  /** The ordered dictionary is well formed, and every key in it passed the structural checks. */
  ghost predicate Cache(order: seq<Key>, providers: map<Key, Provider>) {
    && Distinct(order)
    && (forall k :: k in order <==> k in providers)
    && (forall k :: k in providers ==> providers[k].config == k && Validate(k) == None)
  }

  /** The cached providers, in recency order. */
  ghost function Cached(order: seq<Key>, providers: map<Key, Provider>): multiset<Provider> {
    if order == [] then multiset{}
    else Cached(order[1..], providers) + if order[0] in providers then multiset{providers[order[0]]} else multiset{}
  }

  /** Each provider made so far, numbered in order, is in exactly one of the cache and the evicted list, once. */
  ghost predicate Accounted(order: seq<Key>, providers: map<Key, Provider>, made: seq<Provider>, evicted: seq<Provider>)
  {
    && (forall i :: 0 <= i < |made| ==> made[i].id == i)
    && multiset(made) == multiset(evicted) + Cached(order, providers)
  }

  lemma {:induction false} NumberedOnce(made: seq<Provider>, p: Provider)
    requires forall i :: 0 <= i < |made| ==> made[i].id == i
    ensures multiset(made)[p] == if p in made then 1 else 0
  {
    if made != [] {
      var n := |made| - 1;
      assert made == made[..n] + [made[n]];
      NumberedOnce(made[..n], p);
    }
  }

  /** A provider made is in the cache or evicted, not both, and not twice. */
  lemma MadeIsInOnePlace(order: seq<Key>, providers: map<Key, Provider>, made: seq<Provider>, evicted: seq<Provider>,
                         p: Provider)
    requires Accounted(order, providers, made, evicted)
    ensures multiset(evicted)[p] + Cached(order, providers)[p] == if p in made then 1 else 0
  {
    NumberedOnce(made, p);
    assert multiset(made)[p] == (multiset(evicted) + Cached(order, providers))[p];
  }

  lemma Shift<T>(a: multiset<T>, b: multiset<T>, c: multiset<T>)
    ensures (a + b) + c == (a + c) + b
  {
  }

  lemma {:induction false} CachedOfConcat(s: seq<Key>, t: seq<Key>, providers: map<Key, Provider>)
    ensures Cached(s + t, providers) == Cached(s, providers) + Cached(t, providers)
  {
    if s == [] {
      assert s + t == t;
    } else {
      CachedOfConcat(s[1..], t, providers);
      assert (s + t)[1..] == s[1..] + t && (s + t)[0] == s[0];
      var one := if s[0] in providers then multiset{providers[s[0]]} else multiset{};
      assert Cached(s + t, providers) == Cached(s[1..] + t, providers) + one;
      Shift(Cached(s[1..], providers), Cached(t, providers), one);
    }
  }

  lemma {:induction false} CachedElsewhere(s: seq<Key>, a: map<Key, Provider>, b: map<Key, Provider>)
    requires forall k :: k in s ==> k in a && k in b && a[k] == b[k]
    ensures Cached(s, a) == Cached(s, b)
  {
    if s != [] {
      CachedElsewhere(s[1..], a, b);
    }
  }

  lemma {:induction false} CachedRemove(s: seq<Key>, k: Key, providers: map<Key, Provider>)
    requires Distinct(s) && k in s && k in providers
    ensures Cached(s, providers) == Cached(Remove(s, k), providers) + multiset{providers[k]}
  {
    if s[0] == k {
      assert k !in s[1..];
      RemoveMembers(s[1..], k);
    } else {
      CachedRemove(s[1..], k, providers);
      var r := Remove(s[1..], k);
      assert Remove(s, k) == [s[0]] + r && ([s[0]] + r)[1..] == r;
    }
  }

  lemma TouchKeepsAccount(order: seq<Key>, providers: map<Key, Provider>, made: seq<Provider>, evicted: seq<Provider>,
                          key: Key)
    requires Distinct(order) && key in order && key in providers && Accounted(order, providers, made, evicted)
    ensures Accounted(Touch(order, key), providers, made, evicted)
  {
    CachedRemove(order, key, providers);
    CachedOfConcat(Remove(order, key), [key], providers);
    CachedOne(key, providers);
  }

  lemma InsertKeepsAccount(order: seq<Key>, providers: map<Key, Provider>, made: seq<Provider>, evicted: seq<Provider>,
                           p: Provider)
    requires (forall k :: k in order <==> k in providers) && Accounted(order, providers, made, evicted)
    requires p.id == |made| && p.config !in providers
    ensures Accounted(order + [p.config], providers[p.config := p], made + [p], evicted)
  {
    var after := providers[p.config := p];
    CachedOfConcat(order, [p.config], after);
    CachedOne(p.config, after);
    CachedElsewhere(order, providers, after);
    assert multiset(made + [p]) == multiset(made) + multiset{p};
  }

  lemma CachedOne(key: Key, providers: map<Key, Provider>)
    requires key in providers
    ensures Cached([key], providers) == multiset{providers[key]}
  {
    assert [key][1..] == [];
  }

  lemma EvictKeepsAccount(order: seq<Key>, providers: map<Key, Provider>, made: seq<Provider>, evicted: seq<Provider>)
    requires Cache(order, providers) && order != [] && Accounted(order, providers, made, evicted)
    ensures Accounted(order[1..], providers - {order[0]}, made, evicted + [providers[order[0]]])
  {
    assert order[0] !in order[1..];
    CachedElsewhere(order[1..], providers, providers - {order[0]});
  }

  lemma InsertKeepsCache(order: seq<Key>, providers: map<Key, Provider>, p: Provider)
    requires Cache(order, providers) && p.config !in providers && Validate(p.config) == None
    ensures Cache(order + [p.config], providers[p.config := p])
  {
  }

  lemma EvictKeepsCache(order: seq<Key>, providers: map<Key, Provider>)
    requires Cache(order, providers) && order != []
    ensures Cache(order[1..], providers - {order[0]})
  {
    assert order == [order[0]] + order[1..];
  }

  /** The provider an insertion evicts. */
  ghost function Victim(order: seq<Key>, providers: map<Key, Provider>): seq<Provider> {
    if |order| >= CACHE_MAX && order[0] in providers then [providers[order[0]]] else []
  }

  /** One request to the factory. */
  datatype Request = Request(env: Env, tenant: Option<Tenant>, platform: bool)

  /** The keys of the requests that yield a provider, in order. */
  ghost function ValidKeys(requests: seq<Request>): seq<Key> {
    if requests == [] then []
    else
      var q := requests[|requests| - 1];
      var answer := AnswerTo(q);
      ValidKeys(requests[..|requests| - 1]) + if answer.Configured? then [answer.config] else []
  }

  ghost function OrderAfter(requests: seq<Request>): seq<Key> {
    CacheAfter(ValidKeys(requests))
  }

  function AnswerTo(q: Request): Answer {
    Uncached(q.env, q.tenant, q.platform)
  }

  /** The registry without a cache, asked every request in turn. */
  ghost function Answers(requests: seq<Request>): seq<Answer> {
    if requests == [] then [] else Answers(requests[..|requests| - 1]) + [AnswerTo(requests[|requests| - 1])]
  }

  lemma TraceStep(requests: seq<Request>, i: nat, before: seq<Key>, after: seq<Key>)
    requires i < |requests| && before == OrderAfter(requests[..i])
    requires after == if AnswerTo(requests[i]).Configured? then Used(before, AnswerTo(requests[i]).config) else before
    ensures after == OrderAfter(requests[..i + 1])
  {
    var keys, all := ValidKeys(requests[..i]), ValidKeys(requests[..i + 1]);
    assert requests[..i + 1][..i] == requests[..i];
    if AnswerTo(requests[i]).Configured? {
      assert all[..|all| - 1] == keys;
    } else {
      assert all == keys;
    }
  }

  class Registry {
    /** The keys from least to most recently used, and their providers. */
    var order: seq<Key>
    var providers: map<Key, Provider>
    /** Providers constructed so far, and those evicted and handed to a closing task. */
    var created: nat
    var evicted: seq<Provider>
    ghost var made: seq<Provider>

    ghost predicate Valid()
      reads this
    {
      Cache(order, providers) && |order| <= CACHE_MAX && created == |made| && Accounted(order, providers, made, evicted)
    }

    constructor ()
      ensures Valid()
      ensures order == [] && evicted == [] && created == 0
    {
      order, providers, created, evicted, made := [], map[], 0, [], [];
    }

    /**
      A valid key was served: the cached provider, or a new one, which evicts the least recently used of a
      full cache.
    */
    ghost predicate Served(key: Key, p: Provider, wasOrder: seq<Key>, was: map<Key, Provider>, wasMade: seq<Provider>,
                           wasEvicted: seq<Provider>)
      reads this
    {
      && key in providers && providers[key] == p && p.config == key
      && if key in was then p == was[key] && providers == was && made == wasMade && evicted == wasEvicted
         else made == wasMade + [p] && evicted == wasEvicted + Victim(wasOrder, was)
    }

    /** Move a cached key to the recent end. */
    method MoveToEnd(key: Key)
      requires Valid() && key in providers
      modifies this`order
      ensures Valid() && order == Used(old(order), key)
    {
      RemoveMembers(order, key);
      RemoveDistinct(order, key);
      TouchKeepsAccount(order, providers, made, evicted, key);
      order := Touch(order, key);
    }

    /** Look a valid key up, constructing and inserting a provider when it is not there. */
    method GetOrCreate(key: Key) returns (p: Provider)
      requires Valid() && Validate(key) == None
      modifies this
      ensures Valid()
      ensures order == Used(old(order), key)
      ensures Served(key, p, old(order), old(providers), old(made), old(evicted))
    {
      if key in providers {
        MoveToEnd(key);
        return providers[key];
      }
      UsedMiss(order, key);
      p := Insert(key);
      if |order| > CACHE_MAX {
        EvictOldest();
      }
    }

    method Insert(key: Key) returns (p: Provider)
      requires Valid() && key !in providers && Validate(key) == None
      modifies this
      ensures Cache(order, providers) && created == |made| && Accounted(order, providers, made, evicted)
      ensures p == Provider(old(created), key) && made == old(made) + [p] && evicted == old(evicted)
      ensures order == old(order) + [key] && providers == old(providers)[key := p]
    {
      p := Provider(created, key);
      InsertKeepsCache(order, providers, p);
      InsertKeepsAccount(order, providers, made, evicted, p);
      created, made := created + 1, made + [p];
      order, providers := order + [key], providers[key := p];
    }

    method EvictOldest()
      requires Cache(order, providers) && created == |made| && Accounted(order, providers, made, evicted) && order != []
      modifies this
      ensures Cache(order, providers) && Accounted(order, providers, made, evicted)
      ensures order == old(order)[1..] && providers == old(providers) - {old(order)[0]}
      ensures created == old(created) && made == old(made)
      ensures old(order)[0] in old(providers) && evicted == old(evicted) + [old(providers)[old(order)[0]]]
    {
      var oldest := order[0];
      EvictKeepsCache(order, providers);
      EvictKeepsAccount(order, providers, made, evicted);
      evicted := evicted + [providers[oldest]];
      order, providers := order[1..], providers - {oldest};
    }

    /**
      The OpenAI branch of the factory.  It answers exactly as the registry without a cache does, and
      only a request that yields a provider touches the cache.
    */
    method GetEmbeddingProvider(env: Env, tenant: Option<Tenant>, platform: bool)
      returns (answer: Answer, provider: Option<Provider>)
      requires Valid()
      modifies this
      ensures Valid()
      ensures answer == Uncached(env, tenant, platform)
      ensures answer.Configured? <==> provider.Some?
      ensures answer.Configured? ==> order == Used(old(order), answer.config)
      ensures answer.Configured? ==>
        Served(answer.config, provider.value, old(order), old(providers), old(made), old(evicted))
      ensures !answer.Configured? ==>
        order == old(order) && providers == old(providers) && made == old(made) && evicted == old(evicted)
    {
      match Resolve(env, tenant)
      case Refused(reason) => return Rejected(reason), None;
      case NoCredential => return (if platform then Platform else Unconfigured), None;
      case Resolved(key) =>
        if key in providers {
          MoveToEnd(key);
          return Configured(key), Some(providers[key]);
        }
        if key.baseUrl.Some? && key.sendDimensions {
          return Rejected(BaseUrlWithDimensions), None;
        }
        if key.baseUrl.None? && !key.sendDimensions {
          return Rejected(HostedWithoutDimensions), None;
        }
        if key.truncateToDim.Some? && key.truncateToDim.value != VECTOR_DIM {
          return Rejected(WrongTruncation), None;
        }
        var p := GetOrCreate(key);
        return Configured(key), Some(p);
    }

    /** Any trace of requests to an empty registry. */
    method Serve(requests: seq<Request>) returns (answers: seq<Answer>)
      requires Valid() && order == []
      modifies this
      ensures Valid() && order == LastOf(Recency(ValidKeys(requests)), CACHE_MAX)
      ensures answers == Answers(requests)
    {
      answers := [];
      for i := 0 to |requests|
        invariant Valid() && order == OrderAfter(requests[..i])
        invariant answers == Answers(requests[..i])
      {
        ghost var before := order;
        var q := requests[i];
        var answer, _ := GetEmbeddingProvider(q.env, q.tenant, q.platform);
        answers := answers + [answer];
        assert requests[..i + 1][..i] == requests[..i];
        TraceStep(requests, i, before, order);
      }
      assert requests[..|requests|] == requests;
      CacheHoldsMostRecent(ValidKeys(requests));
    }
  }
}
