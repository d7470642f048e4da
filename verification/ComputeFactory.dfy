/**
 * The compute providers of cloud connections and the cache of them (internal/controller/compute_factory.go). A caller reads
 * the connection and its Secret without the lock, so by the time it holds the lock others may have read newer ones and
 * filled the cache from them: a run is any sequence of locked sections, each with what its caller had read, however old.
 */
module ComputeFactory {
  import opened Wrappers
  import opened Text

  datatype Spec = Spec(provider: string, purposes: seq<string>, project: string, org: string, secretRef: string, region: string)

  datatype Connection = Connection(uid: string, generation: nat, spec: Spec)

  datatype Secret = Secret(uid: string, resourceVersion: string, data: map<string, string>, stringData: map<string, string>)

  datatype ConnectionError =
    | NoConnection
    | NotForCompute
    | OfProject(project: string)
    | OfOrganization(org: string)
    | NoCredentials
    | CredentialsUnavailable
    | Unusable(reason: string)

  /** compute.New: a provider from its kind, its credentials and its region, or why there is none. */
  type New<!P> = (string, map<string, string>, string) -> Result<P, string>

  const COMPUTE := "Compute"

  predicate HasCompute(c: Connection)
  {
    if c.spec.purposes == [] then c.spec.provider != "AWS" && c.spec.provider != "PlanetScale"
    else COMPUTE in c.spec.purposes
  }

  // ----- the version a provider is kept for

  function Digit(d: nat): char
    requires d < 10
  {
    "0123456789"[d]
  }

  /** %d of a number that is not negative. */
  function Decimal(n: nat): (s: string)
    ensures Without(s, '/') && s != ""
  {
    if n < 10 then [Digit(n)] else Decimal(n / 10) + [Digit(n % 10)]
  }

  lemma {:induction false} DecimalsAreToldApart(m: nat, n: nat)
    requires Decimal(m) == Decimal(n)
    ensures m == n
  {
    var s := Decimal(m);
    assert s[|s| - 1] == Digit(m % 10) && s[|s| - 1] == Digit(n % 10);
    if |s| > 1 {
      assert s[..|s| - 1] == Decimal(m / 10) && s[..|s| - 1] == Decimal(n / 10);
      DecimalsAreToldApart(m / 10, n / 10);
    }
  }

  function Version(c: Connection, s: Secret): string
  {
    c.uid + "/" + (Decimal(c.generation) + "/" + (s.uid + "/" + s.resourceVersion))
  }

  lemma VersionsAreToldApart(c: Connection, s: Secret, c': Connection, s': Secret)
    requires Without(c.uid, '/') && Without(c'.uid, '/') && Without(s.uid, '/') && Without(s'.uid, '/')
    requires Version(c, s) == Version(c', s')
    ensures c.uid == c'.uid && c.generation == c'.generation && s.uid == s'.uid && s.resourceVersion == s'.resourceVersion
  {
    var rest, rest' := s.uid + "/" + s.resourceVersion, s'.uid + "/" + s'.resourceVersion;
    var middle, middle' := Decimal(c.generation) + "/" + rest, Decimal(c'.generation) + "/" + rest';
    SplitAtSeparator(c.uid, c'.uid, middle, middle', '/');
    SplitAtSeparator(Decimal(c.generation), Decimal(c'.generation), rest, rest', '/');
    SplitAtSeparator(s.uid, s'.uid, s.resourceVersion, s'.resourceVersion, '/');
    DecimalsAreToldApart(c.generation, c'.generation);
  }

  // ----- one call

  /** What a caller read: the connection, and the Secret that it names. */
  datatype Read = Read(connection: Option<Connection>, secrets: map<string, Secret>)

  /** Why the lock is never reached. */
  function Refusal(read: Read): Option<ConnectionError>
  {
    if read.connection.None? then Some(NoConnection)
    else
      var c := read.connection.value;
      if !HasCompute(c) then Some(NotForCompute)
      else if c.spec.project != "" then Some(OfProject(c.spec.project))
      else if c.spec.org != "" then Some(OfOrganization(c.spec.org))
      else if c.spec.secretRef == "" then Some(NoCredentials)
      else if c.spec.secretRef !in read.secrets then Some(CredentialsUnavailable)
      else None
  }

  function SecretOf(read: Read): Secret
    requires Refusal(read).None?
  {
    read.secrets[read.connection.value.spec.secretRef]
  }

  function VersionOf(read: Read): string
    requires Refusal(read).None?
  {
    Version(read.connection.value, SecretOf(read))
  }

  /** The simple thing: a provider built from what was read, with no cache. */
  function Afresh<P>(build: New<P>, read: Read): Result<P, ConnectionError>
  {
    if Refusal(read).Some? then Err(Refusal(read).value)
    else
      var spec, secret := read.connection.value.spec, SecretOf(read);
      match build(spec.provider, secret.data + secret.stringData, spec.region)
      case Ok(provider) => Ok(provider)
      case Err(reason) => Err(Unusable(reason))
  }

  /**
   * When a connection can make machines at all, and with what: it is for compute (by its purposes, or by its provider when it
   * names none), of no project and no organization, and its credentials are there. The provider is then built from the
   * connection's kind of provider, its Secret's credentials, those in stringData first, and its region, each in its place.
   */
  lemma BuiltFromItsOwn(read: Read)
    ensures
      var build: New<(string, map<string, string>, string)> := (provider, credentials, region) => Ok((provider, credentials, region));
      var made := Afresh(build, read);
      && (made.Ok? <==>
          && read.connection.Some?
          && var spec := read.connection.value.spec;
             && ("Compute" in spec.purposes || (spec.purposes == [] && spec.provider !in {"AWS", "PlanetScale"}))
             && spec.project == "" && spec.org == "" && spec.secretRef != "" && spec.secretRef in read.secrets)
      && (made.Ok? ==>
            var spec, secret := read.connection.value.spec, read.secrets[read.connection.value.spec.secretRef];
            && made.value.0 == spec.provider && made.value.2 == spec.region
            && forall key :: Get(made.value.1, key) == if key in secret.stringData then Some(secret.stringData[key]) else Get(secret.data, key))
  {
  }

  function Get(m: map<string, string>, key: string): Option<string>
  {
    if key in m then Some(m[key]) else None
  }

  /** What is said when it cannot, the first reason that holds. */
  lemma RefusedBecause(read: Read)
    ensures Refusal(read) == Some(NoConnection) <==> read.connection.None?
    ensures read.connection.Some? ==>
              var spec := read.connection.value.spec;
              && (Refusal(read) == Some(NotForCompute) <==> !("Compute" in spec.purposes || (spec.purposes == [] && spec.provider !in {"AWS", "PlanetScale"})))
              && (Refusal(read).Some? && Refusal(read).value.OfProject? ==> spec.project != "" && Refusal(read).value.project == spec.project)
              && (Refusal(read).Some? && Refusal(read).value.OfOrganization? ==> spec.project == "" && spec.org != "" && Refusal(read).value.org == spec.org)
              && (Refusal(read) == Some(NoCredentials) ==> spec.project == "" && spec.org == "" && spec.secretRef == "")
              && (Refusal(read) == Some(CredentialsUnavailable) ==> spec.secretRef != "" && spec.secretRef !in read.secrets)
  {
  }

  datatype Cached<P> = Cached(version: string, provider: P)

  type Cache<P> = map<string, Cached<P>>

  predicate Hit<P>(cache: Cache<P>, name: string, read: Read)
  {
    Refusal(read).None? && name in cache && cache[name].version == VersionOf(read)
  }

  function Answer<P>(cache: Cache<P>, build: New<P>, name: string, read: Read): Result<P, ConnectionError>
  {
    if Hit(cache, name, read) then Ok(cache[name].provider) else Afresh(build, read)
  }

  function Kept<P>(cache: Cache<P>, build: New<P>, name: string, read: Read): Cache<P>
  {
    if Hit(cache, name, read) || Afresh(build, read).Err? then cache
    else cache[name := Cached(VersionOf(read), Afresh(build, read).value)]
  }

  class ConnectionComputeFactory<P> {
    var cache: Cache<P>

    constructor ()
      ensures cache == map[]
    {
      cache := map[];
    }

    method Provider(build: New<P>, name: string, read: Read) returns (r: Result<P, ConnectionError>, connection: Option<Connection>)
      modifies this
      ensures r == Answer(old(cache), build, name, read) && cache == Kept(old(cache), build, name, read)
      ensures connection == read.connection
    {
      connection := read.connection;
      if read.connection.None? {
        return Err(NoConnection), connection;
      }
      var c := read.connection.value;
      if !HasCompute(c) {
        return Err(NotForCompute), connection;
      }
      if c.spec.project != "" {
        return Err(OfProject(c.spec.project)), connection;
      }
      if c.spec.org != "" {
        return Err(OfOrganization(c.spec.org)), connection;
      }
      if c.spec.secretRef == "" {
        return Err(NoCredentials), connection;
      }
      if c.spec.secretRef !in read.secrets {
        return Err(CredentialsUnavailable), connection;
      }
      var secret := read.secrets[c.spec.secretRef];
      var version := Version(c, secret);
      if name in cache && cache[name].version == version {
        return Ok(cache[name].provider), connection;
      }
      var credentials := CredentialsOf(secret);
      var built := build(c.spec.provider, credentials, c.spec.region);
      if built.Err? {
        return Err(Unusable(built.error)), connection;
      }
      cache := cache[name := Cached(version, built.value)];
      r := Ok(built.value);
    }
  }

  /** A Secret's data, with what stringData says over it. */
  method CredentialsOf(secret: Secret) returns (credentials: map<string, string>)
    ensures credentials == secret.data + secret.stringData
  {
    credentials := map[];
    var keys := secret.data.Keys;
    while keys != {}
      invariant keys <= secret.data.Keys
      invariant credentials == map key | key in secret.data && key !in keys :: secret.data[key]
      decreases keys
    {
      var key :| key in keys;
      credentials := credentials[key := secret.data[key]];
      keys := keys - {key};
    }
    credentials := credentials + secret.stringData;
  }

  // ----- runs

  /**
   * What the API server promises: a UID and a generation stand for one spec, and a UID and a resourceVersion for one
   * content of a Secret; and no UID holds a slash.
   */
  datatype Ledger = Ledger(specs: (string, nat) -> Spec, contents: (string, string) -> (map<string, string>, map<string, string>))

  ghost predicate Honest(ledger: Ledger, read: Read)
  {
    && (read.connection.Some? ==>
          var c := read.connection.value;
          Without(c.uid, '/') && c.spec == ledger.specs(c.uid, c.generation))
    && forall name :: name in read.secrets ==>
         var s := read.secrets[name];
         Without(s.uid, '/') && (s.data, s.stringData) == ledger.contents(s.uid, s.resourceVersion)
  }

  /** Every kept provider is the one built from any honest read of its version. */
  ghost predicate Sound<P(!new)>(cache: Cache<P>, build: New<P>, ledger: Ledger)
  {
    forall name :: name in cache ==> Stands(cache[name], build, ledger)
  }

  ghost predicate Stands<P(!new)>(kept: Cached<P>, build: New<P>, ledger: Ledger)
  {
    forall read :: Honest(ledger, read) && Refusal(read).None? && VersionOf(read) == kept.version ==> Afresh(build, read) == Ok(kept.provider)
  }

  /** Reads of one version are built alike. */
  lemma SameVersionSameProvider<P>(build: New<P>, ledger: Ledger, a: Read, b: Read)
    requires Honest(ledger, a) && Honest(ledger, b) && Refusal(a).None? && Refusal(b).None? && VersionOf(a) == VersionOf(b)
    ensures Afresh(build, a) == Afresh(build, b)
  {
    VersionsAreToldApart(a.connection.value, SecretOf(a), b.connection.value, SecretOf(b));
  }

  lemma CallKeepsSound<P(!new)>(cache: Cache<P>, build: New<P>, ledger: Ledger, name: string, read: Read)
    requires Sound(cache, build, ledger) && Honest(ledger, read)
    ensures Sound(Kept(cache, build, name, read), build, ledger)
    ensures Answer(cache, build, name, read) == Afresh(build, read)
  {
    if Hit(cache, name, read) {
      assert Stands(cache[name], build, ledger);
    } else if Afresh(build, read).Ok? {
      var kept := Kept(cache, build, name, read);
      assert Stands(kept[name], build, ledger) by {
        forall other | Honest(ledger, other) && Refusal(other).None? && VersionOf(other) == kept[name].version
          ensures Afresh(build, other) == Ok(kept[name].provider)
        {
          SameVersionSameProvider(build, ledger, other, read);
        }
      }
    }
  }

  datatype Call = Call(name: string, read: Read)

  function CacheAfter<P>(build: New<P>, calls: seq<Call>): Cache<P>
  {
    if calls == [] then map[]
    else
      var n := |calls| - 1;
      Kept(CacheAfter(build, calls[..n]), build, calls[n].name, calls[n].read)
  }

  lemma {:induction false} RunIsSound<P(!new)>(build: New<P>, ledger: Ledger, calls: seq<Call>)
    requires forall call :: call in calls ==> Honest(ledger, call.read)
    ensures Sound(CacheAfter(build, calls), build, ledger)
  {
    if calls != [] {
      var n := |calls| - 1;
      RunIsSound(build, ledger, calls[..n]);
      CallKeepsSound(CacheAfter(build, calls[..n]), build, ledger, calls[n].name, calls[n].read);
    }
  }

  /** In every run, whoever gets the lock when, each call is answered as if there were no cache. */
  lemma CacheIsNotSeen<P(!new)>(build: New<P>, ledger: Ledger, calls: seq<Call>, i: nat)
    requires i < |calls| && forall call :: call in calls ==> Honest(ledger, call.read)
    ensures Answer(CacheAfter(build, calls[..i]), build, calls[i].name, calls[i].read) == Afresh(build, calls[i].read)
  {
    RunIsSound(build, ledger, calls[..i]);
    CallKeepsSound(CacheAfter(build, calls[..i]), build, ledger, calls[i].name, calls[i].read);
  }

  /** A call that changes nothing about what is kept for another call's version. */
  ghost predicate Undisturbed<P>(build: New<P>, call: Call, other: Call)
    requires Refusal(call.read).None?
  {
    other.name == call.name && Afresh(build, other.read).Ok? ==> VersionOf(other.read) == VersionOf(call.read)
  }

  lemma CallLeavesAHit<P>(cache: Cache<P>, build: New<P>, call: Call, again: Call)
    requires Refusal(again.read).None? && Undisturbed(build, again, call)
    requires Hit(cache, again.name, again.read)
             || (call.name == again.name && Refusal(call.read).None? && VersionOf(call.read) == VersionOf(again.read)
                 && Answer(cache, build, call.name, call.read).Ok?)
    ensures Hit(Kept(cache, build, call.name, call.read), again.name, again.read)
  {
  }

  /**
   * The provider is built once: after a call that had one, another with the same version is answered from the cache unless
   * a provider of another version was asked for under the same name in between.
   */
  lemma {:induction false} ProviderIsKept<P>(build: New<P>, calls: seq<Call>, i: nat, again: Call)
    requires i < |calls| && again.name == calls[i].name && Refusal(again.read).None?
    requires Refusal(calls[i].read).None? && VersionOf(calls[i].read) == VersionOf(again.read)
    requires Answer(CacheAfter(build, calls[..i]), build, calls[i].name, calls[i].read).Ok?
    requires forall j :: i < j < |calls| ==> Undisturbed(build, again, calls[j])
    ensures Hit(CacheAfter(build, calls), again.name, again.read)
    decreases |calls|
  {
    var n := |calls| - 1;
    if i < n {
      assert calls[..n][..i] == calls[..i];
      ProviderIsKept(build, calls[..n], i, again);
      assert Undisturbed(build, again, calls[n]);
    }
    CallLeavesAHit(CacheAfter(build, calls[..n]), build, calls[n], again);
  }
}
