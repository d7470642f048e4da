/**
 * The copy of an external store's credentials that is kept beside the add-on that sends to it
 * (internal/controller/external_observability.go, with pkg/observability/observability.go for the credentials). The metrics
 * store and the log store are handled alike, each with its own copy. A pass reads the copy from a cache, so what it saw may
 * be older than what is there when it writes.
 */
module CredentialCopies {
  import opened Wrappers
  import opened Text
  import opened ApiServer

  // ----- credentials

  datatype Auth = AuthNone | AuthBasic | AuthBearer

  datatype Credentials = Credentials(token: string, username: string, password: string) {

    function Kind(): Auth
    {
      if token != "" then AuthBearer else if username != "" then AuthBasic else AuthNone
    }

    function Data(): map<string, string>
    {
      match Kind()
      case AuthBearer => map["token" := token]
      case AuthBasic => map["username" := username, "password" := password]
      case AuthNone => map[]
    }
  }

  const NO_CREDENTIALS := Credentials("", "", "")

  predicate OneLine(s: string)
  {
    Without(s, '\r') && Without(s, '\n')
  }

  /** What a credentials Secret says, or None when it says nothing usable or two things at once. */
  function CredentialsOf(data: map<string, string>): Option<Credentials>
  {
    var c := Credentials(TrimSpace(Lookup(data, "token")), Lookup(data, "username"), Lookup(data, "password"));
    var basic := c.username != "" || c.password != "";
    if c.token != "" && basic then None
    else if c.token == "" && (c.username == "" || c.password == "") then None
    else if !OneLine(c.token + c.username + c.password) then None
    else Some(c)
  }

  /** The copy says what the original says: read back, its data are the same credentials. */
  lemma CopyReadsBack(data: map<string, string>)
    ensures
      var c := CredentialsOf(data);
      c.Some? ==> c.value.Kind() != AuthNone && CredentialsOf(c.value.Data()) == c
  {
    var c := CredentialsOf(data);
    if c.Some? {
      var token := c.value.token;
      assert TrimSpace(token) == token;
      assert TrimSpace("") == "";
    }
  }

  /** Which Secrets say how to sign in: those with a token and neither of the others, or with both of the others and no token, on one line. */
  lemma CredentialsExactly(data: map<string, string>)
    ensures
      var token, username, password := TrimSpace(Lookup(data, "token")), Lookup(data, "username"), Lookup(data, "password");
      var bearer, basic := token != "" && username == "" && password == "", token == "" && username != "" && password != "";
      && (CredentialsOf(data).Some? <==> (bearer && OneLine(token)) || (basic && OneLine(username) && OneLine(password)))
      && (CredentialsOf(data).Some? ==>
            var c := CredentialsOf(data).value;
            && c.token == token && c.username == username && c.password == password
            && (c.Kind() == AuthBearer <==> bearer) && (c.Kind() == AuthBasic <==> basic)
            && c.Data() == if bearer then map["token" := token] else map["username" := username, "password" := password])
  {
  }

  // ----- the copy

  /** A Secret: whether it carries Geass's label, its data, and the rest of it. */
  datatype Secret = Secret(managed: bool, data: map<string, string>, rest: string)

  /** What a pass saw of the copy. */
  datatype Sight = ReadFails | Saw(copy: Option<Versioned<Secret>>)

  datatype PassFate = PassFate(namespaceFails: bool, write: Fate, delete: Fate)

  /** The Secret a placing pass wants in place of what it saw. */
  function Wanted(copy: Option<Versioned<Secret>>, c: Credentials): Secret
  {
    match copy
    case None => Secret(true, c.Data(), "Opaque")
    case Some(v) => v.value.(managed := true, data := c.Data())
  }

  /** placeCredentialsCopy: the store, and the version of the copy, or None for an error. */
  function Place(store: Store<Secret>, sight: Sight, c: Credentials, fate: PassFate): (Store<Secret>, Option<nat>)
  {
    if fate.namespaceFails || sight.ReadFails? then (store, None)
    else if sight.copy.Some? && sight.copy.value.value == Wanted(sight.copy, c) then (store, Some(sight.copy.value.version))
    else
      var (after, error) :=
        if sight.copy.None? then store.Create(Wanted(None, c), fate.write)
        else store.Update(sight.copy.value.version, Wanted(sight.copy, c), fate.write);
      (after, if error.Some? || after.current.None? then None else Some(after.current.value.version))
  }

  /** removeCredentialsCopy: the store, and whether it worked. The delete names no version. */
  function Remove(store: Store<Secret>, sight: Sight, fate: PassFate): (Store<Secret>, bool)
  {
    if sight.ReadFails? then (store, false)
    else if sight.copy.None? || !sight.copy.value.value.managed then (store, true)
    else
      var (after, error) := store.Delete(fate.delete);
      (after, error.None? || error == Some(NotFound))
  }

  method PlaceCredentialsCopy(api: Api<Secret>, sight: Sight, c: Credentials, fate: PassFate) returns (version: Option<nat>)
    modifies api
    ensures (api.store, version) == Place(old(api.store), sight, c, fate)
  {
    if fate.namespaceFails || sight.ReadFails? {
      return None;
    }
    var error: Option<ApiError>;
    if sight.copy.None? {
      error := api.Create(Secret(true, c.Data(), "Opaque"), fate.write);
    } else {
      var secret := sight.copy.value.value;
      secret := secret.(managed := true);
      secret := secret.(data := c.Data());
      if secret == sight.copy.value.value {
        return Some(sight.copy.value.version);
      }
      error := api.Update(sight.copy.value.version, secret, fate.write);
    }
    if error.Some? || api.store.current.None? {
      return None;
    }
    return Some(api.store.current.value.version);
  }

  method RemoveCredentialsCopy(api: Api<Secret>, sight: Sight, fate: PassFate) returns (ok: bool)
    modifies api
    ensures (api.store, ok) == Remove(old(api.store), sight, fate)
  {
    if sight.ReadFails? {
      return false;
    }
    if sight.copy.None? || !sight.copy.value.value.managed {
      return true;
    }
    var error := api.Delete(fate.delete);
    return error.None? || error == Some(NotFound);
  }

  // ----- the sink

  /** What the configuration says of the store, and what its credentials Secret holds. */
  datatype Setting =
    | Unread
    | NotNamed
    | Unusable
    | Named(url: string, reference: string, secret: Result<map<string, string>, ApiError>)

  /** What LoadCredentials makes of a setting. */
  datatype Loaded = Loaded(credentials: Credentials) | Missing | Failing

  function Load(reference: string, secret: Result<map<string, string>, ApiError>): Loaded
  {
    if reference == "" then Loaded(NO_CREDENTIALS)
    else
      match secret
      case Err(error) => if error == NotFound then Missing else Failing
      case Ok(data) => if CredentialsOf(data).None? then Missing else Loaded(CredentialsOf(data).value)
  }

  /** The sink an add-on is given: how it signs in, and the version of the copy, when it names the copy. */
  datatype Sink = Sink(url: string, auth: Auth, version: Option<nat>)

  datatype Answer = Answer(sink: Option<Sink>, failed: bool)

  /** What a setting asks for: None when the pass cannot tell. */
  function Asks(setting: Setting): Option<Credentials>
  {
    match setting
    case Unread => None
    case NotNamed => Some(NO_CREDENTIALS)
    case Unusable => Some(NO_CREDENTIALS)
    case Named(_, reference, secret) =>
      match Load(reference, secret)
      case Failing => None
      case Missing => Some(NO_CREDENTIALS)
      case Loaded(c) => Some(c)
  }

  /** Whether a setting names a store that can be sent to. */
  predicate Usable(setting: Setting)
  {
    setting.Named? && Load(setting.reference, setting.secret).Loaded?
  }

  method ExternalSink(api: Api<Secret>, setting: Setting, sight: Sight, fate: PassFate) returns (answer: Answer)
    modifies api
    ensures (api.store, answer) == Pass(old(api.store), setting, sight, fate)
  {
    if setting.Unread? {
      return Answer(None, true);
    }
    if setting.NotNamed? || setting.Unusable? {
      var ok := RemoveCredentialsCopy(api, sight, fate);
      return Answer(None, !ok);
    }
    var loaded := Load(setting.reference, setting.secret);
    if loaded.Missing? {
      var ok := RemoveCredentialsCopy(api, sight, fate);
      return Answer(None, !ok);
    }
    if loaded.Failing? {
      return Answer(None, true);
    }
    var sink := Sink(setting.url, loaded.credentials.Kind(), None);
    if sink.auth == AuthNone {
      var ok := RemoveCredentialsCopy(api, sight, fate);
      return Answer(Some(sink), !ok);
    }
    var version := PlaceCredentialsCopy(api, sight, loaded.credentials, fate);
    if version.None? {
      return Answer(None, true);
    }
    return Answer(Some(sink.(version := version)), false);
  }

  /** A pass by what the setting asks for. */
  function Pass(store: Store<Secret>, setting: Setting, sight: Sight, fate: PassFate): (Store<Secret>, Answer)
  {
    match Asks(setting)
    case None => (store, Answer(None, true))
    case Some(c) =>
      if c.Kind() == AuthNone then
        var (after, ok) := Remove(store, sight, fate);
        (after, Answer(if Usable(setting) then Some(Sink(setting.url, AuthNone, None)) else None, !ok))
      else
        var (after, version) := Place(store, sight, c, fate);
        (after, if version.None? then Answer(None, true) else Answer(Some(Sink(setting.url, c.Kind(), version)), false))
  }

  // ----- in step

  /** The copy is what the setting asks for: there with exactly those credentials, or not there unless it is someone else's. */
  ghost predicate InStep(store: Store<Secret>, setting: Setting)
  {
    match Asks(setting)
    case None => false
    case Some(c) =>
      if c.Kind() == AuthNone then store.current.Some? ==> !store.current.value.value.managed
      else store.current.Some? && store.current.value.value.managed && store.current.value.value.data == c.Data()
  }

  /**
   * After a pass that saw the copy as it is and met no error, the copy is what the setting asks for, and the sink names it
   * if and only if the setting asks for credentials, at the version it has. A pass that failed gives no sink that names
   * the copy. (The server does not answer that a Secret which is there was not found.)
   */
  lemma PassPutsInStep(store: Store<Secret>, setting: Setting, fate: PassFate)
    requires store.Valid() && fate.delete != Refused(NotFound)
    ensures
      var (after, answer) := Pass(store, setting, Saw(store.current), fate);
      && (!answer.failed ==> InStep(after, setting) && (answer.sink.Some? <==> Usable(setting)))
      && (answer.sink.Some? && answer.sink.value.version.Some? <==> !answer.failed && Asks(setting).value.Kind() != AuthNone)
      && (answer.sink.Some? && answer.sink.value.version.Some? ==>
            after.current.Some? && answer.sink.value.version.value == after.current.value.version)
      && (!answer.failed && Usable(setting) ==> answer.sink.value.auth == Asks(setting).value.Kind() && answer.sink.value.url == setting.url)
  {
  }

  /**
   * A pass that saw an older copy may answer without an error and leave the copy out of step. One that asks for no
   * credentials leaves it in step if and only if the copy was gone or someone else's, or the pass saw one of Geass's; one that
   * asks for credentials, if and only if what it saw was not what it wants, or the copy was in step already.
   */
  lemma StalePassPutsInStep(store: Store<Secret>, setting: Setting, sight: Sight, fate: PassFate)
    requires store.Valid() && fate.delete != Refused(NotFound)
    requires SameVersionSameCopy(store, sight)
    requires !Pass(store, setting, sight, fate).1.failed
    ensures
      var c := Asks(setting).value;
      InStep(Pass(store, setting, sight, fate).0, setting) <==>
      if c.Kind() == AuthNone then
        store.current.None? || !store.current.value.value.managed || (sight.copy.Some? && sight.copy.value.value.managed)
      else sight.copy.None? || sight.copy.value.value != Wanted(sight.copy, c) || InStep(store, setting)
  {
  }

  /** A copy that was seen at the version of the present one is the present one. */
  ghost predicate SameVersionSameCopy(store: Store<Secret>, sight: Sight)
  {
    sight.Saw? && sight.copy.Some? && store.current.Some? && sight.copy.value.version == store.current.value.version ==> sight.copy == store.current
  }

  /**
   * What the credentials' Secret comes to: with none named there are no credentials, and the store is sent to without; one that
   * is missing or says nothing usable takes the store out of use, and the copy with it; one that cannot be read is an error
   * that changes nothing.
   */
  lemma MissingIsNotUnreadable(store: Store<Secret>, url: string, reference: string, secret: Result<map<string, string>, ApiError>, sight: Sight, fate: PassFate)
    ensures
      var (after, answer) := Pass(store, Named(url, reference, secret), sight, fate);
      if reference == "" then
        (after, !answer.failed) == Remove(store, sight, fate) && answer.sink == Some(Sink(url, AuthNone, None))
      else if secret == Err(NotFound) || (secret.Ok? && CredentialsOf(secret.value).None?) then
        (after, !answer.failed) == Remove(store, sight, fate) && answer.sink == None
      else if secret.Err? then after == store && answer == Answer(None, true)
      else (after, answer.sink.Some?) == (Place(store, sight, CredentialsOf(secret.value).value, fate).0, Place(store, sight, CredentialsOf(secret.value).value, fate).1.Some?)
  {
    if secret.Ok? {
      CopyReadsBack(secret.value);
    }
  }

  /** Placing writes the credentials, the mark and nothing else: what else the Secret holds stays, and a new one is Opaque. */
  lemma PlacingKeepsTheRest(store: Store<Secret>, sight: Sight, c: Credentials, fate: PassFate)
    requires sight == Saw(store.current)
    ensures
      var (after, version) := Place(store, sight, c, fate);
      version.Some? ==>
        && after.current.Some? && after.current.value.version == version.value
        && after.current.value.value == Secret(true, c.Data(), if store.current.Some? then store.current.value.value.rest else "Opaque")
  {
  }

  /** In step, a further pass writes nothing and names the same version, so nothing is started anew. */
  lemma InStepStays(store: Store<Secret>, setting: Setting, fate: PassFate)
    requires store.Valid() && InStep(store, setting) && !fate.namespaceFails
    ensures
      var (after, answer) := Pass(store, setting, Saw(store.current), fate);
      after == store && !answer.failed
  {
    var c := Asks(setting).value;
    if c.Kind() != AuthNone {
      assert store.current.value.value == Wanted(store.current, c);
    }
  }

  // ----- runs

  datatype Step =
    | Other(next: Store<Secret>)
    | Reconcile(setting: Setting, sawAt: nat, readFails: bool, fate: PassFate)

  /** What a pass saw: the copy as it was at some moment of the run. */
  function SightOf(states: seq<Store<Secret>>, step: Step): Sight
    requires step.Reconcile? && step.sawAt < |states|
  {
    if step.readFails then ReadFails else Saw(states[step.sawAt].current)
  }

  ghost predicate Can(states: seq<Store<Secret>>, step: Step)
    requires states != []
  {
    match step
    case Other(next) => Evolves(states[|states| - 1], next)
    case Reconcile(_, sawAt, _, _) => sawAt < |states|
  }

  function After(states: seq<Store<Secret>>, step: Step): Store<Secret>
    requires states != [] && (step.Reconcile? ==> step.sawAt < |states|)
  {
    match step
    case Other(next) => next
    case Reconcile(setting, _, _, fate) => Pass(states[|states| - 1], setting, SightOf(states, step), fate).0
  }

  /** A run: the states of the copy, each reached from those before it by the step beside it. */
  ghost predicate Run(states: seq<Store<Secret>>, steps: seq<Step>)
  {
    && |states| == |steps| + 1
    && states[0].Valid()
    && forall i :: 0 <= i < |steps| ==> Follows(states, steps, i)
  }

  ghost predicate Follows(states: seq<Store<Secret>>, steps: seq<Step>, i: nat)
    requires |states| == |steps| + 1 && i < |steps|
  {
    Can(states[..i + 1], steps[i]) && states[i + 1] == After(states[..i + 1], steps[i])
  }

  lemma PassEvolves(store: Store<Secret>, setting: Setting, sight: Sight, fate: PassFate)
    requires store.Valid()
    ensures Evolves(store, Pass(store, setting, sight, fate).0)
  {
  }

  lemma {:induction false} RunIsHistory(states: seq<Store<Secret>>, steps: seq<Step>)
    requires Run(states, steps)
    ensures History(states)
  {
    var n := |steps|;
    if n == 0 {
      assert states == [states[0]];
    } else {
      var begin, fewer := states[..n], steps[..n - 1];
      forall i | 0 <= i < n - 1 ensures Follows(begin, fewer, i) {
        assert Follows(states, steps, i);
        assert begin[..i + 1] == states[..i + 1];
      }
      RunIsHistory(begin, fewer);
      assert Follows(states, steps, n - 1);
      if steps[n - 1].Reconcile? {
        PassEvolves(states[n - 1], steps[n - 1].setting, SightOf(states[..n], steps[n - 1]), steps[n - 1].fate);
      }
      HistoryGrows(states[..n], states[n]);
      assert states[..n] + [states[n]] == states;
    }
  }

  /** So in every run, this is exactly when a pass without an error leaves the copy in step, however old what it saw. */
  lemma PassOfARunPutsInStep(states: seq<Store<Secret>>, steps: seq<Step>, i: nat)
    requires Run(states, steps) && i < |steps| && steps[i].Reconcile? && steps[i].sawAt <= i && steps[i].fate.delete != Refused(NotFound)
    requires !Pass(states[i], steps[i].setting, SightOf(states[..i + 1], steps[i]), steps[i].fate).1.failed
    ensures
      var c, saw := Asks(steps[i].setting).value, states[steps[i].sawAt].current;
      InStep(states[i + 1], steps[i].setting) <==>
      if c.Kind() == AuthNone then
        states[i].current.None? || !states[i].current.value.value.managed || (saw.Some? && saw.value.value.managed)
      else saw.None? || saw.value.value != Wanted(saw, c) || InStep(states[i], steps[i].setting)
  {
    RunIsHistory(states, steps);
    assert Follows(states, steps, i);
    var saw, now := states[steps[i].sawAt].current, states[i].current;
    if saw.Some? && now.Some? && saw.value.version == now.value.version {
      VersionNamesContent(states, steps[i].sawAt, i);
    }
    StalePassPutsInStep(states[i], steps[i].setting, SightOf(states[..i + 1], steps[i]), steps[i].fate);
  }

  /** The i-th step of a run is a pass that gave a sink which names the copy at a version, for some credentials. */
  ghost predicate Names(states: seq<Store<Secret>>, steps: seq<Step>, i: nat, version: nat, c: Credentials)
    requires Run(states, steps) && i < |steps|
  {
    && steps[i].Reconcile? && steps[i].sawAt <= i
    && Asks(steps[i].setting) == Some(c) && c.Kind() != AuthNone
    && var answer := Pass(states[i], steps[i].setting, SightOf(states[..i + 1], steps[i]), steps[i].fate).1;
    && answer.sink.Some? && answer.sink.value.version == Some(version)
  }

  /** The version a sink names is one at which the copy held exactly the credentials asked for. */
  lemma NamedVersionHeldTheCredentials(states: seq<Store<Secret>>, steps: seq<Step>, i: nat, version: nat, c: Credentials)
    returns (at: nat)
    requires Run(states, steps) && i < |steps| && Names(states, steps, i, version, c)
    ensures at <= i + 1 && states[at].current.Some? && states[at].current.value.version == version
    ensures states[at].current.value.value.managed && states[at].current.value.value.data == c.Data()
  {
    var step := steps[i];
    assert Follows(states, steps, i);
    var sight := SightOf(states[..i + 1], step);
    if sight.copy.Some? && sight.copy.value.value == Wanted(sight.copy, c) {
      at := step.sawAt;
    } else {
      at := i + 1;
    }
  }

  lemma DataTellsApart(c: Credentials, d: Credentials, cs: Setting, ds: Setting)
    requires Asks(cs) == Some(c) && Asks(ds) == Some(d) && c.Kind() != AuthNone && c.Data() == d.Data()
    ensures c == d
  {
    CopyReadsBack(cs.secret.value);
    assert "token" in d.Data() || "username" in d.Data();
    CopyReadsBack(ds.secret.value);
  }

  /**
   * In every run, however stale what the passes saw and whoever else writes the Secret, two sinks that name the copy at one
   * version are for the same credentials. So new credentials always have a new version, which starts new pods.
   */
  lemma SameVersionSameCredentials(
    states: seq<Store<Secret>>, steps: seq<Step>, i: nat, j: nat, version: nat, c: Credentials, d: Credentials)
    requires Run(states, steps) && i < |steps| && j < |steps|
    requires Names(states, steps, i, version, c) && Names(states, steps, j, version, d)
    ensures c == d
  {
    var a := NamedVersionHeldTheCredentials(states, steps, i, version, c);
    var b := NamedVersionHeldTheCredentials(states, steps, j, version, d);
    RunIsHistory(states, steps);
    if a <= b {
      VersionNamesContent(states, a, b);
    } else {
      VersionNamesContent(states, b, a);
    }
    DataTellsApart(c, d, steps[i].setting, steps[j].setting);
  }

  // ----- a Secret that is someone else's

  /**
   * A Secret of the copy's name that Geass did not make is not always left alone. A pass changes it exactly when it asks
   * for credentials and its write goes through, which makes the Secret Geass's own, or when it removes the copy, saw a
   * Secret of Geass's before this one, and its delete goes through.
   */
  lemma ForeignSecretIsTakenOver(store: Store<Secret>, setting: Setting, sight: Sight, fate: PassFate)
    requires store.Valid() && store.current.Some? && !store.current.value.value.managed
    ensures
      var (after, _) := Pass(store, setting, sight, fate);
      var ask := Asks(setting);
      after != store <==>
      && ask.Some? && sight.Saw? && sight.copy.Some?
      && if ask.value.Kind() == AuthNone then sight.copy.value.value.managed && !fate.delete.Refused?
         else !fate.namespaceFails && !fate.write.Refused?
              && sight.copy.value.version == store.current.value.version && sight.copy.value.value != Wanted(sight.copy, ask.value)
  {
  }
}
