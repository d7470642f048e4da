/**
 * Copies of the cluster's own state in a bucket (internal/controller/etcd_snapshots.go): the Secret K3s reads where to
 * send them from, when to look in the bucket, and what the status says was seen there. Instants are in nanoseconds.
 */
module EtcdSnapshots {
  import opened Wrappers
  import opened ApiServer
  import opened Text

  const SECOND := 1_000_000_000
  const MINUTE := 60 * SECOND
  const HOUR := 60 * MINUTE

  const SECRET_TYPE := "etcd.k3s.cattle.io/s3-config-secret"
  const DEFAULT_FOLDER := "geass"
  const RETRY_FAST := MINUTE
  const RETRY_WAITING := 5 * MINUTE
  const RETRY_FIRST_COPY := MINUTE
  const FIRST_COPY_SOON := 15 * MINUTE
  const MIN_INTERVAL := 2 * MINUTE
  const RECHECK := 15 * MINUTE
  const FIRST_COPY_WITHIN := 13 * HOUR
  const STALE_AFTER := 25 * HOUR
  const MAX_COPIES_COUNTED := 0x4000_0000

  datatype Spec = Spec(bucket: string, endpoint: string, region: string, folder: string, insecure: bool) {

    function Folder(): string
    {
      var trimmed := Trim(TrimSpace(folder), '/');
      if trimmed != "" then trimmed else DEFAULT_FOLDER
    }
  }

  /** The text that is hashed to tell one destination from another. The key is not in it. */
  function DestinationText(spec: Spec): string
  {
    spec.bucket + "|" + (TrimSpace(spec.endpoint) + "|" + (spec.region + "|" + (spec.Folder() + "|" +
    if spec.insecure then "true" else "false")))
  }

  /** The keys of the Secret: the names of K3s's flags for an S3 destination, and any other that someone may have put there. */
  datatype Flag =
    | EtcdS3Bucket
    | EtcdS3Folder
    | EtcdS3AccessKey
    | EtcdS3SecretKey
    | EtcdS3Endpoint
    | EtcdS3Region
    | EtcdS3Insecure
    | Unknown(name: string)

  type Data = map<Flag, string>

  function DataOf(bucket: string, folder: string, accessKey: string, secretKey: string, endpoint: string, region: string, insecure: bool): Data
  {
    map[EtcdS3Bucket := bucket, EtcdS3Folder := folder, EtcdS3AccessKey := accessKey, EtcdS3SecretKey := secretKey]
    + (if endpoint != "" then map[EtcdS3Endpoint := endpoint] else map[])
    + (if region != "" then map[EtcdS3Region := region] else map[])
    + (if insecure then map[EtcdS3Insecure := "true"] else map[])
  }

  function SecretData(spec: Spec, accessKey: string, secretKey: string): Data
  {
    DataOf(spec.bucket, spec.Folder(), accessKey, secretKey, TrimSpace(spec.endpoint), TrimSpace(spec.region), spec.insecure)
  }

  /** The annotation that says since when: RFC 3339, so whole seconds, or text that does not parse. */
  datatype Since = Stamp(seconds: int) | Garbled

  datatype Secret = Secret(kind: string, managed: bool, config: string, since: Since, data: Data)

  function Seconds(instant: int): int
  {
    instant / SECOND
  }

  // ----- the Secret

  /** What became of the requests of one pass about the Secret. */
  datatype SecretFate = SecretFate(readFails: bool, delete: Fate, write: Fate)

  /** A copy of the Secret, as a read from the cache gives it: perhaps an older one than is there. */
  type Copied = Option<Versioned<Secret>>

  /** Whether the Secret is of the type K3s reads, for a destination, set since an instant that can be read. */
  predicate Carries(secret: Copied, destination: string)
  {
    && secret.Some?
    && secret.value.value.kind == SECRET_TYPE
    && secret.value.value.config == destination
    && secret.value.value.since.Stamp?
  }

  datatype Ensured = Failed | Settings(since: int, changed: bool)

  /** ensureEtcdSnapshotsSecret. It decides on what it saw; the delete it may make names no version, and the update does. */
  function EnsureSecret(store: Store<Secret>, saw: Copied, destination: string, desired: Data, now: int, fate: SecretFate)
    : (Store<Secret>, Ensured)
  {
    if fate.readFails then (store, Failed) else
    var otherType := saw.Some? && saw.value.value.kind != SECRET_TYPE;
    var (cleared, deleteError) := if otherType then store.Delete(fate.delete) else (store, None);
    if deleteError.Some? && deleteError.value != NotFound then (cleared, Failed) else
    var found := saw.Some? && !otherType;
    var sameDestination := found && saw.value.value.config == destination;
    var since := if sameDestination && saw.value.value.since.Stamp? then saw.value.value.since.seconds * SECOND else now;
    if sameDestination && saw.value.value.data == desired then (cleared, Settings(since, false)) else
    var secret := Secret(SECRET_TYPE, true, destination, Stamp(Seconds(since)), desired);
    var (after, error) := if found then cleared.Update(saw.value.version, secret, fate.write) else cleared.Create(secret, fate.write);
    (after, if error.Some? then Failed else Settings(since, true))
  }

  method EnsureEtcdSnapshotsSecret(api: Api<Secret>, saw: Copied, destination: string, desired: Data, now: int, fate: SecretFate)
    returns (ensured: Ensured)
    modifies api
    ensures (api.store, ensured) == EnsureSecret(old(api.store), saw, destination, desired, now, fate)
  {
    if fate.readFails {
      return Failed;
    }
    var found := saw.Some?;
    if found && saw.value.value.kind != SECRET_TYPE {
      var error := api.Delete(fate.delete);
      if error.Some? && error.value != NotFound {
        return Failed;
      }
      found := false;
    }
    var since := now;
    if found && saw.value.value.config == destination {
      if saw.value.value.since.Stamp? {
        since := saw.value.value.since.seconds * SECOND;
      }
      if saw.value.value.data == desired {
        return Settings(since, false);
      }
    }
    var secret := Secret(SECRET_TYPE, true, destination, Stamp(Seconds(since)), desired);
    var error: Option<ApiError>;
    if found {
      error := api.Update(saw.value.version, secret, fate.write);
    } else {
      error := api.Create(secret, fate.write);
    }
    if error.Some? {
      return Failed;
    }
    return Settings(since, true);
  }

  /** removeEtcdSnapshotsSecret: the store, and whether it worked. The delete names no version. */
  function RemoveSecret(store: Store<Secret>, saw: Copied, fate: SecretFate): (Store<Secret>, bool)
  {
    if fate.readFails then (store, false)
    else if saw.None? || !saw.value.value.managed then (store, true)
    else
      var (after, error) := store.Delete(fate.delete);
      (after, error.None? || error.value == NotFound)
  }

  method RemoveEtcdSnapshotsSecret(api: Api<Secret>, saw: Copied, fate: SecretFate) returns (ok: bool)
    modifies api
    ensures (api.store, ok) == RemoveSecret(old(api.store), saw, fate)
  {
    if fate.readFails {
      return false;
    }
    if saw.None? || !saw.value.value.managed {
      return true;
    }
    var error := api.Delete(fate.delete);
    return error.None? || error.value == NotFound;
  }

  // ----- what the bucket holds

  datatype Copy = Copy(name: string, writtenAt: int)

  /** The most recent copy, the first of those written at the same instant. */
  function Newest(copies: seq<Copy>): (newest: Copy)
    requires copies != []
    ensures newest in copies && forall c :: c in copies ==> c.writtenAt <= newest.writtenAt
  {
    if |copies| == 1 then copies[0]
    else
      var newest := Newest(copies[..|copies| - 1]);
      var last := copies[|copies| - 1];
      assert copies == copies[..|copies| - 1] + [last];
      if last.writtenAt > newest.writtenAt then last else newest
  }

  datatype Reason = CopyCurrent | WaitingForFirstCopy | NoCopyArrived | CopyStale | BucketUnreadable | CredentialsMissing | SettingsNotWritten

  function Assess(copies: seq<Copy>, now: int, since: int): Reason
  {
    if copies == [] then
      if now - since < FIRST_COPY_WITHIN then WaitingForFirstCopy else NoCopyArrived
    else if now - Newest(copies).writtenAt > STALE_AFTER then CopyStale else CopyCurrent
  }

  // ----- the status

  datatype LastCopy = LastCopy(seconds: int, name: string, copies: int)

  /** status.etcdSnapshots. Times in it are kept to the second, as the API stores them. */
  datatype Status = Status(checkedAt: Option<int>, lastCopy: Option<LastCopy>)

  function Min(a: int, b: int): int
  {
    if a < b then a else b
  }

  /** What a look that found copies is recorded as. */
  function Seen(copies: seq<Copy>): Option<LastCopy>
  {
    if copies == [] then None
    else Some(LastCopy(Seconds(Newest(copies).writtenAt), Newest(copies).name, Min(|copies|, MAX_COPIES_COUNTED)))
  }

  // ----- one pass

  /** The Secret, and of the cluster's status what was seen and why. */
  datatype World = World(secret: Store<Secret>, status: Option<Status>, reason: Option<Reason>)

  /** What a pass saw of them, from the cache: the Secret, and the cluster it was given. */
  datatype Sight = Sight(secret: Copied, status: Option<Status>, reason: Option<Reason>)

  function Fresh(w: World): Sight
  {
    Sight(w.secret.current, w.status, w.reason)
  }

  datatype Keys = Unread | Keys(accessKey: string, secretKey: string)

  /** When a pass read the clock: for the Secret, for the wait, for the look, for the status, and for its answer. */
  datatype Clock = Clock(secret: int, wait: int, look: int, record: int, answer: int)

  /**
   * What becomes of the status write. It is made on the cluster as it is, since a refused version is read again. None is
   * sent when the copy it begins from already says what would be written.
   */
  datatype StatusFate = Lands | Fails | NotSent

  /** secretAt and clusterAt are the moments of a run at which what the pass saw was so. */
  datatype Input = Input(
    spec: Option<Spec>, destination: string, keys: Keys, clock: Clock, fate: SecretFate,
    listing: Option<seq<Copy>>, status: StatusFate, secretAt: nat, clusterAt: nat)

  datatype Answer = Answer(wait: int, looked: bool)

  function Record(w: World, reason: Reason, seen: Option<LastCopy>, now: int, fate: StatusFate): World
  {
    if !fate.Lands? then w
    else
      var kept := if seen.None? && w.status.Some? then w.status.value.lastCopy else seen;
      w.(status := Some(Status(Some(Seconds(now)), kept)), reason := Some(reason))
  }

  function WaitingInterval(since: int, now: int): int
  {
    if now - since < FIRST_COPY_SOON then RETRY_FIRST_COPY else RETRY_WAITING
  }

  function LookInterval(reason: Option<Reason>, since: int, now: int): int
  {
    match reason
    case Some(CopyCurrent) => RECHECK
    case Some(WaitingForFirstCopy) => WaitingInterval(since, now)
    case Some(NoCopyArrived) => RETRY_WAITING
    case Some(CopyStale) => RETRY_WAITING
    case _ => MIN_INTERVAL
  }

  /** How much of the wait that the look it knows of asked for is left to a pass, or nothing when there is no such wait. */
  function RestOfWait(sight: Sight, since: int, changed: bool, now: int): int
  {
    if changed || sight.status.None? || sight.status.value.checkedAt.None? then 0
    else LookInterval(sight.reason, since, now) - (now - sight.status.value.checkedAt.value * SECOND)
  }

  function Look(w: World, input: Input, since: int): (World, Answer)
  {
    match input.listing
    case None => (Record(w, BucketUnreadable, None, input.clock.record, input.status), Answer(RETRY_FAST, true))
    case Some(copies) =>
      var reason := Assess(copies, input.clock.look, since);
      (Record(w, reason, Seen(copies), input.clock.record, input.status),
       Answer(match reason
              case WaitingForFirstCopy => WaitingInterval(since, input.clock.answer)
              case NoCopyArrived => RETRY_WAITING
              case CopyStale => RETRY_WAITING
              case _ => RECHECK, true))
  }

  function DesiredData(input: Input): Data
    requires input.spec.Some? && input.keys.Keys?
  {
    SecretData(input.spec.value, input.keys.accessKey, input.keys.secretKey)
  }

  function EnsuredBy(w: World, sight: Sight, input: Input): (Store<Secret>, Ensured)
    requires input.spec.Some? && input.keys.Keys?
  {
    EnsureSecret(w.secret, sight.secret, input.destination, DesiredData(input), input.clock.secret, input.fate)
  }

  predicate HasKeys(input: Input)
  {
    input.keys.Keys? && input.keys.accessKey != "" && input.keys.secretKey != ""
  }

  /** One pass of reconcileEtcdSnapshots. */
  function Pass(w: World, sight: Sight, input: Input): (World, Answer)
  {
    if input.spec.None? then
      var (secret, removed) := RemoveSecret(w.secret, sight.secret, input.fate);
      if !removed || input.status.Fails? then (w.(secret := secret), Answer(RETRY_FAST, false))
      else if input.status.NotSent? then (w.(secret := secret), Answer(0, false))
      else (World(secret, None, None), Answer(0, false))
    else if input.keys.Unread? then (w, Answer(RETRY_FAST, false))
    else if !HasKeys(input) then
      (Record(w, CredentialsMissing, None, input.clock.record, input.status), Answer(RETRY_FAST, false))
    else
      var (secret, ensured) := EnsuredBy(w, sight, input);
      var w1 := w.(secret := secret);
      if ensured.Failed? then (Record(w1, SettingsNotWritten, None, input.clock.record, input.status), Answer(RETRY_FAST, false))
      else
        var rest := RestOfWait(sight, ensured.since, ensured.changed, input.clock.wait);
        if rest > 0 then (w1, Answer(rest, false)) else Look(w1, input, ensured.since)
  }

  /** The reconciler's part of the cluster, changed in place. */
  class Reconciler {
    const api: Api<Secret>
    var status: Option<Status>
    var reason: Option<Reason>

    ghost function State(): World
      reads this, api
    {
      World(api.store, status, reason)
    }

    constructor (api: Api<Secret>, status: Option<Status>, reason: Option<Reason>)
      ensures this.api == api && State() == World(api.store, status, reason)
    {
      this.api := api;
      this.status := status;
      this.reason := reason;
    }

    /** setEtcdSnapshotsCondition with an assessment. */
    method SetCondition(assessed: Reason, seen: Option<LastCopy>, now: int, fate: StatusFate)
      modifies this
      ensures State() == Record(old(State()), assessed, seen, now, fate)
    {
      if !fate.Lands? {
        return;
      }
      var next := Status(Some(Seconds(now)), None);
      if status.Some? && seen.None? {
        next := next.(lastCopy := status.value.lastCopy);
      }
      if seen.Some? {
        next := next.(lastCopy := seen);
      }
      status, reason := Some(next), Some(assessed);
    }

    method ReconcileEtcdSnapshots(sight: Sight, input: Input) returns (answer: Answer)
      modifies this, api
      ensures (State(), answer) == Pass(old(State()), sight, input)
    {
      if input.spec.None? {
        var removed := RemoveEtcdSnapshotsSecret(api, sight.secret, input.fate);
        if !removed || input.status.Fails? {
          return Answer(RETRY_FAST, false);
        }
        if input.status.Lands? {
          status, reason := None, None;
        }
        return Answer(0, false);
      }
      if input.keys.Unread? {
        return Answer(RETRY_FAST, false);
      }
      if input.keys.accessKey == "" || input.keys.secretKey == "" {
        SetCondition(CredentialsMissing, None, input.clock.record, input.status);
        return Answer(RETRY_FAST, false);
      }
      var desired := SecretData(input.spec.value, input.keys.accessKey, input.keys.secretKey);
      var ensured := EnsureEtcdSnapshotsSecret(api, sight.secret, input.destination, desired, input.clock.secret, input.fate);
      if ensured.Failed? {
        SetCondition(SettingsNotWritten, None, input.clock.record, input.status);
        return Answer(RETRY_FAST, false);
      }
      if !ensured.changed && sight.status.Some? && sight.status.value.checkedAt.Some? {
        var rest := LookInterval(sight.reason, ensured.since, input.clock.wait) - (input.clock.wait - sight.status.value.checkedAt.value * SECOND);
        if rest > 0 {
          return Answer(rest, false);
        }
      }
      if input.listing.None? {
        SetCondition(BucketUnreadable, None, input.clock.record, input.status);
        return Answer(RETRY_FAST, true);
      }
      var assessed := Assess(input.listing.value, input.clock.look, ensured.since);
      SetCondition(assessed, Seen(input.listing.value), input.clock.record, input.status);
      match assessed {
        case WaitingForFirstCopy => return Answer(WaitingInterval(ensured.since, input.clock.answer), true);
        case NoCopyArrived => return Answer(RETRY_WAITING, true);
        case CopyStale => return Answer(RETRY_WAITING, true);
        case _ => return Answer(RECHECK, true);
      }
    }
  }

  // ----- runs

  /** What a pass saw: the Secret and the cluster as they were at moments of the run, each as old as may be. */
  function SightOf(worlds: seq<World>, input: Input): Sight
    requires input.secretAt < |worlds| && input.clusterAt < |worlds|
  {
    Sight(worlds[input.secretAt].secret.current, worlds[input.clusterAt].status, worlds[input.clusterAt].reason)
  }

  ghost predicate Run(worlds: seq<World>, inputs: seq<Input>)
  {
    && |worlds| == |inputs| + 1
    && worlds[0].secret.Valid()
    && forall i :: 0 <= i < |inputs| ==> Follows(worlds, inputs, i)
  }

  ghost predicate Follows(worlds: seq<World>, inputs: seq<Input>, i: nat)
    requires |worlds| == |inputs| + 1 && i < |inputs|
  {
    && inputs[i].secretAt <= i && inputs[i].clusterAt <= i
    && worlds[i + 1] == PassAt(worlds, inputs, i).0
  }

  ghost function PassAt(worlds: seq<World>, inputs: seq<Input>, i: nat): (World, Answer)
    requires |worlds| == |inputs| + 1 && i < |inputs| && inputs[i].secretAt <= i && inputs[i].clusterAt <= i
  {
    Pass(worlds[i], SightOf(worlds, inputs[i]), inputs[i])
  }

  ghost function Secrets(worlds: seq<World>): (stores: seq<Store<Secret>>)
    ensures |stores| == |worlds|
  {
    seq(|worlds|, i requires 0 <= i < |worlds| => worlds[i].secret)
  }

  lemma EnsureEvolves(store: Store<Secret>, saw: Copied, destination: string, desired: Data, now: int, fate: SecretFate)
    requires store.Valid()
    ensures Evolves(store, EnsureSecret(store, saw, destination, desired, now, fate).0)
  {
  }

  /** What a pass makes of the Secret. */
  function SecretAfter(w: World, sight: Sight, input: Input): Store<Secret>
  {
    if input.spec.None? then RemoveSecret(w.secret, sight.secret, input.fate).0
    else if HasKeys(input) then EnsuredBy(w, sight, input).0
    else w.secret
  }

  lemma PassSecret(w: World, sight: Sight, input: Input)
    ensures Pass(w, sight, input).0.secret == SecretAfter(w, sight, input)
  {
  }

  lemma SecretEvolves(w: World, sight: Sight, input: Input)
    requires w.secret.Valid()
    ensures Evolves(w.secret, SecretAfter(w, sight, input))
  {
    if input.spec.Some? && HasKeys(input) {
      EnsureEvolves(w.secret, sight.secret, input.destination, DesiredData(input), input.clock.secret, input.fate);
    }
  }

  lemma StepIsPass(worlds: seq<World>, inputs: seq<Input>, i: nat)
    requires Run(worlds, inputs) && i < |inputs|
    ensures inputs[i].secretAt <= i && inputs[i].clusterAt <= i
    ensures worlds[i + 1].secret == SecretAfter(worlds[i], SightOf(worlds, inputs[i]), inputs[i])
  {
    assert Follows(worlds, inputs, i);
    PassSecret(worlds[i], SightOf(worlds, inputs[i]), inputs[i]);
  }

  lemma StepEvolves(worlds: seq<World>, inputs: seq<Input>, i: nat)
    requires Run(worlds, inputs) && i < |inputs| && worlds[i].secret.Valid()
    ensures Evolves(worlds[i].secret, worlds[i + 1].secret)
  {
    StepIsPass(worlds, inputs, i);
    SecretEvolves(worlds[i], SightOf(worlds, inputs[i]), inputs[i]);
  }

  lemma {:induction false} RunIsHistory(worlds: seq<World>, inputs: seq<Input>, n: nat)
    requires Run(worlds, inputs) && n <= |inputs|
    ensures History(Secrets(worlds[..n + 1]))
    decreases n
  {
    if n > 0 {
      RunIsHistory(worlds, inputs, n - 1);
      var secrets := Secrets(worlds[..n]);
      assert secrets[n - 1].Valid();
      StepEvolves(worlds, inputs, n - 1);
      HistoryGrows(secrets, worlds[n].secret);
      assert Secrets(worlds[..n + 1]) == secrets + [worlds[n].secret];
    }
  }

  /** A copy that was seen at the version of the present Secret is the present Secret. */
  ghost predicate SameVersionSameSecret(store: Store<Secret>, saw: Copied)
  {
    saw.Some? && store.current.Some? && saw.value.version == store.current.value.version ==> saw == store.current
  }

  lemma SightsAgree(worlds: seq<World>, inputs: seq<Input>, i: nat)
    requires Run(worlds, inputs) && i < |inputs|
    ensures worlds[i].secret.Valid() && inputs[i].secretAt <= i && inputs[i].clusterAt <= i
    ensures SameVersionSameSecret(worlds[i].secret, SightOf(worlds, inputs[i]).secret)
  {
    RunIsHistory(worlds, inputs, i);
    StepIsPass(worlds, inputs, i);
    var secrets, k := Secrets(worlds[..i + 1]), inputs[i].secretAt;
    assert secrets[k] == worlds[k].secret && secrets[i] == worlds[i].secret;
    if secrets[k].current.Some? && secrets[i].current.Some? && secrets[k].current.value.version == secrets[i].current.value.version {
      VersionNamesContent(secrets, k, i);
    }
  }

  // ----- since when

  /** The instant reported is the one on the Secret the pass saw when that is this destination's, and the present otherwise. */
  lemma SinceIsKeptOrNow(store: Store<Secret>, saw: Copied, destination: string, desired: Data, now: int, fate: SecretFate)
    ensures
      var (after, ensured) := EnsureSecret(store, saw, destination, desired, now, fate);
      ensured.Settings? ==>
        ensured.since == if Carries(saw, destination) then saw.value.value.since.seconds * SECOND else now
  {
  }

  /** The delete of a pass that saw a Secret of another type is carried out. It names no version, so it takes whatever is there. */
  predicate Clears(saw: Copied, fate: SecretFate)
  {
    !fate.readFails && saw.Some? && saw.value.value.kind != SECRET_TYPE && !fate.delete.Refused?
  }

  /**
   * Whatever becomes of its requests, whatever the key is now and however old what it saw, a pass for the destination keeps
   * the instant, unless it saw a Secret of another type and its delete is carried out. Then the Secret is gone, or made
   * again since the present.
   */
  lemma EnsureKeepsSince(store: Store<Secret>, saw: Copied, destination: string, desired: Data, now: int, fate: SecretFate)
    requires Carries(store.current, destination) && SameVersionSameSecret(store, saw)
    ensures
      var after := EnsureSecret(store, saw, destination, desired, now, fate).0.current;
      if Clears(saw, fate) then after.None? || (Carries(after, destination) && after.value.value.since == Stamp(Seconds(now)))
      else Carries(after, destination) && after.value.value.since == store.current.value.value.since
  {
  }

  /** A pass of a run that takes the Secret away because it saw one of another type. */
  ghost predicate ClearsAt(worlds: seq<World>, inputs: seq<Input>, i: nat)
    requires Run(worlds, inputs) && i < |inputs| && inputs[i].secretAt <= i
  {
    HasKeys(inputs[i]) && Clears(worlds[inputs[i].secretAt].secret.current, inputs[i].fate)
  }

  lemma PassKeepsSince(w: World, sight: Sight, input: Input)
    requires input.spec.Some? && Carries(w.secret.current, input.destination) && SameVersionSameSecret(w.secret, sight.secret)
    requires !(HasKeys(input) && Clears(sight.secret, input.fate))
    ensures
      var after := SecretAfter(w, sight, input).current;
      Carries(after, input.destination) && after.value.value.since == w.secret.current.value.value.since
  {
    if HasKeys(input) {
      EnsureKeepsSince(w.secret, sight.secret, input.destination, DesiredData(input), input.clock.secret, input.fate);
    }
  }

  /** A pass for the destination that does not clear. */
  ghost predicate Spares(worlds: seq<World>, inputs: seq<Input>, destination: string, i: nat)
    requires Run(worlds, inputs) && i < |inputs|
  {
    inputs[i].spec.Some? && inputs[i].destination == destination && inputs[i].secretAt <= i && !ClearsAt(worlds, inputs, i)
  }

  /**
   * Through any number of key rotations, failures and passes that saw an older Secret, the instant the first copy is counted
   * from stays on the Secret while no pass clears it; and every pass that saw the Secret as it was at or after a moment
   * with that instant, and gets through, reports it.
   */
  lemma {:induction false} SinceSurvives(worlds: seq<World>, inputs: seq<Input>, destination: string, m: nat, n: nat)
    requires Run(worlds, inputs) && m <= n <= |inputs| && Carries(worlds[m].secret.current, destination)
    requires forall i :: m <= i < n ==> Spares(worlds, inputs, destination, i)
    ensures Carries(worlds[n].secret.current, destination)
    ensures worlds[n].secret.current.value.value.since == worlds[m].secret.current.value.value.since
    decreases n
  {
    if m < n {
      SinceSurvives(worlds, inputs, destination, m, n - 1);
      assert Spares(worlds, inputs, destination, n - 1);
      StepIsPass(worlds, inputs, n - 1);
      SightsAgree(worlds, inputs, n - 1);
      PassKeepsSince(worlds[n - 1], SightOf(worlds, inputs[n - 1]), inputs[n - 1]);
    }
  }

  lemma SinceIsReported(worlds: seq<World>, inputs: seq<Input>, destination: string, m: nat, n: nat)
    requires Run(worlds, inputs) && n < |inputs| && m <= inputs[n].secretAt <= n && inputs[n].clusterAt <= n
    requires Carries(worlds[m].secret.current, destination)
    requires forall i :: m <= i < n ==> Spares(worlds, inputs, destination, i)
    requires inputs[n].spec.Some? && inputs[n].destination == destination && HasKeys(inputs[n])
    ensures
      var ensured := EnsuredBy(worlds[n], SightOf(worlds, inputs[n]), inputs[n]).1;
      ensured.Settings? ==> ensured.since == worlds[m].secret.current.value.value.since.seconds * SECOND
  {
    SinceSurvives(worlds, inputs, destination, m, inputs[n].secretAt);
    SinceIsKeptOrNow(worlds[n].secret, worlds[inputs[n].secretAt].secret.current, destination, DesiredData(inputs[n]), inputs[n].clock.secret, inputs[n].fate);
  }

  /**
   * A stale sight that resets the instant: after a pass has replaced a Secret of another type, a second one that still sees
   * the old one takes the new one away and makes it again, since the present, and looks in the bucket at once.
   */
  lemma StaleSightResetsSince(w: World, first: Input, second: Input)
    requires w.secret.Valid() && w.secret.current.Some? && w.secret.current.value.value.kind != SECRET_TYPE
    requires first.spec.Some? && HasKeys(first) && first.fate == SecretFate(false, Delivered, Delivered)
    requires second.spec == first.spec && second.keys == first.keys && second.destination == first.destination && second.fate == first.fate
    ensures
      var w1 := Pass(w, Fresh(w), first).0;
      var w2 := Pass(w1, Fresh(w), second).0;
      && Carries(w1.secret.current, first.destination) && w1.secret.current.value.value.since == Stamp(Seconds(first.clock.secret))
      && Carries(w2.secret.current, first.destination) && w2.secret.current.value.value.since == Stamp(Seconds(second.clock.secret))
      && Pass(w1, Fresh(w), second).1.looked
  {
    EnsureReplaces(w.secret, w.secret.current, first.destination, DesiredData(first), first.clock.secret);
    var w1 := Pass(w, Fresh(w), first).0;
    EnsureReplaces(w1.secret, w.secret.current, first.destination, DesiredData(second), second.clock.secret);
  }

  lemma EnsureReplaces(store: Store<Secret>, saw: Copied, destination: string, desired: Data, now: int)
    requires store.current.Some? && saw.Some? && saw.value.value.kind != SECRET_TYPE
    ensures
      var (after, ensured) := EnsureSecret(store, saw, destination, desired, now, SecretFate(false, Delivered, Delivered));
      && ensured == Settings(now, true)
      && Carries(after.current, destination) && after.current.value.value.since == Stamp(Seconds(now))
  {
  }

  /**
   * The pass that sets a destination reports the present to the nanosecond, and the Secret keeps it to the second: every
   * later pass reports that second, which is the same instant if and only if the clock stood on it.
   */
  lemma FirstInstantIsCutToTheSecond(store: Store<Secret>, saw: Copied, destination: string, desired: Data, now: int, fate: SecretFate)
    requires !Carries(saw, destination)
    requires saw.Some? && saw.value.value.config == destination && saw.value.value.kind == SECRET_TYPE ==> saw.value.value.data != desired
    ensures
      var (after, ensured) := EnsureSecret(store, saw, destination, desired, now, fate);
      ensured.Settings? ==>
        && ensured.since == now && ensured.changed
        && Carries(after.current, destination) && after.current.value.value.since == Stamp(Seconds(now))
        && (Seconds(now) * SECOND == now <==> now % SECOND == 0)
        && now - SECOND < Seconds(now) * SECOND <= now
  {
  }

  // ----- withdrawing

  /**
   * A withdrawal that meets no error takes Geass's Secret away, leaves another's, and blanks the status, on what it saw. What
   * is there afterwards is right if and only if what it saw was right about it: Geass's Secret stays exactly when the pass
   * saw none or another's, another's goes exactly when the pass saw Geass's, and a status stays exactly when the copy it
   * would have been written to showed none.
   */
  lemma WithdrawnForgets(w: World, sight: Sight, input: Input)
    requires input.spec.None? && Pass(w, sight, input).1 == Answer(0, false) && input.fate.delete != Refused(NotFound)
    ensures
      var after, sawOurs := Pass(w, sight, input).0, sight.secret.Some? && sight.secret.value.value.managed;
      && after.secret.current == (if sawOurs then None else w.secret.current)
      && after.status == (if input.status.Lands? then None else w.status)
      && after.reason == (if input.status.Lands? then None else w.reason)
  {
  }

  /** With a fresh sight, then, exactly Geass's Secret is taken away. */
  lemma FreshWithdrawalTakesOnlyOurs(w: World, input: Input)
    requires input.spec.None? && Pass(w, Fresh(w), input).1 == Answer(0, false) && input.fate.delete != Refused(NotFound)
    ensures
      var after := Pass(w, Fresh(w), input).0.secret.current;
      after == if w.secret.current.Some? && w.secret.current.value.value.managed then None else w.secret.current
  {
    WithdrawnForgets(w, Fresh(w), input);
  }

  // ----- telling destinations apart

  predicate Lower(c: char) { 'a' <= c <= 'z' || '0' <= c <= '9' }
  predicate Letter(c: char) { Lower(c) || 'A' <= c <= 'Z' }

  /** The characters the API's patterns let each field hold. */
  predicate Admitted(spec: Spec)
  {
    && (forall c :: c in spec.bucket ==> Lower(c) || c == '.' || c == '-')
    && (forall c :: c in spec.endpoint ==> Letter(c) || c == '.' || c == '-' || c == ':')
    && (forall c :: c in spec.region ==> Lower(c) || c == '-')
    && (forall c :: c in spec.folder ==> Letter(c) || c == '.' || c == '_' || c == '/' || c == '-')
  }

  lemma AdmittedHoldsNoBar(spec: Spec)
    requires Admitted(spec)
    ensures Without(spec.bucket, '|') && Without(TrimSpace(spec.endpoint), '|') && Without(spec.region, '|') && Without(spec.Folder(), '|')
  {
  }

  /** Two specs the API admits name one destination exactly when the hash of their text is the same. */
  lemma DestinationsAreToldApart(hash: string -> string, a: Spec, b: Spec)
    requires forall x, y :: hash(x) == hash(y) ==> x == y
    requires Admitted(a) && Admitted(b)
    ensures hash(DestinationText(a)) == hash(DestinationText(b)) <==>
            SameDestinationFields(a, b)
  {
    if hash(DestinationText(a)) == hash(DestinationText(b)) {
      AdmittedHoldsNoBar(a);
      AdmittedHoldsNoBar(b);
      var insecureA, insecureB := if a.insecure then "true" else "false", if b.insecure then "true" else "false";
      var folderA, folderB := a.Folder() + "|" + insecureA, b.Folder() + "|" + insecureB;
      var regionA, regionB := a.region + "|" + folderA, b.region + "|" + folderB;
      var endpointA, endpointB := TrimSpace(a.endpoint) + "|" + regionA, TrimSpace(b.endpoint) + "|" + regionB;
      SplitAtSeparator(a.bucket, b.bucket, endpointA, endpointB, '|');
      SplitAtSeparator(TrimSpace(a.endpoint), TrimSpace(b.endpoint), regionA, regionB, '|');
      SplitAtSeparator(a.region, b.region, folderA, folderB, '|');
      SplitAtSeparator(a.Folder(), b.Folder(), insecureA, insecureB, '|');
      assert insecureA[0] == insecureB[0];
    }
  }

  /** Two specs name the same destination. */
  predicate SameDestinationFields(a: Spec, b: Spec)
  {
    && a.bucket == b.bucket && TrimSpace(a.endpoint) == TrimSpace(b.endpoint) && a.region == b.region
    && a.Folder() == b.Folder() && a.insecure == b.insecure
  }

  /** A pass whose destination is the hash of its spec's. */
  ghost predicate Hashed(hash: string -> string, input: Input)
  {
    input.spec.Some? && Admitted(input.spec.value) && input.destination == hash(DestinationText(input.spec.value))
  }

  /**
   * Over any run from a moment when the Secret carries a spec's destination, of passes for specs that the API admits: while
   * they name its destination and none clears the Secret, all that get through report one instant, and the first that names
   * another destination reports the present instead. This is of passes that saw the Secret no older than that moment.
   */
  lemma OneInstantForADestination(hash: string -> string, worlds: seq<World>, inputs: seq<Input>, spec: Spec, m: nat, n: nat)
    requires forall x, y :: hash(x) == hash(y) ==> x == y
    requires Run(worlds, inputs) && n < |inputs| && m <= inputs[n].secretAt <= n && inputs[n].clusterAt <= n
    requires Admitted(spec) && Carries(worlds[m].secret.current, hash(DestinationText(spec)))
    requires forall i :: m <= i <= n ==> inputs[i].spec.Some? && Hashed(hash, inputs[i])
    requires forall i :: m <= i < n ==> SameDestinationFields(inputs[i].spec.value, spec) && inputs[i].secretAt <= i && !ClearsAt(worlds, inputs, i)
    ensures
      var input := inputs[n];
      HasKeys(input) && EnsuredBy(worlds[n], SightOf(worlds, input), input).1.Settings? ==>
        EnsuredBy(worlds[n], SightOf(worlds, input), input).1.since ==
        if SameDestinationFields(input.spec.value, spec) then worlds[m].secret.current.value.value.since.seconds * SECOND
        else input.clock.secret
  {
    var destination, input := hash(DestinationText(spec)), inputs[n];
    forall i | m <= i < n ensures Spares(worlds, inputs, destination, i) {
      assert Hashed(hash, inputs[i]) && SameDestinationFields(inputs[i].spec.value, spec);
    }
    SinceSurvives(worlds, inputs, destination, m, input.secretAt);
    assert Hashed(hash, input);
    DestinationsAreToldApart(hash, input.spec.value, spec);
    if HasKeys(input) {
      SinceIsKeptOrNow(worlds[n].secret, worlds[input.secretAt].secret.current, input.destination, DesiredData(input), input.clock.secret, input.fate);
    }
  }

  // ----- what was seen

  ghost function LastCopyOf(w: World): Option<LastCopy>
  {
    if w.status.Some? then w.status.value.lastCopy else None
  }

  /** A look that found copies and got its status written. */
  ghost predicate Finds(answer: Answer, input: Input)
  {
    answer.looked && input.status.Lands? && input.listing.Some? && input.listing.value != []
  }

  /** What the looks up to a pass found last and got written, or what was there to begin with. */
  ghost function LastSeen(worlds: seq<World>, inputs: seq<Input>, n: nat): Option<LastCopy>
    requires Run(worlds, inputs) && n <= |inputs|
  {
    if n == 0 then LastCopyOf(worlds[0])
    else
      assert Follows(worlds, inputs, n - 1);
      if Finds(PassAt(worlds, inputs, n - 1).1, inputs[n - 1]) then Seen(inputs[n - 1].listing.value) else LastSeen(worlds, inputs, n - 1)
  }

  lemma OnlyALookReplacesLastCopy(w: World, sight: Sight, input: Input)
    requires input.spec.Some?
    ensures
      var (after, answer) := Pass(w, sight, input);
      LastCopyOf(after) == if Finds(answer, input) then Seen(input.listing.value) else LastCopyOf(w)
  {
  }

  /**
   * While the spec stays set, what the status says was last seen is what the last look that found a copy found. No failed
   * look, missing key, failed write or changed destination blanks it, and no pass that saw an older status.
   */
  lemma {:induction false} LastCopyIsWhatWasLastSeen(worlds: seq<World>, inputs: seq<Input>, n: nat)
    requires Run(worlds, inputs) && n <= |inputs|
    requires forall i :: 0 <= i < |inputs| ==> inputs[i].spec.Some?
    ensures LastCopyOf(worlds[n]) == LastSeen(worlds, inputs, n)
    ensures LastCopyOf(worlds[0]).Some? ==> LastCopyOf(worlds[n]).Some?
  {
    if n > 0 {
      LastCopyIsWhatWasLastSeen(worlds, inputs, n - 1);
      assert Follows(worlds, inputs, n - 1);
      OnlyALookReplacesLastCopy(worlds[n - 1], SightOf(worlds, inputs[n - 1]), inputs[n - 1]);
    }
  }

  // ----- when to look

  /**
   * A pass that gets through the Secret looks if and only if it wrote the settings, or the cluster it was given knows of no
   * look, or the wait that cluster knows of is over; otherwise it returns exactly the rest of that wait.
   */
  lemma LooksExactlyWhen(w: World, sight: Sight, input: Input)
    requires input.spec.Some? && HasKeys(input) && EnsuredBy(w, sight, input).1.Settings?
    ensures
      var ensured, answer := EnsuredBy(w, sight, input).1, Pass(w, sight, input).1;
      var rest := if sight.status.Some? && sight.status.value.checkedAt.Some?
                  then sight.status.value.checkedAt.value * SECOND + LookInterval(sight.reason, ensured.since, input.clock.wait) - input.clock.wait else 0;
      && (answer.looked <==> ensured.changed || rest <= 0)
      && (!answer.looked ==> answer.wait == rest)
  {
  }

  /**
   * So a pass that is given the cluster as it was before a look was recorded looks again at once: whatever cluster made one
   * pass look that changed no settings makes the next one look too, at that very instant.
   */
  lemma StaleStatusLooksAgain(w: World, sight: Sight, first: Input, second: Input)
    requires first.spec.Some? && HasKeys(first) && first.fate == SecretFate(false, Delivered, Delivered)
    requires Written(w.secret.current, first) && Carries(w.secret.current, first.destination) && sight.secret == w.secret.current
    requires Pass(w, sight, first).1.looked
    requires second.spec == first.spec && second.keys == first.keys && second.destination == first.destination && second.fate == first.fate
    requires second.clock.wait == first.clock.wait
    ensures
      var w1 := Pass(w, sight, first).0;
      Pass(w1, sight.(secret := w1.secret.current), second).1.looked
  {
    WrittenStays(w.secret, sight.secret, first);
    LooksExactlyWhen(w, sight, first);
    var w1 := Pass(w, sight, first).0;
    assert w1.secret == w.secret;
    WrittenStays(w1.secret, w1.secret.current, second);
    LooksExactlyWhen(w1, sight.(secret := w1.secret.current), second);
  }

  /** The settings are in place and will not be written again. */
  ghost predicate InPlace(w: World, input: Input)
    requires input.spec.Some? && HasKeys(input)
  {
    Written(w.secret.current, input) && w.secret.current.value.value.since.Stamp?
  }

  ghost function SinceOf(w: World): int
    requires w.secret.current.Some? && w.secret.current.value.value.since.Stamp?
  {
    w.secret.current.value.value.since.seconds * SECOND
  }

  /** What a look leaves: the settings in place, and a record of when it was made. */
  ghost predicate LookedAt(w: World, input: Input, checked: int)
    requires input.spec.Some? && HasKeys(input)
  {
    InPlace(w, input) && w.status.Some? && w.status.value.checkedAt == Some(checked)
  }

  /** A pass with the settings and keys of another and with requests that succeed. */
  ghost predicate Repeats(a: Input, b: Input)
  {
    && a.spec.Some? && HasKeys(a) && b.spec == a.spec && b.keys == a.keys && b.destination == a.destination
    && b.fate == SecretFate(false, Delivered, Delivered)
  }

  /** A pass that sees what a look left either finds the wait not over, changes nothing and returns exactly the rest of it, or looks. */
  lemma WakeUpAfterLook(w: World, looked: Input, input: Input, checked: int)
    requires Repeats(looked, input) && LookedAt(w, looked, checked)
    ensures
      var rest := checked * SECOND + LookInterval(w.reason, SinceOf(w), input.clock.wait) - input.clock.wait;
      && (rest > 0 ==> Pass(w, Fresh(w), input) == (w, Answer(rest, false)))
      && (rest <= 0 ==> Pass(w, Fresh(w), input).1.looked)
  {
    WrittenStays(w.secret, w.secret.current, input);
  }

  ghost predicate Looked(worlds: seq<World>, inputs: seq<Input>, i: nat)
    requires Run(worlds, inputs) && i < |inputs|
  {
    inputs[i].secretAt <= i && inputs[i].clusterAt <= i && PassAt(worlds, inputs, i).1.looked
  }

  /** A pass that repeats an earlier one and saw nothing older than what that one left. */
  ghost predicate WakesAfter(inputs: seq<Input>, i: nat, k: nat)
    requires i < |inputs| && k < |inputs|
  {
    Repeats(inputs[i], inputs[k]) && i < inputs[k].secretAt <= k && i < inputs[k].clusterAt <= k
  }

  /** Any number of early wake-ups after a look leave everything as the look left it, whichever of the states since they saw. */
  lemma {:induction false} EarlyWakeUpsChangeNothing(worlds: seq<World>, inputs: seq<Input>, i: nat, n: nat, checked: int)
    requires Run(worlds, inputs) && i < n <= |inputs| && inputs[i].spec.Some? && HasKeys(inputs[i]) && LookedAt(worlds[i + 1], inputs[i], checked)
    requires forall k :: i < k < n ==> WakesAfter(inputs, i, k) && !Looked(worlds, inputs, k)
    ensures forall k :: i < k <= n ==> worlds[k] == worlds[i + 1]
    decreases n
  {
    if i + 1 < n {
      EarlyWakeUpsChangeNothing(worlds, inputs, i, n - 1, checked);
      assert WakesAfter(inputs, i, n - 1) && !Looked(worlds, inputs, n - 1) && Follows(worlds, inputs, n - 1);
      assert SightOf(worlds, inputs[n - 1]) == Fresh(worlds[i + 1]);
      WakeUpAfterLook(worlds[n - 1], inputs[i], inputs[n - 1], checked);
    }
  }

  /**
   * With all requests landing, each wake-up after a look returns exactly the rest of the interval, counted from the second
   * the look was recorded at, and the next look is made exactly once that interval is over.
   */
  lemma WakeUpsReturnTheRest(worlds: seq<World>, inputs: seq<Input>, i: nat, j: nat, checked: int)
    requires Run(worlds, inputs) && i < j < |inputs| && inputs[i].spec.Some? && HasKeys(inputs[i]) && LookedAt(worlds[i + 1], inputs[i], checked)
    requires forall k :: i < k < j ==> WakesAfter(inputs, i, k) && !Looked(worlds, inputs, k)
    requires WakesAfter(inputs, i, j)
    ensures worlds[j] == worlds[i + 1]
    ensures
      var due := checked * SECOND + LookInterval(worlds[i + 1].reason, SinceOf(worlds[i + 1]), inputs[j].clock.wait);
      && (Looked(worlds, inputs, j) <==> due <= inputs[j].clock.wait)
      && (!Looked(worlds, inputs, j) ==> PassAt(worlds, inputs, j) == (worlds[j], Answer(due - inputs[j].clock.wait, false)))
  {
    EarlyWakeUpsChangeNothing(worlds, inputs, i, j, checked);
    assert SightOf(worlds, inputs[j]) == Fresh(worlds[i + 1]);
    WakeUpAfterLook(worlds[j], inputs[i], inputs[j], checked);
  }

  /** And that is what a look leaves whose status is written, unless text that is no time stands on the Secret. */
  lemma LookLeavesARecord(w: World, sight: Sight, input: Input)
    requires input.spec.Some? && HasKeys(input) && input.status.Lands? && Pass(w, sight, input).1.looked
    requires sight.secret == w.secret.current && (w.secret.current.Some? ==> w.secret.current.value.value.since.Stamp?)
    ensures LookedAt(Pass(w, sight, input).0, input, Seconds(input.clock.record))
  {
    LookIsRecorded(w, sight, input);
  }

  // ----- how far apart looks are

  /** Settings that are the same, with keys that are the same whenever both passes could read them and they are there. */
  ghost predicate SameSettings(a: Input, b: Input)
  {
    a.spec == b.spec && a.destination == b.destination && (HasKeys(a) && HasKeys(b) ==> a.keys == b.keys)
  }

  /** The Secret says what a pass would write. */
  ghost predicate Written(secret: Copied, input: Input)
    requires input.spec.Some? && HasKeys(input)
  {
    && secret.Some?
    && secret.value.value.kind == SECRET_TYPE && secret.value.value.config == input.destination
    && secret.value.value.data == DesiredData(input)
  }

  /** A look or something later was recorded at a second or after it. */
  ghost predicate CheckedFrom(status: Option<Status>, seconds: int)
  {
    status.Some? && status.value.checkedAt.Some? && status.value.checkedAt.value >= seconds
  }

  lemma LookIsRecorded(w: World, sight: Sight, input: Input)
    requires input.spec.Some? && HasKeys(input) && input.status.Lands? && Pass(w, sight, input).1.looked
    ensures sight.secret == w.secret.current ==> Written(Pass(w, sight, input).0.secret.current, input)
    ensures Pass(w, sight, input).0.status.Some? && Pass(w, sight, input).0.status.value.checkedAt == Some(Seconds(input.clock.record))
  {
  }

  /** No pass writes the settings that are there already, however old what it saw, unless it clears the Secret. */
  lemma WrittenStays(store: Store<Secret>, saw: Copied, input: Input)
    requires input.spec.Some? && HasKeys(input) && Written(store.current, input)
    requires SameVersionSameSecret(store, saw) && !Clears(saw, input.fate)
    ensures
      var (after, ensured) := EnsureSecret(store, saw, input.destination, DesiredData(input), input.clock.secret, input.fate);
      after == store && (ensured.Settings? ==> !ensured.changed)
  {
  }

  /**
   * Whatever fails and however old the Secret it saw, a pass with the same settings that does not clear leaves the settings in
   * place and never takes the record back, and it looks only a minute after the record that the cluster it was given shows.
   */
  lemma PassKeepsRecord(w: World, sight: Sight, input: Input, looked: Input)
    requires input.spec.Some? && looked.spec.Some? && HasKeys(looked) && SameSettings(looked, input)
    requires looked.clock.record <= input.clock.record
    requires Written(w.secret.current, looked) && CheckedFrom(w.status, Seconds(looked.clock.record))
    requires SameVersionSameSecret(w.secret, sight.secret) && !(HasKeys(input) && Clears(sight.secret, input.fate))
    ensures
      var (after, answer) := Pass(w, sight, input);
      && Written(after.secret.current, looked) && CheckedFrom(after.status, Seconds(looked.clock.record))
      && (answer.looked && CheckedFrom(sight.status, Seconds(looked.clock.record)) ==>
            input.clock.wait >= Seconds(looked.clock.record) * SECOND + MINUTE)
  {
    assert Seconds(looked.clock.record) <= Seconds(input.clock.record);
    if HasKeys(input) {
      WrittenStays(w.secret, sight.secret, input);
    }
  }

  /** A pass with the settings of a look before it, at a later record, that does not clear. */
  ghost predicate StaysSteady(worlds: seq<World>, inputs: seq<Input>, i: nat, k: nat)
    requires Run(worlds, inputs) && i < |inputs| && k < |inputs|
  {
    && inputs[k].spec.Some? && SameSettings(inputs[i], inputs[k]) && inputs[i].clock.record <= inputs[k].clock.record
    && inputs[k].secretAt <= k && !ClearsAt(worlds, inputs, k)
  }

  /** A look whose status is written and that leaves the settings in place, as every look that saw the present Secret does. */
  ghost predicate RecordedLook(worlds: seq<World>, inputs: seq<Input>, i: nat)
    requires Run(worlds, inputs) && i < |inputs|
  {
    && Looked(worlds, inputs, i) && inputs[i].status.Lands?
    && inputs[i].spec.Some? && HasKeys(inputs[i]) && Written(worlds[i + 1].secret.current, inputs[i])
  }

  lemma {:induction false} RecordStays(worlds: seq<World>, inputs: seq<Input>, i: nat, n: nat)
    requires Run(worlds, inputs) && i < n <= |inputs| && RecordedLook(worlds, inputs, i)
    requires forall k :: i < k < n ==> StaysSteady(worlds, inputs, i, k)
    ensures Written(worlds[n].secret.current, inputs[i]) && CheckedFrom(worlds[n].status, Seconds(inputs[i].clock.record))
    decreases n
  {
    assert Follows(worlds, inputs, n - 1);
    if n == i + 1 {
      LookIsRecorded(worlds[i], SightOf(worlds, inputs[i]), inputs[i]);
    } else {
      RecordStays(worlds, inputs, i, n - 1);
      assert StaysSteady(worlds, inputs, i, n - 1);
      SightsAgree(worlds, inputs, n - 1);
      PassKeepsRecord(worlds[n - 1], SightOf(worlds, inputs[n - 1]), inputs[n - 1], inputs[i]);
    }
  }

  /**
   * With settings and keys still, two looks are a minute apart, but for the fraction of a second by which the record of the
   * first is cut, when the second was given the cluster as it was at any time after the first was recorded: whatever requests
   * fail between them, whatever keys go missing, whatever the status says since, and however old the Secrets that were seen,
   * as long as no pass clears the Secret.
   */
  lemma LooksAreSpaced(worlds: seq<World>, inputs: seq<Input>, i: nat, j: nat)
    requires Run(worlds, inputs) && i < j < |inputs| && RecordedLook(worlds, inputs, i) && Looked(worlds, inputs, j)
    requires forall k :: i < k <= j ==> StaysSteady(worlds, inputs, i, k)
    requires inputs[j].clusterAt > i
    ensures inputs[j].clock.wait - inputs[i].clock.record >= MINUTE - inputs[i].clock.record % SECOND
    ensures inputs[j].clock.wait - inputs[i].clock.record > MINUTE - SECOND
  {
    RecordStays(worlds, inputs, i, j);
    RecordStays(worlds, inputs, i, inputs[j].clusterAt);
    assert StaysSteady(worlds, inputs, i, j);
    SightsAgree(worlds, inputs, j);
    PassKeepsRecord(worlds[j], SightOf(worlds, inputs[j]), inputs[j], inputs[i]);
  }

  /** Whether a pass on what a look left looks when it reads the clock for the wait at an instant. */
  predicate LooksWhen(w: World, input: Input, at: int)
  {
    Pass(w, Fresh(w), input.(clock := input.clock.(wait := at))).1.looked
  }

  /**
   * After a look, every wake-up at which the next one is made is at least a minute after it if and only if it was recorded on
   * a whole second, or the wait is not for a first copy, or the destination is then fifteen minutes old.
   */
  lemma FullMinuteExactlyWhen(w: World, input: Input, record: int)
    requires Repeats(input, input) && LookedAt(w, input, Seconds(record))
    ensures (forall at :: LooksWhen(w, input, at) ==> at - record >= MINUTE) <==>
            || w.reason != Some(WaitingForFirstCopy)
            || record % SECOND == 0
            || Seconds(record) * SECOND + MINUTE - SinceOf(w) >= FIRST_COPY_SOON
  {
    forall at ensures LooksWhen(w, input, at) <==> Seconds(record) * SECOND + LookInterval(w.reason, SinceOf(w), at) <= at {
      WakeUpAfterLook(w, input, input.(clock := input.clock.(wait := at)), Seconds(record));
    }
    var early := Seconds(record) * SECOND + MINUTE;
    assert LooksWhen(w, input, early) <==> LookInterval(w.reason, SinceOf(w), early) <= MINUTE;
  }

  /** The interval of a look changes while it is waited for only from one minute to five, as the destination turns fifteen minutes old. */
  lemma IntervalLengthensOnce(reason: Option<Reason>, since: int, early: int, late: int)
    requires early <= late
    ensures
      var before, after := LookInterval(reason, since, early), LookInterval(reason, since, late);
      && MINUTE <= before
      && (before != after <==> reason == Some(WaitingForFirstCopy) && early - since < FIRST_COPY_SOON <= late - since)
      && (before != after ==> before == MINUTE && after == 5 * MINUTE)
  {
  }

  /**
   * The status keeps the second of a look, not its nanosecond, so the next look may come up to that fraction early: a look
   * recorded 0.9 seconds into a second can be followed by one 59.1 seconds later.
   */
  lemma NextLookMayComeAFractionEarly(w: World, input: Input, record: int)
    requires Repeats(input, input) && LookedAt(w, input, Seconds(record)) && w.reason == Some(WaitingForFirstCopy)
    requires input.clock.wait == Seconds(record) * SECOND + MINUTE && input.clock.wait - SinceOf(w) < FIRST_COPY_SOON
    ensures Pass(w, Fresh(w), input).1.looked
    ensures input.clock.wait - record == MINUTE - record % SECOND
  {
    WakeUpAfterLook(w, input, input, Seconds(record));
  }

  // ----- what K3s is told

  /** The settings as K3s reads them, each under the name of its flag: what the spec and the keys say, and nothing else. */
  ghost predicate Tells(data: Data, spec: Spec, accessKey: string, secretKey: string)
  {
    var inside := Trim(TrimSpace(spec.folder), '/');
    && Holds(data, EtcdS3Bucket, Some(spec.bucket))
    && Holds(data, EtcdS3Folder, Some(if inside == "" then "geass" else inside))
    && Holds(data, EtcdS3AccessKey, Some(accessKey))
    && Holds(data, EtcdS3SecretKey, Some(secretKey))
    && Holds(data, EtcdS3Endpoint, if AllSpace(spec.endpoint) then None else Some(TrimSpace(spec.endpoint)))
    && Holds(data, EtcdS3Region, if AllSpace(spec.region) then None else Some(TrimSpace(spec.region)))
    && Holds(data, EtcdS3Insecure, if spec.insecure then Some("true") else None)
    && forall name :: Holds(data, Unknown(name), None)
  }

  predicate Holds(data: Data, flag: Flag, value: Option<string>)
  {
    if flag in data then value == Some(data[flag]) else value == None
  }

  lemma DataHolds(bucket: string, folder: string, accessKey: string, secretKey: string, endpoint: string, region: string, insecure: bool)
    ensures
      var data := DataOf(bucket, folder, accessKey, secretKey, endpoint, region, insecure);
      && Holds(data, EtcdS3Bucket, Some(bucket)) && Holds(data, EtcdS3Folder, Some(folder))
      && Holds(data, EtcdS3AccessKey, Some(accessKey)) && Holds(data, EtcdS3SecretKey, Some(secretKey))
      && Holds(data, EtcdS3Endpoint, if endpoint == "" then None else Some(endpoint))
      && Holds(data, EtcdS3Region, if region == "" then None else Some(region))
      && Holds(data, EtcdS3Insecure, if insecure then Some("true") else None)
      && forall name :: Holds(data, Unknown(name), None)
  {
  }

  lemma DataTells(spec: Spec, accessKey: string, secretKey: string)
    ensures Tells(SecretData(spec, accessKey, secretKey), spec, accessKey, secretKey)
  {
    BlankTrims(spec.endpoint);
    BlankTrims(spec.region);
    DataHolds(spec.bucket, spec.Folder(), accessKey, secretKey, TrimSpace(spec.endpoint), TrimSpace(spec.region), spec.insecure);
  }

  lemma BlankTrims(s: string)
    ensures TrimSpace(s) == "" <==> AllSpace(s)
  {
    assert (forall c :: c in s ==> IsSpace(c)) <==> AllSpace(s);
  }

  lemma WrittenTells(secret: Copied, input: Input)
    requires input.spec.Some? && HasKeys(input) && Written(secret, input)
    ensures TellsK3s(secret, input)
  {
    DataTells(input.spec.value, input.keys.accessKey, input.keys.secretKey);
  }

  /** A Secret that K3s reads, made by Geass for a destination, with the settings. */
  ghost predicate TellsK3s(secret: Copied, input: Input)
    requires input.spec.Some? && HasKeys(input)
  {
    && secret.Some?
    && secret.value.value.kind == "etcd.k3s.cattle.io/s3-config-secret" && secret.value.value.config == input.destination
    && Tells(secret.value.value.data, input.spec.value, input.keys.accessKey, input.keys.secretKey)
  }

  /**
   * After a pass that saw the present Secret and got through it, the Secret tells K3s exactly what the spec and the keys say;
   * and one that wrote it marked it as Geass's.
   */
  lemma PassTellsK3s(w: World, sight: Sight, input: Input)
    requires input.spec.Some? && HasKeys(input) && sight.secret == w.secret.current && EnsuredBy(w, sight, input).1.Settings?
    ensures TellsK3s(Pass(w, sight, input).0.secret.current, input)
    ensures EnsuredBy(w, sight, input).1.changed ==> Pass(w, sight, input).0.secret.current.value.value.managed
  {
    PassSecret(w, sight, input);
    EnsuredIsWritten(w, sight, input);
    WrittenTells(SecretAfter(w, sight, input).current, input);
  }

  /** A pass with the settings of another, or without keys, that does not clear. */
  ghost predicate KeepsTelling(worlds: seq<World>, inputs: seq<Input>, i: nat, k: nat)
    requires Run(worlds, inputs) && i < |inputs| && k < |inputs|
  {
    inputs[k].spec.Some? && SameSettings(inputs[i], inputs[k]) && inputs[k].secretAt <= k && !ClearsAt(worlds, inputs, k)
  }

  /** Over any run the settings stay written, however old what the passes see and whatever fails, until they change or a pass clears. */
  lemma {:induction false} SettingsStayWritten(worlds: seq<World>, inputs: seq<Input>, i: nat, n: nat)
    requires Run(worlds, inputs) && i < n <= |inputs| && inputs[i].spec.Some? && HasKeys(inputs[i])
    requires Written(worlds[i + 1].secret.current, inputs[i])
    requires forall k :: i < k < n ==> KeepsTelling(worlds, inputs, i, k)
    ensures Written(worlds[n].secret.current, inputs[i])
    decreases n
  {
    if i + 1 < n {
      SettingsStayWritten(worlds, inputs, i, n - 1);
      assert KeepsTelling(worlds, inputs, i, n - 1);
      StepIsPass(worlds, inputs, n - 1);
      SightsAgree(worlds, inputs, n - 1);
      if HasKeys(inputs[n - 1]) {
        WrittenStays(worlds[n - 1].secret, SightOf(worlds, inputs[n - 1]).secret, inputs[n - 1]);
      }
    }
  }

  lemma EnsuredIsWritten(w: World, sight: Sight, input: Input)
    requires input.spec.Some? && HasKeys(input) && sight.secret == w.secret.current && EnsuredBy(w, sight, input).1.Settings?
    ensures Written(SecretAfter(w, sight, input).current, input)
  {
  }

  /** The whole life of the settings: from a pass of a run that saw the present Secret and got through, K3s is told exactly them. */
  lemma SettingsReachK3s(worlds: seq<World>, inputs: seq<Input>, i: nat, n: nat)
    requires Run(worlds, inputs) && i < n <= |inputs| && inputs[i].spec.Some? && HasKeys(inputs[i])
    requires inputs[i].secretAt <= i && inputs[i].clusterAt <= i && worlds[inputs[i].secretAt].secret.current == worlds[i].secret.current
    requires EnsuredBy(worlds[i], SightOf(worlds, inputs[i]), inputs[i]).1.Settings?
    requires forall k :: i < k < n ==> KeepsTelling(worlds, inputs, i, k)
    ensures TellsK3s(worlds[n].secret.current, inputs[i])
  {
    StepIsPass(worlds, inputs, i);
    EnsuredIsWritten(worlds[i], SightOf(worlds, inputs[i]), inputs[i]);
    SettingsStayWritten(worlds, inputs, i, n);
    WrittenTells(worlds[n].secret.current, inputs[i]);
  }

  // ----- what a look says

  /** Whether copies arrive: one of the last 25 hours is there; or one is there but older; or none, within 13 hours of the setting; or none. */
  lemma AssessedExactly(copies: seq<Copy>, now: int, since: int)
    ensures Assess(copies, now, since) == CopyCurrent <==> exists c :: c in copies && now - c.writtenAt <= 25 * HOUR
    ensures Assess(copies, now, since) == CopyStale <==> copies != [] && forall c :: c in copies ==> now - c.writtenAt > 25 * HOUR
    ensures Assess(copies, now, since) == WaitingForFirstCopy <==> copies == [] && now - since < 13 * HOUR
    ensures Assess(copies, now, since) == NoCopyArrived <==> copies == [] && now - since >= 13 * HOUR
  {
    if copies != [] {
      assert Newest(copies) in copies;
    }
  }

  /** What a look is recorded as having seen: the last copy written, by its second and its name, and how many there are. */
  lemma SeenExactly(copies: seq<Copy>)
    ensures Seen(copies).None? <==> copies == []
    ensures copies != [] ==>
              exists c :: c in copies && (forall d :: d in copies ==> d.writtenAt <= c.writtenAt)
                          && Seen(copies) == Some(LastCopy(c.writtenAt / SECOND, c.name, if |copies| < 0x4000_0000 then |copies| else 0x4000_0000))
  {
    if copies != [] {
      assert Newest(copies) in copies;
    }
  }

  /**
   * A look says what it found and how long to wait: fifteen minutes with a current copy, five without one, one while the first
   * is expected soon, and one when the bucket could not be read. The next pass waits just as long, but two minutes after a
   * bucket that could not be read.
   */
  lemma LookSays(w: World, sight: Sight, input: Input)
    requires input.spec.Some? && HasKeys(input) && EnsuredBy(w, sight, input).1.Settings? && Pass(w, sight, input).1.looked
    ensures
      var since := EnsuredBy(w, sight, input).1.since;
      var (after, answer) := Pass(w, sight, input);
      var said := if input.listing.None? then BucketUnreadable else Assess(input.listing.value, input.clock.look, since);
      var soon := input.clock.answer - since < 15 * MINUTE;
      && (input.status.Lands? ==> after.reason == Some(said) && after.status.Some? && after.status.value.checkedAt == Some(input.clock.record / SECOND))
      && answer.wait == (match said
                         case CopyCurrent => 15 * MINUTE
                         case WaitingForFirstCopy => if soon then MINUTE else 5 * MINUTE
                         case BucketUnreadable => MINUTE
                         case _ => 5 * MINUTE)
      && LookInterval(Some(said), since, input.clock.answer) == (if said.BucketUnreadable? then 2 * MINUTE else answer.wait)
  {
  }

  /** A pass that cannot look says why: the keys are missing, or the settings could not be written. It is tried again in a minute. */
  lemma FailuresAreSaid(w: World, sight: Sight, input: Input)
    requires input.spec.Some? && input.keys.Keys?
    ensures
      var (after, answer) := Pass(w, sight, input);
      && (input.keys.accessKey == "" || input.keys.secretKey == "" ==>
            answer == Answer(MINUTE, false) && after.secret == w.secret && (input.status.Lands? ==> after.reason == Some(CredentialsMissing)))
      && (HasKeys(input) && EnsuredBy(w, sight, input).1.Failed? ==>
            answer == Answer(MINUTE, false) && (input.status.Lands? ==> after.reason == Some(SettingsNotWritten)))
  {
  }
}
