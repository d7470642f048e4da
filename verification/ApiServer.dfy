/**
 * One object in the Kubernetes API server, and the writes clients make to it. A create fails when the object
 * exists. An update carries the version its copy was read at and fails when the object has moved on. Revisions
 * only grow, so a version names one content for ever.
 */
module ApiServer {
  import opened Wrappers

  datatype ApiError = NotFound | AlreadyExists | Conflict | Forbidden | Unavailable

  /** What becomes of a request on its way: carried out and answered, refused, or carried out with the answer lost. */
  datatype Fate = Delivered | Refused(error: ApiError) | ReplyLost

  datatype Versioned<+T> = Versioned(version: nat, value: T)

  datatype Store<+T> = Store(current: Option<Versioned<T>>, revision: nat) {

    predicate Valid()
    {
      current.Some? ==> current.value.version <= revision
    }

    function Put(value: T): (s: Store<T>)
      ensures s.Valid()
    {
      Store(Some(Versioned(revision + 1, value)), revision + 1)
    }

    function Remove(): Store<T>
    {
      Store(None, revision)
    }

    /** The state and the client's answer, given what the server makes of the request and what becomes of it. */
    function Answer(accepted: bool, after: Store<T>, error: ApiError, fate: Fate): (r: (Store<T>, Option<ApiError>))
      ensures r.1.None? ==> accepted && r.0 == after
      ensures r.0 == after || r.0 == this
    {
      match fate
      case Delivered => if accepted then (after, None) else (this, Some(error))
      case Refused(e) => (this, Some(e))
      case ReplyLost => (if accepted then after else this, Some(Unavailable))
    }

    function Create(value: T, fate: Fate): (Store<T>, Option<ApiError>)
    {
      Answer(current.None?, Put(value), AlreadyExists, fate)
    }

    function Update(version: nat, value: T, fate: Fate): (Store<T>, Option<ApiError>)
    {
      if current.None? then Answer(false, this, NotFound, fate)
      else Answer(current.value.version == version, Put(value), Conflict, fate)
    }

    function Delete(fate: Fate): (Store<T>, Option<ApiError>)
    {
      Answer(current.Some?, Remove(), NotFound, fate)
    }
  }

  /** The object, as a client holds it by reference. */
  class Api<T> {
    var store: Store<T>

    constructor (initial: Store<T>)
      ensures store == initial
    {
      store := initial;
    }

    method Create(value: T, fate: Fate) returns (error: Option<ApiError>)
      modifies this
      ensures (store, error) == old(store).Create(value, fate)
    {
      var (after, answer) := store.Create(value, fate);
      store, error := after, answer;
    }

    method Update(version: nat, value: T, fate: Fate) returns (error: Option<ApiError>)
      modifies this
      ensures (store, error) == old(store).Update(version, value, fate)
    {
      var (after, answer) := store.Update(version, value, fate);
      store, error := after, answer;
    }

    method Delete(fate: Fate) returns (error: Option<ApiError>)
      modifies this
      ensures (store, error) == old(store).Delete(fate)
    {
      var (after, answer) := store.Delete(fate);
      store, error := after, answer;
    }
  }

  /** One step of the server by any client at all: nothing, a write at a new revision, or a removal. */
  ghost predicate Evolves<T(!new)>(before: Store<T>, after: Store<T>)
  {
    && after.Valid()
    && before.revision <= after.revision
    && (after.current == before.current || after.current.None? || after.current.value.version > before.revision)
  }

  ghost predicate History<T(!new)>(states: seq<Store<T>>)
  {
    && (forall i :: 0 <= i < |states| ==> states[i].Valid())
    && (forall i :: 0 < i < |states| ==> Evolves(states[i - 1], states[i]))
  }

  lemma HistoryGrows<T(!new)>(states: seq<Store<T>>, next: Store<T>)
    requires History(states) && states != [] && Evolves(states[|states| - 1], next)
    ensures History(states + [next])
  {
    var longer := states + [next];
    forall i | 0 < i < |longer| ensures Evolves(longer[i - 1], longer[i]) {
      if i < |states| {
        assert Evolves(states[i - 1], states[i]);
      }
    }
  }

  lemma {:induction false} LaterIsNewer<T(!new)>(states: seq<Store<T>>, i: nat, j: nat)
    requires History(states) && i <= j < |states|
    ensures states[i].revision <= states[j].revision
    ensures states[j].current.Some? && states[j].current != states[i].current
            ==> states[j].current.value.version > states[i].revision
    decreases j
  {
    if i < j {
      LaterIsNewer(states, i, j - 1);
      assert Evolves(states[j - 1], states[j]);
    }
  }

  /** A copy and the object that carry the same version are the same, however long ago the copy was read. */
  lemma VersionNamesContent<T(!new)>(states: seq<Store<T>>, i: nat, j: nat)
    requires History(states) && i <= j < |states|
    requires states[i].current.Some? && states[j].current.Some?
    requires states[i].current.value.version == states[j].current.value.version
    ensures states[i].current == states[j].current
  {
    LaterIsNewer(states, i, j);
  }
}
