/** The northbound client's own state: identity, generation and backoff
    (internal/north/client.go). */
module NorthClient {
  import opened Wrappers
  import opened Backoff
  import Codecs
  import N = Normalise
  import R = Reregister
  import StateFile

  datatype Code = InvalidArgument | Unauthenticated | PermissionDenied | OtherCode

  datatype RpcError = RpcError(code: Code, message: string)

  predicate IsAuthError(e: RpcError) {
    e.code.Unauthenticated? || e.code.PermissionDenied?
  }

  const REGISTRATION_TOKEN := "registration token"

  predicate IsRegistrationTokenError(e: RpcError) {
    e.code.InvalidArgument? && N.Contains(e.message, REGISTRATION_TOKEN)
  }

  function Kind(e: RpcError): Failing {
    if IsRegistrationTokenError(e) then BadToken else Transient
  }

  /** What the Register RPC comes back with. */
  datatype Reply = Refused(error: RpcError) | NoRunner | Issued(id: R.Identity)

  /** One registration attempt, its reply, the fate of its Save, and when it was over. */
  datatype Attempt = Attempt(reply: Reply, faults: StateFile.Faults, at: int)

  datatype Moment = Moment(generation: nat, gate: Gate, identity: R.Identity, disk: Option<R.Identity>,
                           file: Option<StateFile.File>)

  /** A Save with these faults gets its image into the state file. */
  predicate Saves(c: Codecs.Codec<StateFile.Format>, file: Option<StateFile.File>, url: string, id: R.Identity,
                  faults: StateFile.Faults)
  {
    && StateFile.Parse(c, file).Success? && StateFile.Merged(c, file, url, id).Some?
    && faults == StateFile.Faults(false, false, None, false, false, false)
  }

  class Client {
    const url: string
    const identities: StateFile.FileStore
    var runnerUuid: string
    var runnerToken: string
    var generation: nat
    var backoffNext: Option<int>
    var backoffWait: nat

    function Identity(): R.Identity
      reads this
    {
      R.Identity(runnerUuid, runnerToken)
    }

    function BackoffGate(): Gate
      reads this
    {
      Gate(backoffNext, backoffWait)
    }

    /** The entry of this client's URL on disk. */
    function OnDisk(): Option<R.Identity>
      reads identities.disk
    {
      var ids := StateFile.Identities(identities.codec, identities.disk.target);
      if url in ids then Some(ids[url]) else None
    }

    constructor Blank(url: string, identities: StateFile.FileStore)
      ensures this.url == url && this.identities == identities
      ensures Identity() == R.Identity("", "") && generation == 0 && BackoffGate() == OPEN
    {
      this.url, this.identities := url, identities;
      runnerUuid, runnerToken, generation, backoffNext, backoffWait := "", "", 0, None, 0;
    }

    method SetIdentity(id: R.Identity)
      modifies this`runnerUuid, this`runnerToken
      ensures Identity() == id
    {
      runnerUuid, runnerToken := id.uuid, id.token;
    }

    /** New: a state file that cannot be read or understood is fatal; a stored identity is
        restored and counts as generation 1. */
    static method New(url: string, identities: StateFile.FileStore, readFails: bool)
        returns (r: Result<Client, StateFile.Error>)
      ensures r.Failure? <==> readFails || StateFile.Parse(identities.codec, identities.disk.target).Failure?
      ensures r.Success? ==> fresh(r.value) && r.value.url == url && r.value.identities == identities
      ensures r.Success? ==> match r.value.OnDisk()
                             case None => r.value.Identity() == R.Identity("", "") && r.value.generation == 0
                             case Some(id) => r.value.Identity() == id && r.value.generation == 1
      ensures r.Success? ==> r.value.BackoffGate() == OPEN
    {
      var c := new Client.Blank(url, identities);
      var loaded := identities.Load(url, readFails);
      if loaded.Failure? { return Failure(loaded.error); }
      if loaded.value.Some? {
        c.SetIdentity(loaded.value.value);
        c.generation := 1;
      }
      return Success(c);
    }

    method ResetBackoff()
      modifies this`backoffNext, this`backoffWait
      ensures BackoffGate() == OPEN
    {
      backoffWait := 0;
      backoffNext := None;
    }

    /** Register.  Success leaves memory and disk in agreement on the issued identity, so New
        on the same file restores it; a failed Save leaves the issued identity in memory, the
        old one on disk, and neither generation nor backoff moved. */
    method Register(reply: Reply, faults: StateFile.Faults) returns (err: Option<RpcError>)
      requires Codecs.RoundTrips(identities.codec)
      modifies this, identities.disk
      ensures err.None? <==>
              reply.Issued? && Saves(identities.codec, old(identities.disk.target), url, reply.id, faults)
      ensures err.None? ==> Identity() == reply.id && OnDisk() == Some(reply.id)
      ensures err.None? ==> generation == old(generation) + 1 && BackoffGate() == OPEN
      ensures err.Some? ==> generation == old(generation) && BackoffGate() == old(BackoffGate())
      ensures err.Some? ==> identities.disk.target == old(identities.disk.target) && OnDisk() == old(OnDisk())
      ensures err.Some? ==> Identity() == if reply.Issued? then reply.id else old(Identity())
      ensures err.Some? && reply.Refused? ==> err.value == reply.error
      ensures err.Some? && !reply.Refused? ==> err.value.code.OtherCode?
    {
      if reply.Refused? { return Some(reply.error); }
      if reply.NoRunner? { return Some(RpcError(OtherCode, "register: response missing runner")); }
      SetIdentity(reply.id);
      var failed := identities.Save(url, reply.id, faults);
      if failed.Some? { return Some(RpcError(OtherCode, "register: persist identity")); }
      generation := generation + 1;
      ResetBackoff();
      return None;
    }

    method BackoffRemaining(now: int) returns (wait: nat)
      ensures wait == Remaining(BackoffGate(), now)
    {
      if backoffNext.None? { return 0; }
      if backoffNext.value - now > 0 { return backoffNext.value - now; }
      return 0;
    }

    method SetBackoff(wait: nat, now: int)
      modifies this`backoffNext, this`backoffWait
      ensures BackoffGate() == Armed(wait, now)
    {
      backoffWait := wait;
      backoffNext := Some(now + wait);
    }

    /** A bad registration token jumps to the ceiling, anything else doubles the wait. */
    method NoteRegisterFailure(e: RpcError, now: int)
      modifies this`backoffNext, this`backoffWait
      ensures BackoffGate() == Armed(NextWait(old(backoffWait), Kind(e)), now)
      ensures e.code.InvalidArgument? && N.Contains(e.message, "registration token") ==>
                backoffWait == 300 && backoffNext == Some(now + 300)
      ensures !e.code.InvalidArgument? || !N.Contains(e.message, "registration token") ==>
                && backoffWait == (if old(backoffWait) == 0 then 30
                                   else if old(backoffWait) <= 150 then 2 * old(backoffWait) else 300)
                && backoffNext == Some(now + backoffWait)
    {
      if IsRegistrationTokenError(e) {
        SetBackoff(MAX, now);
        return;
      }
      var wait := backoffWait;
      if wait == 0 {
        wait := BASE;
      } else {
        wait := wait * 2;
        if wait > MAX {
          wait := MAX;
        }
      }
      SetBackoff(wait, now);
    }

    /** The client as a thread finds it on taking the registration lock. */
    ghost function Snapshot(): Moment
      reads this, identities.disk
    {
      Moment(generation, BackoffGate(), Identity(), OnDisk(), identities.disk.target)
    }

    /** The registrations other RPCs have carried out under the lock, with their outcomes. */
    method Others(attempts: seq<Attempt>)
      requires Codecs.RoundTrips(identities.codec)
      modifies this, identities.disk
      ensures generation >= old(generation)
      ensures generation == old(generation) ==> OnDisk() == old(OnDisk())
      ensures generation > old(generation) ==>
              exists i :: 0 <= i < |attempts| && attempts[i].reply.Issued? && OnDisk() == Some(attempts[i].reply.id)
      ensures attempts == [] ==> Snapshot() == old(Snapshot())
    {
      var i := 0;
      while i < |attempts|
        invariant i <= |attempts| && generation >= old(generation)
        invariant generation == old(generation) ==> OnDisk() == old(OnDisk())
        invariant generation > old(generation) ==>
                  exists j :: 0 <= j < i && attempts[j].reply.Issued? && OnDisk() == Some(attempts[j].reply.id)
        invariant i == 0 ==> Snapshot() == old(Snapshot())
      {
        var failed := Register(attempts[i].reply, attempts[i].faults);
        if failed.Some? {
          NoteRegisterFailure(failed.value, attempts[i].at);
        }
        i := i + 1;
      }
    }

    /** retryOnAuth.  `meanwhile` are the registrations any number of other RPCs carry out
        between this one's rejection and its taking the lock; `first` and `second` are what its
        two tries come back with.  `found` is the client at the moment of taking the lock. */
    method RetryOnAuth(first: Option<RpcError>, meanwhile: seq<Attempt>, reply: Reply, faults: StateFile.Faults,
                       second: Option<RpcError>, now: int)
      returns (err: Option<RpcError>, asked: bool, ghost found: Moment)
      requires Codecs.RoundTrips(identities.codec)
      modifies this, identities.disk
      ensures found.generation >= old(generation)
              && (found.generation == old(generation) ==> found.disk == old(OnDisk()))
      ensures meanwhile == [] ==> found == old(Snapshot())
      ensures asked <==> first.Some? && (first.value.code.Unauthenticated? || first.value.code.PermissionDenied?)
                         && found.generation == old(generation)
                         && (found.gate.next.None? || found.gate.next.value <= now)
      ensures !(first.Some? && (first.value.code.Unauthenticated? || first.value.code.PermissionDenied?)) ==>
                err == first && Snapshot() == old(Snapshot())
      ensures first.Some? && (first.value.code.Unauthenticated? || first.value.code.PermissionDenied?) && !asked ==>
                Snapshot() == found && err == if found.generation != old(generation) then second else first
      ensures asked && reply.Issued? && Saves(identities.codec, found.file, url, reply.id, faults) ==>
                err == second && Identity() == reply.id && OnDisk() == Some(reply.id)
                && generation == found.generation + 1 && backoffNext == None && backoffWait == 0
      ensures asked && !(reply.Issued? && Saves(identities.codec, found.file, url, reply.id, faults)) ==>
                && err == first && generation == found.generation && OnDisk() == found.disk
                && Identity() == (if reply.Issued? then reply.id else found.identity)
                && backoffNext == Some(now + backoffWait)
      ensures asked && (reply.Refused? && reply.error.code.InvalidArgument?
                        && N.Contains(reply.error.message, "registration token")) ==>
                backoffWait == 300
      ensures asked && !(reply.Issued? && Saves(identities.codec, found.file, url, reply.id, faults))
              && !(reply.Refused? && reply.error.code.InvalidArgument?
                   && N.Contains(reply.error.message, "registration token")) ==>
                backoffWait == if found.gate.wait == 0 then 30
                               else if found.gate.wait <= 150 then 2 * found.gate.wait else 300
    {
      var gen := generation;
      found := Snapshot();
      if first.None? || !IsAuthError(first.value) { return first, false, found; }
      Others(meanwhile);
      found := Snapshot();
      if generation != gen { return second, false, found; }
      var wait := BackoffRemaining(now);
      if wait > 0 { return first, false, found; }
      var failed := Register(reply, faults);
      if failed.Some? {
        NoteRegisterFailure(failed.value, now);
        return first, true, found;
      }
      return second, true, found;
    }
  }
}
