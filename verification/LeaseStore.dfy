/**
 * The fenced-lease scripts of the shared control plane: admit, claim, renew, transition, retry.
 *
 * A script runs atomically on the keys of one resource, so its effect is a function of that
 * resource's hash, fence counter and event stream. `RedisControlPlane` keeps those for every
 * resource in maps and runs each script field by field.
 */
module LeaseStore {
  import opened Options

  /** `status` fields the repository uses; `Other` is any further string a caller passes. */
  datatype Status =
    | Queued | Running | Retrying
    | Succeeded | Partial | Failed | Cancelled | Completed
    | Pending
    | Other(name: string)

  /** The five statuses that stop a claim. */
  predicate SharedTerminal(s: Status) {
    s == Succeeded || s == Partial || s == Failed || s == Cancelled || s == Completed
  }

  function StatusText(s: Status): string {
    match s
    case Queued => "queued"
    case Running => "running"
    case Retrying => "retrying"
    case Succeeded => "succeeded"
    case Partial => "partial"
    case Failed => "failed"
    case Cancelled => "cancelled"
    case Completed => "completed"
    case Pending => "pending"
    case Other(name) => name
  }

  datatype EventType = Admitted | Started | Finished | RetryScheduled

  datatype Event = Event(eventType: EventType, status: Status, message: string)

  /** The run hash; fields a script has never written are None. */
  datatype RunHash = RunHash(
    requestHash: string,
    payload: string,
    status: Status,
    attempt: nat,
    owner: Option<string>,
    fencingToken: nat,
    leaseUntil: real,
    result: Option<string>,
    error: Option<string>,
    retryAt: Option<real>,
    createdAt: real,
    updatedAt: real)

  /** Everything the scripts keep for one resource key. */
  datatype Resource = Resource(hash: Option<RunHash>, fence: nat, events: seq<Event>)

  const NO_RESOURCE := Resource(None, 0, [])

  datatype LeaseToken = LeaseToken(owner: string, fencingToken: nat, expiresAt: real)

  datatype Op =
    | Admit(requestHash: string, payload: string, now: real)
    | Claim(owner: string, leaseSeconds: real, now: real)
    | Renew(lease: LeaseToken, leaseSeconds: real, now: real)
    | Transition(lease: LeaseToken, status: Status, result: string, now: real)
    | ScheduleRetry(lease: LeaseToken, retryAt: real, error: string, now: real)

  datatype Reply =
    | Created | Replay(status: Status) | Conflict
    | Missing | Terminal(terminal: Status) | Busy | Claimed(token: nat, expiry: real)
    | Renewed(expiry: real)
    | Done
    | Stale
    | InvalidLease   // the method refuses lease_seconds <= 0 before it calls the script

  const EVENT_MESSAGE_LIMIT := 2000

  function Truncated(s: string): string {
    if |s| <= EVENT_MESSAGE_LIMIT then s else s[..EVENT_MESSAGE_LIMIT]
  }

  predicate Holds(h: RunHash, lease: LeaseToken) {
    h.owner == Some(lease.owner) && h.fencingToken == lease.fencingToken && h.status == Running
  }

  function FreshHash(requestHash: string, payload: string, now: real): RunHash {
    RunHash(requestHash, payload, Queued, 0, None, 0, 0.0, None, None, None, now, now)
  }

  /** Effect and reply of one call on the resource it names. */
  function Apply(r: Resource, op: Op): (Resource, Reply) {
    match op
    case Admit(requestHash, payload, now) =>
      if r.hash.Some? then
        (r, if r.hash.value.requestHash != requestHash then Conflict else Replay(r.hash.value.status))
      else
        (r.(hash := Some(FreshHash(requestHash, payload, now)),
            events := r.events + [Event(Admitted, Queued, "admitted")]),
         Created)
    case Claim(owner, leaseSeconds, now) =>
      if leaseSeconds <= 0.0 then (r, InvalidLease)
      else if r.hash.None? then (r, Missing)
      else
        var h := r.hash.value;
        if SharedTerminal(h.status) then (r, Terminal(h.status))
        else if h.leaseUntil > now then (r, Busy)
        else
          var token := r.fence + 1;
          var expiry := now + leaseSeconds;
          (Resource(
             Some(h.(status := Running, owner := Some(owner), fencingToken := token,
                     leaseUntil := expiry, updatedAt := now, attempt := h.attempt + 1)),
             token,
             r.events + [Event(Started, Running, "lease acquired")]),
           Claimed(token, expiry))
    case Renew(lease, leaseSeconds, now) =>
      if leaseSeconds <= 0.0 then (r, InvalidLease)
      else if r.hash.None? || !Holds(r.hash.value, lease) then (r, Stale)
      else
        var expiry := now + leaseSeconds;
        (r.(hash := Some(r.hash.value.(leaseUntil := expiry, updatedAt := now))), Renewed(expiry))
    case Transition(lease, status, result, now) =>
      if r.hash.None? || !Holds(r.hash.value, lease) then (r, Stale)
      else
        (r.(hash := Some(r.hash.value.(status := status, result := Some(result), owner := Some(""),
                                       leaseUntil := 0.0, updatedAt := now)),
            events := r.events + [Event(Finished, status, StatusText(status))]),
         Done)
    case ScheduleRetry(lease, retryAt, error, now) =>
      if r.hash.None? || !Holds(r.hash.value, lease) then (r, Stale)
      else
        (r.(hash := Some(r.hash.value.(status := Retrying, error := Some(Truncated(error)),
                                       retryAt := Some(retryAt), owner := Some(""),
                                       leaseUntil := 0.0, updatedAt := now)),
            events := r.events + [Event(RetryScheduled, Retrying, Truncated(error))]),
         Done)
  }

  /** The Redis-backed store: one hash, one fence counter and one event stream per resource key. */
  class RedisControlPlane {
    var hashes: map<string, RunHash>
    var fences: map<string, nat>
    var events: map<string, seq<Event>>
    var queues: map<string, seq<string>>

    ghost function At(key: string): Resource
      reads this
    {
      Resource(
        if key in hashes then Some(hashes[key]) else None,
        if key in fences then fences[key] else 0,
        if key in events then events[key] else [])
    }

    constructor ()
      ensures forall key :: At(key) == NO_RESOURCE
      ensures queues == map[]
    {
      hashes, fences, events, queues := map[], map[], map[], map[];
    }

    method AddEvent(key: string, event: Event)
      modifies this`events
      ensures events == old(events)[key := old(At(key)).events + [event]]
    {
      var sofar := if key in events then events[key] else [];
      events := events[key := sofar + [event]];
    }

    method Admit(key: string, requestHash: string, payload: string, queue: string, now: real)
      returns (reply: Reply)
      modifies this
      ensures (At(key), reply) == Apply(old(At(key)), Op.Admit(requestHash, payload, now))
      ensures forall k :: k != key ==> At(k) == old(At(k))
      ensures reply.Created? ==>
        queues == old(queues)[queue := (if queue in old(queues) then old(queues)[queue] else []) + [key]]
      ensures !reply.Created? ==> queues == old(queues)
    {
      if key in hashes {
        if hashes[key].requestHash != requestHash { return Conflict; }
        return Replay(hashes[key].status);
      }
      hashes := hashes[key := FreshHash(requestHash, payload, now)];
      AddEvent(key, Event(Admitted, Queued, "admitted"));
      var waiting := if queue in queues then queues[queue] else [];
      queues := queues[queue := waiting + [key]];
      reply := Created;
    }

    method Claim(key: string, owner: string, leaseSeconds: real, now: real) returns (reply: Reply)
      modifies this`hashes, this`fences, this`events
      ensures (At(key), reply) == Apply(old(At(key)), Op.Claim(owner, leaseSeconds, now))
      ensures forall k :: k != key ==> At(k) == old(At(k))
    {
      if leaseSeconds <= 0.0 { return InvalidLease; }
      if key !in hashes { return Missing; }
      var h := hashes[key];
      if SharedTerminal(h.status) { return Terminal(h.status); }
      if h.leaseUntil > now { return Busy; }
      var fence := (if key in fences then fences[key] else 0) + 1;
      fences := fences[key := fence];
      var expiry := now + leaseSeconds;
      hashes := hashes[key := h.(status := Running, owner := Some(owner), fencingToken := fence,
                                 leaseUntil := expiry, updatedAt := now, attempt := h.attempt + 1)];
      AddEvent(key, Event(Started, Running, "lease acquired"));
      reply := Claimed(fence, expiry);
    }

    method Renew(key: string, lease: LeaseToken, leaseSeconds: real, now: real) returns (reply: Reply)
      modifies this`hashes
      ensures (At(key), reply) == Apply(old(At(key)), Op.Renew(lease, leaseSeconds, now))
      ensures forall k :: k != key ==> At(k) == old(At(k))
    {
      if leaseSeconds <= 0.0 { return InvalidLease; }
      if key !in hashes || !Holds(hashes[key], lease) { return Stale; }
      var expiry := now + leaseSeconds;
      hashes := hashes[key := hashes[key].(leaseUntil := expiry, updatedAt := now)];
      reply := Renewed(expiry);
    }

    method Transition(key: string, lease: LeaseToken, status: Status, result: string, now: real)
      returns (reply: Reply)
      modifies this`hashes, this`events
      ensures (At(key), reply) == Apply(old(At(key)), Op.Transition(lease, status, result, now))
      ensures forall k :: k != key ==> At(k) == old(At(k))
    {
      if key !in hashes || !Holds(hashes[key], lease) { return Stale; }
      var h := hashes[key];
      h := h.(status := status, result := Some(result));
      h := h.(owner := Some(""), leaseUntil := 0.0, updatedAt := now);
      hashes := hashes[key := h];
      AddEvent(key, Event(Finished, status, StatusText(status)));
      reply := Done;
    }

    method ScheduleRetry(key: string, lease: LeaseToken, retryAt: real, error: string, now: real)
      returns (reply: Reply)
      modifies this`hashes, this`events
      ensures (At(key), reply) == Apply(old(At(key)), Op.ScheduleRetry(lease, retryAt, error, now))
      ensures forall k :: k != key ==> At(k) == old(At(k))
    {
      if key !in hashes || !Holds(hashes[key], lease) { return Stale; }
      var h := hashes[key];
      h := h.(status := Retrying, error := Some(Truncated(error)), retryAt := Some(retryAt));
      h := h.(owner := Some(""), leaseUntil := 0.0, updatedAt := now);
      hashes := hashes[key := h];
      AddEvent(key, Event(RetryScheduled, Retrying, Truncated(error)));
      reply := Done;
    }
  }
}
