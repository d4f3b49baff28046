/**
 The pieces a connector's status passes on its way to the CSMS: the duplicate filter with its
 per-connector cache, the debounce, and the bounded offline queue (src/availability.rs,
 src/offline_queue.rs).
 */
module StatusNotifiers {
  import opened Options
  import opened Numbers

  datatype Status = Available | Occupied | Reserved | Unavailable | Faulted
  datatype Connector = Connector(evseId: nat, connectorId: nat)
  datatype Report = Report(connector: Connector, status: Status)

  type Cache = map<Connector, Status>

  /** The status of the last report about `c` in `log`, if there is one. */
  function Latest(log: seq<Report>, c: Connector): Option<Status> {
    if log == [] then None
    else if log[|log| - 1].connector == c then Some(log[|log| - 1].status)
    else Latest(log[..|log| - 1], c)
  }

  lemma {:induction false} LatestConcat(a: seq<Report>, b: seq<Report>, c: Connector)
    ensures Latest(a + b, c) == if Latest(b, c).Some? then Latest(b, c) else Latest(a, c)
  {
    if b == [] {
      assert a + b == a;
    } else {
      assert (a + b)[..|a + b| - 1] == a + b[..|b| - 1];
      LatestConcat(a, b[..|b| - 1], c);
    }
  }

  /** Dropping the first report of a log changes what is latest only for a connector that has no other. */
  lemma LatestTail(log: seq<Report>, c: Connector)
    requires log != []
    ensures Latest(log, c) == if Latest(log[1..], c).Some? then Latest(log[1..], c)
                              else if log[0].connector == c then Some(log[0].status) else None
  {
    assert log == [log[0]] + log[1..];
    LatestConcat([log[0]], log[1..], c);
    assert [log[0]][..0] == [];
  }

  lemma LatestSnoc(log: seq<Report>, r: Report, c: Connector)
    ensures Latest(log + [r], c) == if r.connector == c then Some(r.status) else Latest(log, c)
  {
  }

  /** The statuses `log` holds for `c`, in order. */
  function StatusesOf(log: seq<Report>, c: Connector): seq<Status> {
    if log == [] then []
    else
      StatusesOf(log[..|log| - 1], c)
      + (if log[|log| - 1].connector == c then [log[|log| - 1].status] else [])
  }

  lemma StatusesOfSnoc(log: seq<Report>, r: Report, c: Connector)
    ensures StatusesOf(log + [r], c) == StatusesOf(log, c) + (if r.connector == c then [r.status] else [])
  {
  }

  lemma {:induction false} LatestIsLastStatus(log: seq<Report>, c: Connector)
    ensures Latest(log, c) == var own := StatusesOf(log, c); if own == [] then None else Some(own[|own| - 1])
  {
    if log != [] {
      LatestIsLastStatus(log[..|log| - 1], c);
    }
  }

  /** `s` with every run of equal neighbours collapsed to one element. */
  function Collapsed(s: seq<Status>): (r: seq<Status>)
    ensures s == [] <==> r == []
    ensures s != [] ==> r[|r| - 1] == s[|s| - 1]
    ensures forall i :: 0 < i < |r| ==> r[i - 1] != r[i]
  {
    if |s| < 2 then s
    else if s[|s| - 2] == s[|s| - 1] then Collapsed(s[..|s| - 1])
    else Collapsed(s[..|s| - 1]) + [s[|s| - 1]]
  }

  lemma CollapsedSnoc(s: seq<Status>, x: Status)
    ensures Collapsed(s + [x]) ==
            if s != [] && s[|s| - 1] == x then Collapsed(s) else Collapsed(s) + [x]
  {
  }

  predicate IsDuplicate(cache: Cache, r: Report) {
    r.connector in cache && cache[r.connector] == r.status
  }

  /** Forwards a status only when it differs from the last one the CSMS accepted for its connector. */
  class DedupedStatusNotifier {
    var lastSent: Cache

    constructor ()
      ensures lastSent == map[]
    {
      lastSent := map[];
    }

    /**
     One call, `accepted` being what the inner notifier would answer. `reached` says whether the
     inner notifier was called; a failed send leaves the cache exactly as it was.
     */
    method NotifyStatus(r: Report, accepted: bool) returns (ok: bool, reached: bool)
      modifies this
      ensures reached <==> !IsDuplicate(old(lastSent), r)
      ensures ok <==> (reached ==> accepted)
      ensures lastSent == if reached && accepted then old(lastSent)[r.connector := r.status] else old(lastSent)
      ensures ok ==> IsDuplicate(lastSent, r)
    {
      var isDuplicate := r.connector in lastSent && lastSent[r.connector] == r.status;
      if isDuplicate {
        return true, false;
      }
      if !accepted {
        return false, true;
      }
      lastSent := lastSent[r.connector := r.status];
      return true, true;
    }
  }

  /** Whether `current` gives no reason to think `r` has been overtaken. An unknown connector is forwarded. */
  predicate IsSettled(current: map<Connector, Status>, r: Report) {
    r.connector in current ==> current[r.connector] == r.status
  }

  /** The queue after pushing `m` under `OverflowPolicy::DropOldest`. */
  function Pushed(queue: seq<Report>, capacity: nat, m: Report): (r: seq<Report>)
    requires 0 < capacity
    ensures |queue| <= capacity ==> |r| <= capacity
    ensures r != [] && r[|r| - 1] == m
  {
    if |queue| >= capacity then queue[1..] + [m] else queue + [m]
  }

  /** What a full queue does with one message more. */
  datatype OverflowPolicy = DropOldest | DropNewest

  /** The bounded FIFO of reports not yet delivered, with the failed attempts at its front. */
  class OfflineQueue {
    var pending: seq<Report>
    var frontAttempts: u32
    const capacity: nat
    const policy: OverflowPolicy

    ghost predicate Valid()
      reads this
    {
      0 < capacity && |pending| <= capacity
    }

    constructor (wanted: nat, policy: OverflowPolicy)
      ensures Valid() && pending == [] && frontAttempts == 0
      ensures this.policy == policy && capacity == if wanted < 1 then 1 else wanted
    {
      pending := [];
      frontAttempts := 0;
      capacity := if wanted < 1 then 1 else wanted;
      this.policy := policy;
    }

    /** Nothing is lost silently: what does not stay queued is handed back. */
    method Push(m: Report) returns (dropped: Option<Report>)
      requires Valid()
      modifies this`pending
      ensures Valid()
      ensures dropped.Some? <==> |old(pending)| >= capacity
      ensures policy.DropOldest? ==> pending == Pushed(old(pending), capacity, m)
      ensures policy.DropOldest? ==>
                (if dropped.Some? then [dropped.value] else []) + pending == old(pending) + [m]
      ensures policy.DropNewest? ==>
                pending + (if dropped.Some? then [dropped.value] else []) == old(pending) + [m]
    {
      dropped := None;
      if |pending| >= capacity {
        if policy.DropNewest? {
          return Some(m);
        }
        dropped := Some(pending[0]);
        pending := pending[1..];
      }
      pending := pending + [m];
    }

    method PeekFront() returns (front: Option<Report>)
      ensures front == if pending == [] then None else Some(pending[0])
    {
      front := if pending == [] then None else Some(pending[0]);
    }

    /** Counts one more failed attempt at the front, wrapping at 32 bits. */
    method RecordFailedAttempt() returns (attempts: u32)
      modifies this`frontAttempts
      ensures attempts == frontAttempts == (old(frontAttempts) + 1) % (U32_MAX + 1)
    {
      frontAttempts := (frontAttempts + 1) % (U32_MAX + 1);
      attempts := frontAttempts;
    }

    method PopFront()
      requires Valid()
      modifies this
      ensures Valid() && pending == if old(pending) == [] then [] else old(pending)[1..]
      ensures frontAttempts == 0
    {
      if pending != [] {
        pending := pending[1..];
      }
      frontAttempts := 0;
    }
  }
}
