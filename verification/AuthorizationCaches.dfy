/**
 The authorization cache (src/state/authorization_cache.rs): decisions the CSMS has made, one per token
 value, least recently authorized first, bounded and expiring.
 */
module AuthorizationCaches {
  import opened Options

  datatype Status = Accepted | Rejected

  type Token = string

  /** An instant in nanoseconds. */
  type Instant = int

  const NANOS_PER_SECOND := 1_000_000_000

  datatype Entry = Entry(token: Token, status: Status, cachedAt: Option<Instant>)

  /** Whole seconds of a span, rounded towards zero. */
  function WholeSeconds(span: int): int {
    if span >= 0 then span / NANOS_PER_SECOND else -((-span) / NANOS_PER_SECOND)
  }

  /** Anything unknown - the entry's age, the time, the lifetime - means it does not expire. */
  predicate IsExpired(e: Entry, now: Option<Instant>, lifeTime: Option<nat>) {
    && e.cachedAt.Some? && now.Some? && lifeTime.Some? && lifeTime.value != 0
    && WholeSeconds(now.value - e.cachedAt.value) >= lifeTime.value
  }

  /** Expiry is inclusive: at exactly its lifetime an entry no longer answers. */
  lemma ExpiryIsInclusive(e: Entry, now: Instant, lifeTime: nat)
    requires e.cachedAt.Some? && 0 < lifeTime
    ensures IsExpired(e, Some(now), Some(lifeTime)) <==> now >= e.cachedAt.value + lifeTime * NANOS_PER_SECOND
  {
  }

  /** Whatever is unknown - the age, the time, the lifetime - or a lifetime of zero keeps an entry alive. */
  lemma UnknownNeverExpires(e: Entry, now: Option<Instant>, lifeTime: Option<nat>)
    requires e.cachedAt == None || now == None || lifeTime == None || lifeTime == Some(0)
    ensures !IsExpired(e, now, lifeTime)
  {
  }

  /** The entry held for a token, expired or not. */
  function Find(entries: seq<Entry>, token: Token): Option<Entry> {
    if entries == [] then None
    else if entries[0].token == token then Some(entries[0])
    else Find(entries[1..], token)
  }

  function Without(entries: seq<Entry>, token: Token): seq<Entry> {
    if entries == [] then []
    else (if entries[0].token == token then [] else [entries[0]]) + Without(entries[1..], token)
  }

  predicate Distinct(entries: seq<Entry>) {
    forall i, j :: 0 <= i < j < |entries| ==> entries[i].token != entries[j].token
  }

  /** Everything `some` holds for any token, `all` holds too. */
  ghost predicate Within(some: seq<Entry>, all: seq<Entry>) {
    forall e :: e in some ==> e in all
  }

  lemma {:induction false} FindIsMembership(entries: seq<Entry>, token: Token)
    requires Distinct(entries)
    ensures Find(entries, token).Some? ==> Find(entries, token).value in entries && Find(entries, token).value.token == token
    ensures forall e :: e in entries && e.token == token ==> Find(entries, token) == Some(e)
  {
    if entries != [] {
      assert forall i :: 0 <= i < |entries[1..]| ==> entries[1..][i] == entries[i + 1];
      FindIsMembership(entries[1..], token);
      if entries[0].token == token {
        assert forall e :: e in entries && e != entries[0] ==> e in entries[1..];
      } else {
        assert forall e :: e in entries && e.token == token ==> e in entries[1..];
      }
    }
  }

  lemma {:induction false} WithoutForgets(entries: seq<Entry>, token: Token)
    requires Distinct(entries)
    ensures Distinct(Without(entries, token)) && Within(Without(entries, token), entries)
    ensures forall e :: e in entries && e.token != token ==> e in Without(entries, token)
    ensures forall e :: e in Without(entries, token) ==> e.token != token
    ensures |Without(entries, token)| <= |entries|
  {
    if entries != [] {
      assert forall i :: 0 <= i < |entries[1..]| ==> entries[1..][i] == entries[i + 1];
      WithoutForgets(entries[1..], token);
      var others := Without(entries[1..], token);
      assert forall e :: e in others ==> e in entries[1..] && e.token != entries[0].token;
    }
  }

  /** Room made for one more entry by dropping from the front. */
  function Trimmed(entries: seq<Entry>, maxEntries: nat): seq<Entry>
    requires 0 < maxEntries
  {
    if |entries| < maxEntries then entries else entries[|entries| - (maxEntries - 1)..]
  }

  function Remembered(entries: seq<Entry>, maxEntries: nat, e: Entry): seq<Entry>
    requires 0 < maxEntries
  {
    Trimmed(Without(entries, e.token), maxEntries) + [e]
  }

  /** Everything about other tokens, in order, where the token itself occurs once. */
  lemma {:induction false} WithoutSplices(before: seq<Entry>, held: Entry, after: seq<Entry>)
    requires forall e :: e in before || e in after ==> e.token != held.token
    ensures Without(before + [held] + after, held.token) == before + after
    decreases |before|
  {
    if before == [] {
      assert (before + [held] + after)[1..] == after;
      NothingToForget(after, held.token);
      assert before + after == after;
    } else {
      assert before[0] in before;
      assert (before + [held] + after)[1..] == before[1..] + [held] + after;
      WithoutSplices(before[1..], held, after);
      assert [before[0]] + (before[1..] + after) == before + after;
    }
  }

  lemma {:induction false} NothingToForget(entries: seq<Entry>, token: Token)
    requires forall e :: e in entries ==> e.token != token
    ensures Without(entries, token) == entries
  {
    if entries != [] {
      assert entries[0] in entries;
      NothingToForget(entries[1..], token);
    }
  }

  lemma TrimmedIsWithin(entries: seq<Entry>, maxEntries: nat)
    requires 0 < maxEntries && Distinct(entries)
    ensures var kept := Trimmed(entries, maxEntries);
            Distinct(kept) && |kept| < maxEntries && Within(kept, entries)
  {
  }

  /** Remembering puts the token's decision last, may evict others, invents none, and keeps the bound. */
  lemma RememberedIsFaithful(entries: seq<Entry>, maxEntries: nat, e: Entry)
    requires 0 < maxEntries && Distinct(entries)
    ensures Distinct(Remembered(entries, maxEntries, e)) && |Remembered(entries, maxEntries, e)| <= maxEntries
    ensures Find(Remembered(entries, maxEntries, e), e.token) == Some(e)
    ensures forall other :: other in Remembered(entries, maxEntries, e) && other != e ==>
              other in entries && other.token != e.token
  {
    WithoutForgets(entries, e.token);
    TrimmedIsWithin(Without(entries, e.token), maxEntries);
    var kept, after := Trimmed(Without(entries, e.token), maxEntries), Remembered(entries, maxEntries, e);
    assert forall i :: 0 <= i < |kept| ==> kept[i] in kept;
    assert after[|kept|] == e;
    FindIsMembership(after, e.token);
  }

  /**
   Of the other decisions, in the order they were last authorized, all stay while there is room, and in a
   full cache exactly the latest that fit beside the new one.
   */
  lemma RememberedKeepsTheLatest(entries: seq<Entry>, maxEntries: nat, e: Entry)
    requires 0 < maxEntries && Distinct(entries)
    ensures var others := Without(entries, e.token);
            Remembered(entries, maxEntries, e) ==
            (if |others| < maxEntries then others else others[|others| - maxEntries + 1..]) + [e]
    ensures |entries| < maxEntries ==>
              forall other :: other in entries && other.token != e.token ==> other in Remembered(entries, maxEntries, e)
  {
    WithoutForgets(entries, e.token);
  }

  class AuthorizationCache {
    var entries: seq<Entry>
    const maxEntries: nat

    ghost predicate Valid()
      reads this
    {
      0 < maxEntries && |entries| <= maxEntries && Distinct(entries)
    }

    constructor (wanted: nat)
      ensures Valid() && entries == [] && maxEntries == if wanted < 1 then 1 else wanted
    {
      entries := [];
      maxEntries := if wanted < 1 then 1 else wanted;
    }

    method Remember(token: Token, status: Status, cachedAt: Option<Instant>)
      requires Valid()
      modifies this
      ensures Valid() && entries == Remembered(old(entries), maxEntries, Entry(token, status, cachedAt))
    {
      RememberedIsFaithful(entries, maxEntries, Entry(token, status, cachedAt));
      var kept := Retain(entries, token);
      kept := MakeRoom(kept, maxEntries);
      entries := kept + [Entry(token, status, cachedAt)];
    }

    method Lookup(token: Token, now: Option<Instant>, lifeTime: Option<nat>) returns (found: Option<Entry>)
      requires Valid()
      ensures found == Usable(entries, token, now, lifeTime)
    {
      found := None;
      for i := 0 to |entries|
        invariant found == None && Find(entries, token) == Find(entries[i..], token)
      {
        assert entries[i..][1..] == entries[i + 1..];
        if entries[i].token == token {
          if !IsExpired(entries[i], now, lifeTime) {
            found := Some(entries[i]);
          }
          return;
        }
      }
    }

    method Clear() returns (discarded: nat)
      requires Valid()
      modifies this
      ensures Valid() && entries == [] && discarded == |old(entries)|
    {
      discarded := |entries|;
      entries := [];
    }

    method Forget(token: Token) returns (held: bool)
      requires Valid()
      modifies this
      ensures Valid() && entries == Without(old(entries), token)
      ensures held <==> Find(old(entries), token).Some?
    {
      WithoutForgets(entries, token);
      HeldMeansShorter(entries, token);
      var kept := Retain(entries, token);
      held := |kept| != |entries|;
      entries := kept;
    }
  }

  lemma {:induction false} HeldMeansShorter(entries: seq<Entry>, token: Token)
    ensures |Without(entries, token)| <= |entries|
    ensures |Without(entries, token)| != |entries| <==> Find(entries, token).Some?
  {
    if entries != [] {
      HeldMeansShorter(entries[1..], token);
    }
  }

  lemma {:induction false} WithoutSnoc(entries: seq<Entry>, last: Entry, token: Token)
    ensures Without(entries + [last], token) ==
            if last.token == token then Without(entries, token) else Without(entries, token) + [last]
  {
    if entries == [] {
      assert entries + [last] == [last] && [last][1..] == [];
    } else {
      assert (entries + [last])[1..] == entries[1..] + [last];
      WithoutSnoc(entries[1..], last, token);
    }
  }

  lemma PrefixSnoc(entries: seq<Entry>, i: nat)
    requires i < |entries|
    ensures entries[..i] + [entries[i]] == entries[..i + 1]
  {
  }

  lemma WithoutNext(entries: seq<Entry>, i: nat, token: Token)
    requires i < |entries|
    ensures Without(entries[..i + 1], token) ==
            if entries[i].token == token then Without(entries[..i], token)
            else Without(entries[..i], token) + [entries[i]]
  {
    PrefixSnoc(entries, i);
    WithoutSnoc(entries[..i], entries[i], token);
  }

  /** `Vec::retain` of every other token. */
  method Retain(entries: seq<Entry>, token: Token) returns (kept: seq<Entry>)
    ensures kept == Without(entries, token)
  {
    kept := [];
    for i := 0 to |entries|
      invariant kept == Without(entries[..i], token)
    {
      WithoutNext(entries, i, token);
      if entries[i].token != token {
        kept := kept + [entries[i]];
      }
    }
    assert entries[..|entries|] == entries;
  }

  method MakeRoom(entries: seq<Entry>, maxEntries: nat) returns (kept: seq<Entry>)
    requires 0 < maxEntries
    ensures kept == Trimmed(entries, maxEntries)
  {
    kept := entries;
    while |kept| >= maxEntries
      invariant |kept| <= |entries| && kept == entries[|entries| - |kept|..]
      invariant |kept| >= maxEntries - 1 || kept == entries
      decreases |kept|
    {
      kept := kept[1..];
    }
  }

  /** The decision a token's entry gives, unless there is none or it has expired. */
  function Usable(entries: seq<Entry>, token: Token, now: Option<Instant>, lifeTime: Option<nat>): Option<Entry> {
    var found := Find(entries, token);
    if found.Some? && IsExpired(found.value, now, lifeTime) then None else found
  }
}
