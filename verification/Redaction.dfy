/**
 Keeping credentials out of the log: a CSMS address with its userinfo (section 3.2.1 of RFC 3986)
 replaced before it is printed (src/connect.rs).
 */
module Redaction {
  import opened Options
  import opened Strings

  /** The first position of `//`, if any. */
  function FindSlashes(s: string): (r: Option<nat>)
    ensures r.Some? ==> r.value + 2 <= |s| && s[r.value] == s[r.value + 1] == '/'
    ensures r.Some? ==> forall i :: 0 <= i < r.value ==> !(s[i] == '/' && s[i + 1] == '/')
    ensures r.None? ==> forall i :: 0 <= i < |s| - 1 ==> !(s[i] == '/' && s[i + 1] == '/')
  {
    if |s| < 2 then None
    else if s[0] == '/' && s[1] == '/' then Some(0)
    else
      var later := FindSlashes(s[1..]);
      if later.None? then None else Some(later.value + 1)
  }

  /** The first position of `c`, or the length. */
  function FirstOf(s: string, c: char): (r: nat)
    ensures r <= |s| && c !in s[..r]
    ensures r < |s| ==> s[r] == c
  {
    if s == "" || s[0] == c then 0 else 1 + FirstOf(s[1..], c)
  }

  /** The last position of `c`, if any. */
  function LastOf(s: string, c: char): (r: Option<nat>)
    ensures r.Some? ==> r.value < |s| && s[r.value] == c && c !in s[r.value + 1..]
    ensures r.None? ==> c !in s
  {
    if s == "" then None
    else if s[|s| - 1] == c then Some(|s| - 1)
    else LastOf(s[..|s| - 1], c)
  }

  const MASK := "***@"

  /** What becomes of the text after `//`: only the part before its first slash can hold userinfo. */
  function Masked(rest: string): string {
    var end := FirstOf(rest, '/');
    match LastOf(rest[..end], '@')
    case None => rest
    case Some(sign) => MASK + rest[sign + 1..]
  }

  function Redacted(address: string): string {
    match FindSlashes(address)
    case None => address
    case Some(at) => address[..at] + "//" + Masked(address[at + 2..])
  }

  lemma Rejoined(s: string, at: nat)
    requires at + 2 <= |s| && s[at] == s[at + 1] == '/'
    ensures s[..at] + "//" + s[at + 2..] == s
  {
  }

  lemma HostAndPath(rest: string, end: nat, from: nat)
    requires from <= end <= |rest|
    ensures rest[..end][from..] + rest[end..] == rest[from..]
  {
  }

  lemma PushesAssociate(a: string, b: string, c: string, d: string, e: string)
    ensures (((a + b) + c) + d) + e == a + b + (c + (d + e))
  {
  }

  method RedactedEndpoint(address: string) returns (out: string)
    ensures out == Redacted(address)
  {
    var at := FindSlashes(address);
    if at.None? {
      return address;
    }
    Rejoined(address, at.value);
    var scheme, rest := address[..at.value], address[at.value + 2..];
    var authorityEnd := FirstOf(rest, '/');
    var authority, path := rest[..authorityEnd], rest[authorityEnd..];
    var sign := LastOf(authority, '@');
    if sign.None? {
      return address;
    }
    var host := authority[sign.value + 1..];
    out := scheme;
    out := out + "//";
    out := out + MASK;
    out := out + host;
    out := out + path;
    HostAndPath(rest, authorityEnd, sign.value + 1);
    PushesAssociate(scheme, "//", MASK, host, path);
  }

  // --- Addresses by their parts ------------------------------------------------------------------

  /** An address with userinfo `user`. */
  function Address(scheme: string, user: string, host: string, path: string): string {
    scheme + "//" + (user + "@" + (host + path))
  }

  predicate IsHost(host: string) {
    '@' !in host && '/' !in host
  }

  predicate IsPath(path: string) {
    path == "" || path[0] == '/'
  }

  /** Nothing before the `//` of an address is itself a `//`, nor half of one. */
  predicate IsScheme(scheme: string) {
    (forall i :: 0 <= i < |scheme| - 1 ==> !(scheme[i] == '/' && scheme[i + 1] == '/'))
    && (scheme == "" || scheme[|scheme| - 1] != '/')
  }

  lemma {:induction false} SlashesFound(scheme: string, rest: string)
    requires IsScheme(scheme)
    ensures FindSlashes(scheme + "//" + rest) == Some(|scheme|)
  {
    var s := scheme + "//" + rest;
    if scheme != "" {
      assert s[1..] == scheme[1..] + "//" + rest;
      assert s[0] == scheme[0] && (|scheme| > 1 ==> s[1] == scheme[1]);
      SlashesFound(scheme[1..], rest);
    }
  }

  lemma {:induction false} FirstFound(front: string, c: char, back: string)
    requires c !in front && (back == "" || back[0] == c)
    ensures FirstOf(front + back, c) == |front|
  {
    if front == "" {
      assert front + back == back;
    } else {
      assert (front + back)[1..] == front[1..] + back;
      FirstFound(front[1..], c, back);
    }
  }

  lemma {:induction false} LastFound(front: string, c: char, back: string)
    requires c !in back
    ensures LastOf(front + [c] + back, c) == Some(|front|)
  {
    var s := front + [c] + back;
    if back == "" {
      assert s[|s| - 1] == c;
    } else {
      var shorter := back[..|back| - 1];
      assert s[..|s| - 1] == front + [c] + shorter;
      assert s[|s| - 1] == back[|back| - 1];
      LastFound(front, c, shorter);
    }
  }

  lemma RedactedAfterScheme(scheme: string, rest: string)
    requires IsScheme(scheme)
    ensures Redacted(scheme + "//" + rest) == scheme + "//" + Masked(rest)
  {
    var address := scheme + "//" + rest;
    SlashesFound(scheme, rest);
    assert address[..|scheme|] == scheme;
    assert address[|scheme| + 2..] == rest;
  }

  lemma MaskedAfterSign(user: string, host: string, path: string)
    requires '/' !in user && IsHost(host) && IsPath(path)
    ensures Masked(user + "@" + (host + path)) == MASK + (host + path)
  {
    var authority, rest := user + "@" + host, user + "@" + (host + path);
    assert rest == authority + path;
    FirstFound(authority, '/', path);
    assert rest[..|authority|] == authority;
    LastFound(user, '@', host);
    assert rest[|user| + 1..] == host + path;
  }

  /** The redacted form of an address: scheme, mask, host and path. */
  lemma RedactedForm(scheme: string, user: string, host: string, path: string)
    requires IsScheme(scheme) && '/' !in user && IsHost(host) && IsPath(path)
    ensures Redacted(Address(scheme, user, host, path)) == scheme + "//" + (MASK + (host + path))
  {
    RedactedAfterScheme(scheme, user + "@" + (host + path));
    MaskedAfterSign(user, host, path);
  }

  // --- What redaction hides ----------------------------------------------------------------------

  /** Everything from the first slash on survives, and what is before it is either kept or masked. */
  lemma MaskedKeepsTail(front: string, tail: string)
    requires '/' !in front && tail != "" && tail[0] == '/'
    ensures Masked(front + tail) == front + tail || |Masked(front + tail)| >= |MASK| + |tail|
  {
    FirstFound(front, '/', tail);
    assert (front + tail)[..|front|] == front;
  }

  lemma EarlySlashKeepsUserinfo(front: string, back: string, end: string)
    requires '/' !in front && back != "" && back[0] == '/'
    ensures Masked(front + back + "@" + end) != MASK + end
  {
    var rest, tail := front + back + "@" + end, back + "@" + end;
    assert rest == front + tail;
    MaskedKeepsTail(front, tail);
    assert rest[|front|] == '/';
    assert '/' !in MASK;
    assert rest != MASK + end by {
      assert |rest| == |MASK + end| ==> |front| < |MASK| && (MASK + end)[|front|] == MASK[|front|];
    }
  }

  /** The userinfo is gone, and all else kept, exactly when it holds no slash. */
  lemma UserinfoIsMaskedIff(scheme: string, user: string, host: string, path: string)
    requires IsScheme(scheme) && IsHost(host) && IsPath(path)
    ensures Redacted(Address(scheme, user, host, path)) == scheme + "//" + (MASK + (host + path))
            <==> '/' !in user
  {
    var end := host + path;
    if '/' !in user {
      RedactedForm(scheme, user, host, path);
    } else {
      var cut := FirstOf(user, '/');
      assert user[..cut] + user[cut..] == user;
      EarlySlashKeepsUserinfo(user[..cut], user[cut..], end);
      RedactedAfterScheme(scheme, user + "@" + end);
      if scheme + "//" + Masked(user + "@" + end) == scheme + "//" + (MASK + end) {
        PrefixCancels(scheme + "//", Masked(user + "@" + end), MASK + end);
        assert false;
      }
    }
  }

  /** Addresses that differ only in their userinfo look the same once redacted. */
  lemma RedactionHidesUserinfo(scheme: string, one: string, other: string, host: string, path: string)
    requires IsScheme(scheme) && IsHost(host) && IsPath(path) && '/' !in one && '/' !in other
    ensures Redacted(Address(scheme, one, host, path)) == Redacted(Address(scheme, other, host, path))
  {
    RedactedForm(scheme, one, host, path);
    RedactedForm(scheme, other, host, path);
  }

  lemma MaskedStays(host: string, path: string)
    requires IsHost(host) && IsPath(path)
    ensures Masked(MASK + (host + path)) == MASK + (host + path)
  {
    var stars := "***";
    assert stars + "@" == MASK;
    MaskedAfterSign(stars, host, path);
  }

  lemma HostBehindSign(authority: string, sign: nat)
    requires '/' !in authority && LastOf(authority, '@') == Some(sign)
    ensures IsHost(authority[sign + 1..])
  {
  }

  lemma PathBehindAuthority(rest: string)
    ensures IsPath(rest[FirstOf(rest, '/')..])
  {
  }

  /** Where the text that changes is cut. */
  lemma MaskedCut(rest: string) returns (end: nat, sign: nat)
    requires Masked(rest) != rest
    ensures sign < end <= |rest| && Masked(rest) == MASK + rest[sign + 1..]
    ensures IsHost(rest[..end][sign + 1..]) && IsPath(rest[end..])
  {
    end := FirstOf(rest, '/');
    sign := LastOf(rest[..end], '@').value;
    HostBehindSign(rest[..end], sign);
    PathBehindAuthority(rest);
  }

  lemma MaskingIsIdempotent(rest: string)
    ensures Masked(Masked(rest)) == Masked(rest)
  {
    if Masked(rest) != rest {
      var end, sign := MaskedCut(rest);
      HostAndPath(rest, end, sign + 1);
      MaskedStays(rest[..end][sign + 1..], rest[end..]);
    }
  }

  /** Redacting any text at all a second time changes nothing. */
  lemma RedactionIsIdempotent(address: string)
    ensures Redacted(Redacted(address)) == Redacted(address)
  {
    var found := FindSlashes(address);
    if found.Some? {
      var scheme, rest := address[..found.value], address[found.value + 2..];
      assert IsScheme(scheme);
      RedactedAfterScheme(scheme, Masked(rest));
      MaskingIsIdempotent(rest);
    }
  }

  // --- What redaction leaves alone ---------------------------------------------------------------

  lemma MaskingChangesNothingIff(rest: string, sign: nat)
    requires sign < |rest|
    ensures MASK + rest[sign + 1..] == rest <==> rest[..sign + 1] == MASK
  {
    assert rest[..sign + 1] + rest[sign + 1..] == rest;
    if MASK + rest[sign + 1..] == rest {
      assert |MASK| == sign + 1;
      assert (MASK + rest[sign + 1..])[..sign + 1] == MASK;
    }
  }

  /**
   Any text is left alone exactly if it holds no `//`, or there is no `@` between that and the next
   slash, or what stands before the last such `@` is already the mask.
   */
  lemma LeftAloneIff(address: string)
    ensures var found := FindSlashes(address);
            Redacted(address) == address <==>
              (found.Some? ==>
                 var rest := address[found.value + 2..];
                 var authority := rest[..FirstOf(rest, '/')];
                 '@' !in authority || authority[..LastOf(authority, '@').value + 1] == MASK)
  {
    var found := FindSlashes(address);
    if found.Some? {
      var scheme, rest := address[..found.value], address[found.value + 2..];
      Rejoined(address, found.value);
      if Masked(rest) != rest && scheme + "//" + Masked(rest) == scheme + "//" + rest {
        PrefixCancels(scheme + "//", Masked(rest), rest);
        assert false;
      }
      MaskedStaysIff(rest);
    }
  }

  lemma MaskedStaysIff(rest: string)
    ensures var authority := rest[..FirstOf(rest, '/')];
            Masked(rest) == rest <==> '@' !in authority || authority[..LastOf(authority, '@').value + 1] == MASK
  {
    var end := FirstOf(rest, '/');
    var sign := LastOf(rest[..end], '@');
    if sign.Some? {
      MaskingChangesNothingIff(rest, sign.value);
      assert rest[..end][..sign.value + 1] == rest[..sign.value + 1];
      assert rest[..end][sign.value] == '@';
    }
  }

  /** An address without userinfo but with an `@` in a query that follows the host directly loses its host. */
  lemma SignInQueryTakesTheHost(scheme: string, host: string, before: string, after: string)
    requires IsScheme(scheme) && IsHost(host) && '/' !in before && IsHost(after)
    ensures Redacted(Address(scheme, host + "?" + before, after, "")) == scheme + "//" + (MASK + (after + ""))
  {
    RedactedForm(scheme, host + "?" + before, after, "");
  }
}
