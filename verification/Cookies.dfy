/**
 The shared cookie cache and its `Set-Cookie` parser (cookies.rs).

 Times are nanoseconds since the epoch. Clock readings, the HTTP date parser and
 parsed URLs are parameters; header values are visible ASCII, where both trims of
 this project agree.
 */
module Cookies {
  import opened Wrappers
  import opened TextUtils
  import opened Decimals

  datatype Url = Url(scheme: string, host: Option<string>, path: string)

  datatype Cookie = Cookie(
    name: string,
    value: string,
    domain: string,
    path: string,
    expiresAt: Option<int>,
    secure: bool,
    httpOnly: bool,
    sameSite: Option<string>)

  datatype Key = Key(domain: string, path: string, name: string)

  const EPOCH := 0
  const SECOND := 1000000000

  predicate IsExpired(c: Cookie, now: int) {
    c.expiresAt.Some? && c.expiresAt.value <= now
  }

  // --- Text ----------------------------------------------------------------

  function LowerChar(c: char): char {
    if 'A' <= c <= 'Z' then (c as int + 32) as char else c
  }

  function Lower(s: string): (r: string)
    ensures |r| == |s| && forall i | 0 <= i < |s| :: r[i] == LowerChar(s[i])
  {
    seq(|s|, i requires 0 <= i < |s| => LowerChar(s[i]))
  }

  function TrimDots(s: string): (r: string)
    ensures r != [] ==> r[0] != '.'
    ensures |r| <= |s| && r == s[|s| - |r|..]
  {
    if s != [] && s[0] == '.' then TrimDots(s[1..]) else s
  }

  /** Position of the first `c`, or the length. */
  function Find(s: string, c: char): (i: nat)
    ensures i <= |s| && (i < |s| ==> s[i] == c)
  {
    if s == [] || s[0] == c then 0 else Find(s[1..], c) + 1
  }

  /** Position of the last `c`, if any. */
  function FindLast(s: string, c: char): (i: Option<nat>)
    ensures i.Some? ==> i.value < |s| && s[i.value] == c && forall k | i.value < k < |s| :: s[k] != c
    ensures i.None? ==> forall k | 0 <= k < |s| :: s[k] != c
  {
    if s == [] then None
    else if s[|s| - 1] == c then Some(|s| - 1)
    else FindLast(s[..|s| - 1], c)
  }

  function Split(s: string, c: char): (r: seq<string>)
    ensures r != []
    decreases |s|
  {
    var i := Find(s, c);
    if i == |s| then [s] else [s[..i]] + Split(s[i + 1..], c)
  }

  predicate StartsWith(s: string, prefix: string) {
    prefix <= s
  }

  predicate EndsWith(s: string, suffix: string) {
    |suffix| <= |s| && s[|s| - |suffix|..] == suffix
  }

  predicate AllDigits(s: string) {
    s != [] && forall i | 0 <= i < |s| :: '0' <= s[i] <= '9'
  }

  /** `parse::<i64>`: an optional sign and digits, within 64 bits. */
  function ParseI64(s: string): Option<int> {
    var digits := if s != [] && (s[0] == '+' || s[0] == '-') then s[1..] else s;
    if !AllDigits(digits) then None else
      var n := if s[0] == '-' then -NumberOf(digits) else NumberOf(digits);
      if -0x8000_0000_0000_0000 <= n < 0x8000_0000_0000_0000 then Some(n) else None
  }

  // --- Keys ----------------------------------------------------------------

  function CookieKey(domain: string, path: string, name: string): Key {
    Key(Lower(TrimDots(domain)), path, name)
  }

  function KeyOf(c: Cookie): Key {
    CookieKey(c.domain, c.path, c.name)
  }

  lemma {:induction false} TrimDotsLower(s: string)
    ensures TrimDots(Lower(s)) == Lower(TrimDots(s))
  {
    if s != [] {
      assert Lower(s)[1..] == Lower(s[1..]);
      if s[0] == '.' {
        TrimDotsLower(s[1..]);
      }
    }
  }

  lemma LowerTwice(s: string)
    ensures Lower(Lower(s)) == Lower(s)
  {
  }

  /** Normalising a domain before it is stored, as the parser does, does not change its key. */
  lemma {:induction false} KeyIsNormal(domain: string, path: string, name: string)
    ensures CookieKey(Lower(TrimDots(domain)), path, name) == CookieKey(domain, path, name)
  {
    TrimDotsLower(TrimDots(domain));
    LowerTwice(TrimDots(domain));
    assert TrimDots(TrimDots(domain)) == TrimDots(domain);
  }

  // --- The attribute loop --------------------------------------------------

  datatype Attribute = Attribute(key: string, value: string)

  function SplitAttribute(part: string): Attribute {
    var i := Find(part, '=');
    if i == |part| then Attribute(Lower(part), "") else Attribute(Lower(part[..i]), part[i + 1..])
  }

  /** The last value `read` finds among the first `n` attributes. */
  function LastValue<T>(attrs: seq<Attribute>, n: nat, read: (nat, Attribute) -> Option<T>): Option<T>
    requires n <= |attrs|
  {
    if n == 0 then None
    else if read(n - 1, attrs[n - 1]).Some? then read(n - 1, attrs[n - 1])
    else LastValue(attrs, n - 1, read)
  }

  /** What `LastValue` means: some attribute has that value, and no later one has any. */
  lemma {:induction false} LastValueIs<T>(attrs: seq<Attribute>, n: nat, read: (nat, Attribute) -> Option<T>, v: T)
    requires n <= |attrs|
    ensures LastValue(attrs, n, read) == Some(v) <==>
              exists k :: 0 <= k < n && read(k, attrs[k]) == Some(v) && forall j | k < j < n :: read(j, attrs[j]).None?
  {
    if n > 0 {
      LastValueIs(attrs, n - 1, read, v);
      if read(n - 1, attrs[n - 1]).None? && LastValue(attrs, n, read) == Some(v) {
        var k :| 0 <= k < n - 1 && read(k, attrs[k]) == Some(v) && forall j | k < j < n - 1 :: read(j, attrs[j]).None?;
        assert forall j | k < j < n :: read(j, attrs[j]).None?;
      }
    }
  }

  predicate IsText(a: Attribute, key: string) {
    a.key == key && a.value != ""
  }

  function ReadDomain(i: nat, a: Attribute): Option<string> {
    if IsText(a, "domain") then Some(Lower(TrimDots(a.value))) else None
  }

  function ReadText(key: string): (nat, Attribute) -> Option<string> {
    (i: nat, a: Attribute) => if IsText(a, key) then Some(a.value) else None
  }

  function ReadFlag(key: string): (nat, Attribute) -> Option<()> {
    (i: nat, a: Attribute) => if a.key == key then Some(()) else None
  }

  /** `clock(i + 1)` is the time read at attribute `i`. */
  function ReadMaxAge(clock: nat -> int): (nat, Attribute) -> Option<int> {
    (i: nat, a: Attribute) =>
      if a.key == "max-age" && ParseI64(a.value).Some? then
        Some(if ParseI64(a.value).value <= 0 then EPOCH else clock(i + 1) + ParseI64(a.value).value * SECOND)
      else None
  }

  function ReadExpires(date: string -> Option<int>): (nat, Attribute) -> Option<int> {
    (i: nat, a: Attribute) => if a.key == "expires" then date(a.value) else None
  }

  /** The last valid Max-Age, else the last valid Expires, else the default lifetime. */
  function Expiry(attrs: seq<Attribute>, n: nat, ttl: int, clock: nat -> int, date: string -> Option<int>): int
    requires n <= |attrs|
  {
    LastValue(attrs, n, ReadMaxAge(clock)).GetOr(LastValue(attrs, n, ReadExpires(date)).GetOr(clock(0) + ttl))
  }

  /** The attributes of a cookie other than its expiry, as read from the first `n` attributes. */
  datatype Traits = Traits(domain: string, path: string, secure: bool, httpOnly: bool, sameSite: Option<string>)

  function TraitsOf(attrs: seq<Attribute>, n: nat, initial: Traits): Traits
    requires n <= |attrs|
  {
    Traits(LastValue(attrs, n, ReadDomain).GetOr(initial.domain),
           LastValue(attrs, n, ReadText("path")).GetOr(initial.path),
           initial.secure || LastValue(attrs, n, ReadFlag("secure")).Some?,
           initial.httpOnly || LastValue(attrs, n, ReadFlag("httponly")).Some?,
           if LastValue(attrs, n, ReadText("samesite")).Some? then LastValue(attrs, n, ReadText("samesite")) else initial.sameSite)
  }

  /** Without attributes, a cookie belongs to the host and directory that set it. */
  function HostTraits(url: Url): Traits
    requires url.host.Some?
  {
    Traits(Lower(url.host.value), DefaultPath(url.path), false, false, None)
  }

  function Attributes(parts: seq<string>): (r: seq<Attribute>)
    ensures |r| == |parts| && forall i | 0 <= i < |r| :: r[i] == SplitAttribute(Trim(parts[i]))
  {
    seq(|parts|, i requires 0 <= i < |parts| => SplitAttribute(Trim(parts[i])))
  }

  /** The cookie a header value describes, given by what its attributes say rather than by a loop. */
  function SetCookie(raw: string, url: Url, ttl: int, clock: nat -> int, date: string -> Option<int>): Option<Cookie> {
    var parts := Split(raw, ';');
    var first := Trim(parts[0]);
    var eq := Find(first, '=');
    if eq == |first| || eq == 0 || url.host.None? then None else
      var attrs := Attributes(parts[1..]);
      var n := |attrs|;
      var traits := TraitsOf(attrs, n, HostTraits(url));
      Some(Cookie(first[..eq], first[eq + 1..],
                  traits.domain, traits.path, Some(Expiry(attrs, n, ttl, clock, date)),
                  traits.secure, traits.httpOnly, traits.sameSite))
  }

  /** One attribute further, the last value is the new one if there is one. */
  lemma LastValueNext<T>(attrs: seq<Attribute>, i: nat, read: (nat, Attribute) -> Option<T>)
    requires i < |attrs|
    ensures LastValue(attrs, i + 1, read) == if read(i, attrs[i]).Some? then read(i, attrs[i]) else LastValue(attrs, i, read)
  {
  }

  /** The expiry read so far, and whether it came from a Max-Age. */
  method ReadExpiry(a: Attribute, i: nat, before: int, maxAgeBefore: bool, clock: nat -> int, date: string -> Option<int>)
    returns (expiresAt: int, maxAgeSeen: bool)
    ensures maxAgeSeen == (maxAgeBefore || ReadMaxAge(clock)(i, a).Some?)
    ensures expiresAt == if ReadMaxAge(clock)(i, a).Some? then ReadMaxAge(clock)(i, a).value
                         else if !maxAgeBefore && ReadExpires(date)(i, a).Some? then ReadExpires(date)(i, a).value
                         else before
  {
    hide ParseI64;
    expiresAt, maxAgeSeen := before, maxAgeBefore;
    if a.key == "max-age" {
      var seconds := ParseI64(a.value);
      if seconds.Some? {
        maxAgeSeen := true;
        expiresAt := if seconds.value <= 0 then EPOCH else clock(i + 1) + seconds.value * SECOND;
      }
    } else if a.key == "expires" && !maxAgeSeen {
      var time := date(a.value);
      if time.Some? {
        expiresAt := time.value;
      }
    }
  }

  /** What one attribute does to the traits. */
  function Overwrite(t: Traits, a: Attribute): Traits {
    if a.key == "domain" && a.value != "" then t.(domain := Lower(TrimDots(a.value)))
    else if a.key == "path" && a.value != "" then t.(path := a.value)
    else if a.key == "secure" then t.(secure := true)
    else if a.key == "httponly" then t.(httpOnly := true)
    else if a.key == "samesite" && a.value != "" then t.(sameSite := Some(a.value))
    else t
  }

  lemma TraitsNext(attrs: seq<Attribute>, i: nat, initial: Traits)
    requires i < |attrs|
    ensures TraitsOf(attrs, i + 1, initial) == Overwrite(TraitsOf(attrs, i, initial), attrs[i])
  {
    hide LastValue, Lower, TrimDots;
    LastValueNext(attrs, i, ReadDomain);
    LastValueNext(attrs, i, ReadText("path"));
    LastValueNext(attrs, i, ReadText("samesite"));
    FlagNext(attrs, i, "secure");
    FlagNext(attrs, i, "httponly");
    KeysDiffer();
  }

  lemma FlagNext(attrs: seq<Attribute>, i: nat, key: string)
    requires i < |attrs|
    ensures LastValue(attrs, i + 1, ReadFlag(key)).Some? <==> LastValue(attrs, i, ReadFlag(key)).Some? || attrs[i].key == key
  {
    LastValueNext(attrs, i, ReadFlag(key));
  }

  lemma KeysDiffer()
    ensures "domain" != "path" && "domain" != "secure" && "domain" != "httponly" && "domain" != "samesite"
    ensures "path" != "secure" && "path" != "httponly" && "path" != "samesite"
    ensures "secure" != "httponly" && "secure" != "samesite" && "httponly" != "samesite"
  {
    assert "domain"[0] == 'd' && "path"[0] == 'p' && "secure"[1] == 'e' && "httponly"[0] == 'h' && "samesite"[1] == 'a';
  }

  lemma ExpiryNext(attrs: seq<Attribute>, i: nat, ttl: int, clock: nat -> int, date: string -> Option<int>)
    requires i < |attrs|
    ensures var maxAge, expires := ReadMaxAge(clock)(i, attrs[i]), ReadExpires(date)(i, attrs[i]);
            Expiry(attrs, i + 1, ttl, clock, date) ==
              if maxAge.Some? then maxAge.value
              else if LastValue(attrs, i, ReadMaxAge(clock)).None? && expires.Some? then expires.value
              else Expiry(attrs, i, ttl, clock, date)
  {
    hide LastValue, ParseI64;
    LastValueNext(attrs, i, ReadMaxAge(clock));
    LastValueNext(attrs, i, ReadExpires(date));
  }

  /** The parser as the program runs it: one pass that overwrites what it has read so far. */
  method ParseSetCookie(raw: string, url: Url, ttl: int, clock: nat -> int, date: string -> Option<int>)
    returns (r: Option<Cookie>)
    ensures r == SetCookie(raw, url, ttl, clock, date)
  {
    hide Split, Trim, DefaultPath, LastValue, Lower, ReadMaxAge, ReadExpires, ReadFlag, ReadText, ReadDomain;
    var parts := Split(raw, ';');
    var first := Trim(parts[0]);
    var eq := Find(first, '=');
    if eq == |first| || eq == 0 { return None; }
    if url.host.None? { return None; }
    var attrs := Attributes(parts[1..]);
    var expiresAt, maxAgeSeen := clock(0) + ttl, false;
    var traits := HostTraits(url);
    ghost var initial := traits;
    NothingYet(attrs, ttl, clock, date, initial);
    for i := 0 to |attrs|
      invariant traits == TraitsOf(attrs, i, initial)
      invariant maxAgeSeen == LastValue(attrs, i, ReadMaxAge(clock)).Some?
      invariant expiresAt == Expiry(attrs, i, ttl, clock, date)
    {
      hide TraitsOf, Overwrite, Expiry;
      TraitsNext(attrs, i, initial);
      ExpiryNext(attrs, i, ttl, clock, date);
      LastValueNext(attrs, i, ReadMaxAge(clock));
      expiresAt, maxAgeSeen := ReadExpiry(attrs[i], i, expiresAt, maxAgeSeen, clock, date);
      traits := Overwrite(traits, attrs[i]);
    }
    r := Some(Cookie(first[..eq], first[eq + 1..], traits.domain, traits.path, Some(expiresAt),
                     traits.secure, traits.httpOnly, traits.sameSite));
  }

  lemma NothingYet(attrs: seq<Attribute>, ttl: int, clock: nat -> int, date: string -> Option<int>, initial: Traits)
    ensures TraitsOf(attrs, 0, initial) == initial
    ensures LastValue(attrs, 0, ReadMaxAge(clock)) == None && Expiry(attrs, 0, ttl, clock, date) == clock(0) + ttl
  {
  }

  // --- Paths and matching --------------------------------------------------

  function DefaultPath(requestPath: string): string {
    if !StartsWith(requestPath, "/") || requestPath == "/" then "/" else
      var last := FindLast(requestPath, '/');
      if last.None? || last.value == 0 then "/" else requestPath[..last.value]
  }

  function Slashes(s: string): nat {
    if s == [] then 0 else Slashes(s[..|s| - 1]) + if s[|s| - 1] == '/' then 1 else 0
  }

  /** The default path by section 5.1.4 of RFC 6265. */
  function RfcDefaultPath(uriPath: string): string {
    if uriPath == "" || uriPath[0] != '/' then "/"
    else if Slashes(uriPath) <= 1 then "/"
    else match FindLast(uriPath, '/')
         case Some(i) => uriPath[..i]
         case None => "/"
  }

  lemma {:induction false} OneSlash(s: string)
    requires s != [] && s[0] == '/'
    ensures FindLast(s, '/').Some? && (Slashes(s) <= 1 <==> FindLast(s, '/').value == 0)
    ensures Slashes(s) >= 1
  {
    if |s| == 1 {
      assert Slashes(s[..0]) == 0;
    } else {
      OneSlash(s[..|s| - 1]);
    }
  }

  lemma DefaultPathIsRfc(requestPath: string)
    ensures DefaultPath(requestPath) == RfcDefaultPath(requestPath)
  {
    if requestPath != [] && requestPath[0] == '/' {
      OneSlash(requestPath);
    }
  }

  /** A host lies in a domain: it is the domain, or ends with it after a dot. */
  predicate DomainMatches(host: string, domain: string) {
    host == domain || EndsWith(host, "." + domain)
  }

  predicate CookieMatchesUrl(c: Cookie, url: Url, now: int) {
    && !IsExpired(c, now)
    && (c.secure ==> url.scheme == "https")
    && url.host.Some?
    && DomainMatches(Lower(url.host.value), Lower(TrimDots(c.domain)))
    && StartsWith(url.path, c.path)
  }

  /** The path-match of section 5.1.4 of RFC 6265. */
  predicate RfcPathMatch(cookiePath: string, requestPath: string) {
    || requestPath == cookiePath
    || (StartsWith(requestPath, cookiePath) && |cookiePath| > 0 && cookiePath[|cookiePath| - 1] == '/')
    || (StartsWith(requestPath, cookiePath) && |cookiePath| < |requestPath| && requestPath[|cookiePath|] == '/')
  }

  /** The prefix test of the cache agrees with the RFC for every request exactly when the cookie path ends in a slash. */
  lemma PathMatchIsRfcIff(cookiePath: string)
    ensures (forall p: string :: StartsWith(p, cookiePath) <==> RfcPathMatch(cookiePath, p))
       <==> |cookiePath| > 0 && cookiePath[|cookiePath| - 1] == '/'
  {
    var sibling := cookiePath + "x";
    assert StartsWith(sibling, cookiePath) && sibling[|cookiePath|] == 'x';
    if forall p: string :: StartsWith(p, cookiePath) <==> RfcPathMatch(cookiePath, p) {
      assert RfcPathMatch(cookiePath, sibling);
    }
  }

  lemma {:induction false} TrimmedHostMatches(host: string)
    ensures DomainMatches(host, TrimDots(host))
  {
    if host != [] && host[0] == '.' {
      TrimmedHostMatches(host[1..]);
      var d := TrimDots(host);
      assert TrimDots(host[1..]) == d;
      hide TrimDots;
      if host[1..] == d {
        assert host == "." + d;
      } else {
        EndsWithTail(host, "." + d);
      }
    }
  }

  lemma EndsWithTail(s: string, suffix: string)
    requires s != [] && EndsWith(s[1..], suffix)
    ensures EndsWith(s, suffix)
  {
    assert s[|s| - |suffix|..] == s[1..][|s| - 1 - |suffix|..];
  }

  lemma OwnHostMatches(host: string)
    ensures DomainMatches(Lower(host), Lower(TrimDots(Lower(host))))
  {
    TrimDotsLower(host);
    LowerTwice(TrimDots(host));
    TrimmedHostMatches(Lower(host));
  }

  lemma DefaultPathIsPrefixIff(path: string)
    ensures StartsWith(path, DefaultPath(path)) <==> StartsWith(path, "/")
  {
  }

  /** No Domain, Path or Secure attribute. */
  predicate IsPlain(attrs: seq<Attribute>) {
    forall i | 0 <= i < |attrs| :: !IsText(attrs[i], "domain") && !IsText(attrs[i], "path") && attrs[i].key != "secure"
  }

  /**
   A cookie set without Domain, Path and Secure goes back to the URL that set it
   until it expires, exactly when the path of that URL starts with a slash.
   */
  lemma HostCookieReturnsIff(raw: string, url: Url, ttl: int, clock: nat -> int, date: string -> Option<int>, now: int)
    requires SetCookie(raw, url, ttl, clock, date).Some?
    requires IsPlain(Attributes(Split(raw, ';')[1..]))
    ensures var c := SetCookie(raw, url, ttl, clock, date).value;
            CookieMatchesUrl(c, url, now) <==> now < c.expiresAt.value && StartsWith(url.path, "/")
  {
    hide DefaultPath, Split, Trim, Lower, TrimDots, DomainMatches, Expiry, TraitsOf, StartsWith, IsPlain;
    var attrs := Attributes(Split(raw, ';')[1..]);
    PlainTraits(attrs, |attrs|, HostTraits(url));
    OwnHostMatches(url.host.value);
    DefaultPathIsPrefixIff(url.path);
  }

  lemma {:induction false} PlainTraits(attrs: seq<Attribute>, n: nat, initial: Traits)
    requires n <= |attrs| && IsPlain(attrs)
    ensures var t := TraitsOf(attrs, n, initial);
            t.domain == initial.domain && t.path == initial.path && t.secure == initial.secure
  {
    if n > 0 {
      hide TraitsOf, Lower, TrimDots;
      PlainTraits(attrs, n - 1, initial);
      TraitsNext(attrs, n - 1, initial);
    }
  }

  // --- The cache against the log -------------------------------------------

  type Cache = map<Key, Cookie>

  datatype Event =
    | Inserted(cookie: Cookie)
    | Received(cookie: Cookie, now: int)
    | Removed(key: Key)
    | ClearedAll
    | Swept(now: int)

  function Unexpired(m: Cache, now: int): Cache {
    map k | k in m && !IsExpired(m[k], now) :: m[k]
  }

  function Update(m: Cache, e: Event): Cache {
    match e
    case Inserted(c) => m[KeyOf(c) := c]
    case Received(c, now) => if IsExpired(c, now) then m - {KeyOf(c)} else m[KeyOf(c) := c]
    case Removed(k) => m - {k}
    case ClearedAll => map[]
    case Swept(now) => Unexpired(m, now)
  }

  function Replay(events: seq<Event>): Cache {
    if events == [] then map[] else Update(Replay(events[..|events| - 1]), events[|events| - 1])
  }

  /** What the cache shows at `now`. */
  function View(m: Cache, key: Key, now: int): Option<Cookie> {
    if key in m && !IsExpired(m[key], now) then Some(m[key]) else None
  }

  /** The log: the last cookie written under a key, unless it was removed since. Expiry plays no part. */
  function LastWrite(events: seq<Event>, key: Key): Option<Cookie> {
    if events == [] then None else
      var before := LastWrite(events[..|events| - 1], key);
      match events[|events| - 1]
      case Inserted(c) => if KeyOf(c) == key then Some(c) else before
      case Received(c, _) => if KeyOf(c) == key then Some(c) else before
      case Removed(k) => if k == key then None else before
      case ClearedAll => None
      case Swept(_) => before
  }

  function LogView(events: seq<Event>, key: Key, now: int): Option<Cookie> {
    var c := LastWrite(events, key);
    if c.Some? && !IsExpired(c.value, now) then c else None
  }

  /** The last write was found expired when it came or by a sweep after it. */
  function Dropped(events: seq<Event>, key: Key): bool {
    if events == [] then false else
      var before := events[..|events| - 1];
      match events[|events| - 1]
      case Inserted(c) => KeyOf(c) != key && Dropped(before, key)
      case Received(c, now) => if KeyOf(c) == key then IsExpired(c, now) else Dropped(before, key)
      case Removed(k) => k != key && Dropped(before, key)
      case ClearedAll => false
      case Swept(now) => Dropped(before, key) || (LastWrite(before, key).Some? && IsExpired(LastWrite(before, key).value, now))
  }

  /** What the cache holds under a key, for any clock readings. */
  lemma {:induction false} CacheHolds(events: seq<Event>, key: Key)
    ensures (if key in Replay(events) then Some(Replay(events)[key]) else None)
         == if Dropped(events, key) then None else LastWrite(events, key)
  {
    hide KeyOf, IsExpired;
    if events != [] {
      CacheHolds(events[..|events| - 1], key);
    }
  }

  /** Cache and log show the same at `now` unless they disagree because a cookie alive at `now` was dropped earlier. */
  lemma {:induction false} CacheAgreesIff(events: seq<Event>, key: Key, now: int)
    ensures View(Replay(events), key, now) == LogView(events, key, now)
       <==> !(Dropped(events, key) && LogView(events, key, now).Some?)
  {
    hide Replay, LastWrite, Dropped;
    CacheHolds(events, key);
  }

  /** No clock reading of the history is later than `now`. */
  predicate ReadBefore(events: seq<Event>, now: int) {
    forall e | e in events :: (e.Received? || e.Swept?) ==> e.now <= now
  }

  lemma {:induction false} DroppedIsExpired(events: seq<Event>, key: Key, now: int)
    requires ReadBefore(events, now) && Dropped(events, key)
    ensures LastWrite(events, key).Some? && IsExpired(LastWrite(events, key).value, now)
  {
    hide KeyOf;
    var before, last := events[..|events| - 1], events[|events| - 1];
    assert last in events;
    assert ReadBefore(before, now);
    if Dropped(before, key) {
      DroppedIsExpired(before, key, now);
    }
  }

  /** With a clock that does not go back, the cache shows exactly what the log shows. */
  lemma {:induction false} CacheAgreesWithLog(events: seq<Event>, key: Key, now: int)
    requires ReadBefore(events, now)
    ensures View(Replay(events), key, now) == LogView(events, key, now)
  {
    hide Replay, LastWrite, Dropped;
    CacheAgreesIff(events, key, now);
    if Dropped(events, key) {
      DroppedIsExpired(events, key, now);
    }
  }

  /** If the clock goes back, a sweep may have dropped a cookie that is alive again. */
  lemma ClockGoingBackDisagrees()
    ensures var c := Cookie("a", "1", "example.com", "/", Some(5), false, false, None);
            var events := [Inserted(c), Swept(10)];
            LogView(events, KeyOf(c), 3) == Some(c) && View(Replay(events), KeyOf(c), 3) == None
  {
    var c := Cookie("a", "1", "example.com", "/", Some(5), false, false, None);
    var events := [Inserted(c), Swept(10)];
    hide KeyOf;
    assert events[..1] == [Inserted(c)] && [Inserted(c)][..0] == [];
    assert LastWrite([Inserted(c)], KeyOf(c)) == Some(c);
    CacheHolds(events, KeyOf(c));
  }

  /** The cookies a request at `now` carries, after the sweep it starts with. */
  function Applicable(m: Cache, url: Url, now: int): set<Cookie> {
    set k | k in m && CookieMatchesUrl(m[k], url, now) :: m[k]
  }

  /** A request carries exactly the matching cookies of the log. */
  lemma RequestCarriesTheLog(events: seq<Event>, url: Url, now: int, c: Cookie)
    requires ReadBefore(events, now)
    ensures c in Applicable(Unexpired(Replay(events), now), url, now)
       <==> LogView(events, KeyOf(c), now) == Some(c) && CookieMatchesUrl(c, url, now)
  {
    hide Replay, LastWrite, LogView, KeyOf, DomainMatches, StartsWith;
    var m := Replay(events);
    CacheAgreesWithLog(events, KeyOf(c), now);
    KeysAreTheirs(events);
    if c in Applicable(Unexpired(m, now), url, now) {
      var k :| k in m && m[k] == c && !IsExpired(c, now);
      assert k == KeyOf(c);
    }
    if View(m, KeyOf(c), now) == Some(c) && CookieMatchesUrl(c, url, now) {
      assert KeyOf(c) in Unexpired(m, now);
    }
  }

  lemma {:induction false} KeysAreTheirs(events: seq<Event>)
    ensures forall k | k in Replay(events) :: KeyOf(Replay(events)[k]) == k
  {
    hide KeyOf, IsExpired;
    if events != [] {
      KeysAreTheirs(events[..|events| - 1]);
    }
  }

  /** Exactly the names of these cookies, each with the value of one of them. */
  ghost predicate CarriesPairs(pairs: map<string, string>, cookies: set<Cookie>) {
    && (forall c | c in cookies :: c.name in pairs)
    && (forall name | name in pairs :: exists c | c in cookies :: c.name == name && c.value == pairs[name])
  }

  lemma PairAdded(pairs: map<string, string>, cookies: set<Cookie>, c: Cookie)
    requires CarriesPairs(pairs, cookies)
    ensures CarriesPairs(pairs[c.name := c.value], cookies + {c})
  {
    var after := pairs[c.name := c.value];
    forall name | name in after
      ensures exists d | d in cookies + {c} :: d.name == name && d.value == after[name]
    {
      if name == c.name {
        assert c in cookies + {c};
      } else {
        var d :| d in cookies && d.name == name && d.value == pairs[name];
        assert d in cookies + {c};
      }
    }
  }

  /** The matching cookies under some of the keys. */
  function MatchingUnder(m: Cache, keys: set<Key>, url: Url, now: int): set<Cookie> {
    set k | k in keys && k in m && CookieMatchesUrl(m[k], url, now) :: m[k]
  }

  lemma MatchingNext(m: Cache, keys: set<Key>, k: Key, url: Url, now: int)
    requires k in m
    ensures MatchingUnder(m, keys + {k}, url, now)
         == MatchingUnder(m, keys, url, now) + if CookieMatchesUrl(m[k], url, now) then {m[k]} else {}
  {
    hide CookieMatchesUrl;
  }

  lemma MatchingAll(m: Cache, url: Url, now: int)
    ensures MatchingUnder(m, m.Keys, url, now) == Applicable(m, url, now)
    ensures MatchingUnder(m, {}, url, now) == {}
  {
    hide CookieMatchesUrl;
  }

  /** The pairs of a request, collected in any order: one value per name, of some matching cookie with that name. */
  method CollectPairs(m: Cache, url: Url, now: int) returns (r: map<string, string>)
    ensures CarriesPairs(r, Applicable(m, url, now))
  {
    hide CookieMatchesUrl, MatchingUnder, Applicable;
    r := map[];
    var taken: set<Key> := {};
    MatchingAll(m, url, now);
    while m.Keys - taken != {}
      invariant taken <= m.Keys
      invariant CarriesPairs(r, MatchingUnder(m, taken, url, now))
      decreases m.Keys - taken
    {
      var k :| k in m.Keys - taken;
      MatchingNext(m, taken, k, url, now);
      if CookieMatchesUrl(m[k], url, now) {
        PairAdded(r, MatchingUnder(m, taken, url, now), m[k]);
        r := r[m[k].name := m[k].value];
      }
      taken := taken + {k};
    }
    forall k | k in m.Keys ensures k in taken {
      assert k !in m.Keys - taken;
    }
    assert taken == m.Keys;
  }

  class SharedCookieCache {
    var cookies: Cache
    ghost var events: seq<Event>

    ghost predicate Valid()
      reads this
    {
      cookies == Replay(events)
    }

    constructor ()
      ensures Valid() && events == []
    {
      cookies, events := map[], [];
    }

    ghost method Log(e: Event)
      requires cookies == Update(Replay(events), e)
      modifies `events
      ensures Valid() && events == old(events) + [e]
    {
      var before := events;
      events := events + [e];
      assert events[..|events| - 1] == before;
    }

    method InsertCookie(cookie: Cookie)
      requires Valid()
      modifies this
      ensures Valid() && events == old(events) + [Inserted(cookie)]
    {
      hide KeyOf, IsExpired, Replay;
      cookies := cookies[KeyOf(cookie) := cookie];
      Log(Inserted(cookie));
    }

    method RemoveCookie(domain: string, name: string, path: string)
      requires Valid()
      modifies this
      ensures Valid() && events == old(events) + [Removed(CookieKey(domain, path, name))]
    {
      hide CookieKey, IsExpired, Replay;
      cookies := cookies - {CookieKey(domain, path, name)};
      Log(Removed(CookieKey(domain, path, name)));
    }

    method Clear()
      requires Valid()
      modifies this
      ensures Valid() && events == old(events) + [ClearedAll]
    {
      cookies := map[];
      Log(ClearedAll);
    }

    /** `retain`, one entry after the other. */
    method ClearExpired(now: int)
      requires Valid()
      modifies this
      ensures Valid() && events == old(events) + [Swept(now)] && cookies == Unexpired(old(cookies), now)
    {
      hide IsExpired, Replay;
      var keys := cookies.Keys;
      while keys != {}
        invariant events == old(events) && keys <= cookies.Keys
        invariant cookies.Keys <= old(cookies).Keys && forall k | k in cookies :: cookies[k] == old(cookies)[k]
        invariant forall k | k in old(cookies) ::
                    k in cookies <==> k in keys || !IsExpired(old(cookies)[k], now)
        decreases |keys|
      {
        var k :| k in keys;
        if IsExpired(cookies[k], now) {
          cookies := cookies - {k};
        }
        keys := keys - {k};
      }
      Log(Swept(now));
    }

    /** The events of the first `n` headers; `read(i)` is the clock during the parse of header `i`, `checked(i)` after it. */
    static ghost function Headers(headers: seq<Option<string>>, n: nat, url: Url, ttl: int, read: nat -> nat -> int,
                                  checked: nat -> int, date: string -> Option<int>): seq<Event>
      requires n <= |headers|
    {
      if n == 0 then [] else
        Headers(headers, n - 1, url, ttl, read, checked, date)
        + HeaderEvent(headers[n - 1], url, ttl, read(n - 1), checked(n - 1), date)
    }

    static ghost function HeaderEvent(header: Option<string>, url: Url, ttl: int, clock: nat -> int, now: int,
                                      date: string -> Option<int>): seq<Event>
    {
      if header.None? then [] else
        var cookie := SetCookie(header.value, url, ttl, clock, date);
        if cookie.None? then [] else [Received(cookie.value, now)]
    }

    /** A received cookie replaces the one under its key, or removes it if it came expired. */
    method Receive(cookie: Cookie, now: int)
      requires Valid()
      modifies this
      ensures Valid() && events == old(events) + [Received(cookie, now)]
    {
      hide KeyOf, IsExpired, Replay;
      if IsExpired(cookie, now) {
        cookies := cookies - {KeyOf(cookie)};
      } else {
        cookies := cookies[KeyOf(cookie) := cookie];
      }
      Log(Received(cookie, now));
    }

    method SetFromHeader(header: Option<string>, url: Url, ttl: int, clock: nat -> int, now: int, date: string -> Option<int>)
      requires Valid()
      modifies this
      ensures Valid() && events == old(events) + HeaderEvent(header, url, ttl, clock, now, date)
    {
      hide SetCookie, Replay;
      if header.Some? {
        var cookie := ParseSetCookie(header.value, url, ttl, clock, date);
        if cookie.Some? {
          Receive(cookie.value, now);
        }
      }
    }

    /** `url` is None when it does not parse; a header is None when it is not text. */
    method SetFromSetCookieHeaders(url: Option<Url>, headers: seq<Option<string>>, ttl: int, read: nat -> nat -> int,
                                   checked: nat -> int, date: string -> Option<int>) returns (ok: bool)
      requires Valid()
      modifies this
      ensures Valid() && ok == url.Some?
      ensures events == old(events) + if ok then Headers(headers, |headers|, url.value, ttl, read, checked, date) else []
    {
      hide HeaderEvent, Replay;
      if url.None? { return false; }
      for i := 0 to |headers|
        invariant Valid() && events == old(events) + Headers(headers, i, url.value, ttl, read, checked, date)
      {
        SetFromHeader(headers[i], url.value, ttl, read(i), checked(i), date);
      }
      ok := true;
    }

    method CookiesForUrl(url: Url, now: int) returns (r: map<string, string>)
      requires Valid()
      modifies this
      ensures Valid() && events == old(events) + [Swept(now)]
      ensures CarriesPairs(r, Applicable(Unexpired(old(cookies), now), url, now))
    {
      ClearExpired(now);
      hide CarriesPairs, Applicable, Unexpired;
      r := CollectPairs(cookies, url, now);
    }
  }
}
