/** The request-independent checks of the image proxy endpoint
    (src/app/api/image/route.ts): the host name block list that guards
    against server-side request forgery, the URL gate built on it, and the
    media-type gate that admits only image media types. */
module ImagePolicy {
  import opened JsString

  /** Largest body the proxy will serve: 5 MiB. */
  const MAX_BYTES: nat := 5 * 1024 * 1024
  /** Deadline for the upstream request; timers are outside this model. */
  const REQUEST_TIMEOUT_MS: nat := 8000

  // ---------------------------------------------------------------------
  // Host names
  // ---------------------------------------------------------------------

  /** `localhost` and the local-only suffixes, on a lower-cased name. */
  predicate IsLocalName(h: string) {
    h == "localhost" || EndsWith(h, ".localhost") || EndsWith(h, ".local") || EndsWith(h, ".internal")
  }

  /** Anything that could be an IPv6 literal, bracketed or not. */
  predicate LooksLikeIpv6(h: string) {
    h == "::1" || ':' in h || StartsWith(h, "[")
  }

  /** The four capture groups of `^(\d{1,3})\.(\d{1,3})\.(\d{1,3})\.(\d{1,3})$`. */
  datatype Quad = Quad(a: string, b: string, c: string, d: string)

  predicate IsOctetText(p: string) { 1 <= |p| <= 3 && IsDigits(p) }

  predicate IsOctetQuad(q: Quad) {
    IsOctetText(q.a) && IsOctetText(q.b) && IsOctetText(q.c) && IsOctetText(q.d)
  }

  /** The text a quad of groups matches: the groups joined by dots. */
  function Dotted(q: Quad): string {
    q.a + "." + q.b + "." + q.c + "." + q.d
  }

  /** The dotted-quad pattern: a match gives groups of one to three digits
      that spell the whole name. */
  function MatchDottedQuad(h: string): (m: Option<Quad>)
    ensures m.Some? ==> IsOctetQuad(m.value) && Dotted(m.value) == h
  {
    var parts := Split(h, '.');
    if |parts| == 4 && IsOctetText(parts[0]) && IsOctetText(parts[1])
       && IsOctetText(parts[2]) && IsOctetText(parts[3])
    then
      var q := Quad(parts[0], parts[1], parts[2], parts[3]);
      DottedIsJoin(q);
      assert parts == [q.a, q.b, q.c, q.d];
      Some(q)
    else None
  }

  lemma DottedIsJoin(q: Quad)
    ensures Dotted(q) == Join([q.a, q.b, q.c, q.d], '.')
  {
    var s := [q.a, q.b, q.c, q.d];
    assert s[1..] == [q.b, q.c, q.d] && s[1..][1..] == [q.c, q.d] && s[1..][1..][1..] == [q.d];
    assert Join([q.c, q.d], '.') == q.c + "." + q.d;
    assert Join([q.b, q.c, q.d], '.') == q.b + "." + (q.c + "." + q.d);
    assert Join(s, '.') == q.a + "." + (q.b + "." + (q.c + "." + q.d));
  }

  /** Every name of the dotted-quad shape matches, with exactly its groups. */
  lemma MatchDottedQuadComplete(q: Quad)
    requires IsOctetQuad(q)
    ensures MatchDottedQuad(Dotted(q)) == Some(q)
  {
    DottedIsJoin(q);
    SplitJoin([q.a, q.b, q.c, q.d], '.');
  }

  /** The private and reserved IPv4 prefixes, judged on the first two
      octets as the route does (an octet above 255 is not rejected). */
  predicate IsReservedPrefix(a: nat, b: nat) {
    || a == 10
    || a == 127
    || a == 0
    || (a == 169 && b == 254)
    || (a == 172 && 16 <= b <= 31)
    || (a == 192 && b == 168)
    || (a == 100 && 64 <= b <= 127)
  }

  /** `isBlockedHostname`: lower-case the name, then block local names,
      IPv6-looking literals and dotted quads in a reserved prefix. */
  function IsBlockedHostname(hostname: string): bool
  {
    var h := ToLower(hostname);
    if IsLocalName(h) then true
    else if LooksLikeIpv6(h) then true
    else match MatchDottedQuad(h)
      case Some(q) => IsReservedPrefix(DigitsValue(q.a), DigitsValue(q.b))
      case None => false
  }

  /** The block list, stated on the lower-cased name: a local name, an
      IPv6-looking literal, or four groups of one to three digits joined by
      dots whose first two groups fall in a reserved prefix. No name is
      resolved, so every other name passes. */
  lemma IsBlockedHostnameExactly(hostname: string)
    ensures var h := ToLower(hostname);
      IsBlockedHostname(hostname) <==>
        IsLocalName(h) || LooksLikeIpv6(h)
        || exists q :: IsOctetQuad(q) && Dotted(q) == h
                       && IsReservedPrefix(DigitsValue(q.a), DigitsValue(q.b))
  {
    QuadBlockedExactly(ToLower(hostname));
  }

  lemma QuadBlockedExactly(h: string)
    ensures (exists q :: IsOctetQuad(q) && Dotted(q) == h
                         && IsReservedPrefix(DigitsValue(q.a), DigitsValue(q.b)))
            <==> (MatchDottedQuad(h).Some?
                  && IsReservedPrefix(DigitsValue(MatchDottedQuad(h).value.a),
                                      DigitsValue(MatchDottedQuad(h).value.b)))
  {
    if q :| IsOctetQuad(q) && Dotted(q) == h && IsReservedPrefix(DigitsValue(q.a), DigitsValue(q.b)) {
      MatchDottedQuadComplete(q);
    }
  }

  /** The block list does not depend on letter case. */
  lemma BlockedIgnoresCase(hostname: string)
    ensures IsBlockedHostname(ToLower(hostname)) == IsBlockedHostname(hostname)
  {
    ToLowerIdempotent(hostname);
  }

  /** Every IPv6 literal form is blocked, with or without brackets. */
  lemma Ipv6LiteralsBlocked(hostname: string)
    requires ':' in hostname || StartsWith(hostname, "[")
    ensures IsBlockedHostname(hostname)
  {
    var h := ToLower(hostname);
    if ':' in hostname {
      var i :| 0 <= i < |hostname| && hostname[i] == ':';
      assert h[i] == ':';
    } else {
      assert h[0] == '[';
      assert h[..1] == "[";
    }
  }

  /** A name under one of the local-only suffixes is blocked whatever the
      letter case of the suffix and whatever comes before it. */
  lemma LocalSuffixBlocked(name: string, suffix: string)
    requires suffix in {".localhost", ".local", ".internal"}
    ensures IsBlockedHostname(name + suffix)
    ensures IsBlockedHostname(name + ToUpperSuffix(suffix))
  {
    ToLowerAppend(name, suffix);
    ToLowerAppend(name, ToUpperSuffix(suffix));
    ToLowerOfLowerCase(suffix);
    assert ToLower(name + suffix)[|name + suffix| - |suffix|..] == suffix;
    assert ToLower(name + ToUpperSuffix(suffix))[|name + suffix| - |suffix|..] == suffix;
  }

  /** An address in a private range (RFC 1918) is blocked. */
  lemma PrivateSampleBlocked()
    ensures IsBlockedHostname("192.168.1.1")
  {
    SampleJudged("192", "168", "1", "1", "192.168.1.1");
    assert DigitsValue("192") == 192 && DigitsValue("168") == 168;
  }

  /** The loopback address is blocked. */
  lemma LoopbackSampleBlocked()
    ensures IsBlockedHostname("127.0.0.1")
  {
    SampleJudged("127", "0", "0", "1", "127.0.0.1");
    assert DigitsValue("127") == 127;
  }

  /** A public address passes. */
  lemma PublicSampleAllowed()
    ensures !IsBlockedHostname("8.8.8.8")
  {
    SampleJudged("8", "8", "8", "8", "8.8.8.8");
    assert DigitsValue("8") == 8;
  }

  /** A sample name spelled from four digit groups is judged on its first
      two. */
  lemma SampleJudged(a: string, b: string, c: string, d: string, name: string)
    requires IsOctetQuad(Quad(a, b, c, d)) && a + "." + b + "." + c + "." + d == name
    ensures IsBlockedHostname(name) == IsReservedPrefix(DigitsValue(a), DigitsValue(b))
  {
    QuadJudged(Quad(a, b, c, d));
  }

  /** A digits-and-dots name is judged on its first two groups alone. */
  lemma QuadJudged(q: Quad)
    requires IsOctetQuad(q)
    ensures IsBlockedHostname(Dotted(q)) == IsReservedPrefix(DigitsValue(q.a), DigitsValue(q.b))
  {
    QuadIsNotANameOrIpv6(q);
    ToLowerOfLowerCase(Dotted(q));
    MatchDottedQuadComplete(q);
  }

  lemma QuadIsNotANameOrIpv6(q: Quad)
    requires IsOctetQuad(q)
    ensures IsLowerCase(Dotted(q)) && !LooksLikeIpv6(Dotted(q)) && !IsLocalName(Dotted(q))
  {
    var h := Dotted(q);
    assert forall i :: 0 <= i < |h| ==> h[i] == '.' || IsDigit(h[i]);
    assert h[0] == q.a[0];
    assert h[|h| - 1] == q.d[|q.d| - 1];
  }

  /** Names are judged as written: a fully qualified `localhost.`, with the
      trailing root dot, is not on the list, although it names the same
      host as `localhost`. */
  lemma FullyQualifiedLocalhostPasses()
    ensures !IsBlockedHostname("localhost.")
    ensures IsBlockedHostname("localhost")
  {
    assert IsBlockedHostname("localhost") by {
      ToLowerOfLowerCase("localhost");
    }
    assert !IsBlockedHostname("localhost.") by {
      LocalhostDotShape();
      ToLowerOfLowerCase("localhost.");
    }
  }

  lemma LocalhostDotShape()
    ensures IsLowerCase("localhost.") && !IsLocalName("localhost.")
    ensures !LooksLikeIpv6("localhost.") && MatchDottedQuad("localhost.").None?
  {
    var h := "localhost.";
    assert IsLowerCase(h) && !LooksLikeIpv6(h) by {
      assert forall i :: 0 <= i < |h| ==> h[i] == '.' || 'a' <= h[i] <= 'z';
      assert h[0] == 'l';
    }
    assert !IsLocalName(h) by {
      assert h[|h| - 1] == '.';
    }
    assert MatchDottedQuad(h).None? by {
      assert h == "localhost" + ['.'] + "";
      SplitPrefix("localhost", "", '.');
    }
  }

  /** The upper-case spelling of a lower-case ASCII suffix. */
  function ToUpperSuffix(s: string): (r: string)
    requires IsLowerCase(s)
    ensures |r| == |s| && ToLower(r) == s
  {
    var r := seq(|s|, i requires 0 <= i < |s| => if 'a' <= s[i] <= 'z' then (s[i] as int - 32) as char else s[i]);
    assert forall i :: 0 <= i < |s| ==> ToLower(r)[i] == s[i];
    r
  }

  // ---------------------------------------------------------------------
  // The reserved prefixes as CIDR blocks
  // ---------------------------------------------------------------------

  /** An IPv4 block `a.b.0.0/len`. */
  datatype Cidr = Cidr(a: nat, b: nat, len: nat)

  /** RFC 1918 private ranges, the RFC 3927 link-local range, the RFC 6598
      shared address space, and "this network" and loopback from section
      3.2.1.3 of RFC 1122. */
  const ReservedBlocks: seq<Cidr> := [
    Cidr(10, 0, 8), Cidr(127, 0, 8), Cidr(0, 0, 8), Cidr(169, 254, 16),
    Cidr(172, 16, 12), Cidr(192, 168, 16), Cidr(100, 64, 10)
  ]

  /** The 32-bit address `a.b.c.d`. */
  function Address(a: nat, b: nat, c: nat, d: nat): nat {
    ((a * 256 + b) * 256 + c) * 256 + d
  }

  /** The number of addresses that share the first `len` bits, for the
      prefix lengths used here. */
  function BlockSize(len: nat): nat
    requires len in {8, 10, 12, 16}
  {
    match len
    case 8 => 0x100_0000
    case 10 => 0x40_0000
    case 12 => 0x10_0000
    case _ => 0x1_0000
  }

  /** `addr` lies in the block: at or above its base address and below
      the base plus the block size. */
  predicate InBlock(addr: nat, blk: Cidr)
    requires blk.len in {8, 10, 12, 16}
  {
    var base := Address(blk.a, blk.b, 0, 0);
    base <= addr < base + BlockSize(blk.len)
  }

  /** For a real address (every octet at most 255), the two-octet test of
      the route is exactly membership in one of the reserved CIDR blocks. */
  lemma ReservedPrefixIsCidr(a: nat, b: nat, c: nat, d: nat)
    requires a < 256 && b < 256 && c < 256 && d < 256
    ensures IsReservedPrefix(a, b) <==>
            exists i :: 0 <= i < |ReservedBlocks| && InBlock(Address(a, b, c, d), ReservedBlocks[i])
  {
    var addr := Address(a, b, c, d);
    assert addr == a * 0x100_0000 + b * 0x1_0000 + c * 256 + d;
    if IsReservedPrefix(a, b) {
      if a == 10 { assert InBlock(addr, ReservedBlocks[0]); }
      else if a == 127 { assert InBlock(addr, ReservedBlocks[1]); }
      else if a == 0 { assert InBlock(addr, ReservedBlocks[2]); }
      else if a == 169 { assert InBlock(addr, ReservedBlocks[3]); }
      else if a == 172 { assert InBlock(addr, ReservedBlocks[4]); }
      else if a == 192 { assert InBlock(addr, ReservedBlocks[5]); }
      else { assert InBlock(addr, ReservedBlocks[6]); }
    } else if i :| 0 <= i < |ReservedBlocks| && InBlock(addr, ReservedBlocks[i]) {
      BlockMemberIsReserved(a, b, c, d, i);
    }
  }

  lemma BlockMemberIsReserved(a: nat, b: nat, c: nat, d: nat, i: nat)
    requires a < 256 && b < 256 && c < 256 && d < 256
    requires i < |ReservedBlocks| && InBlock(Address(a, b, c, d), ReservedBlocks[i])
    ensures IsReservedPrefix(a, b)
  {
    var rest := b * 0x1_0000 + c * 256 + d;
    assert Address(a, b, c, d) == a * 0x100_0000 + rest;
    assert 0 <= rest < 0x100_0000;
    var low := c * 256 + d;
    assert 0 <= low < 0x1_0000;
    if i == 0 { assert ReservedBlocks[i] == Cidr(10, 0, 8); }
    else if i == 1 { assert ReservedBlocks[i] == Cidr(127, 0, 8); }
    else if i == 2 { assert ReservedBlocks[i] == Cidr(0, 0, 8); }
    else if i == 3 { assert ReservedBlocks[i] == Cidr(169, 254, 16); }
    else if i == 4 { assert ReservedBlocks[i] == Cidr(172, 16, 12); }
    else if i == 5 { assert ReservedBlocks[i] == Cidr(192, 168, 16); }
    else { assert ReservedBlocks[i] == Cidr(100, 64, 10); }
  }

  // ---------------------------------------------------------------------
  // URL gate
  // ---------------------------------------------------------------------

  /** What `new URL(raw)` yields that the route looks at. */
  datatype Url = Url(protocol: string, hostname: string, href: string)

  /** A URL the proxy may fetch: http or https, to a host not blocked. */
  predicate IsAllowedTarget(u: Url) {
    (u.protocol == "http:" || u.protocol == "https:") && !IsBlockedHostname(u.hostname)
  }

  /** `parseAndValidateUrl`, with the WHATWG parser as the parameter
      `parse` (`None` where the constructor throws). A URL comes back only
      when it parsed, its scheme is http or https and its host is not
      blocked; it is then the parsed URL itself. */
  function ParseAndValidateUrl(raw: string, parse: string -> Option<Url>): (r: Option<Url>)
    ensures r.Some? <==> parse(raw).Some? && IsAllowedTarget(parse(raw).value)
    ensures r.Some? ==> r == parse(raw)
  {
    match parse(raw)
    case None => None
    case Some(url) =>
      if url.protocol != "http:" && url.protocol != "https:" then None
      else if IsBlockedHostname(url.hostname) then None
      else Some(url)
  }

  // ---------------------------------------------------------------------
  // Media-type gate
  // ---------------------------------------------------------------------

  /** `pickImageContentType`: keep the media type before any parameters,
      trimmed and lower-cased, and only when it is an image type. */
  function PickImageContentType(remote: Option<string>): (r: Option<string>)
    ensures (remote.None? || remote.value == "") ==> r.None?
    ensures r.Some? ==> StartsWith(r.value, "image/") && IsLowerCase(r.value)
                        && IsTrimmed(r.value) && ';' !in r.value
  {
    if remote.None? || remote.value == "" then None
    else
      var first := Split(remote.value, ';')[0];
      var ct := ToLower(Trim(first));
      LowerPreservesTrimmed(Trim(first));
      assert ';' !in Trim(first);
      if StartsWith(ct, "image/") then Some(ct) else None
  }

  /** For a non-empty header, the gate looks at the text before the first
      `;` (all of it when there is none), trimmed and lower-cased, and
      keeps it exactly when it starts with `image/`. */
  lemma PickReadsFirstSegment(header: string, first: string)
    requires header != "" && StartsWith(header, first) && ';' !in first
    requires |first| == |header| || header[|first|] == ';'
    ensures var ct := ToLower(Trim(first));
            PickImageContentType(Some(header)) == if StartsWith(ct, "image/") then Some(ct) else None
  {
    SplitFirst(header, ';');
    var q := Split(header, ';')[0];
    assert |q| == |first| && q == header[..|q|] == first;
  }

  /** The gate is idempotent: its own answer passes it unchanged. */
  lemma PickImageContentTypeIdempotent(remote: Option<string>)
    requires PickImageContentType(remote).Some?
    ensures PickImageContentType(PickImageContentType(remote)) == PickImageContentType(remote)
  {
    var ct := PickImageContentType(remote).value;
    SplitNoSep(ct, ';');
    ToLowerOfLowerCase(ct);
  }

  /** Media-type parameters after the first `;` never change the verdict. */
  lemma PickIgnoresParameters(mediaType: string, params: string)
    requires ';' !in mediaType
    ensures PickImageContentType(Some(mediaType + ";" + params)) == PickImageContentType(Some(mediaType))
  {
    SplitPrefix(mediaType, params, ';');
    SplitNoSep(mediaType, ';');
    assert mediaType + ";" + params == mediaType + [';'] + params;
  }

  /** The gate does not depend on the letter case of the header. */
  lemma PickIgnoresCase(header: string)
    ensures PickImageContentType(Some(ToLower(header))) == PickImageContentType(Some(header))
  {
    SplitLower(header, ';');
    TrimLower(Split(header, ';')[0]);
    ToLowerIdempotent(Trim(Split(header, ';')[0]));
  }

  lemma {:induction false} SplitLower(s: string, sep: char)
    requires !IsUpperAscii(sep) && !('a' <= sep <= 'z')
    ensures Split(ToLower(s), sep)[0] == ToLower(Split(s, sep)[0])
  {
    if s != [] {
      var t := ToLower(s);
      SplitLower(s[1..], sep);
      assert t[1..] == ToLower(s[1..]);
      assert t[0] == LowerChar(s[0]);
      if s[0] != sep {
        assert t[0] != sep;
        assert Split(t, sep)[0] == [t[0]] + Split(t[1..], sep)[0];
        ToLowerAppend([s[0]], Split(s[1..], sep)[0]);
      }
    }
  }

  lemma {:induction false} TrimLower(s: string)
    ensures Trim(ToLower(s)) == ToLower(Trim(s))
  {
    TrimStartLower(s);
    TrimEndLower(TrimStart(s));
  }

  lemma {:induction false} TrimStartLower(s: string)
    ensures TrimStart(ToLower(s)) == ToLower(TrimStart(s))
  {
    var t := ToLower(s);
    if s != [] {
      assert t[0] == LowerChar(s[0]);
      assert IsJsSpace(t[0]) == IsJsSpace(s[0]);
      if IsJsSpace(s[0]) {
        assert t[1..] == ToLower(s[1..]);
        TrimStartLower(s[1..]);
      }
    }
  }

  lemma {:induction false} TrimEndLower(s: string)
    ensures TrimEnd(ToLower(s)) == ToLower(TrimEnd(s))
  {
    var t := ToLower(s);
    if s != [] {
      assert t[|s| - 1] == LowerChar(s[|s| - 1]);
      assert IsJsSpace(t[|s| - 1]) == IsJsSpace(s[|s| - 1]);
      if IsJsSpace(s[|s| - 1]) {
        assert t[..|s| - 1] == ToLower(s[..|s| - 1]);
        TrimEndLower(s[..|s| - 1]);
      }
    }
  }
}
