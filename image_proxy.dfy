/** `toProxied` in src/lib/imageProxy.ts: remote http and https image
    addresses are rewritten to the proxy endpoint, everything else is left
    alone. `encodeURIComponent` is the parameter `encode`. */
module ImageProxy {
  import opened JsString

  const PROXY_PATH: string := "/api/image?url="

  /** The test `^https?://` with the `i` flag: the scheme letters in any
      case, then `://`. */
  predicate IsRemoteHttp(src: string) {
    StartsWith(ToLower(src), "http://") || StartsWith(ToLower(src), "https://")
  }

  /** `toProxied`: falsy input gives the empty string, a remote http(s)
      address becomes a proxy path carrying the encoded address, and any
      other address comes back unchanged. */
  function ToProxied(src: Option<string>, encode: string -> string): (r: string)
    ensures r == "" <==> src.None? || src.value == ""
    ensures src.Some? && IsRemoteHttp(src.value) ==> r == PROXY_PATH + encode(src.value)
    ensures src.Some? && src.value != "" && !IsRemoteHttp(src.value) ==> r == src.value
  {
    if src.None? || src.value == "" then ""
    else if IsRemoteHttp(src.value) then PROXY_PATH + encode(src.value)
    else src.value
  }

  /** A proxy path is a local path: it starts with `/` and is never taken
      for a remote address. */
  lemma ProxyPathIsLocal(encoded: string)
    ensures StartsWith(PROXY_PATH + encoded, "/")
    ensures !IsRemoteHttp(PROXY_PATH + encoded)
  {
    var p := ToLower(PROXY_PATH + encoded);
    assert p[0] == '/';
    assert !StartsWith(p, "http://") by { assert "http://"[0] != p[0]; }
    assert !StartsWith(p, "https://") by { assert "https://"[0] != p[0]; }
  }

  /** Rewriting twice is rewriting once. */
  lemma ToProxiedIdempotent(src: Option<string>, encode: string -> string)
    ensures ToProxied(Some(ToProxied(src, encode)), encode) == ToProxied(src, encode)
  {
    if src.Some? && src.value != "" && IsRemoteHttp(src.value) {
      ProxyPathIsLocal(encode(src.value));
    }
  }

  /** The scheme test ignores the case of the scheme letters. */
  lemma RemoteHttpIgnoresCase(src: string)
    ensures IsRemoteHttp(ToLower(src)) <==> IsRemoteHttp(src)
  {
    ToLowerIdempotent(src);
  }

  /** An upper-case scheme is proxied like a lower-case one. */
  lemma UpperCaseSchemeProxied(encode: string -> string)
    ensures ToProxied(Some("HTTPS://example.org/a.png"), encode) ==
            PROXY_PATH + encode("HTTPS://example.org/a.png")
  {
    assert ToLower("HTTPS://example.org/a.png")[..8] == "https://";
  }

  /** An address that does not start with the letter h, such as a local
      path or a `data:` URL, is left alone. */
  lemma NonHttpUnchanged(src: string, encode: string -> string)
    requires src != "" && src[0] != 'h' && src[0] != 'H'
    ensures ToProxied(Some(src), encode) == src
  {
    var lowered := ToLower(src);
    assert lowered[0] != 'h';
    assert !StartsWith(lowered, "http://") by { assert "http://"[0] == 'h'; }
    assert !StartsWith(lowered, "https://") by { assert "https://"[0] == 'h'; }
  }

  /** The site's own asset paths are left alone. */
  lemma LocalPathUnchanged(encode: string -> string)
    ensures ToProxied(Some("/next.svg"), encode) == "/next.svg"
  {
    NonHttpUnchanged("/next.svg", encode);
  }

  /** An address missing one slash of `://` is not taken for a remote
      one. */
  lemma MissingSlashUnchanged(encode: string -> string)
    ensures ToProxied(Some("http:/example.org"), encode) == "http:/example.org"
  {
    var lowered := ToLower("http:/example.org");
    assert lowered[6] == 'e';
    assert !StartsWith(lowered, "http://") by { assert "http://"[6] == '/'; }
    assert !StartsWith(lowered, "https://") by { assert "https://"[4] == 's' && lowered[4] == ':'; }
  }
}
