/**
 * URL validation and normalisation of the viewer (src/utils/validation.ts).
 * Strings are sequences of characters; the regular expressions of the source
 * are written out as the prefix and character-class tests they stand for.
 */
module Validation {
  import opened Wrappers

  const Http: string := "http://"
  const Https: string := "https://"

  /** The fallback that extractDomain returns when the URL cannot be parsed. */
  const UnknownDomain: string := "unknown-domain"

  /** `/^(http|https):\/\//`: the string starts with one of the two schemes and "://". */
  predicate HasProtocol(u: string): (b: bool)
    ensures b <==> |u| >= 7 && u[..4] == "http" && (u[4..7] == "://" || (|u| >= 8 && u[4..8] == "s://"))
  {
    assert Http == "http" + "://" && Https == "http" + "s://";
    Http <= u || Https <= u
  }

  /** The character class `[^ "]`: anything but a space or a double quote. */
  predicate UrlChar(c: char) {
    c != ' ' && c != '"'
  }

  /** `[^ "]+$`: one or more characters of the class, up to the end of the string. */
  predicate OneOrMoreUrlChars(s: string) {
    |s| > 0 && forall i :: 0 <= i < |s| ==> UrlChar(s[i])
  }

  /**
   * isValidUrl: `/^(http|https):\/\/[^ "]+$/.test(url)`, tried alternative by
   * alternative. The match is case-sensitive and anchored at both ends.
   */
  predicate IsValidUrl(u: string): (b: bool)
    ensures b ==> HasProtocol(u) && |u| > |Http| && u[|u| - 1] != ' ' && u[|u| - 1] != '"'
  {
    (Http <= u && OneOrMoreUrlChars(u[|Http|..])) ||
    (Https <= u && OneOrMoreUrlChars(u[|Https|..]))
  }

  /** A URL built from a scheme and the text after "://". */
  function Join(scheme: string, rest: string): string {
    scheme + "://" + rest
  }

  /** Reference reading of the pattern: a scheme of the two, "://", then a non-empty tail without space or quote. */
  ghost predicate ValidUrlForm(u: string) {
    exists scheme: string, rest: string ::
      (scheme == "http" || scheme == "https") && u == Join(scheme, rest) &&
      |rest| > 0 && ' ' !in rest && '"' !in rest
  }

  lemma JoinSchemes(rest: string)
    ensures Join("http", rest) == Http + rest
    ensures Join("https", rest) == Https + rest
  {
    assert "http" + "://" == Http;
    assert "https" + "://" == Https;
  }

  /** The character-class test as membership: no space and no double quote. */
  lemma UrlCharsAsMembership(s: string)
    ensures OneOrMoreUrlChars(s) <==> |s| > 0 && ' ' !in s && '"' !in s
  {
    if |s| > 0 && ' ' !in s && '"' !in s {
      forall i | 0 <= i < |s| ensures UrlChar(s[i]) {
        assert s[i] in s;
      }
    }
  }

  /** isValidUrl accepts exactly the strings of the reference form, in both directions. */
  lemma {:induction false} IsValidUrlCharacterized(u: string)
    ensures IsValidUrl(u) <==> ValidUrlForm(u)
  {
    if IsValidUrl(u) {
      var scheme := if Http <= u then "http" else "https";
      var p := if Http <= u then Http else Https;
      var rest := u[|p|..];
      JoinSchemes(rest);
      UrlCharsAsMembership(rest);
      assert u == Join(scheme, rest);
    }
    if ValidUrlForm(u) {
      var scheme: string, rest: string :|
        (scheme == "http" || scheme == "https") && u == Join(scheme, rest) &&
        |rest| > 0 && ' ' !in rest && '"' !in rest;
      JoinSchemes(rest);
      UrlCharsAsMembership(rest);
      var p := if scheme == "http" then Http else Https;
      assert u == p + rest;
      assert u[|p|..] == rest;
    }
  }

  /** The case-sensitive, anchored pattern rejects the empty string, a bare scheme and an upper-case scheme. */
  lemma IsValidUrlRejects()
    ensures !IsValidUrl("")
    ensures !IsValidUrl("http://") && !IsValidUrl("https://")
    ensures !IsValidUrl("HTTP://x") && !IsValidUrl("Https://x")
    ensures !IsValidUrl("not a url") && !IsValidUrl("example.com")
    ensures !IsValidUrl("https://a b") && !IsValidUrl("http://a\"b")
  {
    assert !(Http <= "https://") by { assert "https://"[4] != Http[4]; }
    assert !(Http <= "HTTP://x") && !(Https <= "HTTP://x") by { assert "HTTP://x"[0] != 'h'; }
    assert !(Http <= "Https://x") && !(Https <= "Https://x") by { assert "Https://x"[0] != 'h'; }
    assert !(Http <= "https://a b") by { assert "https://a b"[4] != Http[4]; }
    assert ("https://a b")[|Https|..][1] == ' ';
    assert ("http://a\"b")[|Http|..][1] == '"';
  }

  /**
   * ensureProtocol: the empty string stays empty, a string that already has a
   * scheme is returned as it is, anything else gets "https://" in front. (The
   * source's doc comment speaks of http://; the code prepends https://.)
   */
  function EnsureProtocol(u: string): (r: string)
    ensures r == "" <==> u == ""
    ensures r == u || r == Https + u
    ensures u != "" ==> HasProtocol(r)
  {
    if u == "" then ""
    else if !HasProtocol(u) then Https + u
    else u
  }

  /** The three cases of ensureProtocol, stated separately. */
  lemma EnsureProtocolCases(u: string)
    ensures EnsureProtocol("") == ""
    ensures HasProtocol(u) ==> EnsureProtocol(u) == u
    ensures u != "" && !HasProtocol(u) ==> EnsureProtocol(u) == Https + u
  {
  }

  lemma EnsureProtocolIdempotent(u: string)
    ensures EnsureProtocol(EnsureProtocol(u)) == EnsureProtocol(u)
  {
  }

  /** A normalised bare input is valid exactly when it is free of spaces and quotes. */
  lemma {:induction false} EnsureProtocolValid(u: string)
    requires u != "" && !HasProtocol(u)
    ensures IsValidUrl(EnsureProtocol(u)) <==> OneOrMoreUrlChars(u)
  {
    var r := Https + u;
    assert r[|Https|..] == u;
    assert !(Http <= r) by { assert r[4] == 's'; }
  }

  /** Input "example.com" is normalised to "https://example.com", which is valid. */
  lemma ExampleComScenario()
    ensures EnsureProtocol("example.com") == "https://example.com"
    ensures IsValidUrl(EnsureProtocol("example.com"))
  {
    var u := "example.com";
    assert !HasProtocol(u) by { assert u[0] == 'e'; }
    assert Https + u == "https://example.com";
    forall i | 0 <= i < |u| ensures UrlChar(u[i]) {
      assert u[i] in "abcelmopx.";
    }
    EnsureProtocolValid(u);
  }

  /**
   * extractDomain: the hostname the URL parser finds, or "unknown-domain" when
   * the parser throws. The WHATWG parser is `parseHost`: it returns None where
   * `new URL(url)` would throw.
   */
  function ExtractDomain(url: string, parseHost: string -> Option<string>): (r: string)
    ensures parseHost(url).None? ==> r == UnknownDomain
    ensures parseHost(url).Some? ==> r == parseHost(url).value
  {
    match parseHost(url)
    case Some(host) => host
    case None => UnknownDomain
  }
}
