/**
 * The legacy entry point (main.js): its own normaliser ensureHttps and the
 * page object that holds the iframe's `src` and the module's `currentUrl`.
 */
module Legacy {
  import opened Wrappers
  import opened Validation

  /**
   * ensureHttps: a "www." input without a scheme gets "https://", and so does
   * every other input without a scheme, the empty string included.
   */
  function EnsureHttps(url: string): (r: string)
    ensures HasProtocol(r)
    ensures r == url || r == Https + url
    ensures r == url <==> HasProtocol(url)
  {
    if "www." <= url && !(Http <= url) && !(Https <= url) then Https + url
    else if !(Http <= url) && !(Https <= url) then Https + url
    else url
  }

  /** The "www." branch gives what the general branch gives: without a scheme the result is always "https://" + url. */
  lemma EnsureHttpsCases(url: string)
    ensures HasProtocol(url) ==> EnsureHttps(url) == url
    ensures !HasProtocol(url) ==> EnsureHttps(url) == Https + url
  {
  }

  /** The two normalisers differ on the empty string only. */
  lemma EnsureHttpsVersusEnsureProtocol(url: string)
    ensures EnsureHttps("") == "https://" && EnsureProtocol("") == ""
    ensures url != "" ==> EnsureHttps(url) == EnsureProtocol(url)
  {
  }

  lemma EnsureHttpsIdempotent(url: string)
    ensures EnsureHttps(EnsureHttps(url)) == EnsureHttps(url)
  {
  }

  /** The iframe element with id "myIframe" and the module variable `currentUrl`. */
  class Page {
    var iframeSrc: string
    var currentUrl: string

    /** Module start: `currentUrl` is ""; the iframe keeps whatever `src` the document gave it. */
    constructor (initialSrc: string)
      ensures iframeSrc == initialSrc && currentUrl == ""
    {
      iframeSrc := initialSrc;
      currentUrl := "";
    }

    /** loadIframe: the iframe's `src` becomes the normalised URL; `currentUrl` is untouched. */
    method LoadIframe(url: string)
      modifies this
      ensures iframeSrc == EnsureHttps(url)
      ensures currentUrl == old(currentUrl)
    {
      var ensuredUrl := EnsureHttps(url);
      iframeSrc := ensuredUrl;
    }

    /**
     * The window's load handler. `initialUrl` is the `url` query parameter
     * (None when absent); both it and `currentUrl` are used only when truthy.
     */
    method OnLoad(initialUrl: Option<string>)
      modifies this
      ensures currentUrl == old(currentUrl)
      ensures initialUrl.Some? && initialUrl.value != "" ==> iframeSrc == EnsureHttps(initialUrl.value)
      ensures !(initialUrl.Some? && initialUrl.value != "") ==>
        iframeSrc == (if old(currentUrl) != "" then old(currentUrl) else old(iframeSrc))
    {
      if currentUrl != "" {
        iframeSrc := currentUrl;
      }
      if initialUrl.Some? && initialUrl.value != "" {
        LoadIframe(initialUrl.value);
      }
    }
  }
}
