/**
 * Opening the page in a blank tab (openInNewTab in src/utils/download.ts):
 * the document written into the new tab is a pure function of the URL.
 */
module NewTab {
  import opened Validation

  /** The sandbox the new tab's iframe gets, and nothing more. */
  const SandboxTokens: string := "allow-scripts allow-same-origin"

  const IframeOpen: string := "<iframe src=\""

  const IframeClose: string := "\" sandbox=\"" + SandboxTokens + "\"></iframe>"

  /** The template literal before the iframe tag: a leading newline, the doctype, the title U+3164 and the full-viewport style reset. */
  const HeadMarkup: string :=
    "\n"
    + "      <!DOCTYPE html>\n"
    + "      <html>\n"
    + "        <head>\n"
    + "          <title>\U{3164}</title>\n"
    + "          <style>\n"
    + "            body, html {\n"
    + "              margin: 0;\n"
    + "              padding: 0;\n"
    + "              width: 100%;\n"
    + "              height: 100%;\n"
    + "              overflow: hidden;\n"
    + "            }\n"
    + "            iframe {\n"
    + "              width: 100%;\n"
    + "              height: 100%;\n"
    + "              border: none;\n"
    + "            }\n"
    + "          </style>\n"
    + "        </head>\n"
    + "        <body>\n"
    + "          "

  /** The template literal after the iframe tag. */
  const TailMarkup: string := "\n        </body>\n      </html>\n    "

  /** The template up to the interpolated URL, and after it. */
  const DocumentHead: string := HeadMarkup + IframeOpen
  const DocumentTail: string := IframeClose + TailMarkup

  lemma Embedding(head: string, value: string, tail: string)
    ensures var s := head + value + tail;
      s[|head|..|head| + |value|] == value && s[|head|..] == value + tail && s[|head| + |value|..] == tail
  {
  }

  /**
   * The document written into the new tab: the fixed template around the URL,
   * which is interpolated as it is, without escaping.
   */
  function NewTabDocument(url: string): (d: string)
    ensures |d| == |DocumentHead| + |url| + |DocumentTail|
    ensures DocumentHead <= d && d[|DocumentHead|..|DocumentHead| + |url|] == url
    ensures d[|DocumentHead| + |url|..] == DocumentTail
  {
    Embedding(DocumentHead, url, DocumentTail);
    DocumentHead + url + DocumentTail
  }

  /** Where the value of the src attribute starts in the document. */
  const SrcStart: nat := |DocumentHead|

  /**
   * The URL stands verbatim right after the opening `<iframe src="` and right
   * before `" sandbox="allow-scripts allow-same-origin"></iframe>`.
   */
  lemma NewTabDocumentShape(url: string)
    ensures var d := NewTabDocument(url);
      SrcStart >= |IframeOpen| &&
      d[SrcStart - |IframeOpen|..SrcStart] == IframeOpen &&
      d[SrcStart..SrcStart + |url|] == url &&
      IframeClose <= d[SrcStart + |url|..]
  {
    Embedding(DocumentHead, url, DocumentTail);
    Embedding(HeadMarkup, IframeOpen, []);
    assert DocumentHead + [] == DocumentHead;
    var d := NewTabDocument(url);
    assert d[..SrcStart] == DocumentHead;
    assert d[SrcStart - |IframeOpen|..SrcStart] == DocumentHead[|HeadMarkup|..];
  }

  /**
   * The raw text of a double-quoted attribute value: everything before the
   * first '"'. Character references and the input stream's normalisation are
   * not applied.
   */
  function UpToQuote(s: string): (r: string)
    ensures r <= s && '"' !in r
    ensures |r| < |s| ==> s[|r|] == '"'
  {
    if s == [] || s[0] == '"' then [] else [s[0]] + UpToQuote(s[1..])
  }

  /** A quote-free value followed by a closing quote reads back as itself, and only a quote-free one does. */
  lemma {:induction false} QuotedValue(value: string, tail: string)
    requires |tail| > 0 && tail[0] == '"'
    ensures UpToQuote(value + tail) == value <==> '"' !in value
  {
    if value == [] {
      assert value + tail == tail;
    } else if value[0] != '"' {
      assert (value + tail)[1..] == value[1..] + tail;
      QuotedValue(value[1..], tail);
      assert value == [value[0]] + value[1..];
    }
  }

  /**
   * The raw text of the src attribute, up to its closing quote, is the URL
   * exactly when the URL holds no double quote; a quote in the URL ends the
   * attribute early, because the URL is not escaped.
   */
  lemma SrcAttributeIsUrl(url: string)
    ensures UpToQuote(NewTabDocument(url)[SrcStart..]) == url <==> '"' !in url
  {
    Embedding(DocumentHead, url, DocumentTail);
    assert DocumentTail[0] == IframeClose[0];
    QuotedValue(url, DocumentTail);
  }

  /** A URL that passed isValidUrl cannot close the src attribute early: the raw attribute text is the whole URL. */
  lemma ValidUrlStaysInSrc(url: string)
    requires IsValidUrl(url)
    ensures UpToQuote(NewTabDocument(url)[SrcStart..]) == url
  {
    var k := if Http <= url then |Http| else |Https|;
    UrlCharsAsMembership(url[k..]);
    assert url[..k] == Http || url[..k] == Https;
    forall i | 0 <= i < |url| ensures url[i] != '"' {
      if i < k {
        assert url[i] == url[..k][i];
      } else {
        assert url[i] == url[k..][i - k];
      }
    }
    SrcAttributeIsUrl(url);
  }

  /** The events openInNewTab causes. */
  datatype TabEffect =
    | OpenWindow(address: string, target: string)
    | WriteDocument(html: string)
    | CloseDocument

  /**
   * openInNewTab: open "about:blank" in a new tab; if the browser returned a
   * window (`windowOpened`), write the document into it and close the stream;
   * otherwise (a blocked popup) do nothing more.
   */
  method OpenInNewTab(url: string, windowOpened: bool) returns (trace: seq<TabEffect>)
    ensures |trace| > 0 && trace[0] == OpenWindow("about:blank", "_blank")
    ensures !windowOpened ==> |trace| == 1
    ensures windowOpened ==> trace[1..] == [WriteDocument(NewTabDocument(url)), CloseDocument]
  {
    trace := [OpenWindow("about:blank", "_blank")];
    if windowOpened {
      var html := NewTabDocument(url);
      trace := trace + [WriteDocument(html)];
      trace := trace + [CloseDocument];
    }
  }
}
