/** The URL shortener (ui/tools/url_shortener.py): the typed URL is stripped,
    given an "https://" scheme when it has neither "http://" nor "https://",
    and sent unescaped to TinyURL's creation endpoint. `QUrl.isValid` and the
    HTTP request are parameters. */
module UrlShortener {
  import opened StringOps

  const ApiBase := "https://tinyurl.com/api-create.php?url="

  const Ready := "准备就绪"
  const Shortened := "URL缩短成功!"
  const CopiedNote := "短URL已复制到剪贴板"
  const FailurePrefix := "缩短URL失败: "

  /** What `requests.get` gives back: a response, or the exception it raised. */
  datatype Reply = Reply(code: nat, body: string) | Unreachable(message: string)

  predicate HasScheme(url: string) {
    StartsWith(url, "http://") || StartsWith(url, "https://")
  }

  /** The URL `shorten_url` works with, none when the input is blank. */
  function Normalize(input: string): (r: Option<string>)
    ensures r == None <==> IsBlank(input)
    ensures r.Some? ==> HasScheme(r.value) && EndsWith(r.value, Strip(input))
  {
    StripEmptyIffBlank(input);
    var u := Strip(input);
    if u == "" then None
    else if HasScheme(u) then Some(u)
    else Some("https://" + u)
  }

  /** The request URL: the normalised URL appended to the endpoint as it is. */
  function ApiUrl(url: string): string {
    ApiBase + url
  }

  /** Normalising a normalised URL changes nothing. */
  lemma NormalizeIdempotent(input: string)
    requires Normalize(input).Some?
    ensures Normalize(Normalize(input).value) == Normalize(input)
  {
    var s := Strip(input);
    var u := Normalize(input).value;
    StripEmptyIffBlank(input);
    assert u[|u| - 1] == s[|s| - 1];
    SchemeIsKept(u);
  }

  /** A URL that already has a scheme, without surrounding blanks, is kept as it is. */
  lemma SchemeIsKept(url: string)
    requires HasScheme(url) && !IsSpace(url[|url| - 1])
    ensures Normalize(url) == Some(url)
  {
    assert url[..4] == "http";
    assert !IsSpace(url[0]);
    StripTrimmed(url);
  }

  /** The scheme test is case-sensitive: an upper-case scheme gets a second one. */
  lemma UpperCaseSchemeIsPrefixed()
    ensures Normalize("HTTP://x") == Some("https://HTTP://x")
  {
    var u := "HTTP://x";
    assert u[0] == 'H' && u[|u| - 1] == 'x';
    StripTrimmed(u);
    assert !HasScheme(u) by {
      assert u[..7][0] == 'H' && u[..8][0] == 'H';
    }
    assert "https://" + u == "https://HTTP://x";
  }

  /** Surrounding blanks are dropped before the scheme is looked at. */
  lemma BlanksAreStripped(a: string, url: string, b: string)
    requires IsBlank(a) && IsBlank(b)
    requires url != [] && !IsSpace(url[0]) && !IsSpace(url[|url| - 1])
    ensures Normalize(a + url + b) == Normalize(url)
  {
    assert a + url + b == a + (url + b);
    assert (url + b)[0] == url[0];
    TrimStartBlankPrefix(a, url + b);
    TrimEndBlankSuffix(url, b);
    StripTrimmed(url);
  }

  /** The tool's fields: the input line, the result line, `shortened_url` and the status line. */
  datatype ShortenerState = ShortenerState(input: string, output: string, shortened: Option<string>, status: string)

  /** The URL `shorten_url` fetches, none when the input is blank or
      `valid` (standing for `QUrl.isValid`) refuses the normalised URL. */
  function RequestFor(input: string, valid: string -> bool): (r: Option<string>)
    ensures r.Some? <==> !IsBlank(input) && valid(Normalize(input).value)
    ensures r.Some? ==> StartsWith(r.value, ApiBase) && HasScheme(r.value[|ApiBase|..])
    ensures r.Some? ==> r.value == ApiBase + Normalize(input).value
  {
    match Normalize(input)
    case None => None
    case Some(u) =>
      if !valid(u) then None
      else
        assert ApiUrl(u)[|ApiBase|..] == u;
        Some(ApiUrl(u))
  }

  /** `shorten_url`, with `fetch` standing for `requests.get`. */
  function ShortenedState(st: ShortenerState, valid: string -> bool, fetch: string -> Reply): (r: ShortenerState)
    ensures r.input == st.input
    ensures IsBlank(st.input) || RequestFor(st.input, valid) == None ==> r == st
    ensures r.shortened != st.shortened ==>
              r.shortened.Some? && RequestFor(st.input, valid).Some? &&
              fetch(RequestFor(st.input, valid).value) == Reply(200, r.shortened.value) && r.output == r.shortened.value
  {
    match RequestFor(st.input, valid)
    case None => st
    case Some(url) => AfterReply(st, fetch(url))
  }

  predicate Succeeded(reply: Reply) {
    reply.Reply? && reply.code == 200
  }

  /** The status line after a failure: the prefix, then what went wrong. */
  function FailureStatus(detail: string): (r: string)
    ensures StartsWith(r, FailurePrefix)
  {
    assert (FailurePrefix + detail)[..|FailurePrefix|] == FailurePrefix;
    FailurePrefix + detail
  }

  /** How the reply to the request updates the fields: only a 200 reply sets
      the result; anything else reports the failure on the status line. */
  function AfterReply(st: ShortenerState, reply: Reply): (r: ShortenerState)
    ensures r.input == st.input
    ensures Succeeded(reply) ==> r.output == reply.body && r.shortened == Some(reply.body)
    ensures !Succeeded(reply) ==>
              r.output == st.output && r.shortened == st.shortened && StartsWith(r.status, FailurePrefix)
  {
    match reply
    case Unreachable(m) => st.(status := FailureStatus(m))
    case Reply(code, body) =>
      if code == 200 then st.(output := body, shortened := Some(body), status := Shortened)
      else st.(status := FailureStatus("API返回错误: " + Decimal(code)))
  }

  /** A failed request, or a reply other than 200, leaves the previous short
      URL in place and reports the failure. */
  lemma FailureKeepsResult(st: ShortenerState, valid: string -> bool, fetch: string -> Reply)
    requires RequestFor(st.input, valid).Some?
    requires fetch(RequestFor(st.input, valid).value).Reply? ==> fetch(RequestFor(st.input, valid).value).code != 200
    ensures var r := ShortenedState(st, valid, fetch);
            r.output == st.output && r.shortened == st.shortened && StartsWith(r.status, FailurePrefix)
  {
    var reply := fetch(RequestFor(st.input, valid).value);
    assert !Succeeded(reply);
  }

  class UrlShortener {
    var input: string
    var output: string
    var shortened: Option<string>
    var status: string

    function State(): ShortenerState
      reads this
    {
      ShortenerState(input, output, shortened, status)
    }

    constructor ()
      ensures State() == ShortenerState("", "", None, Ready)
    {
      input := "";
      output := "";
      shortened := None;
      status := Ready;
    }

    /** The user types into the input line. */
    method Type(text: string)
      modifies this
      ensures State() == old(State()).(input := text)
    {
      input := text;
    }

    /** `shorten_url`; `request` is the URL fetched, none when no request is made. */
    method ShortenUrl(valid: string -> bool, fetch: string -> Reply) returns (request: Option<string>)
      modifies this
      ensures request == RequestFor(old(input), valid)
      ensures State() == ShortenedState(old(State()), valid, fetch)
    {
      request := RequestFor(input, valid);
      if request == None {
        return;
      }
      ghost var st := State();
      var reply := fetch(request.value);
      if reply.Unreachable? {
        status := FailureStatus(reply.message);
      } else if reply.code == 200 {
        output := reply.body;
        shortened := Some(reply.body);
        status := Shortened;
      } else {
        status := FailureStatus("API返回错误: " + Decimal(reply.code));
      }
      assert State() == AfterReply(st, reply);
    }

    /** `clear_fields`: both lines emptied, no short URL, status back to ready. */
    method ClearFields()
      modifies this
      ensures State() == ShortenerState("", "", None, Ready)
    {
      input := "";
      output := "";
      shortened := None;
      status := Ready;
    }

    /** `copy_url`: the text put on the clipboard, none when the result line is empty. */
    method CopyUrl() returns (copied: Option<string>)
      modifies this
      ensures output == "" ==> copied == None && status == old(status)
      ensures output != "" ==> copied == Some(output) && status == CopiedNote
      ensures input == old(input) && output == old(output) && shortened == old(shortened)
    {
      if output == "" {
        return None;
      }
      copied := Some(output);
      status := CopiedNote;
    }
  }
}
