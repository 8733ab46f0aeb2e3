/** The record updater, `updateDNS` in dnsupater.go: the update URL it
    requests for one record and the way it classifies the provider's
    answer. The HTTP request itself is not modelled; its result is given
    to `Classify` as a `Response` value. */
module Updater {
  import opened Wrappers
  import opened Text
  import opened Config

  const NamecheapURL: string := "https://dynamicdns.park-your-domain.com/update"

  /** The request URL: the four values are spliced in verbatim, without
      any query escaping. It always begins with the endpoint and `?` and
      always ends with the address being set. */
  function UpdateURL(d: DomainConfig, ip: string): (url: string)
    ensures |url| > |NamecheapURL| + |ip|
    ensures url[..|NamecheapURL| + 1] == NamecheapURL + "?"
    ensures url[|url| - |ip|..] == ip
  {
    NamecheapURL + "?host=" + d.host + "&domain=" + d.domain + "&password=" + d.password + "&ip=" + ip
  }

  /** The query of an update URL split at `&`: the part after the
      endpoint and its `?`. This is a textual split only; how the HTTP
      client and the provider then parse the URL (a fragment cut at `#`,
      `%XX` and `+` decoding) is not modelled. */
  function QueryParams(url: string): seq<string>
    requires |url| > |NamecheapURL|
  {
    Split(url[|NamecheapURL| + 1..], '&')
  }

  lemma JoinFour(a: string, b: string, c: string, e: string)
    ensures Join([a, b, c, e], '&') == a + "&" + b + "&" + c + "&" + e
  {
    assert [a, b, c, e][1..] == [b, c, e];
    assert [b, c, e][1..] == [c, e];
    assert [c, e][1..] == [e];
    assert Join([c, e], '&') == c + "&" + e;
    assert Join([b, c, e], '&') == b + "&" + (c + "&" + e);
    assert Join([a, b, c, e], '&') == a + "&" + (b + "&" + (c + "&" + e));
  }

  /** The four query parameters an update for `d` to `ip` is meant to carry. */
  function IntendedParams(d: DomainConfig, ip: string): seq<string> {
    ["host=" + d.host, "domain=" + d.domain, "password=" + d.password, "ip=" + ip]
  }

  lemma UpdateURLShape(d: DomainConfig, ip: string)
    ensures UpdateURL(d, ip) == NamecheapURL + "?" + Join(IntendedParams(d, ip), '&')
  {
    var params := IntendedParams(d, ip);
    JoinFour(params[0], params[1], params[2], params[3]);
    var h, dm, pw, i4 := params[0], params[1], params[2], params[3];
    var pre := NamecheapURL + "?";
    // Regroup the URL one literal at a time, so that each step is a
    // single use of the associativity of `+`.
    assert "?host=" == "?" + "host=" && "&domain=" == "&" + "domain=";
    assert "&password=" == "&" + "password=" && "&ip=" == "&" + "ip=";
    Assoc(NamecheapURL, "?", "host=");
    Assoc(pre, "host=", d.host);
    var s1 := pre + h;
    Assoc(s1, "&", "domain=");
    Assoc(s1 + "&", "domain=", d.domain);
    var s2 := s1 + "&" + dm;
    Assoc(s2, "&", "password=");
    Assoc(s2 + "&", "password=", d.password);
    var s3 := s2 + "&" + pw;
    Assoc(s3, "&", "ip=");
    Assoc(s3 + "&", "ip=", ip);
    assert UpdateURL(d, ip) == s3 + "&" + i4;
    // Move `pre` out of the left-nested sum.
    Assoc(pre, h, "&");
    Assoc(pre, h + "&", dm);
    Assoc(pre, h + "&" + dm, "&");
    Assoc(pre, h + "&" + dm + "&", pw);
    Assoc(pre, h + "&" + dm + "&" + pw, "&");
    Assoc(pre, h + "&" + dm + "&" + pw + "&", i4);
  }

  lemma Assoc(x: string, y: string, z: string)
    ensures x + y + z == x + (y + z)
  {
  }

  /** Every update URL is the endpoint followed by `?`, and when no value
      contains `&` its query splits at `&` into exactly host, domain,
      password and ip, in that order, each with the record's own value. */
  lemma UpdateURLParams(d: DomainConfig, ip: string)
    ensures |UpdateURL(d, ip)| > |NamecheapURL|
    ensures UpdateURL(d, ip)[..|NamecheapURL| + 1] == NamecheapURL + "?"
    ensures '&' !in d.host && '&' !in d.domain && '&' !in d.password && '&' !in ip ==>
      QueryParams(UpdateURL(d, ip)) == IntendedParams(d, ip)
  {
    var params := IntendedParams(d, ip);
    UpdateURLShape(d, ip);
    var url := UpdateURL(d, ip);
    assert url[|NamecheapURL| + 1..] == Join(params, '&');
    if '&' !in d.host && '&' !in d.domain && '&' !in d.password && '&' !in ip {
      assert forall i :: 0 <= i < |params| ==> '&' !in params[i] by {
        assert '&' !in "host=" && '&' !in "domain=" && '&' !in "password=" && '&' !in "ip=";
      }
      SplitJoin(params, '&');
    }
  }

  lemma JoinFiveAsFour(a: string, b: string, c1: string, c2: string, e: string)
    ensures Join([a, b, c1, c2, e], '&') == Join([a, b, c1 + "&" + c2, e], '&')
  {
    JoinFour(a, b, c1 + "&" + c2, e);
    JoinFour(b, c1, c2, e);
    assert [a, b, c1, c2, e][1..] == [b, c1, c2, e];
  }

  /** Because nothing is escaped, a password of the form `p&ip=x`
      splits into a second `ip` parameter, `x`, ahead of the real one. */
  lemma AmpersandInPasswordAddsParam(d: DomainConfig, p: string, x: string, ip: string)
    requires d.password == p + "&ip=" + x
    requires '&' !in d.host && '&' !in d.domain && '&' !in p && '&' !in x && '&' !in ip
    ensures QueryParams(UpdateURL(d, ip)) == ["host=" + d.host, "domain=" + d.domain, "password=" + p, "ip=" + x, "ip=" + ip]
  {
    var params := ["host=" + d.host, "domain=" + d.domain, "password=" + p, "ip=" + x, "ip=" + ip];
    assert "password=" + d.password == params[2] + "&" + params[3];
    JoinFiveAsFour(params[0], params[1], params[2], params[3], params[4]);
    assert Join(params, '&') == Join(IntendedParams(d, ip), '&');
    UpdateURLShape(d, ip);
    assert UpdateURL(d, ip)[|NamecheapURL| + 1..] == Join(params, '&');
    assert forall i :: 0 <= i < |params| ==> '&' !in params[i] by {
      assert '&' !in "host=" && '&' !in "domain=" && '&' !in "password=" && '&' !in "ip=";
    }
    SplitJoin(params, '&');
  }

  /** What the update GET produced: no response at all, or a status code
      and the response body. */
  datatype Response = TransportError(message: string) | Reply(status: int, body: string)

  /** The `error` that `updateDNS` returns: nil, or an error with its text. */
  datatype UpdateResult = Updated | Failed(detail: string)

  const StatusOK: int := 200

  const FailurePrefix: string := "update failed with status "

  /** The text of the error for a non-200 reply: it starts with the fixed
      prefix, ends with the whole body, and gives back exactly the status
      and the body when read. */
  function FailureDetail(status: int, body: string): (detail: string)
    ensures |detail| >= |FailurePrefix| + |body|
    ensures detail[..|FailurePrefix|] == FailurePrefix
    ensures detail[|detail| - |body|..] == body
    ensures ParseFailureDetail(detail) == Some((status, body))
  {
    ParseFailureDetailRoundTrip(status, body);
    FailurePrefix + IntToDecimal(status) + ": " + body
  }

  /** Reads a status code and a body back out of an error text. */
  function ParseFailureDetail(detail: string): Option<(int, string)> {
    if |detail| < |FailurePrefix| || detail[..|FailurePrefix|] != FailurePrefix then None
    else
      var rest := detail[|FailurePrefix|..];
      var k := IndexOf(rest, ':');
      if k + 1 >= |rest| || rest[k + 1] != ' ' then None
      else match ParseInt(rest[..k]) {
        case None => None
        case Some(status) => Some((status, rest[k + 2..]))
      }
  }

  /** The error text for a non-200 reply carries both the status code and
      the whole body, recoverably. */
  lemma ParseFailureDetailRoundTrip(status: int, body: string)
    ensures ParseFailureDetail(FailurePrefix + IntToDecimal(status) + ": " + body) == Some((status, body))
  {
    var detail := FailurePrefix + IntToDecimal(status) + ": " + body;
    var code := IntToDecimal(status);
    var rest := detail[|FailurePrefix|..];
    assert detail[..|FailurePrefix|] == FailurePrefix;
    assert rest == code + ": " + body;
    assert rest[|code|] == ':';
    assert IndexOf(rest, ':') == |code| by {
      assert forall i :: 0 <= i < |code| ==> rest[i] == code[i] && rest[i] != ':';
    }
    assert rest[..|code|] == code;
    assert rest[|code| + 2..] == body;
    ParseIntOfDecimal(status);
  }

  /** The outcome of one update attempt: success exactly on status 200;
      a transport error keeps its own message; any other status gives a
      failure whose text holds that status and the body. */
  function Classify(resp: Response): (r: UpdateResult)
    ensures r.Updated? <==> resp.Reply? && resp.status == StatusOK
    ensures resp.TransportError? ==> r == Failed(resp.message)
    ensures resp.Reply? && resp.status != StatusOK ==>
      r.Failed? && ParseFailureDetail(r.detail) == Some((resp.status, resp.body))
  {
    match resp
    case TransportError(message) => Failed(message)
    case Reply(status, body) =>
      if status != StatusOK then Failed(FailureDetail(status, body))
      else Updated
  }

  /** The provider rejecting a wrong password with status 500: the
      attempt fails, and its error text gives back 500 and the body. */
  lemma InvalidPasswordReply()
    ensures Classify(Reply(500, "Invalid Password")).Failed?
    ensures ParseFailureDetail(Classify(Reply(500, "Invalid Password")).detail) == Some((500, "Invalid Password"))
  {
  }
}
