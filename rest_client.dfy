/**
 * `RESTClient`, the gateway's relay to the cloud backend: it encodes the
 * records as the query string of a URL, with the same join rule as the radio
 * payload, and sends one HTTP/1.1 GET request for it over a Wi-Fi client.
 */
module Rest {
  import opened ArduinoString
  import opened Serializable
  import opened Lora

  // ---------------------------------------------------------------------
  // The request text
  // ---------------------------------------------------------------------

  const CRLF: string := "\r\n"

  /** The text `makeGETRequest` hands to `sendRequest` for `url` on `host`. */
  function RequestText(url: string, host: string): string
  {
    "GET " + url + " HTTP/1.1" + CRLF + "Host: " + host + CRLF + "Connection: close" + CRLF + CRLF
  }

  /** A header field: its name and value. */
  datatype Field = Field(name: string, value: string)

  /** The head of an HTTP/1.1 request: its request line and its header fields. */
  datatype RequestHead = RequestHead(verb: string, target: string, version: string, fields: seq<Field>)

  /** Each field as `name: value` and a line end, in order (section 5 of RFC 9112). */
  function FieldLines(fields: seq<Field>): string
  {
    if fields == [] then ""
    else fields[0].name + ": " + fields[0].value + CRLF + FieldLines(fields[1..])
  }

  /**
   * A request head as sent on the wire: the request line `method SP
   * request-target SP HTTP-version CRLF` of section 3 of RFC 9112, the field
   * lines, then the empty line that ends the head.
   */
  function Render(head: RequestHead): string
  {
    head.verb + " " + head.target + " " + head.version + CRLF + FieldLines(head.fields) + CRLF
  }

  /**
   * The request the relay means to send: a GET of `url` in the origin form,
   * a `Host` field naming the server (section 7.2 of RFC 9110), and
   * `Connection: close`, since the client is discarded after one request.
   */
  function RelayRequest(url: string, host: string): RequestHead
  {
    RequestHead("GET", url, "HTTP/1.1", [Field("Host", host), Field("Connection", "close")])
  }

  /** The hand-assembled text is exactly the rendering of that request. */
  lemma RequestTextIsHttp(url: string, host: string)
    ensures RequestText(url, host) == Render(RelayRequest(url, host))
  {
    var fields := RelayRequest(url, host).fields;
    assert FieldLines(fields[1..]) == "Connection: close" + CRLF by {
      assert fields[1..][1..] == [];
      assert "Connection" + ": " + "close" == "Connection: close";
    }
    assert FieldLines(fields) == "Host: " + host + CRLF + FieldLines(fields[1..]) by {
      assert "Host" + ": " == "Host: ";
    }
    assert "GET" + " " == "GET ";
    assert " " + "HTTP/1.1" == " HTTP/1.1";
  }

  /** The request target of a request text: what stands between its first space and the next. */
  function RequestTarget(text: string): string
  {
    var first := IndexOf(text, ' ', 0);
    Substring(text, first + 1, IndexOf(text, ' ', first + 1))
  }

  /** A URL without spaces is read back whole as the request target. */
  lemma RequestTargetOfRequestText(url: string, host: string)
    requires ' ' !in url
    ensures RequestTarget(RequestText(url, host)) == url
  {
    var text := RequestText(url, host);
    assert text[0..3] == "GET" && text[3] == ' ';
    IndexOfAfter(text, ' ', 0, "GET");
    assert text[4..4 + |url|] == url && text[4 + |url|] == ' ';
    IndexOfAfter(text, ' ', 4, url);
  }

  // ---------------------------------------------------------------------
  // The query string
  // ---------------------------------------------------------------------

  /** The number of records the loop of `formGetRequestURL` visits: none for a negative length. */
  function Visited(dataLength: int): nat
  {
    if dataLength < 0 then 0 else dataLength
  }

  /**
   * Relaying decodes: in the URL formed for well-formed records, the first `?`
   * ends the endpoint, and the query after it is text that `LoraDTO.fromString`
   * parses back into the same records, provided the endpoint holds no `?`.
   */
  lemma RelayUrlDecodes(endpoint: string, ds: seq<SerializableData>)
    requires '?' !in endpoint && AllWellFormed(ds)
    ensures var url := endpoint + "?" + Join(ds);
            IndexOf(url, '?', 0) == |endpoint| && Parse(SubstringFrom(url, |endpoint| + 1)) == ds
  {
    var url := endpoint + "?" + Join(ds);
    assert url[0..|endpoint|] == endpoint && url[|endpoint|] == '?';
    IndexOfAfter(url, '?', 0, endpoint);
    assert url[|endpoint| + 1..] == Join(ds);
    ParseJoin(ds);
  }

  /**
   * One turn of the loop of `formGetRequestURL`: after the records visited so
   * far and their trailing `&`, the next record and its own `&` (`more`: it is
   * not the last one) extend the query to the join of one more record.
   */
  lemma QueryStep(done: seq<SerializableData>, d: SerializableData, query: string, piece: string, more: bool)
    requires query == if done == [] then "" else Join(done) + [RecordSeparator]
    requires piece == Serializable.ToString(d) + (if more then [RecordSeparator] else [])
    ensures query + piece == Join(done + [d]) + (if more then [RecordSeparator] else [])
  {
    JoinAppend(done, d);
  }

  // ---------------------------------------------------------------------
  // The Wi-Fi handler, as the environment the client talks to
  // ---------------------------------------------------------------------

  /** `wl_status_t` of the Arduino Wi-Fi library. */
  datatype WlStatus = NoShield | IdleStatus | NoSsidAvail | ScanCompleted | Connected | ConnectFailed | ConnectionLost | Disconnected

  /** The secure client of the handler: none, or one created for a host. */
  datatype Client = NoClient | ClientFor(host: string)

  /**
   * `WiFiHandler`, reduced to what `RESTClient` observes. The answers of the
   * network (whether the next connection succeeds, the radio status, what
   * `print` reports) are fields the environment sets; what the handler does is
   * recorded in `client`, `sent` and `joins`.
   */
  class WifiHandler {
    /** Whether the next `connect` to a host succeeds. */
    var accepts: bool
    /** What `WiFi.status()` answers. */
    var status: WlStatus
    /** What `client->print(request)` reports for the next request. */
    var printResult: nat
    /** The client created by the last `connectClient`, until `sendRequest` deletes it. */
    var client: Client
    /** Every request written to the network, in order, with the host of the client it went over. */
    var sent: seq<(string, string)>
    /** How many times `connectWiFi` has run. */
    var joins: nat

    constructor (accepts: bool, status: WlStatus, printResult: nat)
      ensures this.accepts == accepts && this.status == status && this.printResult == printResult
      ensures client == NoClient && sent == [] && joins == 0
    {
      this.accepts := accepts;
      this.status := status;
      this.printResult := printResult;
      client := NoClient;
      sent := [];
      joins := 0;
    }

    /** `connectWiFi`: joins the network; its polling loop returns once the status is connected. */
    method ConnectWiFi()
      modifies this
      ensures status == Connected && joins == old(joins) + 1
      ensures accepts == old(accepts) && printResult == old(printResult)
      ensures client == old(client) && sent == old(sent)
    {
      status := Connected;
      joins := joins + 1;
    }

    /** `connectClient`: creates a client for `host` on port 443 and reports whether it connected. */
    method ConnectClient(host: string) returns (ok: bool)
      modifies this
      ensures ok == accepts && client == ClientFor(host)
      ensures accepts == old(accepts) && status == old(status) && printResult == old(printResult)
      ensures sent == old(sent) && joins == old(joins)
    {
      client := ClientFor(host);
      ok := accepts;
    }

    /** `sendRequest`: writes the request on the client, deletes it, and answers what `print` reported. */
    method SendRequest(request: string) returns (written: nat)
      requires client.ClientFor?
      modifies this
      ensures written == printResult && sent == old(sent) + [(old(client).host, request)] && client == NoClient
      ensures accepts == old(accepts) && status == old(status) && printResult == old(printResult)
      ensures joins == old(joins)
    {
      sent := sent + [(client.host, request)];
      client := NoClient;
      written := printResult;
    }

    /** `getStatus`: the radio status. */
    method GetStatus() returns (s: WlStatus)
      ensures s == status
    {
      s := status;
    }
  }

  // ---------------------------------------------------------------------
  // The client
  // ---------------------------------------------------------------------

  class RestClient {
    /** The backend host: the server connected to and named in `Host`. */
    var host: string
    /** The handler requests go through. */
    var wifi: WifiHandler

    constructor (host: string, wifiHandler: WifiHandler)
      ensures this.host == host && wifi == wifiHandler
    {
      this.host := host;
      wifi := wifiHandler;
    }

    /**
     * `formGetRequestURL`: the endpoint, `?`, then each of the first
     * `dataLength` records as `key=val` with `&` between neighbours.
     */
    method FormGetRequestUrl(urlEndpoint: string, data: array<SerializableData>, dataLength: int) returns (url: string)
      requires dataLength <= data.Length
      ensures url == urlEndpoint + "?" + Join(data[..Visited(dataLength)])
    {
      url := urlEndpoint + "?";
      var n := Visited(dataLength);
      ghost var query := "";
      for i := 0 to n
        invariant url == urlEndpoint + "?" + query
        invariant query == if i == 0 then "" else Join(data[..i]) + (if i < n then [RecordSeparator] else [])
      {
        assert data[..i + 1] == data[..i] + [data[i]];
        var piece := Serializable.ToString(data[i]);
        if i != n - 1 {
          piece := piece + [RecordSeparator];
        }
        QueryStep(data[..i], data[i], query, piece, i != n - 1);
        assert url + piece == urlEndpoint + "?" + (query + piece);
        url := url + piece;
        query := query + piece;
      }
    }

    /**
     * `makeGETRequest`: forms the URL, creates a client for the host, and
     * when the radio is connected and the client connected, sends the request
     * and answers what the handler reports; otherwise it rejoins the Wi-Fi
     * network and answers 0 without sending anything.
     */
    method MakeGetRequest(urlEndpoint: string, data: array<SerializableData>, dataLength: int) returns (res: nat)
      requires dataLength <= data.Length
      modifies wifi
      ensures var url := urlEndpoint + "?" + Join(data[..Visited(dataLength)]);
              if old(wifi.status) == Connected && old(wifi.accepts) then
                res == old(wifi.printResult) && wifi.sent == old(wifi.sent) + [(host, RequestText(url, host))] &&
                wifi.client == NoClient && wifi.joins == old(wifi.joins) && wifi.status == old(wifi.status)
              else
                res == 0 && wifi.sent == old(wifi.sent) && wifi.joins == old(wifi.joins) + 1 &&
                wifi.status == Connected && wifi.client == ClientFor(host)
      ensures wifi.accepts == old(wifi.accepts) && wifi.printResult == old(wifi.printResult)
    {
      var encodedUrl := FormGetRequestUrl(urlEndpoint, data, dataLength);
      var con := wifi.ConnectClient(host);
      var status := wifi.GetStatus();
      if status == Connected && con {
        res := wifi.SendRequest(RequestText(encodedUrl, host));
      } else {
        wifi.ConnectWiFi();
        res := 0;
      }
    }
  }
}
