/** The header policy of `proxy/src/main.rs`: what a forwarded request and a relayed
  * response carry, and where the client address comes from.
  *
  * A header map is the sequence of its fields; names are lower case, as `HeaderName`
  * keeps them. Two maps are the same when every name has the same values in the same
  * order. */
module ProxyHeaders {
  import opened Common

  datatype Field = Field(name: string, value: string)
  type HeaderMap = seq<Field>

  datatype Transfer = Http | WebSocket

  // ---------- header maps ----------

  /** All values of a name, in order (`get_all`). */
  function Values(h: HeaderMap, n: string): seq<string> {
    if h == [] then []
    else
      var last := h[|h| - 1];
      Values(h[..|h| - 1], n) + (if last.name == n then [last.value] else [])
  }

  function First(h: HeaderMap, n: string): Option<string> {
    var v := Values(h, n);
    if v == [] then None else Some(v[0])
  }

  function Without(h: HeaderMap, n: string): HeaderMap {
    if h == [] then []
    else
      var last := h[|h| - 1];
      Without(h[..|h| - 1], n) + (if last.name == n then [] else [last])
  }

  /** `insert`: the name has this value and no other. */
  function Insert(h: HeaderMap, n: string, v: string): HeaderMap {
    Without(h, n) + [Field(n, v)]
  }

  function InsertIf(h: HeaderMap, n: string, v: Option<string>): HeaderMap {
    if v.Some? then Insert(h, n, v.value) else h
  }

  ghost predicate Same(a: HeaderMap, b: HeaderMap) {
    forall n :: Values(a, n) == Values(b, n)
  }

  lemma ValuesAppend(h: HeaderMap, f: Field, m: string)
    ensures Values(h + [f], m) == if f.name == m then Values(h, m) + [f.value] else Values(h, m)
  {
    assert (h + [f])[..|h|] == h;
    assert Values(h, m) + [] == Values(h, m);
  }

  lemma {:induction false} ValuesWithout(h: HeaderMap, n: string, m: string)
    ensures Values(Without(h, n), m) == if m == n then [] else Values(h, m)
  {
    if h != [] {
      var init, last := h[..|h| - 1], h[|h| - 1];
      ValuesWithout(init, n, m);
      ValuesAppend(Without(init, n), last, m);
      assert Without(init, n) + [] == Without(init, n);
    }
  }

  lemma ValuesInsert(h: HeaderMap, n: string, v: string, m: string)
    ensures Values(Insert(h, n, v), m) == if m == n then [v] else Values(h, m)
  {
    hide Values;
    ValuesWithout(h, n, m);
    ValuesAppend(Without(h, n), Field(n, v), m);
  }

  lemma ValuesInsertIf(h: HeaderMap, n: string, v: Option<string>, m: string)
    ensures Values(InsertIf(h, n, v), m) == if m == n && v.Some? then [v.value] else Values(h, m)
  {
    if v.Some? { ValuesInsert(h, n, v.value, m); }
  }

  // ---------- Connection tokens ----------

  /** `to_str`: a value of visible ASCII, spaces and tabs. */
  predicate IsText(value: string) {
    forall i :: 0 <= i < |value| ==> value[i] == '\t' || ' ' <= value[i] <= '~'
  }

  function ToLower(c: char): char {
    if 'A' <= c <= 'Z' then c - 'A' + 'a' else c
  }

  function Lower(s: string): string {
    seq(|s|, i requires 0 <= i < |s| => ToLower(s[i]))
  }

  function Split(s: string): (parts: seq<string>)
    ensures |parts| > 0
  {
    if s == "" then [""]
    else
      var rest := Split(s[1..]);
      if s[0] == ',' then [""] + rest else [[s[0]] + rest[0]] + rest[1..]
  }

  predicate IsSpace(c: char) {
    c == ' ' || c == '\t'
  }

  function TrimStart(s: string): string {
    if s != "" && IsSpace(s[0]) then TrimStart(s[1..]) else s
  }

  function TrimEnd(s: string): string {
    if s != "" && IsSpace(s[|s| - 1]) then TrimEnd(s[..|s| - 1]) else s
  }

  function Trim(s: string): string {
    TrimEnd(TrimStart(s))
  }

  predicate IsTokenChar(c: char) {
    '0' <= c <= '9' || 'a' <= c <= 'z' || 'A' <= c <= 'Z' || c in "!#$%&'*+-.^_`|~"
  }

  predicate IsHeaderName(s: string) {
    s != "" && forall i :: 0 <= i < |s| ==> IsTokenChar(s[i])
  }

  /** The names one Connection field nominates. */
  function TokensOf(value: string): set<string> {
    if !IsText(value) then {}
    else
      set part | part in Split(value) && IsHeaderName(Trim(part)) :: Lower(Trim(part))
  }

  /** The names nominated by any of the Connection fields. */
  function Tokens(values: seq<string>): set<string> {
    if values == [] then {} else Tokens(values[..|values| - 1]) + TokensOf(values[|values| - 1])
  }

  method ParseConnectionTokens(headers: HeaderMap) returns (tokens: set<string>)
    ensures tokens == Tokens(Values(headers, "connection"))
  {
    tokens := {};
    var values := Values(headers, "connection");
    for i := 0 to |values|
      invariant tokens == Tokens(values[..i])
    {
      assert values[..i + 1][..i] == values[..i];
      if !IsText(values[i]) {
        continue;
      }
      var parts := Split(values[i]);
      ghost var before := tokens;
      for j := 0 to |parts|
        invariant tokens == before + set part | part in parts[..j] && IsHeaderName(Trim(part)) :: Lower(Trim(part))
      {
        var token := Trim(parts[j]);
        assert parts[..j + 1] == parts[..j] + [parts[j]];
        if token == "" {
          continue;
        }
        if IsHeaderName(token) {
          tokens := tokens + {Lower(token)};
        }
      }
      assert parts[..|parts|] == parts;
    }
    assert values[..|values|] == values;
  }

  // ---------- the policy ----------

  const HOP_BY_HOP := {
    "connection", "keep-alive", "proxy-authenticate", "proxy-authorization", "proxy-connection",
    "te", "trailer", "trailers", "transfer-encoding", "upgrade"}

  const MANAGED := {
    "x-forwarded-for", "x-real-ip", "x-forwarded-host", "x-forwarded-proto", "cf-connecting-ip", "true-client-ip"}

  predicate ShouldStrip(tokens: set<string>, name: string, transfer: Transfer) {
    name in tokens
    || (!(transfer == WebSocket && (name == "connection" || name == "upgrade")) && name in HOP_BY_HOP)
  }

  /** Request fields that are not copied. */
  predicate Dropped(tokens: set<string>, name: string, transfer: Transfer) {
    name == "host" || name in MANAGED || ShouldStrip(tokens, name, transfer)
  }

  /** Response fields that are not copied. */
  predicate Withheld(tokens: set<string>, name: string, transfer: Transfer) {
    (transfer == WebSocket && (name == "connection" || name == "upgrade")) || ShouldStrip(tokens, name, transfer)
  }

  function RequestDrop(tokens: set<string>, transfer: Transfer): string -> bool {
    n => Dropped(tokens, n, transfer)
  }

  function ResponseDrop(tokens: set<string>, transfer: Transfer): string -> bool {
    n => Withheld(tokens, n, transfer)
  }

  function Copied(h: HeaderMap, drop: string -> bool): HeaderMap {
    if h == [] then []
    else
      var last := h[|h| - 1];
      Copied(h[..|h| - 1], drop) + (if drop(last.name) then [] else [last])
  }

  lemma {:induction false} ValuesCopied(h: HeaderMap, drop: string -> bool, n: string)
    ensures Values(Copied(h, drop), n) == if drop(n) then [] else Values(h, n)
  {
    if h != [] {
      var init, last := h[..|h| - 1], h[|h| - 1];
      ValuesCopied(init, drop, n);
      ValuesAppend(Copied(init, drop), last, n);
      assert Copied(init, drop) + [] == Copied(init, drop);
    }
  }

  /** `request_headers`, before the scheme and the hosts are written. */
  function RequestHeaders(h: HeaderMap, tokens: set<string>, transfer: Transfer, clientIp: string): HeaderMap {
    var copied := Copied(h, RequestDrop(tokens, transfer));
    var upgraded := if transfer == WebSocket
                    then Insert(Insert(copied, "connection", "Upgrade"), "upgrade", "websocket") else copied;
    Insert(Insert(upgraded, "x-forwarded-for", clientIp), "x-real-ip", clientIp)
  }

  method BuildRequestHeaders(h: HeaderMap, tokens: set<string>, transfer: Transfer, clientIp: string)
    returns (out: HeaderMap)
    ensures out == RequestHeaders(h, tokens, transfer, clientIp)
  {
    out := [];
    ghost var drop := RequestDrop(tokens, transfer);
    for i := 0 to |h|
      invariant out == Copied(h[..i], drop)
    {
      var name := h[i].name;
      assert h[..i + 1][..i] == h[..i];
      if name == "host" || name in MANAGED || ShouldStrip(tokens, name, transfer) {
        assert drop(name);
        continue;
      }
      out := out + [h[i]];
    }
    assert h[..|h|] == h;
    if transfer == WebSocket {
      out := Insert(out, "connection", "Upgrade");
      out := Insert(out, "upgrade", "websocket");
    }
    out := Insert(out, "x-forwarded-for", clientIp);
    out := Insert(out, "x-real-ip", clientIp);
  }

  function ResponseHeaders(h: HeaderMap, transfer: Transfer): HeaderMap {
    var tokens := Tokens(Values(h, "connection"));
    var copied := Copied(h, ResponseDrop(tokens, transfer));
    if transfer == Http then copied
    else
      var connected := if "upgrade" in tokens then Insert(copied, "connection", "Upgrade") else copied;
      if AcceptsWebSocket(First(h, "upgrade")) then Insert(connected, "upgrade", "websocket") else connected
  }

  predicate AcceptsWebSocket(value: Option<string>) {
    value.Some? && IsText(value.value) && Lower(Trim(value.value)) == "websocket"
  }

  method FilterForwardResponseHeaders(h: HeaderMap, transfer: Transfer) returns (out: HeaderMap)
    ensures out == ResponseHeaders(h, transfer)
  {
    var tokens := ParseConnectionTokens(h);
    out := [];
    ghost var drop := ResponseDrop(tokens, transfer);
    for i := 0 to |h|
      invariant out == Copied(h[..i], drop)
    {
      var name := h[i].name;
      assert h[..i + 1][..i] == h[..i];
      if transfer == WebSocket && (name == "connection" || name == "upgrade") {
        assert drop(name);
        continue;
      }
      if ShouldStrip(tokens, name, transfer) {
        assert drop(name);
        continue;
      }
      out := out + [h[i]];
    }
    assert h[..|h|] == h;
    if transfer == WebSocket {
      if "upgrade" in tokens {
        out := Insert(out, "connection", "Upgrade");
      }
      if AcceptsWebSocket(First(h, "upgrade")) {
        out := Insert(out, "upgrade", "websocket");
      }
    }
  }

  // ---------- the client address ----------

  type U32 = n: nat | n < 0x1_0000_0000
  type U128 = n: nat | n < 0x1_0000_0000_0000_0000_0000_0000_0000_0000

  datatype Ip = V4(v4: U32) | V6(v6: U128)

  /** How addresses are read and written, and which peers `PROXY_TRUSTED_UPSTREAMS` lists. */
  datatype Net = Net(parse: string -> Option<Ip>, show: Ip -> string, trusted: Ip -> bool)

  /** The address, written, is a header value that reads back as the address. */
  predicate ReadsBack(net: Net, ip: Ip) {
    IsAddressText(net.show(ip)) && net.parse(net.show(ip)) == Some(ip)
  }

  predicate IsAddressText(s: string) {
    s != "" && forall i :: 0 <= i < |s| ==> s[i] != ',' && '!' <= s[i] <= '~'
  }

  function ParseAll(net: Net, parts: seq<string>): seq<Ip> {
    if parts == [] then []
    else
      var ip := net.parse(Trim(parts[0]));
      (if ip.Some? then [ip.value] else []) + ParseAll(net, parts[1..])
  }

  /** The addresses of all the fields, in wire order; what does not parse is left out. */
  function ForwardedIps(net: Net, values: seq<string>): seq<Ip> {
    if values == [] then []
    else (if IsText(values[0]) then ParseAll(net, Split(values[0])) else []) + ForwardedIps(net, values[1..])
  }

  function SingleIp(net: Net, values: seq<string>): Option<Ip> {
    if values == [] then None
    else
      var ip := if IsText(values[0]) then net.parse(Trim(values[0])) else None;
      if ip.Some? then ip else SingleIp(net, values[1..])
  }

  /** The last address that is not a trusted hop. */
  function LastUntrusted(net: Net, ips: seq<Ip>): Option<Ip> {
    if ips == [] then None
    else if !net.trusted(ips[|ips| - 1]) then Some(ips[|ips| - 1])
    else LastUntrusted(net, ips[..|ips| - 1])
  }

  function OrElse(a: Option<Ip>, b: Option<Ip>): Option<Ip> {
    if a.Some? then a else b
  }

  function ResolveClientIp(net: Net, h: HeaderMap, peer: Ip): Ip {
    if !net.trusted(peer) then peer
    else
      var forwarded := ForwardedIps(net, Values(h, "x-forwarded-for"));
      var walked := LastUntrusted(net, forwarded);
      var cdn := OrElse(SingleIp(net, Values(h, "cf-connecting-ip")), SingleIp(net, Values(h, "true-client-ip")));
      var single := SingleIp(net, Values(h, "x-real-ip"));
      if walked.Some? then walked.value
      else if cdn.Some? then cdn.value
      else if single.Some? then single.value
      else if forwarded != [] then forwarded[0]
      else peer
  }

  // ---------- the whole request ----------

  function ForwardedProto(h: HeaderMap, trustedPeer: bool): string {
    if trustedPeer && First(h, "x-forwarded-proto").Some? then First(h, "x-forwarded-proto").value else "http"
  }

  function Either(a: Option<string>, b: Option<string>): Option<string> {
    if a.Some? then a else b
  }

  function ForwardedHost(h: HeaderMap, trustedPeer: bool): Option<string> {
    if trustedPeer then Either(First(h, "x-forwarded-host"), First(h, "host")) else First(h, "host")
  }

  function UpstreamHost(h: HeaderMap, trustedPeer: bool): Option<string> {
    if trustedPeer then Either(First(h, "host"), First(h, "x-forwarded-host")) else First(h, "host")
  }

  function ForwardRequest(net: Net, h: HeaderMap, peer: Ip, transfer: Transfer): HeaderMap {
    var tokens := Tokens(Values(h, "connection"));
    var trusted := net.trusted(peer);
    var client := net.show(ResolveClientIp(net, h, peer));
    var proto := Insert(RequestHeaders(h, tokens, transfer, client), "x-forwarded-proto", ForwardedProto(h, trusted));
    InsertIf(InsertIf(proto, "x-forwarded-host", ForwardedHost(h, trusted)), "host", UpstreamHost(h, trusted))
  }

  method BuildForwardRequestHeaders(net: Net, h: HeaderMap, peer: Ip, transfer: Transfer) returns (out: HeaderMap)
    ensures out == ForwardRequest(net, h, peer, transfer)
  {
    var tokens := ParseConnectionTokens(h);
    var trustedPeer := net.trusted(peer);
    var clientIp := ResolveClientIp(net, h, peer);
    out := BuildRequestHeaders(h, tokens, transfer, net.show(clientIp));
    out := Insert(out, "x-forwarded-proto", ForwardedProto(h, trustedPeer));
    var forwardedHost := ForwardedHost(h, trustedPeer);
    if forwardedHost.Some? {
      out := Insert(out, "x-forwarded-host", forwardedHost.value);
    }
    var host := UpstreamHost(h, trustedPeer);
    if host.Some? {
      out := Insert(out, "host", host.value);
    }
  }

  predicate IsWebSocketUpgrade(h: HeaderMap) {
    && "upgrade" in Tokens(Values(h, "connection"))
    && var upgrade := First(h, "upgrade");
       upgrade.Some? && IsText(upgrade.value) && Lower(upgrade.value) == "websocket"
  }
}
