/** What the header policy guarantees for every request, response and chain of proxies. */
module ProxyForwarding {
  import opened Common
  import opened Letters
  import opened ProxyHeaders
  import opened ProxyTokens

  // ---------- what comes out, name by name ----------

  function Optional(v: Option<string>): seq<string> {
    if v.Some? then [v.value] else []
  }

  /** The values a forwarded request has under `n`. */
  function Forwarded(net: Net, h: HeaderMap, peer: Ip, transfer: Transfer, n: string): seq<string> {
    var trusted := net.trusted(peer);
    var client := net.show(ResolveClientIp(net, h, peer));
    if n == "host" then Optional(UpstreamHost(h, trusted))
    else if n == "x-forwarded-host" then Optional(ForwardedHost(h, trusted))
    else if n == "x-forwarded-proto" then [ForwardedProto(h, trusted)]
    else if n == "x-forwarded-for" || n == "x-real-ip" then [client]
    else if transfer == WebSocket && n == "connection" then ["Upgrade"]
    else if transfer == WebSocket && n == "upgrade" then ["websocket"]
    else if Dropped(Tokens(Values(h, "connection")), n, transfer) then []
    else Values(h, n)
  }

  lemma RequestValues(h: HeaderMap, tokens: set<string>, transfer: Transfer, client: string, n: string)
    ensures Values(RequestHeaders(h, tokens, transfer, client), n)
         == if n == "x-forwarded-for" || n == "x-real-ip" then [client]
            else if transfer == WebSocket && n == "connection" then ["Upgrade"]
            else if transfer == WebSocket && n == "upgrade" then ["websocket"]
            else if Dropped(tokens, n, transfer) then [] else Values(h, n)
  {
    hide Values, Insert;
    var drop := RequestDrop(tokens, transfer);
    var copied := Copied(h, drop);
    ValuesCopied(h, drop, n);
    assert drop(n) == Dropped(tokens, n, transfer);
    var one := Insert(copied, "connection", "Upgrade");
    ValuesInsert(copied, "connection", "Upgrade", n);
    ValuesInsert(one, "upgrade", "websocket", n);
    var base := if transfer == WebSocket then Insert(one, "upgrade", "websocket") else copied;
    ValuesInsert(base, "x-forwarded-for", client, n);
    ValuesInsert(Insert(base, "x-forwarded-for", client), "x-real-ip", client, n);
  }

  lemma ForwardedValues(net: Net, h: HeaderMap, peer: Ip, transfer: Transfer, n: string)
    ensures Values(ForwardRequest(net, h, peer, transfer), n) == Forwarded(net, h, peer, transfer, n)
  {
    hide Values, Insert, InsertIf, RequestHeaders, ResolveClientIp;
    var tokens := Tokens(Values(h, "connection"));
    var trusted := net.trusted(peer);
    var client := net.show(ResolveClientIp(net, h, peer));
    var base := RequestHeaders(h, tokens, transfer, client);
    RequestValues(h, tokens, transfer, client, n);
    var proto := Insert(base, "x-forwarded-proto", ForwardedProto(h, trusted));
    ValuesInsert(base, "x-forwarded-proto", ForwardedProto(h, trusted), n);
    ValuesInsertIf(proto, "x-forwarded-host", ForwardedHost(h, trusted), n);
    ValuesInsertIf(InsertIf(proto, "x-forwarded-host", ForwardedHost(h, trusted)), "host", UpstreamHost(h, trusted), n);
  }

  /** The fields that are about one connection only. */
  predicate IsHopByHopField(n: string) {
    || n == "connection" || n == "keep-alive" || n == "proxy-authenticate" || n == "proxy-authorization"
    || n == "proxy-connection" || n == "te" || n == "trailer" || n == "trailers" || n == "transfer-encoding" || n == "upgrade"
  }

  /** The fields the proxy writes itself. */
  predicate IsWrittenField(n: string) {
    || n == "host" || n == "x-forwarded-for" || n == "x-real-ip" || n == "x-forwarded-host" || n == "x-forwarded-proto"
  }

  predicate IsCdnField(n: string) {
    n == "cf-connecting-ip" || n == "true-client-ip"
  }

  predicate IsUpgradePair(transfer: Transfer, n: string) {
    transfer == WebSocket && (n == "connection" || n == "upgrade")
  }

  /** No hop-by-hop field and no field nominated by any Connection field is forwarded, but
    * for the canonical upgrade pair and the fields the proxy writes itself; every other
    * end-to-end field keeps all its values in order. */
  lemma RequestPolicy(net: Net, h: HeaderMap, peer: Ip, transfer: Transfer, n: string, fields: seq<ChainField>)
    requires IsKey(n) && AllFieldsOk(fields) && Values(h, "connection") == JoinAll(fields)
    ensures var out := Values(ForwardRequest(net, h, peer, transfer), n);
            var stripped := IsHopByHopField(n) || Nominates(fields, n);
            && (stripped && !IsWrittenField(n) && !IsUpgradePair(transfer, n) ==> out == [])
            && (IsCdnField(n) ==> out == [])
            && (!stripped && !IsWrittenField(n) && !IsCdnField(n) ==> out == Values(h, n))
            && (IsUpgradePair(transfer, n) ==> out == [if n == "connection" then "Upgrade" else "websocket"])
            && (IsWrittenField(n) ==> |out| <= 1)
  {
    hide Values, ForwardRequest, Tokens, ResolveClientIp, IsKey, Nominates, AllFieldsOk, JoinAll;
    ForwardedValues(net, h, peer, transfer, n);
    NominatesExactly(fields, n);
  }

  /** The value is text, and up to blanks and case the word. */
  ghost predicate Says(values: seq<string>, word: string) {
    values != [] && (forall i :: 0 <= i < |values[0]| ==> IsPlain(values[0][i])) && Reads(values[0], word)
  }

  /** The same for a relayed response; the upgrade pair is relayed only in canonical form,
    * and only as far as the upstream answered with it. */
  lemma ResponsePolicy(h: HeaderMap, transfer: Transfer, n: string, fields: seq<ChainField>)
    requires IsKey(n) && AllFieldsOk(fields) && Values(h, "connection") == JoinAll(fields)
    ensures var out := Values(ResponseHeaders(h, transfer), n);
            var stripped := IsHopByHopField(n) || Nominates(fields, n);
            && (stripped && !IsUpgradePair(transfer, n) ==> out == [])
            && (!stripped ==> out == Values(h, n))
            && (transfer == WebSocket && n == "connection" ==> out == if Nominates(fields, "upgrade") then ["Upgrade"] else [])
            && (transfer == WebSocket && n == "upgrade" ==>
                  out == if Says(Values(h, "upgrade"), "websocket") then ["websocket"] else [])
  {
    hide Values, Tokens, ResponseHeaders, Nominates, AllFieldsOk, JoinAll, Says, AcceptsWebSocket, First, IsKey;
    UpgradeIsKey();
    NominatesExactly(fields, n);
    NominatesExactly(fields, "upgrade");
    AcceptsExactly(h);
    ResponseValues(h, transfer, n);
  }

  lemma ResponseValues(h: HeaderMap, transfer: Transfer, n: string)
    ensures var tokens := Tokens(Values(h, "connection"));
            Values(ResponseHeaders(h, transfer), n)
            == if transfer == WebSocket && n == "connection" then (if "upgrade" in tokens then ["Upgrade"] else [])
               else if transfer == WebSocket && n == "upgrade" then
                 (if AcceptsWebSocket(First(h, "upgrade")) then ["websocket"] else [])
               else if Withheld(tokens, n, transfer) then [] else Values(h, n)
  {
    hide Values, Insert, Tokens, AcceptsWebSocket, First;
    var tokens := Tokens(Values(h, "connection"));
    var drop := ResponseDrop(tokens, transfer);
    var copied := Copied(h, drop);
    ValuesCopied(h, drop, n);
    assert drop(n) == Withheld(tokens, n, transfer);
    ValuesInsert(copied, "connection", "Upgrade", n);
    var connected := if "upgrade" in tokens then Insert(copied, "connection", "Upgrade") else copied;
    ValuesInsert(connected, "upgrade", "websocket", n);
  }

  lemma UpgradeIsKey()
    ensures IsKey("upgrade") && IsKey("websocket")
  {
    hide IsNameChar;
    LowerWordIsKey("upgrade");
    LowerWordIsKey("websocket");
  }

  lemma LowerWordIsKey(w: string)
    requires w != "" && forall i :: 0 <= i < |w| ==> 'a' <= w[i] <= 'z'
    ensures IsKey(w)
  {
    forall i | 0 <= i < |w| ensures IsNameChar(w[i]) && w[i] !in UPPER_LETTERS {
      LowerIsRange(w[i]);
      UpperIsRange(w[i]);
    }
  }

  lemma AcceptsExactly(h: HeaderMap)
    ensures AcceptsWebSocket(First(h, "upgrade")) <==> Says(Values(h, "upgrade"), "websocket")
  {
    hide Values, Lower, Trim, IsKey, Reads;
    UpgradeIsKey();
    if Values(h, "upgrade") != [] {
      ReadsExactly(Values(h, "upgrade")[0], "websocket");
      WordIsHeaderName(Trim(Values(h, "upgrade")[0]));
    }
  }

  lemma WordIsHeaderName(s: string)
    ensures Lower(s) == "websocket" ==> IsHeaderName(s)
  {
    hide IsHeaderName;
    UpgradeIsKey();
    LowersToKey(s, "websocket");
    if Lower(s) == "websocket" { NamesOfKeys(s, "websocket"); }
  }

  /** A request is a handshake exactly if a Connection element is `upgrade`, and the first
    * Upgrade value is `websocket`, both in any case. */
  lemma HandshakeExactly(h: HeaderMap, fields: seq<ChainField>)
    requires AllFieldsOk(fields) && Values(h, "connection") == JoinAll(fields)
    ensures IsWebSocketUpgrade(h) <==>
            Nominates(fields, "upgrade") && Values(h, "upgrade") != [] && SameName(Values(h, "upgrade")[0], "websocket")
  {
    hide Values, Tokens, Nominates, AllFieldsOk, JoinAll, IsKey, Lower, SameName, IsHeaderName;
    UpgradeIsKey();
    NominatesExactly(fields, "upgrade");
    if Values(h, "upgrade") != [] {
      var value := Values(h, "upgrade")[0];
      LowersToKey(value, "websocket");
      WordIsHeaderName(value);
      if IsHeaderName(value) { HeaderNameIsText(value); }
    }
  }

  lemma HeaderNameIsText(s: string)
    requires IsHeaderName(s)
    ensures IsText(s)
  {
  }

  // ---------- one proxy behind another ----------

  /** The canonical Connection field nominates the upgrade and nothing else. */
  lemma UpgradeToken()
    ensures Tokens(["Upgrade"]) == {"upgrade"}
  {
    UpgradeField();
    assert ["Upgrade"][..0] == [];
    hide TokensOf;
  }

  lemma OneToken(value: string)
    requires Split(value) == [value] && Trim(value) == value && IsText(value) && IsHeaderName(value)
    ensures TokensOf(value) == {Lower(value)}
  {
    hide Split, Trim, Lower, IsText, IsHeaderName;
    assert value in Split(value);
  }

  lemma UpgradeField()
    ensures TokensOf("Upgrade") == {"upgrade"}
  {
    hide Split, Trim, TokensOf;
    SplitNoComma("Upgrade");
    TrimTight("Upgrade");
    OneToken("Upgrade");
    assert Lower("Upgrade") == "upgrade";
  }

  lemma AddressReadsBack(net: Net, ip: Ip)
    requires ReadsBack(net, ip)
    ensures IsText(net.show(ip)) && ParseAll(net, Split(net.show(ip))) == [ip]
    ensures ForwardedIps(net, [net.show(ip)]) == [ip]
    ensures SingleIp(net, [net.show(ip)]) == Some(ip) && SingleIp(net, []) == None
  {
    var s := net.show(ip);
    SplitNoComma(s);
    TrimTight(s);
    assert [s][1..] == [];
    assert ParseAll(net, [s]) == [ip] + ParseAll(net, []);
    assert ForwardedIps(net, [s]) == ParseAll(net, [s]) + ForwardedIps(net, []);
  }

  lemma OneAddress(net: Net, client: Ip)
    ensures LastUntrusted(net, [client]) == if net.trusted(client) then None else Some(client)
  {
    assert [client][..0] == [];
  }

  /** What the first proxy resolved, a second one that trusts it resolves again. */
  lemma ResolvesAgain(net: Net, h1: HeaderMap, peer: Ip, client: Ip)
    requires ReadsBack(net, client) && net.trusted(peer)
    requires Values(h1, "x-forwarded-for") == [net.show(client)] && Values(h1, "x-real-ip") == [net.show(client)]
    requires Values(h1, "cf-connecting-ip") == [] && Values(h1, "true-client-ip") == []
    ensures ResolveClientIp(net, h1, peer) == client
  {
    hide Values, ForwardedIps, SingleIp, ReadsBack, LastUntrusted;
    AddressReadsBack(net, client);
    OneAddress(net, client);
  }

  /** A second proxy that trusts the first forwards what it receives unchanged: client
    * address, scheme, hosts and all other fields are fixed points, as long as the address
    * the first one resolved, written out, reads back as itself. */
  lemma SecondProxyChangesNothing(net: Net, h: HeaderMap, peer: Ip, transfer: Transfer,
                                  trusted2: Ip -> bool, first: Ip)
    requires ReadsBack(net, ResolveClientIp(net, h, peer)) && trusted2(first)
    ensures var h1 := ForwardRequest(net, h, peer, transfer);
            Same(ForwardRequest(net.(trusted := trusted2), h1, first, transfer), h1)
  {
    hide Values, ForwardRequest, Tokens, ResolveClientIp;
    var h1 := ForwardRequest(net, h, peer, transfer);
    var net2 := net.(trusted := trusted2);
    var client := ResolveClientIp(net, h, peer);
    forall n ensures Values(h1, n) == Forwarded(net, h, peer, transfer, n) {
      ForwardedValues(net, h, peer, transfer, n);
    }
    ResolvesAgain(net2, h1, first, client);
    SecondTokens(h1, transfer);
    forall n ensures Values(ForwardRequest(net2, h1, first, transfer), n) == Values(h1, n) {
      ForwardedValues(net2, h1, first, transfer, n);
      SecondHosts(h1, h, net.trusted(peer));
      Again(net, net2, h, h1, peer, first, transfer, n);
    }
    assert Same(ForwardRequest(net2, h1, first, transfer), h1);
  }

  lemma SecondTokens(h1: HeaderMap, transfer: Transfer)
    requires Values(h1, "connection") == if transfer == WebSocket then ["Upgrade"] else []
    ensures Tokens(Values(h1, "connection")) == if transfer == WebSocket then {"upgrade"} else {}
  {
    UpgradeToken();
  }

  lemma SecondHosts(h1: HeaderMap, h: HeaderMap, trusted: bool)
    requires Values(h1, "host") == Optional(UpstreamHost(h, trusted))
    requires Values(h1, "x-forwarded-host") == Optional(ForwardedHost(h, trusted))
    ensures UpstreamHost(h1, true) == UpstreamHost(h, trusted)
    ensures ForwardedHost(h1, true) == ForwardedHost(h, trusted)
  {
    hide Values;
  }

  lemma Again(net: Net, net2: Net, h: HeaderMap, h1: HeaderMap, peer: Ip, first: Ip, transfer: Transfer, n: string)
    requires net2.trusted(first) && net2.show == net.show
    requires Values(h1, n) == Forwarded(net, h, peer, transfer, n)
    requires Values(h1, "x-forwarded-proto") == [ForwardedProto(h, net.trusted(peer))]
    requires ResolveClientIp(net2, h1, first) == ResolveClientIp(net, h, peer)
    requires Tokens(Values(h1, "connection")) == if transfer == WebSocket then {"upgrade"} else {}
    requires UpstreamHost(h1, true) == UpstreamHost(h, net.trusted(peer))
    requires ForwardedHost(h1, true) == ForwardedHost(h, net.trusted(peer))
    ensures Forwarded(net2, h1, first, transfer, n) == Values(h1, n)
  {
    hide Values, Tokens, ResolveClientIp, UpstreamHost, ForwardedHost;
  }

  /** A forwarded handshake is still recognized as one by the next proxy. */
  lemma HandshakeStays(net: Net, h: HeaderMap, peer: Ip)
    ensures IsWebSocketUpgrade(ForwardRequest(net, h, peer, WebSocket))
  {
    hide ForwardRequest, ResolveClientIp, Values, Tokens;
    var h1 := ForwardRequest(net, h, peer, WebSocket);
    ForwardedValues(net, h, peer, WebSocket, "connection");
    ForwardedValues(net, h, peer, WebSocket, "upgrade");
    UpgradeToken();
    assert Lower("websocket") == "websocket";
  }

  // ---------- the client address ----------

  lemma {:induction false} ParseAllAppend(net: Net, a: seq<string>, b: seq<string>)
    ensures ParseAll(net, a + b) == ParseAll(net, a) + ParseAll(net, b)
  {
    if a == [] {
      assert a + b == b;
    } else {
      assert (a + b)[1..] == a[1..] + b;
      ParseAllAppend(net, a[1..], b);
      var first := ParseAll(net, a)[..|ParseAll(net, a)| - |ParseAll(net, a[1..])|];
      assert ParseAll(net, a + b) == first + (ParseAll(net, a[1..]) + ParseAll(net, b));
    }
  }

  /** However the entries are spread over fields, and whatever is not text between them, they
    * are read in wire order. */
  lemma {:induction false} FieldsAreOneChain(net: Net, fields: seq<ChainField>)
    requires AllFieldsOk(fields)
    ensures ForwardedIps(net, JoinAll(fields)) == ParseAll(net, Flatten(fields))
  {
    if fields != [] {
      var rest := fields[1..];
      assert FieldOk(fields[0]);
      FieldsAreOneChain(net, rest);
      assert JoinAll(fields)[1..] == JoinAll(rest);
      match fields[0] {
        case Entries(parts) =>
          SplitJoin(parts);
          ParseAllAppend(net, parts, Flatten(rest));
        case NotText(value) =>
          assert Flatten(fields) == Flatten(rest);
      }
    }
  }

  /** The value, blanks apart, is the address. */
  ghost predicate IsAddress(net: Net, value: string, ip: Ip) {
    exists core :: Pads(value, core) && net.parse(core) == Some(ip)
  }

  lemma AddressExactly(net: Net, value: string, ip: Ip)
    ensures IsAddress(net, value, ip) <==> net.parse(Trim(value)) == Some(ip)
  {
    hide Pads, Trim;
    if IsAddress(net, value, ip) {
      var core :| Pads(value, core) && net.parse(core) == Some(ip);
      TrimIsTheElement(value, core);
    }
    TrimIsTheElement(value, Trim(value));
  }

  /** An entry that is a trusted address, or no address at all. */
  ghost predicate IsHop(net: Net, part: string) {
    forall ip :: IsAddress(net, part, ip) ==> net.trusted(ip)
  }

  lemma {:induction false} HopsAreTrusted(net: Net, hops: seq<string>)
    requires forall i :: 0 <= i < |hops| ==> IsHop(net, hops[i])
    ensures forall i :: 0 <= i < |ParseAll(net, hops)| ==> net.trusted(ParseAll(net, hops)[i])
  {
    hide IsAddress, Trim;
    if hops != [] {
      var ip := net.parse(Trim(hops[0]));
      assert IsHop(net, hops[0]);
      if ip.Some? { AddressExactly(net, hops[0], ip.value); }
      HopsAreTrusted(net, hops[1..]);
    }
  }

  lemma {:induction false} WalkPastTrusted(net: Net, ips: seq<Ip>, hops: seq<Ip>)
    requires forall i :: 0 <= i < |hops| ==> net.trusted(hops[i])
    ensures LastUntrusted(net, ips + hops) == LastUntrusted(net, ips)
  {
    if hops == [] {
      assert ips + hops == ips;
    } else {
      assert (ips + hops)[..|ips + hops| - 1] == ips + hops[..|hops| - 1];
      WalkPastTrusted(net, ips, hops[..|hops| - 1]);
    }
  }

  /** Behind a trusted peer the client is the last untrusted address of the chain: whatever
    * stands before it, however the chain is split over fields, whatever does not parse or is
    * not even text, and whatever the other headers say. */
  lemma ChainResolves(net: Net, h: HeaderMap, peer: Ip, fields: seq<ChainField>,
                      prefix: seq<string>, entry: string, hops: seq<string>, client: Ip)
    requires net.trusted(peer) && !net.trusted(client) && IsAddress(net, entry, client)
    requires forall i :: 0 <= i < |hops| ==> IsHop(net, hops[i])
    requires AllFieldsOk(fields) && Flatten(fields) == prefix + ([entry] + hops)
    requires Values(h, "x-forwarded-for") == JoinAll(fields)
    ensures ResolveClientIp(net, h, peer) == client
  {
    hide ParseAll, LastUntrusted, ForwardedIps, SingleIp, Flatten, JoinAll, AllFieldsOk, IsAddress;
    AddressExactly(net, entry, client);
    FieldsAreOneChain(net, fields);
    ParseAllAppend(net, prefix, [entry] + hops);
    ParseAllAppend(net, [entry], hops);
    ParseOne(net, entry, client);
    var before, after := ParseAll(net, prefix), ParseAll(net, hops);
    HopsAreTrusted(net, hops);
    assert before + ([client] + after) == (before + [client]) + after;
    WalkPastTrusted(net, before + [client], after);
    WalkStops(net, before, client);
  }

  lemma ParseOne(net: Net, entry: string, client: Ip)
    requires net.parse(Trim(entry)) == Some(client)
    ensures ParseAll(net, [entry]) == [client]
  {
    assert [entry][1..] == [];
    assert ParseAll(net, [entry]) == [client] + ParseAll(net, []);
  }

  lemma WalkStops(net: Net, before: seq<Ip>, client: Ip)
    requires !net.trusted(client)
    ensures LastUntrusted(net, before + [client]) == Some(client)
  {
  }

  /** From an untrusted peer nothing it says about itself is believed: address and scheme
    * are those of the connection, and both hosts are the Host it sent, if any. */
  lemma UntrustedPeerIsItself(net: Net, h: HeaderMap, peer: Ip, transfer: Transfer)
    requires !net.trusted(peer)
    ensures ResolveClientIp(net, h, peer) == peer
    ensures var out := ForwardRequest(net, h, peer, transfer);
            && Values(out, "x-forwarded-for") == [net.show(peer)] && Values(out, "x-real-ip") == [net.show(peer)]
            && Values(out, "x-forwarded-proto") == ["http"]
            && Values(out, "host") == Optional(First(h, "host"))
            && Values(out, "x-forwarded-host") == Optional(First(h, "host"))
  {
    hide ForwardRequest, Values;
    ForwardedValues(net, h, peer, transfer, "x-forwarded-for");
    ForwardedValues(net, h, peer, transfer, "x-real-ip");
    ForwardedValues(net, h, peer, transfer, "x-forwarded-proto");
    ForwardedValues(net, h, peer, transfer, "host");
    ForwardedValues(net, h, peer, transfer, "x-forwarded-host");
  }

  /** From a trusted peer the first scheme and the first hosts are believed: each host stands
    * in for the other where that is missing. */
  lemma TrustedPeerIsBelieved(net: Net, h: HeaderMap, peer: Ip, transfer: Transfer)
    requires net.trusted(peer)
    ensures var out := ForwardRequest(net, h, peer, transfer); var client := net.show(ResolveClientIp(net, h, peer));
            Values(out, "x-forwarded-for") == [client] && Values(out, "x-real-ip") == [client]
    ensures var out := ForwardRequest(net, h, peer, transfer); var proto := Values(h, "x-forwarded-proto");
            Values(out, "x-forwarded-proto") == [if proto != [] then proto[0] else "http"]
    ensures var out := ForwardRequest(net, h, peer, transfer); var host, asked := Values(h, "host"), Values(h, "x-forwarded-host");
            && Values(out, "host") == (if host != [] then host[..1] else if asked != [] then asked[..1] else [])
            && Values(out, "x-forwarded-host") == (if asked != [] then asked[..1] else if host != [] then host[..1] else [])
  {
    hide ForwardRequest, Values, ResolveClientIp;
    ForwardedValues(net, h, peer, transfer, "x-forwarded-for");
    ForwardedValues(net, h, peer, transfer, "x-real-ip");
    ForwardedValues(net, h, peer, transfer, "x-forwarded-proto");
    ForwardedValues(net, h, peer, transfer, "host");
    ForwardedValues(net, h, peer, transfer, "x-forwarded-host");
  }

  // ---------- where no untrusted address is forwarded ----------

  /** The first of the values that is an address, if one is; the ones that are not text are
    * not looked at. */
  ghost predicate IsFirstAddress(net: Net, values: seq<string>, ip: Option<Ip>) {
    if ip.None? then forall j :: 0 <= j < |values| ==> !HasAddress(net, values[j])
    else exists k :: 0 <= k < |values| && IsAddress(net, values[k], ip.value) && IsPlainText(values[k])
                     && forall j :: 0 <= j < k ==> !HasAddress(net, values[j])
  }

  predicate IsPlainText(value: string) {
    forall i :: 0 <= i < |value| ==> IsPlain(value[i])
  }

  ghost predicate HasAddress(net: Net, value: string) {
    IsPlainText(value) && exists ip :: IsAddress(net, value, ip)
  }

  lemma HasExactly(net: Net, value: string)
    ensures HasAddress(net, value) <==> IsText(value) && net.parse(Trim(value)).Some?
  {
    hide IsAddress, Trim;
    if net.parse(Trim(value)).Some? { AddressExactly(net, value, net.parse(Trim(value)).value); }
    if HasAddress(net, value) {
      var ip :| IsAddress(net, value, ip);
      AddressExactly(net, value, ip);
    }
  }

  lemma FirstAddressTail(net: Net, values: seq<string>, ip: Option<Ip>)
    requires values != [] && IsFirstAddress(net, values, ip)
    ensures HasAddress(net, values[0]) ==> ip.Some? && net.parse(Trim(values[0])) == ip
    ensures !HasAddress(net, values[0]) ==> IsFirstAddress(net, values[1..], ip)
  {
    hide HasAddress, IsAddress, Trim, IsPlainText;
    if ip.Some? {
      var k :| 0 <= k < |values| && IsAddress(net, values[k], ip.value) && IsPlainText(values[k])
               && forall j :: 0 <= j < k ==> !HasAddress(net, values[j]);
      AddressExactly(net, values[k], ip.value);
      if k == 0 {
        HasOne(net, values[0], ip.value);
      } else {
        assert values[1..][k - 1] == values[k];
        assert forall j :: 0 <= j < k - 1 ==> values[1..][j] == values[j + 1];
      }
    }
  }

  lemma HasOne(net: Net, value: string, ip: Ip)
    requires IsPlainText(value) && IsAddress(net, value, ip)
    ensures HasAddress(net, value)
  {
  }

  lemma NoneHasNoFirst(net: Net, ip: Option<Ip>)
    requires IsFirstAddress(net, [], ip)
    ensures ip.None?
  {
  }

  lemma {:induction false} SingleIsFirst(net: Net, values: seq<string>, ip: Option<Ip>)
    requires IsFirstAddress(net, values, ip)
    ensures SingleIp(net, values) == ip
  {
    hide HasAddress, Trim, IsText, IsFirstAddress;
    if values == [] {
      NoneHasNoFirst(net, ip);
    } else {
      FirstAddressTail(net, values, ip);
      HasExactly(net, values[0]);
      if !HasAddress(net, values[0]) { SingleIsFirst(net, values[1..], ip); }
    }
  }

  /** The first of the parsed entries is the first entry that is an address. */
  lemma {:induction false} ParsedFirst(net: Net, parts: seq<string>, ip: Option<Ip>)
    requires IsFirstAddress(net, parts, ip) && forall j :: 0 <= j < |parts| ==> IsEntry(parts[j])
    ensures var ips := ParseAll(net, parts);
            if ip.None? then ips == [] else ips != [] && ips[0] == ip.value
  {
    hide HasAddress, Trim, IsFirstAddress;
    if parts == [] {
      NoneHasNoFirst(net, ip);
    } else {
      FirstAddressTail(net, parts, ip);
      HasExactly(net, parts[0]);
      assert IsEntry(parts[0]);
      if !HasAddress(net, parts[0]) { ParsedFirst(net, parts[1..], ip); }
    }
  }

  lemma {:induction false} FlattenedEntries(fields: seq<ChainField>)
    requires AllFieldsOk(fields)
    ensures forall j :: 0 <= j < |Flatten(fields)| ==> IsEntry(Flatten(fields)[j])
  {
    hide IsEntry;
    if fields != [] {
      assert FieldOk(fields[0]);
      FlattenedEntries(fields[1..]);
    }
  }

  lemma {:induction false} NoUntrusted(net: Net, ips: seq<Ip>)
    requires forall i :: 0 <= i < |ips| ==> net.trusted(ips[i])
    ensures LastUntrusted(net, ips).None?
  {
    if ips != [] { NoUntrusted(net, ips[..|ips| - 1]); }
  }

  /** Behind a trusted peer that forwards no untrusted address, the client is the first address
    * of the CDN's fields, else of X-Real-IP, else the leftmost hop, else the peer. */
  lemma FallbackResolves(net: Net, h: HeaderMap, peer: Ip, fields: seq<ChainField>,
                         connecting: Option<Ip>, trueClient: Option<Ip>, realIp: Option<Ip>, leftmost: Option<Ip>)
    requires net.trusted(peer) && AllFieldsOk(fields) && Values(h, "x-forwarded-for") == JoinAll(fields)
    requires forall i :: 0 <= i < |Flatten(fields)| ==> IsHop(net, Flatten(fields)[i])
    requires IsFirstAddress(net, Values(h, "cf-connecting-ip"), connecting)
    requires IsFirstAddress(net, Values(h, "true-client-ip"), trueClient)
    requires IsFirstAddress(net, Values(h, "x-real-ip"), realIp)
    requires IsFirstAddress(net, Flatten(fields), leftmost)
    ensures ResolveClientIp(net, h, peer)
         == if connecting.Some? then connecting.value
            else if trueClient.Some? then trueClient.value
            else if realIp.Some? then realIp.value
            else if leftmost.Some? then leftmost.value
            else peer
  {
    hide Values, ParseAll, LastUntrusted, ForwardedIps, SingleIp, Flatten, JoinAll, AllFieldsOk, IsHop, IsEntry, IsFirstAddress;
    SingleIsFirst(net, Values(h, "cf-connecting-ip"), connecting);
    SingleIsFirst(net, Values(h, "true-client-ip"), trueClient);
    SingleIsFirst(net, Values(h, "x-real-ip"), realIp);
    FieldsAreOneChain(net, fields);
    FlattenedEntries(fields);
    ParsedFirst(net, Flatten(fields), leftmost);
    HopsAreTrusted(net, Flatten(fields));
    NoUntrusted(net, ParseAll(net, Flatten(fields)));
  }
}
