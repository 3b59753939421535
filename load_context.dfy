/** LoadContext: the id and display name of the memory bank that belongs to
    the current game session, derived in priority order from the integrated
    (singleplayer) server, a Realms connection, a LAN server or a
    multiplayer server; plus the remembered Realm that a Realms session uses. */
module LoadContexts {
  import opened Game

  /** Java's `long`. */
  newtype Long = x: int | -0x8000_0000_0000_0000 <= x < 0x8000_0000_0000_0000

  /** The record LoadContext(id, name). */
  datatype LoadContext = LoadContext(id: string, name: string)

  /** The integrated server of a singleplayer world: its level folder and level name. */
  datatype IntegratedServer = IntegratedServer(levelId: string, levelName: string)

  /** ServerData of the current server; player-list entries are taken in their string form. */
  datatype ServerData = ServerData(ip: string, name: string, isLan: bool, playerList: seq<string>)

  datatype RealmsServer = RealmsServer(id: Long, name: string)

  /** What `get` reads from the Minecraft instance: whether there is a
      connection and whether it is connected, the integrated server, whether
      the client is connected to Realms, and the current server. */
  datatype MinecraftState = MinecraftState(
    connection: Option<bool>,
    singleplayerServer: Option<IntegratedServer>,
    connectedToRealms: bool,
    currentServer: Option<ServerData>)

  /** StringUtil.sanitizeForPath and I18n.get, which are not part of this model. */
  datatype Host = Host(sanitizeForPath: string -> string, i18n: string -> string)

  // ---------------------------------------------------------------------
  // Long.toHexString and StringUtils.leftPad

  const HEX_DIGITS := "0123456789abcdef"

  predicate IsHexDigit(c: char) {
    '0' <= c <= '9' || 'a' <= c <= 'f'
  }

  function HexValue(c: char): nat {
    if '0' <= c <= '9' then c as int - '0' as int
    else if 'a' <= c <= 'f' then c as int - 'a' as int + 10
    else 0
  }

  /** Lower-case hexadecimal without leading zeros ("0" for zero). */
  function ToHex(n: nat): (h: string)
    ensures |h| >= 1 && forall i :: 0 <= i < |h| ==> IsHexDigit(h[i])
    ensures n > 0 ==> h[0] != '0'
  {
    if n < 16 then [HEX_DIGITS[n]] else ToHex(n / 16) + [HEX_DIGITS[n % 16]]
  }

  /** The value of a string of hexadecimal digits. */
  function ParseHex(s: string): nat {
    if s == [] then 0 else ParseHex(s[..|s| - 1]) * 16 + HexValue(s[|s| - 1])
  }

  function Pow16(k: nat): (p: nat)
    ensures p >= 1
  {
    if k == 0 then 1 else 16 * Pow16(k - 1)
  }

  /** The digits parse back to the number; they are lower-case hex digits
      and the first is not a zero unless the number is zero. */
  lemma {:induction false} ToHexRoundTrip(n: nat)
    ensures ParseHex(ToHex(n)) == n
    ensures |ToHex(n)| >= 1 && forall i :: 0 <= i < |ToHex(n)| ==> IsHexDigit(ToHex(n)[i])
    ensures n > 0 ==> ToHex(n)[0] != '0'
  {
    if n >= 16 {
      ToHexRoundTrip(n / 16);
      var s := ToHex(n / 16);
      assert (s + [HEX_DIGITS[n % 16]])[..|s|] == s;
      assert HexValue(HEX_DIGITS[n % 16]) == n % 16;
    } else {
      assert [HEX_DIGITS[n]][..0] == [];
    }
  }

  /** A number below 16^k has at most k hex digits. */
  lemma {:induction false} ToHexLength(n: nat, k: nat)
    requires k >= 1 && n < Pow16(k)
    ensures |ToHex(n)| <= k
  {
    if n >= 16 {
      assert Pow16(1) == 16;
      assert k >= 2;
      assert n / 16 < Pow16(k - 1);
      ToHexLength(n / 16, k - 1);
    }
  }

  /** The bits of a long read as an unsigned number (two's complement). */
  function Unsigned(x: Long): (u: nat)
    ensures u < 0x1_0000_0000_0000_0000
    ensures u % 0x1_0000_0000_0000_0000 == x as int % 0x1_0000_0000_0000_0000
  {
    if x < 0 then x as int + 0x1_0000_0000_0000_0000 else x as int
  }

  /** Two longs with the same bit pattern are the same long. */
  lemma UnsignedInjective(a: Long, b: Long)
    requires Unsigned(a) == Unsigned(b)
    ensures a == b
  {
  }

  /** Long.toHexString: the unsigned value in hexadecimal. */
  function ToHexString(x: Long): string {
    ToHex(Unsigned(x))
  }

  /** StringUtils.leftPad(s, size): spaces in front up to `size` characters. */
  function LeftPad(s: string, size: nat): (r: string)
    ensures |r| == if |s| >= size then |s| else size
    ensures r[|r| - |s|..] == s
    ensures forall i :: 0 <= i < |r| - |s| ==> r[i] == ' '
  {
    if |s| >= size then s else seq(size - |s|, _ => ' ') + s
  }

  /** The realm part of a Realms id: always 16 characters, each a space or
      a hex digit. */
  function RealmKey(id: Long): (k: string)
    ensures |k| == 16
    ensures forall i :: 0 <= i < 16 ==> k[i] == ' ' || IsHexDigit(k[i])
  {
    assert Pow16(4) == 0x1_0000;
    assert Pow16(8) == 0x1_0000_0000;
    assert Pow16(16) == 0x1_0000_0000_0000_0000;
    ToHexLength(Unsigned(id), 16);
    LeftPad(ToHexString(id), 16)
  }

  /** A realm key has exactly 16 characters: spaces, then the hex digits. */
  lemma RealmKeyShape(id: Long)
    ensures |RealmKey(id)| == 16
    ensures |ToHexString(id)| <= 16 && RealmKey(id)[16 - |ToHexString(id)|..] == ToHexString(id)
  {
    assert Pow16(4) == 0x1_0000;
    assert Pow16(8) == 0x1_0000_0000;
    assert Pow16(16) == 0x1_0000_0000_0000_0000;
    ToHexLength(Unsigned(id), 16);
  }

  /** Different realm ids give different keys. */
  lemma RealmKeyInjective(a: Long, b: Long)
    requires RealmKey(a) == RealmKey(b)
    ensures a == b
  {
    var ha, hb := ToHexString(a), ToHexString(b);
    RealmKeyShape(a);
    RealmKeyShape(b);
    ToHexRoundTrip(Unsigned(a));
    ToHexRoundTrip(Unsigned(b));
    assert IsHexDigit(ha[0]) && IsHexDigit(hb[0]);
    assert |ha| == |hb|;
    assert ha == hb;
  }

  lemma DivMod16(q: nat, r: nat)
    requires r < 16
    ensures (16 * q + r) / 16 == q && (16 * q + r) % 16 == r
  {
  }

  /** k digits 'f'. */
  function Fs(k: nat): (s: string)
    ensures |s| == k && forall i :: 0 <= i < k ==> s[i] == 'f'
  {
    if k == 0 then [] else Fs(k - 1) + ['f']
  }

  /** The number written as k digits 'f', that is 16^k - 1. */
  function AllFsValue(k: nat): nat {
    if k == 0 then 0 else 16 * AllFsValue(k - 1) + 15
  }

  /** Appending a digit: 16q + r prints as q followed by the digit r. */
  lemma ToHexStep(q: nat, r: nat)
    requires 1 <= q && r < 16
    ensures ToHex(16 * q + r) == ToHex(q) + [HEX_DIGITS[r]]
  {
    DivMod16(q, r);
  }

  /** 16^(k+1) - 1 prints as k + 1 digits 'f'. */
  lemma {:induction false} AllFs(k: nat)
    ensures ToHex(AllFsValue(k + 1)) == Fs(k + 1)
  {
    if k > 0 {
      var q := AllFsValue(k);
      assert q >= 15 by { AllFsPositive(k); }
      ToHexStep(q, 15);
      AllFs(k - 1);
    }
  }

  lemma {:induction false} AllFsPositive(k: nat)
    requires k > 0
    ensures AllFsValue(k) >= 15
  {
    if k > 1 {
      AllFsPositive(k - 1);
    }
  }

  /** Scenario: the default realm id -1 prints as sixteen 'f's. */
  lemma DefaultRealmKey(id: Long)
    requires id == -1
    ensures RealmKey(id) == "ffffffffffffffff"
  {
    assert AllFsValue(4) == 0xffff;
    assert AllFsValue(8) == 0xffff_ffff;
    assert AllFsValue(16) == 0xffff_ffff_ffff_ffff;
    AllFs(15);
    assert Fs(16) == "ffffffffffffffff";
  }

  // ---------------------------------------------------------------------
  // Dropping the LAN port: ip.replaceFirst(":\\d+$", "")

  predicate IsDigit(c: char) {
    '0' <= c <= '9'
  }

  predicate AllDigits(s: string) {
    forall i :: 0 <= i < |s| ==> IsDigit(s[i])
  }

  /** The length of the longest all-digit suffix. */
  function TrailingDigits(s: string): (t: nat)
    ensures t <= |s|
  {
    if s == [] || !IsDigit(s[|s| - 1]) then 0 else 1 + TrailingDigits(s[..|s| - 1])
  }

  lemma {:induction false} TrailingDigitsAreDigits(s: string)
    ensures AllDigits(s[|s| - TrailingDigits(s)..])
    ensures TrailingDigits(s) < |s| ==> !IsDigit(s[|s| - TrailingDigits(s) - 1])
  {
    if s != [] && IsDigit(s[|s| - 1]) {
      var init := s[..|s| - 1];
      TrailingDigitsAreDigits(init);
      assert s[|s| - TrailingDigits(s)..] == init[|init| - TrailingDigits(init)..] + [s[|s| - 1]];
    }
  }

  lemma {:induction false} TrailingDigitsOf(p: string, d: string)
    requires AllDigits(d)
    requires p != [] && !IsDigit(p[|p| - 1])
    ensures TrailingDigits(p + d) == |d|
  {
    if d == [] {
      assert p + d == p;
    } else {
      var init := d[..|d| - 1];
      assert (p + d)[..|p + d| - 1] == p + init;
      TrailingDigitsOf(p, init);
    }
  }

  /** A ':' followed by one or more digits at the very end is removed;
      only the last colon can start such a match. */
  function StripPort(ip: string): (r: string)
    ensures r == ip || (|r| + 2 <= |ip| && ip[..|r|] == r && ip[|r|] == ':' && AllDigits(ip[|r| + 1..]))
  {
    TrailingDigitsAreDigits(ip);
    var t := TrailingDigits(ip);
    if t >= 1 && t < |ip| && ip[|ip| - t - 1] == ':' then ip[..|ip| - t - 1] else ip
  }

  /** "host:port" with a numeric port loses the port. */
  lemma StripPortRemovesPort(host: string, port: string)
    requires port != [] && AllDigits(port)
    ensures StripPort(host + ":" + port) == host
  {
    TrailingDigitsOf(host + ":", port);
    assert host + ":" + port == (host + ":") + port;
    assert (host + ":" + port)[..|host|] == host;
  }

  /** An address that does not end in ':' and digits is left as it is. */
  lemma StripPortKeepsOthers(ip: string)
    requires forall c :: 0 <= c < |ip| - 1 && ip[c] == ':' ==> !AllDigits(ip[c + 1..])
    ensures StripPort(ip) == ip
  {
    var t := TrailingDigits(ip);
    TrailingDigitsAreDigits(ip);
  }

  // ---------------------------------------------------------------------
  // Sessions

  datatype SessionKind = Singleplayer | Realms | Lan | Multiplayer

  /** The id prefix of each kind of session. */
  function Prefix(kind: SessionKind): string {
    match kind
    case Singleplayer => "singleplayer/"
    case Realms => "realms/"
    case Lan => "lan/"
    case Multiplayer => "multiplayer/"
  }

  /** The kind of session, in get's priority order: the integrated server
      (even when opened to LAN), Realms, then a LAN or other current server;
      none without a live connection. */
  function KindOf(mc: MinecraftState): (k: Option<SessionKind>)
    ensures k.Some? <==>
      mc.connection == Some(true) && (mc.singleplayerServer.Some? || mc.connectedToRealms || mc.currentServer.Some?)
    ensures k.Some? && mc.singleplayerServer.Some? ==> k == Some(Singleplayer)
    ensures k == Some(Lan) ==> mc.currentServer.Some? && mc.currentServer.value.isLan
  {
    if mc.connection != Some(true) then None
    else if mc.singleplayerServer.Some? then Some(Singleplayer)
    else if mc.connectedToRealms then Some(Realms)
    else if mc.currentServer.Some? then Some(if mc.currentServer.value.isLan then Lan else Multiplayer)
    else None
  }

  /** The prefixes of different kinds already differ in their first character. */
  lemma PrefixesDistinguish(a: SessionKind, b: SessionKind, x: string, y: string)
    requires a != b
    ensures Prefix(a) + x != Prefix(b) + y
  {
    assert (Prefix(a) + x)[0] == Prefix(a)[0] && (Prefix(b) + y)[0] == Prefix(b)[0];
  }

  /** The static fields of LoadContext: the last Realm joined. */
  class RealmRecord {
    var lastRealmName: string
    var lastRealmId: Long

    constructor ()
      ensures lastRealmName == "Unknown Realm" && lastRealmId == -1
    {
      lastRealmName := "Unknown Realm";
      lastRealmId := -1;
    }

    /** setLastRealm: both the id and the name are overwritten. */
    method SetLastRealm(server: RealmsServer)
      modifies this
      ensures lastRealmId == server.id && lastRealmName == server.name
    {
      lastRealmId := server.id;
      lastRealmName := server.name;
    }

    /** LoadContext.get: the context of the current session, if any. */
    function Get(mc: MinecraftState, host: Host): (r: Option<LoadContext>)
      reads this
      ensures r.Some? <==> KindOf(mc).Some?
      ensures r.Some? ==> exists rest :: r.value.id == Prefix(KindOf(mc).value) + host.sanitizeForPath(rest)
    {
      if mc.connection == Some(true) then
        var currentServer := mc.currentServer;
        if mc.singleplayerServer.Some? then
          var world := mc.singleplayerServer.value;
          Some(LoadContext(Prefix(Singleplayer) + host.sanitizeForPath(world.levelId),
                           host.i18n("menu.singleplayer") + ": " + world.levelName))
        else if mc.connectedToRealms then
          Some(LoadContext(Prefix(Realms) + host.sanitizeForPath(RealmKey(lastRealmId)),
                           host.i18n("menu.online") + ": " + lastRealmName))
        else if mc.singleplayerServer.None? && currentServer.Some? then
          var server := currentServer.value;
          if server.isLan then
            var safeIp := StripPort(server.ip);
            Some(LoadContext(Prefix(Lan) + host.sanitizeForPath(safeIp),
                             "LAN: " + (if server.playerList == [] then safeIp else server.playerList[0])))
          else
            Some(LoadContext(Prefix(Multiplayer) + host.sanitizeForPath(server.ip),
                             host.i18n("menu.multiplayer") + ": " + server.name))
        else None
      else None
    }
  }

  /** Sessions of different kinds never share a memory bank id. */
  lemma KindsNeverShareIds(rec: RealmRecord, mc1: MinecraftState, mc2: MinecraftState, host: Host)
    requires rec.Get(mc1, host).Some? && rec.Get(mc2, host).Some?
    requires KindOf(mc1) != KindOf(mc2)
    ensures rec.Get(mc1, host).value.id != rec.Get(mc2, host).value.id
  {
    var x :| rec.Get(mc1, host).value.id == Prefix(KindOf(mc1).value) + host.sanitizeForPath(x);
    var y :| rec.Get(mc2, host).value.id == Prefix(KindOf(mc2).value) + host.sanitizeForPath(y);
    PrefixesDistinguish(KindOf(mc1).value, KindOf(mc2).value, host.sanitizeForPath(x), host.sanitizeForPath(y));
  }

  /** A singleplayer world is identified by its level folder and named after
      its level, also when it is opened to LAN or a current server is set. */
  lemma SingleplayerContext(rec: RealmRecord, mc: MinecraftState, host: Host)
    requires KindOf(mc) == Some(Singleplayer)
    ensures rec.Get(mc, host) == Some(LoadContext("singleplayer/" + host.sanitizeForPath(mc.singleplayerServer.value.levelId),
                                                  host.i18n("menu.singleplayer") + ": " + mc.singleplayerServer.value.levelName))
  {
  }

  /** A Realms session's id is built from the remembered realm's 16-character
      key, its name from the remembered realm name. */
  lemma RealmsContext(rec: RealmRecord, mc: MinecraftState, host: Host)
    requires KindOf(mc) == Some(Realms)
    ensures rec.Get(mc, host) == Some(LoadContext("realms/" + host.sanitizeForPath(RealmKey(rec.lastRealmId)),
                                                  host.i18n("menu.online") + ": " + rec.lastRealmName))
    ensures |RealmKey(rec.lastRealmId)| == 16
  {
    RealmKeyShape(rec.lastRealmId);
  }

  /** A LAN session's id ignores the port, and its name is the first
      player-list entry, or the address without its port when the list is empty. */
  lemma LanContextIgnoresPort(rec: RealmRecord, mc: MinecraftState, host: Host, address: string, port: string)
    requires KindOf(mc) == Some(Lan)
    requires mc.currentServer.value.ip == address + ":" + port && port != [] && AllDigits(port)
    ensures rec.Get(mc, host).value.id == "lan/" + host.sanitizeForPath(address)
    ensures rec.Get(mc, host).value.name ==
      "LAN: " + (if mc.currentServer.value.playerList == [] then address else mc.currentServer.value.playerList[0])
  {
    StripPortRemovesPort(address, port);
  }

  /** A multiplayer session's id keeps the full address, port included. */
  lemma MultiplayerContext(rec: RealmRecord, mc: MinecraftState, host: Host)
    requires KindOf(mc) == Some(Multiplayer)
    ensures rec.Get(mc, host) == Some(LoadContext("multiplayer/" + host.sanitizeForPath(mc.currentServer.value.ip),
                                                  host.i18n("menu.multiplayer") + ": " + mc.currentServer.value.name))
  {
  }

  /** After setLastRealm, a Realms session is identified by that realm. */
  method JoinRealm(rec: RealmRecord, server: RealmsServer, mc: MinecraftState, host: Host)
    returns (context: Option<LoadContext>)
    requires KindOf(mc) == Some(Realms)
    modifies rec
    ensures context == Some(LoadContext("realms/" + host.sanitizeForPath(RealmKey(server.id)),
                                        host.i18n("menu.online") + ": " + server.name))
  {
    rec.SetLastRealm(server);
    context := rec.Get(mc, host);
    RealmsContext(rec, mc, host);
  }
}
