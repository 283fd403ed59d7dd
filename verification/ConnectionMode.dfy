/**
 Connection modes: what the access method selector announces (`ApiConnectionMode`) and what the
 connector stores (`InnerConnectionMode`), with the partial conversion between them.
 */
module ConnectionMode {
  import opened Common

  datatype ProxyConfig =
    | Shadowsocks(endpoint: nat, password: string, cipher: string)
    | Socks5Local(localPort: nat)
    | Socks5Remote(peer: nat, auth: Option<(string, string)>)
    | EncryptedDnsProxy(config: nat)

  datatype Mode = Direct | Proxied(proxy: ProxyConfig)

  datatype InnerMode =
    | InnerDirect
    | InnerShadowsocks(peer: nat, password: string, cipher: string)
    | InnerSocks5(host: SocksHost, auth: Option<(string, string)>)
    | InnerEncryptedDns(config: nat)

  datatype SocksHost = Localhost(port: nat) | Remote(endpoint: nat)

  /** The cipher names that the Shadowsocks library recognises; the library itself is not modelled. */
  type Ciphers = string -> bool

  /** `InnerConnectionMode::try_from`. */
  function Parse(known: Ciphers, mode: Mode): Option<InnerMode> {
    match mode
    case Direct => Some(InnerDirect)
    case Proxied(Shadowsocks(endpoint, password, cipher)) =>
      if known(cipher) then Some(InnerShadowsocks(endpoint, password, cipher)) else None
    case Proxied(Socks5Local(port)) => Some(InnerSocks5(Localhost(port), None))
    case Proxied(Socks5Remote(peer, auth)) => Some(InnerSocks5(Remote(peer), auth))
    case Proxied(EncryptedDnsProxy(config)) => Some(InnerEncryptedDns(config))
  }

  /** A mode parses unless it names a cipher that is not recognised. */
  predicate Recognised(known: Ciphers, mode: Mode) {
    mode.Proxied? && mode.proxy.Shadowsocks? ==> known(mode.proxy.cipher)
  }

  /** The mode that a stored mode stands for. */
  function Printed(inner: InnerMode): Mode {
    match inner
    case InnerDirect => Direct
    case InnerShadowsocks(peer, password, cipher) => Proxied(Shadowsocks(peer, password, cipher))
    case InnerSocks5(Localhost(port), _) => Proxied(Socks5Local(port))
    case InnerSocks5(Remote(endpoint), auth) => Proxied(Socks5Remote(endpoint, auth))
    case InnerEncryptedDns(config) => Proxied(EncryptedDnsProxy(config))
  }

  /** Parsing succeeds exactly on recognised modes and loses nothing of them, credentials included. */
  lemma ParseLosesNothing(known: Ciphers, mode: Mode)
    ensures Parse(known, mode).Some? <==> Recognised(known, mode)
    ensures Parse(known, mode).Some? ==> Printed(Parse(known, mode).value) == mode
  {
  }

  /** What storing an announced mode leaves in the connector: a mode that does not parse is ignored. */
  function Stored(known: Ciphers, inner: InnerMode, mode: Mode): InnerMode {
    match Parse(known, mode)
    case Some(parsed) => parsed
    case None => inner
  }

  /** The connector's mode after it was given every mode of `modes`, oldest first. */
  function StoredAll(known: Ciphers, inner: InnerMode, modes: seq<Mode>): InnerMode {
    if modes == [] then inner
    else Stored(known, StoredAll(known, inner, Front(modes)), Last(modes))
  }

  lemma {:induction false} StoredAllAppend(known: Ciphers, inner: InnerMode, a: seq<Mode>, b: seq<Mode>)
    ensures StoredAll(known, inner, a + b) == StoredAll(known, StoredAll(known, inner, a), b)
  {
    if b == [] {
      assert a + b == a;
    } else {
      assert Front(a + b) == a + Front(b);
      StoredAllAppend(known, inner, a, Front(b));
    }
  }

  /** The index of the last mode that parses decides what is stored; without one nothing changes. */
  lemma {:induction false} StoredAllIsLastParsed(known: Ciphers, inner: InnerMode, modes: seq<Mode>)
    ensures (forall m | m in modes :: Parse(known, m).None?) ==> StoredAll(known, inner, modes) == inner
    ensures forall i | 0 <= i < |modes| && Parse(known, modes[i]).Some? &&
                       (forall j | i < j < |modes| :: Parse(known, modes[j]).None?) ::
              StoredAll(known, inner, modes) == Parse(known, modes[i]).value
  {
    if modes != [] {
      StoredAllIsLastParsed(known, inner, Front(modes));
      forall i | 0 <= i < |modes| && Parse(known, modes[i]).Some? &&
                 (forall j | i < j < |modes| :: Parse(known, modes[j]).None?)
        ensures StoredAll(known, inner, modes) == Parse(known, modes[i]).value
      {
        if i < |modes| - 1 {
          assert Front(modes)[i] == modes[i];
          assert forall j | i < j < |Front(modes)| :: Front(modes)[j] == modes[j];
          assert Parse(known, modes[|modes| - 1]).None?;
        }
      }
      assert forall m | m in Front(modes) :: m in modes;
    }
  }
}
