/**
 * The proxy's startup configuration (`src/config.rs`): where to listen and
 * whether each connection goes to a fixed target or negotiates its target
 * with a SOCKS4 handshake. Every builder takes the configuration by value and
 * returns the updated copy.
 */
module Config {
  import opened Net

  /** `ProxyMode`: a fixed target, or a target chosen per connection by the SOCKS4 handshake. */
  datatype ProxyMode = Direct(target: SocketAddr) | Socks4

  /** The default listen address, 127.0.0.1:1080. */
  const DefaultListenAddr := V4(SocketAddrV4(Ipv4Addr(127, 0, 0, 1), 1080))

  /** `ProxyConfig`. */
  datatype ProxyConfig = ProxyConfig(listenAddr: SocketAddr, mode: ProxyMode) {

    /** `impl Default for ProxyConfig`. */
    static function Default(): (c: ProxyConfig)
      ensures c.listenAddr == V4(SocketAddrV4(Ipv4Addr(127, 0, 0, 1), 1080))
      ensures c.mode == Socks4
    {
      ProxyConfig(DefaultListenAddr, Socks4)
    }

    /** `ProxyConfig::new`, the default configuration. */
    static function New(): (c: ProxyConfig)
      ensures c == Default()
      ensures c.listenAddr == DefaultListenAddr && c.mode == Socks4
    {
      Default()
    }

    /** `with_listen_addr`: replaces the listen address and keeps the mode. */
    function WithListenAddr(addr: SocketAddr): (c: ProxyConfig)
      ensures c.listenAddr == addr
      ensures c.mode == mode
    {
      this.(listenAddr := addr)
    }

    /** `with_target_addr`: switches to direct mode towards `addr` and keeps the listen address. */
    function WithTargetAddr(addr: SocketAddr): (c: ProxyConfig)
      ensures c.mode == Direct(addr)
      ensures c.listenAddr == listenAddr
    {
      this.(mode := Direct(addr))
    }

    /** `with_socks4_mode`: switches to SOCKS4 mode and keeps the listen address. */
    function WithSocks4Mode(): (c: ProxyConfig)
      ensures c.mode == Socks4
      ensures c.listenAddr == listenAddr
    {
      this.(mode := Socks4)
    }

    /** `with_buffer_size`: accepted for later use; changes nothing. */
    function WithBufferSize(size: U64): (c: ProxyConfig)
      ensures c == this
    {
      this
    }

    /** `with_timeout`: accepted for later use; changes nothing. */
    function WithTimeout(seconds: U64): (c: ProxyConfig)
      ensures c == this
    {
      this
    }
  }

  /** Switching to SOCKS4 mode twice is the same as switching once. */
  lemma Socks4ModeIdempotent(c: ProxyConfig)
    ensures c.WithSocks4Mode().WithSocks4Mode() == c.WithSocks4Mode()
  {
  }

  /** The listen address and the mode are independent: setting one never undoes the other, in either order. */
  lemma BuildersCommute(c: ProxyConfig, listen: SocketAddr, target: SocketAddr)
    ensures c.WithListenAddr(listen).WithTargetAddr(target) == c.WithTargetAddr(target).WithListenAddr(listen)
    ensures c.WithListenAddr(listen).WithSocks4Mode() == c.WithSocks4Mode().WithListenAddr(listen)
  {
  }

  /** The last mode builder called decides the mode. */
  lemma LastModeWins(c: ProxyConfig, t1: SocketAddr, t2: SocketAddr)
    ensures c.WithTargetAddr(t1).WithTargetAddr(t2) == c.WithTargetAddr(t2)
    ensures c.WithTargetAddr(t1).WithSocks4Mode() == c.WithSocks4Mode()
    ensures c.WithSocks4Mode().WithTargetAddr(t2) == c.WithTargetAddr(t2)
  {
  }
}
