/**
  `ProxyProtocolHandler`: the PROXY protocol, versions 1 and 2, as sections 2.1 and 2.2 of the
  PROXY protocol specification have it.
 */
module ProxyHeader {
  import opened Bytes
  import opened ProxyText
  import opened Strings

  /** A socket address; any other family is `Unspec`. */
  datatype Address = V4(ip: seq<byte>, port: nat) | V6(ip: seq<byte>, port: nat) | Unspec

  predicate IsAddress(a: Address) {
    match a
    case V4(ip, port) => |ip| == 4 && port < 65536
    case V6(ip, port) => |ip| == 16 && port < 65536
    case Unspec => true
  }

  /** `inet_ntop` and `inet_pton` for IPv6. */
  datatype Inet6 = Inet6(ntop: seq<byte> -> string, pton: string -> Option<seq<byte>>)

  const ANY6: seq<byte> := [0, 0, 0, 0, 0, 0, 0, 0, 0, 0, 0, 0, 0, 0, 0, 0]

  /** What the C library promises of them. */
  ghost predicate Lawful(inet: Inet6) {
    && inet.ntop(ANY6) == "::"
    && forall ip :: |ip| == 16 ==>
         && inet.pton(inet.ntop(ip)) == Some(ip) && 2 <= |inet.ntop(ip)| <= 39
         && (forall i :: 0 <= i < |inet.ntop(ip)| ==> ' ' < inet.ntop(ip)[i] <= '~')
  }

  /** What a parser leaves: its result, negative on failure, and the two addresses. */
  datatype Outcome = Outcome(size: int, src: Address, dst: Address)

  const PEEK := 108
  const SIGNATURE: seq<byte> := [0x0D, 0x0A, 0x0D, 0x0A, 0x00, 0x0D, 0x0A, 0x51, 0x55, 0x49, 0x54, 0x0A]
  const PP2_FAM_UNSPEC := 0x00
  const PP2_FAM_TCP4 := 0x11
  const PP2_FAM_TCP6 := 0x21

  // ---------------------------------------------------------------- version 1

  function IpText(inet: Inet6, a: Address): string
    requires IsAddress(a) && !a.Unspec?
  {
    if a.V4? then Ntop4(a.ip) else inet.ntop(a.ip)
  }

  predicate Same(src: Address, dst: Address) {
    (src.V4? && dst.V4?) || (src.V6? && dst.V6?)
  }

  function LineV1(inet: Inet6, src: Address, dst: Address): string
    requires IsAddress(src) && IsAddress(dst) && Same(src, dst)
  {
    (if src.V4? then "PROXY TCP4 " else "PROXY TCP6 ")
    + IpText(inet, src) + " " + IpText(inet, dst) + " " + DecimalText(src.port) + " " + DecimalText(dst.port)
  }

  /** `MakeProxyHeaderV1`. */
  function HeaderV1(inet: Inet6, src: Address, dst: Address): string
    requires IsAddress(src) && IsAddress(dst)
  {
    if Same(src, dst) then LineV1(inet, src, dst) + "\r\n" else "PROXY UNKNOWN\r\n"
  }

  /** `SetAddr`: on failure the address has been cleared already. */
  function SetAddr(ip: string, port: nat): (bool, Address) {
    if ip == "" || ip == "0" || ip == "0.0.0.0" || ip == "*" then (true, V4([0, 0, 0, 0], port))
    else match Pton4(ip)
         case Some(b) => (true, V4(b, port))
         case None => (false, V4([0, 0, 0, 0], port))
  }

  /** `SetAddr6`. */
  function SetAddr6(inet: Inet6, ip: string, port: nat): (bool, Address) {
    if ip == "" || ip == "0" || ip == "::" || ip == "*" then (true, V6(ANY6, port))
    else match inet.pton(ip)
         case Some(b) => (true, V6(b, port))
         case None => (false, V6(ANY6, port))
  }

  /** What version 1 makes of the words of its line, when the whole header takes `size` bytes. */
  function Words(inet: Inet6, tokens: seq<string>, size: nat, src: Address, dst: Address): Outcome {
    if |tokens| < 2 then Outcome(-1, src, dst)
    else if tokens[1] == "UNKNOWN" then Outcome(size, src, dst)
    else if |tokens| != 6 then Outcome(-1, src, dst)
    else
      var srcPort, dstPort := Atoi(tokens[4]), Atoi(tokens[5]);
      if srcPort < 0 || srcPort > 65535 || dstPort < 0 || dstPort > 65535 then Outcome(-1, src, dst)
      else if tokens[1] == "TCP4" then Pair(SetAddr(tokens[2], srcPort), SetAddr(tokens[3], dstPort), size, dst)
      else if tokens[1] == "TCP6" then
        Pair(SetAddr6(inet, tokens[2], srcPort), SetAddr6(inet, tokens[3], dstPort), size, dst)
      else Outcome(size, src, dst)
  }

  /** The destination is not touched when the source is wrong. */
  function Pair(src: (bool, Address), dst: (bool, Address), size: nat, oldDst: Address): Outcome {
    if !src.0 then Outcome(-1, src.1, oldDst) else Outcome(if dst.0 then size else -1, src.1, dst.1)
  }

  /** `ParseProxyHeaderV1` on the bytes read. */
  function ParsedV1(inet: Inet6, hdr: string, src: Address, dst: Address): Outcome
    requires hdr != ""
  {
    var end := IndexOf(hdr[..|hdr| - 1], '\r');
    if end == |hdr| - 1 || hdr[end + 1] != '\n' then Outcome(-1, src, dst)
    else Words(inet, Split(hdr[..end], ' '), end + 2, src, dst)
  }

  // ---------------------------------------------------------------- version 2

  function ToBE(n: nat): seq<byte>
    requires n < 65536
  {
    [n / 256, n % 256]
  }

  function FromBE(s: seq<byte>): nat
    requires |s| == 2
  {
    s[0] as int * 256 + s[1] as int
  }

  /** `MakeProxyHeaderV2`. */
  function HeaderV2(src: Address, dst: Address): seq<byte>
    requires IsAddress(src) && IsAddress(dst)
  {
    if src.V4? && dst.V4? then
      SIGNATURE + [0x21, PP2_FAM_TCP4] + ToBE(12) + src.ip + dst.ip + ToBE(src.port) + ToBE(dst.port)
    else if src.V6? && dst.V6? then
      SIGNATURE + [0x21, PP2_FAM_TCP6] + ToBE(36) + src.ip + dst.ip + ToBE(src.port) + ToBE(dst.port)
    else SIGNATURE + [0x21, PP2_FAM_UNSPEC] + ToBE(0)
  }

  /** `ParseProxyHeaderV2`: `buf` is the whole buffer, of which `read` bytes came from the socket. */
  function ParsedV2(buf: seq<byte>, read: nat, src: Address, dst: Address): Outcome
    requires |buf| == PEEK
  {
    var size := 16 + FromBE(buf[14..16]);
    if read < size then Outcome(-1, src, dst)
    else if buf[12] % 16 == 1 then
      if buf[13] == PP2_FAM_TCP4 then
        Outcome(size, V4(buf[16..20], FromBE(buf[24..26])), V4(buf[20..24], FromBE(buf[26..28])))
      else if buf[13] == PP2_FAM_TCP6 then
        Outcome(size, V6(buf[16..32], FromBE(buf[48..50])), V6(buf[32..48], FromBE(buf[50..52])))
      else if buf[13] == PP2_FAM_UNSPEC then Outcome(size, src, dst)
      else Outcome(-1, src, dst)
    else if buf[12] % 16 == 0 then Outcome(size, src, dst)
    else Outcome(-1, src, dst)
  }

  // ---------------------------------------------------------------- which version

  function Chars(s: seq<byte>): string {
    seq(|s|, i requires 0 <= i < |s| => s[i] as char)
  }

  /** `ProcessProxyHeader` after the peek. */
  function Processed(inet: Inet6, buf: seq<byte>, read: nat, src: Address, dst: Address): Outcome
    requires |buf| == PEEK && read <= PEEK
  {
    if read >= 16 && buf[..12] == SIGNATURE && buf[12] / 16 == 2 then ParsedV2(buf, read, src, dst)
    else if read >= 8 && Chars(buf[..6]) == "PROXY " then ParsedV1(inet, Chars(buf[..read]), src, dst)
    else Outcome(-1, src, dst)
  }

  /** The handler and its two addresses, at first those of the connection itself. */
  class Handler {
    const inet: Inet6
    var src: Address
    var dst: Address

    constructor (inet: Inet6, src: Address, dst: Address)
      ensures this.inet == inet && this.src == src && this.dst == dst
    {
      this.inet, this.src, this.dst := inet, src, dst;
    }

    method MakeProxyHeaderV1() returns (header: string)
      requires IsAddress(src) && IsAddress(dst)
      ensures header == HeaderV1(inet, src, dst)
    {
      if src.V4? && dst.V4? {
        header := "PROXY TCP4 ";
      } else if src.V6? && dst.V6? {
        header := "PROXY TCP6 ";
      } else {
        return "PROXY UNKNOWN\r\n";
      }
      var line := header + IpText(inet, src) + " " + IpText(inet, dst) + " " + DecimalText(src.port)
        + " " + DecimalText(dst.port);
      header := line + "\r\n";
    }

    method MakeProxyHeaderV2() returns (header: seq<byte>)
      requires IsAddress(src) && IsAddress(dst)
      ensures header == HeaderV2(src, dst)
    {
      header := SIGNATURE + [0x21];
      if src.V4? && dst.V4? {
        header := header + [PP2_FAM_TCP4] + ToBE(12) + src.ip + dst.ip + ToBE(src.port) + ToBE(dst.port);
      } else if src.V6? && dst.V6? {
        header := header + [PP2_FAM_TCP6] + ToBE(36) + src.ip + dst.ip + ToBE(src.port) + ToBE(dst.port);
      } else {
        header := header + [PP2_FAM_UNSPEC] + ToBE(0);
      }
      assert forall fam: byte :: SIGNATURE + [0x21] + [fam] == SIGNATURE + [0x21, fam];
    }

    method ParseProxyHeaderV1(hdr: string) returns (size: int)
      requires hdr != ""
      modifies this
      ensures Outcome(size, src, dst) == ParsedV1(inet, hdr, old(src), old(dst))
    {
      var end := IndexOf(hdr[..|hdr| - 1], '\r');
      if end == |hdr| - 1 || hdr[end + 1] != '\n' {
        return -1;
      }
      size := end + 2;
      var tokens := SplitStr(hdr[..end], ' ');
      if |tokens| < 2 {
        return -1;
      }
      if tokens[1] == "UNKNOWN" {
        return size;
      }
      if |tokens| != 6 {
        return -1;
      }
      var srcPort, dstPort := Atoi(tokens[4]), Atoi(tokens[5]);
      if srcPort < 0 || srcPort > 65535 || dstPort < 0 || dstPort > 65535 {
        return -1;
      }
      if tokens[1] == "TCP4" {
        var a := SetAddr(tokens[2], srcPort);
        src := a.1;
        if !a.0 {
          return -1;
        }
        var b := SetAddr(tokens[3], dstPort);
        dst := b.1;
        if !b.0 {
          return -1;
        }
      } else if tokens[1] == "TCP6" {
        var a := SetAddr6(inet, tokens[2], srcPort);
        src := a.1;
        if !a.0 {
          return -1;
        }
        var b := SetAddr6(inet, tokens[3], dstPort);
        dst := b.1;
        if !b.0 {
          return -1;
        }
      }
    }

    method ParseProxyHeaderV2(buf: seq<byte>, read: nat) returns (size: int)
      requires |buf| == PEEK
      modifies this
      ensures Outcome(size, src, dst) == ParsedV2(buf, read, old(src), old(dst))
    {
      size := 16 + FromBE(buf[14..16]);
      if read < size {
        return -1;
      }
      if buf[12] % 16 == 1 {
        if buf[13] == PP2_FAM_TCP4 {
          src := V4(buf[16..20], FromBE(buf[24..26]));
          dst := V4(buf[20..24], FromBE(buf[26..28]));
        } else if buf[13] == PP2_FAM_TCP6 {
          src := V6(buf[16..32], FromBE(buf[48..50]));
          dst := V6(buf[32..48], FromBE(buf[50..52]));
        } else if buf[13] != PP2_FAM_UNSPEC {
          return -1;
        }
      } else if buf[12] % 16 != 0 {
        return -1;
      }
    }

    method ProcessProxyHeader(buf: seq<byte>, read: nat) returns (size: int)
      requires |buf| == PEEK && read <= PEEK
      modifies this
      ensures Outcome(size, src, dst) == Processed(inet, buf, read, old(src), old(dst))
    {
      if read >= 16 && buf[..12] == SIGNATURE && buf[12] / 16 == 2 {
        size := ParseProxyHeaderV2(buf, read);
      } else if read >= 8 && Chars(buf[..6]) == "PROXY " {
        size := ParseProxyHeaderV1(Chars(buf[..read]));
      } else {
        size := -1;
      }
    }
  }
}
