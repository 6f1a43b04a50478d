/** The dynamic channel as the program keeps it: each decoder works on a copy of the buffer and
    consumes the original only when a whole message is there. */
module SocksObject {
  import opened Bytes
  import opened SocksModel

  class DynamicChannel {
    var input: seq<Byte>
    var output: seq<Byte>
    var authDone: bool
    var target: Option<Target>
    var phase: Phase

    function View(): Socks
      reads this
    {
      Socks(input, output, authDone, target, phase)
    }

    constructor ()
      ensures View() == FRESH
    {
      input, output, authDone, target, phase := [], [], false, None, Dynamic;
    }

    /** channel_decode_socks4: 1 when decoded, 0 when more is needed, -1 on error. */
    method DecodeSocks4() returns (ret: int)
      modifies `input, `output, `target
      ensures match Parse4(old(input))
              case More => ret == 0 && View() == old(View())
              case Got(t, rest) =>
                && ret == 1 && input == rest && output == old(output) + REPLY4 && target == Some(t)
              case _ => ret == -1 && input == Unread4(old(input)) && output == old(output) && target == old(target)
    {
      if |input| < 9 { return 0; }
      var b := input;
      var cmd, port, addr := b[1], U16(b[2], b[3]), b[4..8];
      b := b[8..];
      var user := GetNulTerminated(b);
      if !user.Got? { return if user == More then 0 else -1; }
      b := user.rest;
      var host := Ip4(addr);
      if addr[0] == 0 && addr[1] == 0 && addr[2] == 0 && addr[3] != 0 {
        var name := GetNulTerminated(b);
        if !name.Got? { return if name == More then 0 else -1; }
        host, b := Name(name.value), name.rest;
      }
      input := b;
      if cmd != 1 { return -1; }
      target := Some(Target(host, port));
      output := output + [0, 90, 0, 0, 0, 0, 0, 0];
      return 1;
    }

    /** channel_socks5_check_auth: every method is read before the answer is given. */
    method Socks5CheckAuth() returns (ret: int)
      modifies `input, `output, `phase
      ensures match ParseAuth(old(input))
              case More => ret == 0 && View() == old(View())
              case Got(_, rest) => ret == 1 && input == rest && output == old(output) + AUTH_REPLY && phase == old(phase)
              case Bad => ret == -1 && View() == old(View())
              case Crash => ret == -1 && View() == old(View()).(phase := Fatal)
    {
      if |input| < 1 { return 0; }
      if input[0] != 5 {
        phase := Fatal;
        return -1;
      }
      if |input| < 2 { return 0; }
      var nmethods := input[1] as int;
      var found, i := false, 0;
      while i < nmethods
        invariant 0 <= i <= nmethods && 2 + i <= |input|
        invariant found <==> 0 in input[2..2 + i]
        modifies {}
      {
        if |input| < 2 + i + 1 { return 0; }
        assert input[2..2 + (i + 1)] == input[2..2 + i] + [input[2 + i]];
        if input[2 + i] == 0 { found := true; }
        i := i + 1;
      }
      if !found { return -1; }
      input := input[2 + nmethods..];
      output := output + [5, 0];
      return 1;
    }

    /** The part of channel_decode_socks5 after authentication. */
    method DecodeRequest() returns (ret: int)
      requires phase == Dynamic
      modifies this
      ensures var t := Request(old(View()));
              && View() == t.(phase := if t.phase == Fatal then Fatal else Dynamic)
              && (ret < 0 <==> t.phase == Dead || t.phase == Fatal) && (ret > 0 <==> t.phase == Connecting)
    {
      RequestPort(input);
      var b := input;
      if |b| < 1 { return 0; }
      if b[0] != 5 {
        phase := Fatal;
        return -1;
      }
      if |b| < 4 { return 0; }
      var cmd, reserved, atyp := b[1], b[2], b[3];
      if cmd != 1 || reserved != 0 { return -1; }
      var off, addrlen := 4, 0;
      if atyp == 1 {
        addrlen := 4;
      } else if atyp == 3 {
        if |b| < 5 { return 0; }
        off, addrlen := 5, b[4] as int;
      } else if atyp == 4 {
        addrlen := 16;
      } else {
        return -1;
      }
      assert ParseRequest(b) == Address(b, off, addrlen);
      if |b| < off + addrlen + 2 { return 0; }
      var addr, port := b[off..off + addrlen], U16(b[off + addrlen], b[off + addrlen + 1]);
      input := b[off + addrlen + 2..];
      var host := if atyp == 3 then Name(addr[..FindNul(addr)]) else if atyp == 1 then Ip4(addr) else Ip6(addr);
      target := Some(Target(host, port));
      output := output + [5, 0, 0, 1, 0, 0, 0, 0, port / 256, port % 256];
      return 1;
    }

    /** channel_decode_socks5 */
    method DecodeSocks5() returns (ret: int)
      requires phase == Dynamic
      modifies this
      ensures var t := Decode5(old(View()));
              && View() == t.(phase := if t.phase == Fatal then Fatal else Dynamic)
              && (ret < 0 <==> t.phase == Dead || t.phase == Fatal) && (ret > 0 <==> t.phase == Connecting)
    {
      hide Request;
      if !authDone {
        ret := Socks5CheckAuth();
        if ret != 1 { return; }
        authDone := true;
      }
      ret := DecodeRequest();
    }

    /** channel_pre_dynamic */
    method PreDynamic()
      requires phase == Dynamic
      modifies this
      ensures View() == Pre(old(View()))
    {
      if |input| < 3 { return; }
      var ret := -1;
      if input[0] == 4 {
        ret := DecodeSocks4();
      } else if input[0] == 5 {
        ret := DecodeSocks5();
      }
      if phase == Fatal { return; }
      if ret < 0 {
        phase := Dead;
      } else if ret > 0 {
        phase := Connecting;
      }
    }
  }
}
