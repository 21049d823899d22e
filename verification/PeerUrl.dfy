// How a key reaches a peer: escaped as a query component by the client, but
// unescaped as a path by the server.
module PeerUrl {
  import opened Options

  // A character stands for one byte.
  ghost predicate Bytes(s: string) {
    forall i :: 0 <= i < |s| ==> s[i] as int < 256
  }

  predicate Unreserved(c: char) {
    'a' <= c <= 'z' || 'A' <= c <= 'Z' || '0' <= c <= '9' || c in "-_.~"
  }

  function Hex(d: nat): char
    requires d < 16
  {
    if d < 10 then '0' + d as char else 'A' + (d - 10) as char
  }

  function Unhex(c: char): Option<nat> {
    if '0' <= c <= '9' then Some(c as int - '0' as int)
    else if 'a' <= c <= 'f' then Some(c as int - 'a' as int + 10)
    else if 'A' <= c <= 'F' then Some(c as int - 'A' as int + 10)
    else None
  }

  // url.QueryEscape
  function QueryEscape(s: string): string
    requires Bytes(s)
  {
    if s == "" then ""
    else
      var c := s[0];
      (if c == ' ' then "+"
       else if Unreserved(c) then [c]
       else ['%', Hex(c as int / 16), Hex(c as int % 16)]) + QueryEscape(s[1..])
  }

  // How net/http decodes the path of a request.
  function PathUnescape(s: string): Option<string> {
    if s == "" then Some("")
    else if s[0] != '%' then
      match PathUnescape(s[1..])
      case None => None
      case Some(rest) => Some([s[0]] + rest)
    else if |s| < 3 then None
    else
      match (Unhex(s[1]), Unhex(s[2]), PathUnescape(s[3..]))
      case (Some(hi), Some(lo), Some(rest)) => Some([(16 * hi + lo) as char] + rest)
      case _ => None
  }

  // The key that the peer is asked for.
  function Arriving(key: string): string {
    if key == "" then "" else [if key[0] == ' ' then '+' else key[0]] + Arriving(key[1..])
  }

  lemma HexRoundTrip(d: nat)
    requires d < 16
    ensures Unhex(Hex(d)) == Some(d)
  {
  }

  // A key arrives as it was sent, except that spaces become plus signs.
  lemma {:induction false} KeyArrives(key: string)
    requires Bytes(key)
    ensures PathUnescape(QueryEscape(key)) == Some(Arriving(key))
  {
    if key != "" {
      var c, rest := key[0], key[1..];
      KeyArrives(rest);
      if c == ' ' {
        assert QueryEscape(key)[1..] == QueryEscape(rest);
      } else if Unreserved(c) {
        assert QueryEscape(key)[1..] == QueryEscape(rest);
      } else {
        HexRoundTrip(c as int / 16);
        HexRoundTrip(c as int % 16);
        assert QueryEscape(key)[3..] == QueryEscape(rest);
      }
    }
  }

  // What is sent has only letters, digits, "-_.~", plus signs and escapes in it.
  lemma {:induction false} EscapedIsPlain(key: string)
    requires Bytes(key)
    ensures forall c :: c in QueryEscape(key) ==>
      'a' <= c <= 'z' || 'A' <= c <= 'Z' || '0' <= c <= '9' || c in "-_.~+%"
  {
    if key != "" {
      EscapedIsPlain(key[1..]);
      var c := key[0];
      if c != ' ' && !Unreserved(c) {
        assert "0123456789ABCDEF"[c as int / 16] == Hex(c as int / 16);
        assert "0123456789ABCDEF"[c as int % 16] == Hex(c as int % 16);
      }
    }
  }

  lemma {:induction false} ArrivesUnchangedIffNoSpace(key: string)
    ensures Arriving(key) == key <==> ' ' !in key
    ensures ' ' !in Arriving(key) && |Arriving(key)| == |key|
  {
    if key != "" {
      ArrivesUnchangedIffNoSpace(key[1..]);
      assert Arriving(key)[1..] == Arriving(key[1..]);
      assert key == [key[0]] + key[1..];
    }
  }
}
