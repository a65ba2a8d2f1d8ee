/** Percent-encoding: StringUtil::UrlEncode and StringUtil::UrlDecode. */
module UrlCodec {
  import opened Ascii
  import opened Sequences

  // A text of octets.
  ghost predicate Octets(s: string) { forall i :: 0 <= i < |s| ==> s[i] as int < 256 }

  // The table uri_chars: what is copied as it is. It has '=' in it.
  predicate Unreserved(c: char) { IsAlphaNum(c) || c == '-' || c == '.' || c == '=' || c == '_' || c == '~' }

  // The two halves of an octet.
  function High(c: char): (n: nat)
    ensures n < 16
  {
    c as int % 256 / 16
  }

  function Low(c: char): (n: nat)
    ensures n < 16
  {
    c as int % 16
  }

  // The table xdigit_chars.
  function XDigit(c: char): (n: nat)
    ensures n < 16
  {
    if IsNum(c) then c as int - '0' as int
    else if 'A' <= c <= 'F' then c as int - 'A' as int + 10
    else if 'a' <= c <= 'f' then c as int - 'a' as int + 10
    else 0
  }

  function Escape(c: char, plus: bool): string {
    if Unreserved(c) then [c]
    else if c == ' ' && plus then ['+']
    else ['%', HexDigit(High(c)), HexDigit(Low(c))]
  }

  function Encode(s: string, plus: bool): string {
    if s == [] then [] else Encode(s[..|s| - 1], plus) + Escape(s[|s| - 1], plus)
  }

  function Decode(s: string, plus: bool): string {
    if s == [] then []
    else if s[0] == '+' && plus then [' '] + Decode(s[1..], plus)
    else if s[0] == '%' && 2 < |s| && IsHex(s[1]) && IsHex(s[2]) then
      [(XDigit(s[1]) * 16 + XDigit(s[2])) as char] + Decode(s[3..], plus)
    else [s[0]] + Decode(s[1..], plus)
  }

  // ---------------------------------------------------------------- the loops

  // What has been made so far: the buffer, or as long as there is none the text itself.
  function SoFar(ss: Option<string>, str: string, c: nat): string
    requires c <= |str|
  {
    if ss.Some? then ss.value else str[..c]
  }

  // The buffer is made at the first octet that changes, with what came before.
  method UrlEncode(str: string, plus: bool) returns (r: string)
    ensures r == Encode(str, plus)
  {
    var ss: Option<string> := None;
    var c: nat := 0;
    while c < |str|
      invariant c <= |str| && Encode(str[..c], plus) == SoFar(ss, str, c)
    {
      EncodeNext(str, c, plus);
      ss := EncodeOne(str, c, ss, plus);
      c := c + 1;
    }
    assert str[..|str|] == str;
    r := if ss.None? then str else ss.value;
  }

  // One round of the loop.
  method EncodeOne(str: string, c: nat, ss: Option<string>, plus: bool) returns (ss': Option<string>)
    requires c < |str|
    ensures SoFar(ss', str, c + 1) == SoFar(ss, str, c) + Escape(str[c], plus)
  {
    ss' := ss;
    if !Unreserved(str[c]) {
      if ss'.None? { ss' := Some(str[..c]); }
      if str[c] == ' ' && plus {
        ss' := Some(ss'.value + ['+']);
      } else {
        ss' := Some(ss'.value + ['%', HexDigit(High(str[c])), HexDigit(Low(str[c]))]);
      }
    } else if ss'.Some? {
      ss' := Some(ss'.value + [str[c]]);
    }
  }

  lemma {:induction false} EncodeNext(str: string, c: nat, plus: bool)
    requires c < |str|
    ensures Encode(str[..c + 1], plus) == Encode(str[..c], plus) + Escape(str[c], plus)
    ensures str[..c + 1] == str[..c] + [str[c]]
  {
    assert str[..c + 1][..c] == str[..c];
  }

  // The octet that the decoder makes at `c`, and where it goes on.
  function OctetAt(str: string, c: nat, plus: bool): char
    requires c < |str|
  {
    if str[c] == '+' && plus then ' '
    else if EscapeAt(str, c) then (XDigit(str[c + 1]) * 16 + XDigit(str[c + 2])) as char
    else str[c]
  }

  function NextAt(str: string, c: nat, plus: bool): nat
    requires c < |str|
  {
    if !(str[c] == '+' && plus) && EscapeAt(str, c) then c + 3 else c + 1
  }

  predicate EscapeAt(str: string, c: nat)
    requires c < |str|
  {
    str[c] == '%' && c + 2 < |str| && IsHex(str[c + 1]) && IsHex(str[c + 2])
  }

  lemma {:induction false} DecodeStep(str: string, c: nat, plus: bool)
    requires c < |str|
    ensures Decode(str[c..], plus) == [OctetAt(str, c, plus)] + Decode(str[NextAt(str, c, plus)..], plus)
  {
    assert str[c..][1..] == str[c + 1..];
    if NextAt(str, c, plus) == c + 3 { assert str[c..][3..] == str[c + 3..]; }
  }

  method UrlDecode(str: string, plus: bool) returns (r: string)
    ensures r == Decode(str, plus)
  {
    var ss: Option<string> := None;
    var c: nat := 0;
    assert str[0..] == str;
    while c < |str|
      invariant c <= |str| && Decode(str, plus) == SoFar(ss, str, c) + Decode(str[c..], plus)
    {
      DecodeStep(str, c, plus);
      Regroup(SoFar(ss, str, c), [OctetAt(str, c, plus)], Decode(str[NextAt(str, c, plus)..], plus));
      ss, c := DecodeOne(str, c, ss, plus);
    }
    assert str[|str|..] == [] && str[..|str|] == str;
    r := if ss.None? then str else ss.value;
  }

  // One round of the loop: the buffer is made when the first octet changes.
  method DecodeOne(str: string, c: nat, ss: Option<string>, plus: bool) returns (ss': Option<string>, next: nat)
    requires c < |str|
    ensures next == NextAt(str, c, plus) <= |str| &&
            SoFar(ss', str, next) == SoFar(ss, str, c) + [OctetAt(str, c, plus)]
  {
    ss', next := ss, c + 1;
    if str[c] == '+' && plus {
      if ss'.None? { ss' := Some(str[..c]); }
      ss' := Some(ss'.value + [' ']);
    } else if str[c] == '%' && c + 2 < |str| && IsHex(str[c + 1]) && IsHex(str[c + 2]) {
      if ss'.None? { ss' := Some(str[..c]); }
      ss' := Some(ss'.value + [(XDigit(str[c + 1]) * 16 + XDigit(str[c + 2])) as char]);
      next := c + 3;
    } else if ss'.Some? {
      ss' := Some(ss'.value + [str[c]]);
    }
  }

  // ---------------------------------------------------------------- round trip

  // What a decoder with flag `d` makes of one octet encoded with flag `e`: itself, but for a plus that it does not take
  // for a space.
  function Seen(c: char, e: bool, d: bool): char { if c == ' ' && e && !d then '+' else c }

  function SeenAll(s: string, e: bool, d: bool): string {
    if s == [] then [] else [Seen(s[0], e, d)] + SeenAll(s[1..], e, d)
  }

  lemma {:induction false} HexRoundTrip(n: nat)
    requires n < 16
    ensures IsHex(HexDigit(n)) && XDigit(HexDigit(n)) == n
  {
    assert n == 0 || n == 1 || n == 2 || n == 3 || n == 4 || n == 5 || n == 6 || n == 7 || n == 8 || n == 9 ||
           n == 10 || n == 11 || n == 12 || n == 13 || n == 14 || n == 15;
  }

  lemma {:induction false} DecodeEscape(c: char, e: bool, d: bool, rest: string)
    requires c as int < 256
    ensures Decode(Escape(c, e) + rest, d) == [Seen(c, e, d)] + Decode(rest, d)
  {
    var s, n := Escape(c, e) + rest, |Escape(c, e)|;
    EscapeReads(c, e, d, rest);
    assert s[0..] == s && s[n..] == rest;
    DecodeStep(s, 0, d);
  }

  lemma {:induction false} EscapeReads(c: char, e: bool, d: bool, rest: string)
    requires c as int < 256
    ensures var s := Escape(c, e) + rest; NextAt(s, 0, d) == |Escape(c, e)| && OctetAt(s, 0, d) == Seen(c, e, d)
  {
    var s := Escape(c, e) + rest;
    if |Escape(c, e)| == 3 {
      HexRoundTrip(High(c));
      HexRoundTrip(Low(c));
      Halves(c);
      assert s[0] == '%' && s[1] == HexDigit(High(c)) && s[2] == HexDigit(Low(c));
      assert EscapeAt(s, 0);
    } else {
      assert s[0] == if Unreserved(c) then c else '+';
    }
  }

  lemma {:induction false} Halves(c: char)
    requires c as int < 256
    ensures High(c) * 16 + Low(c) == c as int
  {
  }

  lemma {:induction false} EncodeHead(s: string, e: bool)
    requires s != []
    ensures Encode(s, e) == Escape(s[0], e) + Encode(s[1..], e)
    decreases |s|
  {
    var n := |s| - 1;
    if n == 0 {
      assert s[..0] == [] && s[1..] == [];
    } else {
      var front, mid, last := s[..n], s[1..n], s[n];
      EncodeHead(front, e);
      assert front[1..] == mid && s[1..][..n - 1] == mid && s[1..][n - 1] == last;
      assert Encode(s[1..], e) == Encode(mid, e) + Escape(last, e);
      assert Encode(s, e) == (Escape(s[0], e) + Encode(mid, e)) + Escape(last, e);
    }
  }

  lemma {:induction false} DecodeEncode(s: string, e: bool, d: bool)
    requires Octets(s)
    ensures Decode(Encode(s, e), d) == SeenAll(s, e, d)
  {
    if s != [] {
      EncodeHead(s, e);
      DecodeEscape(s[0], e, d, Encode(s[1..], e));
      DecodeEncode(s[1..], e, d);
    }
  }

  lemma {:induction false} SeenSame(s: string, e: bool, d: bool)
    ensures SeenAll(s, e, d) == s <==> !(e && !d && ' ' in s)
  {
    if s != [] {
      SeenSame(s[1..], e, d);
      assert s == [s[0]] + s[1..] && SeenAll(s, e, d)[1..] == SeenAll(s[1..], e, d);
      assert SeenAll(s, e, d)[0] == Seen(s[0], e, d);
    }
  }

  // Decoding undoes encoding for every text and every pair of flags, except a space written as a plus and read without
  // the flag.
  lemma {:induction false} UrlRoundTrip(s: string, e: bool, d: bool)
    requires Octets(s)
    ensures Decode(Encode(s, e), d) == s <==> !(e && !d && ' ' in s)
  {
    DecodeEncode(s, e, d);
    SeenSame(s, e, d);
  }

  // The encoded text is made of unreserved octets, '%' and '+' alone; '=' comes through exactly from '='.
  lemma {:induction false} EncodedOctets(s: string, e: bool)
    ensures forall c :: c in Encode(s, e) ==> Unreserved(c) || c == '%' || c == '+'
    ensures '=' in Encode(s, e) <==> '=' in s
  {
    if s != [] {
      var n := |s| - 1;
      EncodedOctets(s[..n], e);
      assert s == s[..n] + [s[n]];
      var hi, lo := HexDigit(High(s[n])), HexDigit(Low(s[n]));
      HexRoundTrip(High(s[n]));
      HexRoundTrip(Low(s[n]));
      forall c | c in Escape(s[n], e) ensures Unreserved(c) || c == '%' || c == '+' {
        assert IsHex(hi) && IsHex(lo);
      }
      assert '=' in Escape(s[n], e) <==> s[n] == '=';
    }
  }
}
