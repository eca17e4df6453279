/** The hand-written `urlencoding::decode` of src/download_manager.rs, which
    turns the `dn=` field of a magnet link into a display name. */
module UrlDecoding {
  import opened Wrappers
  import opened Text

  /** The value of a hexadecimal digit of either case. */
  function HexDigitValue(c: char): (r: Option<nat>)
    ensures r.Some? ==> r.value < 16
  {
    if '0' <= c <= '9' then Some(c as int - '0' as int)
    else if 'a' <= c <= 'f' then Some(c as int - 'a' as int + 10)
    else if 'A' <= c <= 'F' then Some(c as int - 'A' as int + 10)
    else None
  }

  /** `u8::from_str_radix(&[a, b], 16)`: two hex digits, or a '+' sign followed
      by one hex digit (Rust accepts a leading '+'). */
  function HexPair(a: char, b: char): (r: Option<nat>)
    ensures r.Some? ==> r.value < 256
    ensures HexDigitValue(a).Some? && HexDigitValue(b).Some? ==>
              r == Some(16 * HexDigitValue(a).value + HexDigitValue(b).value)
    ensures HexDigitValue(b).None? ==> r.None?
    ensures r.Some? <==> HexDigitValue(b).Some? && (a == '+' || HexDigitValue(a).Some?)
    ensures a == '+' ==> r == HexDigitValue(b)
  {
    if a == '+' then HexDigitValue(b)
    else match (HexDigitValue(a), HexDigitValue(b))
      case (Some(x), Some(y)) => Some(16 * x + y)
      case _ => None
  }

  /** What `decode` makes of `s`, read left to right: '+' becomes a space; '%'
      takes the next two characters, which become one character when they
      parse as a hex byte and are kept verbatim after the '%' otherwise; a '%'
      with fewer than two characters after it is kept with them. */
  function DecodeSpec(s: string): (r: string)
    ensures |r| <= |s|
    decreases |s|
  {
    if s == [] then []
    else if s[0] == '%' then
      if |s| < 3 then s
      else match HexPair(s[1], s[2])
        case Some(v) => [v as char] + DecodeSpec(s[3..])
        case None => s[..3] + DecodeSpec(s[3..])
    else if s[0] == '+' then [' '] + DecodeSpec(s[1..])
    else [s[0]] + DecodeSpec(s[1..])
  }

  /** `urlencoding::decode`, the character loop.  The source returns a
      `Result` that is always `Ok`, so the model returns the text. */
  method Decode(s: string) returns (r: string)
    ensures r == DecodeSpec(s)
  {
    r := [];
    var i := 0;
    while i < |s|
      invariant 0 <= i <= |s|
      invariant DecodeSpec(s) == r + DecodeSpec(s[i..])
    {
      var c := s[i];
      var piece: string;
      var next: nat;
      if c == '%' {
        var hex := if i + 3 <= |s| then s[i + 1..i + 3] else s[i + 1..];
        if |hex| == 2 {
          var b := HexPair(hex[0], hex[1]);
          if b.Some? {
            piece := [b.value as char];
          } else {
            piece := ['%'] + hex;
          }
        } else {
          piece := ['%'] + hex;
        }
        next := i + 1 + |hex|;
        assert next == EscapeEnd(s, i);
        DecodeEscapeAt(s, i);
      } else {
        piece := if c == '+' then [' '] else [c];
        next := i + 1;
        DecodeCharAt(s, i);
      }
      ghost var rest := DecodeSpec(s[next..]);
      assert DecodeSpec(s[i..]) == piece + rest;
      assert r + (piece + rest) == (r + piece) + rest;
      r := r + piece;
      i := next;
    }
  }

  /** The end of the escape that starts at `i`: two characters after the '%',
      or the end of the text when fewer follow. */
  function EscapeEnd(s: string, i: nat): (n: nat)
    requires i < |s|
    ensures i < n <= |s| && n <= i + 3
    ensures n < i + 3 ==> n == |s|
  {
    if i + 3 <= |s| then i + 3 else |s|
  }

  /** One '%' step of the decoding loop, stated on `DecodeSpec`: a hex byte
      becomes one character, anything else is kept after the '%'. */
  lemma DecodeEscapeAt(s: string, i: nat)
    requires i < |s| && s[i] == '%'
    ensures var n := EscapeEnd(s, i);
      DecodeSpec(s[i..]) ==
        (if n == i + 3 && HexPair(s[i + 1], s[i + 2]).Some?
         then [HexPair(s[i + 1], s[i + 2]).value as char]
         else ['%'] + s[i + 1..n]) + DecodeSpec(s[n..])
  {
    var t := s[i..];
    assert t[0] == s[i];
    if i + 3 <= |s| {
      assert t[1] == s[i + 1] && t[2] == s[i + 2];
      assert t[3..] == s[i + 3..];
      assert t[..3] == ['%'] + s[i + 1..i + 3];
    } else {
      assert s[|s|..] == [];
      assert t == ['%'] + s[i + 1..];
    }
  }

  /** One step of the decoding loop on a character other than '%'. */
  lemma DecodeCharAt(s: string, i: nat)
    requires i < |s| && s[i] != '%'
    ensures DecodeSpec(s[i..]) == (if s[i] == '+' then [' '] else [s[i]]) + DecodeSpec(s[i + 1..])
  {
    var t := s[i..];
    assert t[0] == s[i];
    assert t[1..] == s[i + 1..];
  }

  // ---------------------------------------------------------------------------
  // A reference encoder and the round trip

  function HexChar(v: nat): (c: char)
    requires v < 16
    ensures HexDigitValue(c) == Some(v)
  {
    if v < 10 then (v + '0' as int) as char else (v - 10 + 'A' as int) as char
  }

  /** The escape of one character: a space becomes '+', and '%', '+' and '&'
      (the characters that would change meaning inside a magnet link's `dn=`
      field) become "%XY"; every other character stands for itself. */
  function EncodeChar(c: char): (r: string)
    ensures '&' !in r && |r| >= 1
  {
    if c == ' ' then "+"
    else if c == '%' || c == '+' || c == '&' then
      ['%', HexChar(c as int / 16), HexChar(c as int % 16)]
    else [c]
  }

  /** Percent-encoding as the decoder understands it. */
  function Encode(s: string): (r: string)
    ensures '&' !in r
    decreases |s|
  {
    if s == [] then [] else EncodeChar(s[0]) + Encode(s[1..])
  }

  /** Decoding one escaped character and then the rest. */
  lemma DecodeEncodedChar(c: char, rest: string)
    ensures DecodeSpec(EncodeChar(c) + rest) == [c] + DecodeSpec(rest)
  {
    var e := EncodeChar(c) + rest;
    if c == '%' || c == '+' || c == '&' {
      assert e[3..] == rest;
      assert HexPair(e[1], e[2]) == Some(c as int);
    } else {
      assert e[1..] == rest;
    }
  }

  /** Decoding undoes encoding, for every text. */
  lemma {:induction false} DecodeEncode(s: string)
    ensures DecodeSpec(Encode(s)) == s
    decreases |s|
  {
    if s != [] {
      DecodeEncode(s[1..]);
      DecodeEncodedChar(s[0], Encode(s[1..]));
    }
  }

  /** Text with no '%' and no '+' decodes to itself. */
  lemma {:induction false} DecodePlainText(s: string)
    requires '%' !in s && '+' !in s
    ensures DecodeSpec(s) == s
    decreases |s|
  {
    if s != [] {
      assert s == [s[0]] + s[1..];
      DecodePlainText(s[1..]);
    }
  }

  /** The decoder's behaviour on a few inputs: "a+b%20c" is "a b c"; a bad
      escape and a trailing '%' are kept; and because the byte parser accepts a
      sign, "%+A" decodes to a line feed. */
  lemma DecodeExamples()
    ensures DecodeSpec("a+b%20c") == "a b c"
    ensures DecodeSpec("%zz") == "%zz"
    ensures DecodeSpec("x%") == "x%"
    ensures DecodeSpec("%+A") == "\n"
  {
    assert "a+b%20c"[1..] == "+b%20c";
    assert "+b%20c"[1..] == "b%20c";
    assert "b%20c"[1..] == "%20c";
    assert "%20c"[3..] == "c";
    assert "x%"[1..] == "%";
    assert "%zz"[3..] == [];
    assert "%+A"[3..] == [];
  }
}
