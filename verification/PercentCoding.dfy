/**
 Percent coding of URL paths (`percent_decode`, `percent_encode_path`), and UTF-8 validity.

 The loops are proved against the recursive `Decode` and `Encode`; the laws are about those.
 */
module PercentCoding {
  import opened Bytes

  function HexVal(c: char): Option<nat> {
    if '0' <= c <= '9' then Some(c as int - '0' as int)
    else if 'a' <= c <= 'f' then Some(c as int - 'a' as int + 10)
    else if 'A' <= c <= 'F' then Some(c as int - 'A' as int + 10)
    else None
  }

  predicate IsControl(c: char) {
    c as int < 0x20 || c as int == 0x7f
  }

  predicate ControlFree(s: string) {
    forall i :: 0 <= i < |s| ==> !IsControl(s[i])
  }

  // ---------------------------------------------------------------- decoding

  /** The first byte that `s` spells, and how many bytes of `s` spell it. */
  function Unescape(s: string): Option<(char, nat)>
    requires s != ""
  {
    if s[0] != '%' then Some((s[0], 1))
    else if |s| < 3 then None
    else match (HexVal(s[1]), HexVal(s[2]))
      case (Some(hi), Some(lo)) => Some(((16 * hi + lo) as char, 3))
      case _ => None
  }

  function Decode(s: string): Option<string> {
    if s == "" then Some("")
    else match Unescape(s)
      case None => None
      case Some((c, n)) =>
        if IsControl(c) then None
        else match Decode(s[n..])
          case None => None
          case Some(rest) => Some([c] + rest)
  }

  method PercentDecode(s: string) returns (r: Option<string>)
    ensures r == Decode(s)
  {
    var out := "";
    var i := 0;
    assert s[0..] == s && forall rest: string :: "" + rest == rest;
    while i < |s|
      invariant i <= |s|
      invariant Decode(s) == match Decode(s[i..]) case None => None case Some(rest) => Some(out + rest)
    {
      var c := s[i];
      if s[i] == '%' {
        if i + 2 >= |s| {
          return None;
        }
        match (HexVal(s[i + 1]), HexVal(s[i + 2])) {
          case (Some(hi), Some(lo)) =>
            c := (16 * hi + lo) as char;
            assert s[i..][3..] == s[i + 3..];
            i := i + 2;
          case _ =>
            return None;
        }
      } else {
        assert s[i..][1..] == s[i + 1..];
      }
      if IsControl(c) {
        return None;
      }
      ghost var before := out;
      out := out + [c];
      i := i + 1;
      assert forall rest: string :: before + ([c] + rest) == out + rest;
    }
    assert Decode(s[i..]) == Some("") && out + "" == out;
    return Some(out);
  }

  // ---------------------------------------------------------------- encoding

  /** Bytes that a path may carry unescaped: unreserved, sub-delims, ":@" and the separator. */
  predicate Bare(c: char) {
    || 'a' <= c <= 'z' || 'A' <= c <= 'Z' || '0' <= c <= '9'
    || c == '-' || c == '.' || c == '_' || c == '~' || c == '/' || c == '!' || c == '$' || c == '&' || c == '\''
    || c == '(' || c == ')' || c == '*' || c == '+' || c == ',' || c == ';' || c == '=' || c == ':' || c == '@'
  }

  function HexDigit(n: nat): char
    requires n < 16
  {
    if n < 10 then ('0' as int + n) as char else ('A' as int + n - 10) as char
  }

  function Escape(c: char): string
    requires c as int < 256
  {
    if Bare(c) then [c] else ['%', HexDigit(c as int / 16), HexDigit(c as int % 16)]
  }

  function Encode(s: string): string
    requires IsBytes(s)
  {
    if s == "" then "" else Escape(s[0]) + Encode(s[1..])
  }

  lemma EncodeAt(s: string, i: nat)
    requires IsBytes(s) && i < |s|
    ensures Encode(s[i..]) == Escape(s[i]) + Encode(s[i + 1..])
  {
    assert s[i..][1..] == s[i + 1..];
  }

  method PercentEncodePath(s: string) returns (out: string)
    requires IsBytes(s)
    ensures out == Encode(s)
  {
    out := "";
    assert s[0..] == s;
    for i := 0 to |s|
      invariant Encode(s) == out + Encode(s[i..])
    {
      var b := s[i];
      EncodeAt(s, i);
      Assoc(out, Escape(b), Encode(s[i + 1..]));
      if Bare(b) {
        out := out + [b];
      } else {
        out := out + ['%', HexDigit(b as int / 16), HexDigit(b as int % 16)];
      }
    }
  }

  // ---------------------------------------------------------------- laws

  lemma UnescapeEscape(c: char, rest: string)
    requires c as int < 256
    ensures Unescape(Escape(c) + rest) == Some((c, |Escape(c)|))
    ensures (Escape(c) + rest)[|Escape(c)|..] == rest
  {
    var e := Escape(c) + rest;
    assert e[0] == Escape(c)[0];
    if !Bare(c) {
      assert e[1] == HexDigit(c as int / 16) && e[2] == HexDigit(c as int % 16);
      assert 16 * (c as int / 16) + c as int % 16 == c as int;
    }
  }

  /** Decoding inverts encoding exactly on the control-free byte strings; a control byte is never accepted. */
  lemma {:induction false} DecodeEncode(s: string)
    requires IsBytes(s)
    ensures Decode(Encode(s)) == if ControlFree(s) then Some(s) else None
  {
    if s != "" {
      UnescapeEscape(s[0], Encode(s[1..]));
      DecodeEncode(s[1..]);
      assert s == [s[0]] + s[1..];
      assert ControlFree(s) <==> !IsControl(s[0]) && ControlFree(s[1..]);
    }
  }

  lemma {:induction false} DecodedIsClean(raw: string)
    requires IsBytes(raw) && Decode(raw).Some?
    ensures IsBytes(Decode(raw).value) && ControlFree(Decode(raw).value)
  {
    if raw != "" {
      DecodedIsClean(raw[Unescape(raw).value.1..]);
    }
  }

  /** The one spelling that a Location uses for everything that decodes like `raw`. */
  function Normal(raw: string): string
    requires IsBytes(raw) && Decode(raw).Some?
  {
    DecodedIsClean(raw);
    Encode(Decode(raw).value)
  }

  lemma {:induction false} EncodeIsBytes(s: string)
    requires IsBytes(s)
    ensures IsBytes(Encode(s))
  {
    if s != "" {
      EncodeIsBytes(s[1..]);
    }
  }

  /** Encode after decode is an idempotent normaliser that does not change what is spelled. */
  lemma NormalIsIdempotent(raw: string)
    requires IsBytes(raw) && Decode(raw).Some?
    ensures IsBytes(Normal(raw)) && Decode(Normal(raw)) == Decode(raw)
    ensures Normal(Normal(raw)) == Normal(raw)
  {
    DecodedIsClean(raw);
    EncodeIsBytes(Decode(raw).value);
    DecodeEncode(Decode(raw).value);
  }

  /** Two paths get the same Location path exactly when they decode alike. */
  lemma NormalSeparates(raw1: string, raw2: string)
    requires IsBytes(raw1) && IsBytes(raw2) && Decode(raw1).Some? && Decode(raw2).Some?
    ensures Normal(raw1) == Normal(raw2) <==> Decode(raw1) == Decode(raw2)
  {
    NormalIsIdempotent(raw1);
    NormalIsIdempotent(raw2);
  }

  /** Path-safe ASCII: only bare bytes, and percent signs that begin an upper-case escape. */
  ghost predicate PathSafe(s: string) {
    forall i :: 0 <= i < |s| ==> PathSafeAt(s, i)
  }

  predicate PathSafeAt(s: string, i: nat)
    requires i < |s|
  {
    Bare(s[i]) || (s[i] == '%' && i + 2 < |s| && UpperHex(s[i + 1]) && UpperHex(s[i + 2]))
  }

  predicate UpperHex(c: char) {
    '0' <= c <= '9' || 'A' <= c <= 'F'
  }

  lemma PathSafeAppend(e: string, rest: string)
    requires PathSafe(e) && PathSafe(rest)
    ensures PathSafe(e + rest)
  {
    forall i | 0 <= i < |e + rest| ensures PathSafeAt(e + rest, i) {
      if i < |e| {
        assert PathSafeAt(e, i);
      } else {
        assert PathSafeAt(rest, i - |e|);
      }
    }
  }

  lemma EscapeIsPathSafe(c: char)
    requires c as int < 256
    ensures PathSafe(Escape(c))
  {
    assert forall n: nat :: n < 16 ==> UpperHex(HexDigit(n)) && Bare(HexDigit(n));
  }

  lemma {:induction false} EncodeIsPathSafe(s: string)
    requires IsBytes(s)
    ensures PathSafe(Encode(s))
  {
    if s != "" {
      EncodeIsPathSafe(s[1..]);
      EscapeIsPathSafe(s[0]);
      PathSafeAppend(Escape(s[0]), Encode(s[1..]));
    }
  }

  /** What is path safe is ASCII and ends neither a path nor a request target. */
  lemma PathSafeExcludes(s: string)
    requires PathSafe(s)
    ensures '?' !in s && '#' !in s && ' ' !in s && ControlFree(s) && Ascii(s)
  {
    forall i | 0 <= i < |s| ensures s[i] != '?' && s[i] != '#' && s[i] != ' ' && !IsControl(s[i]) && s[i] as int < 0x80 {
      assert PathSafeAt(s, i);
    }
  }

  // ---------------------------------------------------------------- UTF-8

  predicate In(c: char, lo: nat, hi: nat) {
    lo <= c as int <= hi
  }

  predicate Tail(s: string, from: nat, to: nat) {
    to <= |s| && forall i :: from <= i < to ==> In(s[i], 0x80, 0xBF)
  }

  /** The length of the well-formed character that `s` starts with, or 0 (Unicode table 3-7). */
  function CharLength(s: string): (n: nat)
    requires s != ""
    ensures n <= |s|
  {
    if In(s[0], 0, 0x7F) then 1
    else if In(s[0], 0xC2, 0xDF) && Tail(s, 1, 2) then 2
    else if |s| < 2 then 0
    else if Tail(s, 1, 3) && (In(s[0], 0xE1, 0xEC) || In(s[0], 0xEE, 0xEF)
                              || (In(s[0], 0xE0, 0xE0) && In(s[1], 0xA0, 0xBF))
                              || (In(s[0], 0xED, 0xED) && In(s[1], 0x80, 0x9F))) then 3
    else if Tail(s, 1, 4) && (In(s[0], 0xF1, 0xF3)
                              || (In(s[0], 0xF0, 0xF0) && In(s[1], 0x90, 0xBF))
                              || (In(s[0], 0xF4, 0xF4) && In(s[1], 0x80, 0x8F))) then 4
    else 0
  }

  predicate ValidUtf8(s: string)
    decreases |s|
  {
    s == "" || (CharLength(s) > 0 && ValidUtf8(s[CharLength(s)..]))
  }

  predicate Ascii(s: string) {
    forall i :: 0 <= i < |s| ==> s[i] as int < 0x80
  }

  lemma {:induction false} AsciiIsUtf8(s: string)
    requires Ascii(s)
    ensures ValidUtf8(s)
  {
    if s != "" {
      AsciiIsUtf8(s[1..]);
    }
  }

  /** Appending or removing an ASCII suffix does not change whether text is UTF-8. */
  lemma {:induction false} AsciiSuffix(s: string, suffix: string)
    requires Ascii(suffix)
    ensures ValidUtf8(s + suffix) == ValidUtf8(s)
    decreases |s|
  {
    if s == "" {
      assert s + suffix == suffix;
      AsciiIsUtf8(suffix);
    } else {
      assert CharLength(s + suffix) == CharLength(s) by {
        CharLengthSuffix(s, suffix);
      }
      var n := CharLength(s);
      if n > 0 {
        AsciiSuffix(s[n..], suffix);
        assert (s + suffix)[n..] == s[n..] + suffix;
      }
    }
  }

  lemma CharLengthSuffix(s: string, suffix: string)
    requires s != "" && Ascii(suffix)
    ensures CharLength(s + suffix) == CharLength(s)
  {
    var t := s + suffix;
    forall to: nat | to > 1 ensures Tail(t, 1, to) == Tail(s, 1, to) {
      if to <= |s| {
        assert forall i :: 1 <= i < to ==> t[i] == s[i];
      } else if to <= |t| {
        assert t[|s|] == suffix[0];
        assert !In(t[|s|], 0x80, 0xBF);
      }
    }
    assert t[0] == s[0];
    if |s| >= 2 {
      assert t[1] == s[1];
    } else if |t| >= 2 {
      assert !Tail(s, 1, 2) && !Tail(s, 1, 3) && !Tail(s, 1, 4);
    }
  }
}
