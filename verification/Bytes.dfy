/**
 Byte strings, and the few searches on them that every part of the server shares.

 A byte string is a Dafny `string` that holds one char per byte. Where the width of a byte
 matters (percent coding, UTF-8) the predicate `IsBytes` says so.
 */
module Bytes {

  datatype Option<+T> = None | Some(value: T)

  const CRLF := "\r\n"
  const TERMINATOR := "\r\n\r\n"

  const USIZE_MAX: nat := 0xFFFF_FFFF_FFFF_FFFF

  predicate IsBytes(s: string) {
    forall i :: 0 <= i < |s| ==> s[i] as int < 256
  }

  /** `w` occurs in `s` at index `i`. */
  predicate At(s: string, i: nat, w: string) {
    i + |w| <= |s| && s[i..i + |w|] == w
  }

  ghost predicate Contains(s: string, w: string) {
    exists i: nat :: At(s, i, w)
  }

  /** The first occurrence of `w` in `s` at or after `i`. */
  function FindFrom(s: string, w: string, i: nat): Option<nat>
    requires i <= |s|
    decreases |s| - i
  {
    if i + |w| > |s| then None
    else if s[i..i + |w|] == w then Some(i)
    else FindFrom(s, w, i + 1)
  }

  lemma {:induction false} FindFromSpec(s: string, w: string, i: nat)
    requires i <= |s|
    ensures var r := FindFrom(s, w, i);
            match r
            case Some(p) => i <= p && At(s, p, w) && forall j: nat :: i <= j < p ==> !At(s, j, w)
            case None => forall j: nat :: i <= j ==> !At(s, j, w)
    decreases |s| - i
  {
    if i + |w| <= |s| && s[i..i + |w|] != w {
      FindFromSpec(s, w, i + 1);
    }
  }

  function Find(s: string, w: string): Option<nat> {
    FindFrom(s, w, 0)
  }

  ghost predicate IsFirst(s: string, w: string, r: Option<nat>) {
    match r
    case Some(p) => At(s, p, w) && forall j: nat :: j < p ==> !At(s, j, w)
    case None => !Contains(s, w)
  }

  lemma FindSpec(s: string, w: string)
    ensures IsFirst(s, w, Find(s, w))
  {
    FindFromSpec(s, w, 0);
  }

  /** Whatever is a first occurrence is the one found. */
  lemma FindUnique(s: string, w: string, r: Option<nat>)
    requires IsFirst(s, w, r)
    ensures Find(s, w) == r
  {
    FindSpec(s, w);
    if Find(s, w).Some? && r.Some? {
      assert !(Find(s, w).value < r.value) && !(r.value < Find(s, w).value);
    }
  }

  predicate StartsWith(s: string, w: string) {
    |w| <= |s| && s[..|w|] == w
  }

  predicate EndsWith(s: string, w: string) {
    |w| <= |s| && s[|s| - |w|..] == w
  }

  function Concat(parts: seq<string>): string {
    if parts == [] then "" else parts[0] + Concat(parts[1..])
  }

  lemma {:induction false} ConcatSnoc(parts: seq<string>, last: string)
    ensures Concat(parts + [last]) == Concat(parts) + last
  {
    if parts == [] {
      assert [last][1..] == [];
      assert Concat([last]) == last + Concat([]);
    } else {
      assert (parts + [last])[1..] == parts[1..] + [last];
      ConcatSnoc(parts[1..], last);
    }
  }

  lemma {:induction false} ConcatAppend(a: seq<string>, b: seq<string>)
    ensures Concat(a + b) == Concat(a) + Concat(b)
  {
    if a == [] {
      assert a + b == b;
    } else {
      assert (a + b)[1..] == a[1..] + b;
      ConcatAppend(a[1..], b);
    }
  }

  lemma Assoc(a: string, b: string, c: string)
    ensures a + (b + c) == a + b + c
  {
  }

  /** An occurrence does not move when bytes are appended. */
  lemma AtAppend(s: string, t: string, i: nat, w: string)
    requires i + |w| <= |s|
    ensures At(s + t, i, w) == At(s, i, w)
  {
    assert (s + t)[i..i + |w|] == s[i..i + |w|];
  }

  // ---------------------------------------------------------------- ASCII case and white space

  function Lower(c: char): char {
    if 'A' <= c <= 'Z' then (c as int + 32) as char else c
  }

  function LowerAll(s: string): string {
    if s == "" then "" else [Lower(s[0])] + LowerAll(s[1..])
  }

  predicate EqIgnoreCase(a: string, b: string) {
    |a| == |b| && forall i :: 0 <= i < |a| ==> Lower(a[i]) == Lower(b[i])
  }

  predicate IsSpace(c: char) {
    c == ' ' || '\t' <= c <= '\r'
  }

  /** The UTF-8 spelling of one white-space character beyond ASCII. */
  predicate IsWideSpace(w: string) {
    if |w| == 2 then w[0] as int == 0xC2 && (w[1] as int == 0x85 || w[1] as int == 0xA0)
    else |w| == 3 && IsWideSpace3(w[0] as int, w[1] as int, w[2] as int)
  }

  predicate IsWideSpace3(a: int, b: int, c: int) {
    || (a == 0xE1 && b == 0x9A && c == 0x80)
    || (a == 0xE2 && b == 0x80 && (0x80 <= c <= 0x8A || c == 0xA8 || c == 0xA9 || c == 0xAF))
    || (a == 0xE2 && b == 0x81 && c == 0x9F)
    || (a == 0xE3 && b == 0x80 && c == 0x80)
  }

  /** How many bytes spell the white-space character that `s` starts with; 0 if there is none. */
  function LeadingSpace(s: string): (n: nat)
    ensures n <= |s|
  {
    if s != "" && IsSpace(s[0]) then 1
    else if |s| >= 2 && IsWideSpace(s[..2]) then 2
    else if |s| >= 3 && IsWideSpace(s[..3]) then 3
    else 0
  }

  function TrailingSpace(s: string): (n: nat)
    ensures n <= |s|
  {
    if s != "" && IsSpace(s[|s| - 1]) then 1
    else if |s| >= 2 && IsWideSpace(s[|s| - 2..]) then 2
    else if |s| >= 3 && IsWideSpace(s[|s| - 3..]) then 3
    else 0
  }

  function TrimStart(s: string): string
    decreases |s|
  {
    if LeadingSpace(s) > 0 then TrimStart(s[LeadingSpace(s)..]) else s
  }

  function TrimEnd(s: string): string
    decreases |s|
  {
    if TrailingSpace(s) > 0 then TrimEnd(s[..|s| - TrailingSpace(s)]) else s
  }

  function Trim(s: string): string {
    TrimEnd(TrimStart(s))
  }

  lemma {:induction false} TrimStartIsPart(s: string, c: char)
    requires c in TrimStart(s)
    ensures c in s
    decreases |s|
  {
    if LeadingSpace(s) > 0 {
      TrimStartIsPart(s[LeadingSpace(s)..], c);
    }
  }

  lemma {:induction false} TrimEndIsPart(s: string, c: char)
    requires c in TrimEnd(s)
    ensures c in s
    decreases |s|
  {
    if TrailingSpace(s) > 0 {
      TrimEndIsPart(s[..|s| - TrailingSpace(s)], c);
    }
  }

  lemma TrimIsPart(s: string, c: char)
    requires c in Trim(s)
    ensures c in s
  {
    TrimEndIsPart(TrimStart(s), c);
    TrimStartIsPart(s, c);
  }

  lemma {:induction false} LowerAllIsPart(s: string, c: char)
    requires c in LowerAll(s) && !('a' <= c <= 'z')
    ensures c in s
  {
    if s[0] != c {
      assert LowerAll(s)[0] != c;
      LowerAllIsPart(s[1..], c);
    }
  }

  /** An ASCII character that no white-space character contains. */
  predicate IsVisible(c: char) {
    c as int < 0x80 && !IsSpace(c)
  }

  lemma WideSpaceIsInvisible(w: string, i: nat)
    requires IsWideSpace(w) && i < |w|
    ensures !IsVisible(w[i])
  {
    assert w[i] as int >= 0x80;
  }

  /** The bytes that spell a white-space character at an end are none of them visible. */
  lemma LeadingIsInvisible(s: string, i: nat)
    requires i < LeadingSpace(s)
    ensures !IsVisible(s[i])
  {
    var n := LeadingSpace(s);
    if n > 1 {
      WideSpaceIsInvisible(s[..n], i);
    }
  }

  lemma TrailingIsInvisible(s: string, i: nat)
    requires i < |s|
    ensures i >= |s| - TrailingSpace(s) ==> !IsVisible(s[i])
  {
    var n := TrailingSpace(s);
    if n > 1 && i >= |s| - n {
      WideSpaceIsInvisible(s[|s| - n..], i - (|s| - n));
    }
  }

  lemma VisibleEnds(s: string)
    requires s != ""
    ensures IsVisible(s[0]) ==> LeadingSpace(s) == 0
    ensures IsVisible(s[|s| - 1]) ==> TrailingSpace(s) == 0
  {
    if LeadingSpace(s) > 0 {
      LeadingIsInvisible(s, 0);
    }
    TrailingIsInvisible(s, |s| - 1);
  }

  lemma TrimKeeps(s: string)
    requires s != "" && IsVisible(s[0]) && IsVisible(s[|s| - 1])
    ensures Trim(s) == s
  {
    VisibleEnds(s);
  }

  lemma TrimOneSpace(v: string)
    requires v != "" && IsVisible(v[0]) && IsVisible(v[|v| - 1])
    ensures Trim(" " + v) == v
  {
    assert (" " + v)[1..] == v && LeadingSpace(" " + v) == 1;
    VisibleEnds(v);
    TrimKeeps(v);
  }

  // ---------------------------------------------------------------- decimal numbers

  function Digit(d: nat): char
    requires d < 10
  {
    ('0' as int + d) as char
  }

  function Dec(n: nat): (s: string)
    ensures s != "" && forall i :: 0 <= i < |s| ==> '0' <= s[i] <= '9'
  {
    if n < 10 then [Digit(n)] else Dec(n / 10) + [Digit(n % 10)]
  }

  function ParseDec(s: string): Option<nat> {
    if s == "" then None
    else
      var c := s[|s| - 1];
      if !('0' <= c <= '9') then None
      else if |s| == 1 then Some(c as int - '0' as int)
      else match ParseDec(s[..|s| - 1])
        case None => None
        case Some(n) => Some(10 * n + (c as int - '0' as int))
  }

  lemma {:induction false} ParseDecOfDec(n: nat)
    ensures ParseDec(Dec(n)) == Some(n)
  {
    if n >= 10 {
      ParseDecOfDec(n / 10);
      assert Dec(n)[..|Dec(n)| - 1] == Dec(n / 10);
    }
  }
}
