/**
 Redirect rules: target templates, the loop check of `push`, and rule resolution.
 */
module Redirects {
  import opened Bytes

  // ---------------------------------------------------------------- templates

  datatype Token = Literal(c: char) | WholePath | Capture

  /** The token a template starts with, and how many chars spell it. */
  function FirstToken(t: string): (r: (Token, nat))
    requires t != ""
    ensures 1 <= r.1 <= |t|
  {
    if t[0] != '$' || |t| == 1 then (Literal(t[0]), 1)
    else if t[1] == '0' then (WholePath, 2)
    else if t[1] == '1' then (Capture, 2)
    else if t[1] == '$' then (Literal('$'), 2)
    else (Literal('$'), 1)
  }

  function Tokens(t: string): seq<Token>
    decreases |t|
  {
    if t == "" then [] else [FirstToken(t).0] + Tokens(t[FirstToken(t).1..])
  }

  function Value(token: Token, path: string, cap: string): string {
    match token
    case Literal(c) => [c]
    case WholePath => path
    case Capture => cap
  }

  function Fill(ts: seq<Token>, path: string, cap: string): string {
    if ts == [] then "" else Value(ts[0], path, cap) + Fill(ts[1..], path, cap)
  }

  function Expand(t: string, path: string, cap: string): string {
    Fill(Tokens(t), path, cap)
  }

  lemma ExpandAt(t: string, i: nat, path: string, cap: string)
    requires i < |t|
    ensures var (token, n) := FirstToken(t[i..]);
            i + n <= |t| && Expand(t[i..], path, cap) == Value(token, path, cap) + Expand(t[i + n..], path, cap)
  {
    var n := FirstToken(t[i..]).1;
    assert t[i..][n..] == t[i + n..];
    assert Tokens(t[i..])[1..] == Tokens(t[i + n..]);
  }

  method ExpandTemplate(t: string, path: string, cap: string) returns (out: string)
    ensures out == Expand(t, path, cap)
  {
    if '$' !in t {
      NoDollar(t, path, cap);
      return t;
    }
    out := "";
    var i := 0;
    assert t[0..] == t;
    while i < |t|
      invariant i <= |t|
      invariant Expand(t, path, cap) == out + Expand(t[i..], path, cap)
    {
      ExpandAt(t, i, path, cap);
      var piece := [t[i]];
      if t[i] == '$' && i + 1 < |t| {
        if t[i + 1] == '0' {
          piece := path;
          i := i + 1;
        } else if t[i + 1] == '1' {
          piece := cap;
          i := i + 1;
        } else if t[i + 1] == '$' {
          i := i + 1;
        }
      }
      i := i + 1;
      Assoc(out, piece, Expand(t[i..], path, cap));
      out := out + piece;
    }
  }

  lemma {:induction false} NoDollar(t: string, path: string, cap: string)
    requires '$' !in t
    ensures Expand(t, path, cap) == t
  {
    if t != "" {
      NoDollar(t[1..], path, cap);
      assert Tokens(t)[1..] == Tokens(t[1..]);
    }
  }

  // ---------------------------------------------------------------- the loop check

  predicate IsAbsolute(target: string) {
    StartsWith(target, "http://") || StartsWith(target, "https://")
  }

  predicate EndsPath(c: char) {
    c == '?' || c == '#'
  }

  ghost predicate PathOnly(s: string) {
    '?' !in s && '#' !in s
  }

  /** The part of a Location that selects a rule on the next hop: neither query nor fragment. */
  function Cut(s: string): string {
    if s == "" || EndsPath(s[0]) then "" else [s[0]] + Cut(s[1..])
  }

  predicate LoopsForever(target: string, path: string, cap: string) {
    !IsAbsolute(target) && Cut(Expand(target, path, cap)) == path
  }

  // ---------------------------------------------------------------- cutting a template

  function CutTokens(ts: seq<Token>): seq<Token> {
    if ts == [] || (ts[0].Literal? && EndsPath(ts[0].c)) then [] else [ts[0]] + CutTokens(ts[1..])
  }

  lemma {:induction false} CutKeepsPath(a: string, b: string)
    requires PathOnly(a)
    ensures Cut(a + b) == a + Cut(b)
  {
    if a == "" {
      assert a + b == b;
    } else {
      assert (a + b)[1..] == a[1..] + b;
      CutKeepsPath(a[1..], b);
    }
  }

  /** Cutting the expansion is expanding the cut template, when what is spliced in is path only. */
  lemma {:induction false} CutFill(ts: seq<Token>, path: string, cap: string)
    requires PathOnly(path) && PathOnly(cap)
    ensures Cut(Fill(ts, path, cap)) == Fill(CutTokens(ts), path, cap)
  {
    if ts != [] && !(ts[0].Literal? && EndsPath(ts[0].c)) {
      CutFill(ts[1..], path, cap);
      CutKeepsPath(Value(ts[0], path, cap), Fill(ts[1..], path, cap));
      assert CutTokens(ts)[1..] == CutTokens(ts[1..]);
    }
  }

  // ---------------------------------------------------------------- one probe decides all paths

  /** How often a template splices in the path, the capture, and a literal byte. */
  function Paths(ts: seq<Token>): nat {
    if ts == [] then 0 else (if ts[0].WholePath? then 1 else 0) + Paths(ts[1..])
  }

  function Captures(ts: seq<Token>): nat {
    if ts == [] then 0 else (if ts[0].Capture? then 1 else 0) + Captures(ts[1..])
  }

  function Literals(ts: seq<Token>): nat {
    if ts == [] then 0 else (if ts[0].Literal? then 1 else 0) + Literals(ts[1..])
  }

  lemma {:induction false} TokenCount(ts: seq<Token>)
    ensures |ts| == Paths(ts) + Captures(ts) + Literals(ts)
  {
    if ts != [] {
      TokenCount(ts[1..]);
    }
  }

  lemma {:induction false} FillLength(ts: seq<Token>, path: string, cap: string)
    ensures |Fill(ts, path, cap)| == Literals(ts) + Paths(ts) * |path| + Captures(ts) * |cap|
  {
    if ts != [] {
      FillLength(ts[1..], path, cap);
      LengthStep(Paths(ts[1..]), |path|);
      LengthStep(Captures(ts[1..]), |cap|);
    }
  }

  lemma LengthStep(n: nat, size: nat)
    ensures (1 + n) * size == size + n * size
  {
  }

  lemma OneTokenFills(ts: seq<Token>, path: string, cap: string)
    requires Literals(ts) == 0 && Paths(ts) + Captures(ts) == 1
    ensures Fill(ts, path, cap) == if Paths(ts) == 1 then path else cap
  {
    TokenCount(ts);
    assert ts[1..] == [];
    assert Fill(ts, path, cap) == Value(ts[0], path, cap) + "";
  }

  const PROBE := "probe"

  /** The probe does not overlap itself: it occurs in `p + PROBE` only at the end, unless `p` holds it. */
  lemma ProbeOccursOnce(p: string, acc: string, rest: string)
    requires !Contains(p, PROBE) && acc + PROBE + rest == p + PROBE
    ensures acc == p && rest == ""
  {
    var w := p + PROBE;
    var i := |acc|;
    assert w[i..i + 5] == PROBE && w[|p|] == 'p';
    assert !(i < |p| < i + 5);
    assert i + 5 <= |p| ==> p[i..i + 5] == w[i..i + 5] && At(p, i, PROBE);
    assert i >= |p|;
    assert w[..|p|] == p && w[..i] == acc;
  }

  /** A template that only splices the capture and meets the probe is `p` followed by the capture. */
  lemma {:induction false} CaptureWord(acc: string, ts: seq<Token>, p: string, probePath: string, path: string, cap: string)
    requires Paths(ts) == 0 && Captures(ts) > 0 && !Contains(p, PROBE)
    requires acc + Fill(ts, probePath, PROBE) == p + PROBE
    ensures acc + Fill(ts, path, cap) == p + cap
    decreases ts
  {
    var rest := ts[1..];
    Assoc(acc, Value(ts[0], probePath, PROBE), Fill(rest, probePath, PROBE));
    Assoc(acc, Value(ts[0], path, cap), Fill(rest, path, cap));
    if ts[0] == Capture {
      ProbeOccursOnce(p, acc, Fill(rest, probePath, PROBE));
      NothingLeft(rest, probePath);
      assert p + cap + "" == p + cap;
    } else {
      CaptureWord(acc + Value(ts[0], path, cap), rest, p, probePath, path, cap);
    }
  }

  lemma NothingLeft(ts: seq<Token>, path: string)
    requires Paths(ts) == 0 && Fill(ts, path, PROBE) == ""
    ensures ts == []
  {
    FillLength(ts, path, PROBE);
    TokenCount(ts);
  }

  /** A template that splices nothing in: the same text for every request. */
  predicate IsConstant(ts: seq<Token>) {
    Paths(ts) == 0 && Captures(ts) == 0
  }

  lemma {:induction false} ConstantFill(ts: seq<Token>, path: string, cap: string)
    requires IsConstant(ts)
    ensures Fill(ts, path, cap) == Fill(ts, "", "")
  {
    if ts != [] {
      ConstantFill(ts[1..], path, cap);
    }
  }

  /** Meeting the probe means meeting every path, for a template that splices something in. */
  lemma ProbeMeansAll(ts: seq<Token>, p: string, cap: string)
    requires p != "" && !Contains(p, PROBE) && !IsConstant(ts)
    requires Fill(ts, p + PROBE, PROBE) == p + PROBE
    ensures Fill(ts, p + cap, cap) == p + cap
  {
    if Paths(ts) > 0 {
      FillLength(ts, p + PROBE, PROBE);
      WholePathOnly(Literals(ts), Paths(ts), Captures(ts), |p|);
      OneTokenFills(ts, p + cap, cap);
    } else {
      var probe, all := Fill(ts, p + PROBE, PROBE), Fill(ts, p + cap, cap);
      assert "" + probe == probe && "" + all == all;
      CaptureWord("", ts, p, p + PROBE, p + cap, cap);
    }
  }

  lemma WholePathOnly(l: nat, a: nat, b: nat, p: nat)
    requires a > 0 && p > 0 && l + a * (p + 5) + b * 5 == p + 5
    ensures a == 1 && b == 0 && l == 0
  {
    assert a >= 2 ==> a * (p + 5) >= 2 * (p + 5);
  }

  /** The capture family of a prefix rule all comes back to where it started. */
  ghost predicate AllLoop(target: string, prefix: string) {
    forall cap :: PathOnly(cap) ==> Cut(Expand(target, prefix + cap, cap)) == prefix + cap
  }

  /** The rule's own path, literally: the part of the target before any query or fragment. */
  ghost predicate Spells(target: string, path: string) {
    var ts := CutTokens(Tokens(target));
    IsConstant(ts) && Fill(ts, "", "") == path
  }

  /**
   What the one probe of a prefix rule decides. The check refuses exactly the rules that send
   every matching path back to itself, and those whose target is, literally, the probe's path.
   */
  lemma OneProbeDecides(prefix: string, target: string)
    requires prefix != "" && PathOnly(prefix) && !Contains(prefix, PROBE) && !IsAbsolute(target)
    ensures LoopsForever(target, prefix + PROBE, PROBE) <==> AllLoop(target, prefix) || Spells(target, prefix + PROBE)
  {
    var ts := CutTokens(Tokens(target));
    CutFill(Tokens(target), prefix + PROBE, PROBE);
    if IsConstant(ts) {
      ConstantFill(ts, prefix + PROBE, PROBE);
    } else if LoopsForever(target, prefix + PROBE, PROBE) {
      forall cap | PathOnly(cap) ensures Cut(Expand(target, prefix + cap, cap)) == prefix + cap {
        CutFill(Tokens(target), prefix + cap, cap);
        ProbeMeansAll(ts, prefix, cap);
      }
    }
  }

  lemma {:induction false} ConstantStart(t: string, m: nat, w: string)
    requires m <= |Tokens(t)| && IsConstant(Tokens(t)[..m]) && '$' !in w && w <= Fill(Tokens(t)[..m], "", "")
    ensures w <= t
    decreases |t|
  {
    if w != "" {
      var ts, n := Tokens(t), FirstToken(t).1;
      assert ts[..m][1..] == Tokens(t[n..])[..m - 1];
      assert w[0] == ts[0].c;
      ConstantStart(t[n..], m - 1, w[1..]);
      assert w == [w[0]] + w[1..];
    }
  }

  /** Text that a constant part of a template produces is spelled in the template. */
  lemma {:induction false} ConstantHolds(t: string, m: nat, w: string, i: nat)
    requires m <= |Tokens(t)| && IsConstant(Tokens(t)[..m])
    requires '$' !in w && w != "" && At(Fill(Tokens(t)[..m], "", ""), i, w)
    ensures Contains(t, w)
    decreases |t|
  {
    var text := Fill(Tokens(t)[..m], "", "");
    if i == 0 {
      ConstantStart(t, m, w);
      assert At(t, 0, w);
    } else {
      var n := FirstToken(t).1;
      assert Tokens(t)[..m][1..] == Tokens(t[n..])[..m - 1];
      assert text[1..][i - 1..i - 1 + |w|] == text[i..i + |w|];
      ConstantHolds(t[n..], m - 1, w, i - 1);
      var k: nat :| At(t[n..], k, w);
      assert t[n + k..n + k + |w|] == t[n..][k..k + |w|];
      assert At(t, n + k, w);
    }
  }

  lemma {:induction false} CutTokensIsPrefix(ts: seq<Token>)
    ensures CutTokens(ts) <= ts
  {
    if ts != [] {
      CutTokensIsPrefix(ts[1..]);
    }
  }

  /** One probe decides all paths, for rules that do not spell the probe's own text. */
  lemma ProbeDecidesPrefixRule(prefix: string, target: string)
    requires prefix != "" && PathOnly(prefix) && !Contains(prefix, PROBE)
    requires !IsAbsolute(target) && !Contains(target, PROBE)
    ensures LoopsForever(target, prefix + PROBE, PROBE) <==> AllLoop(target, prefix)
  {
    OneProbeDecides(prefix, target);
    var ts := CutTokens(Tokens(target));
    CutTokensIsPrefix(Tokens(target));
    assert Tokens(target)[..|ts|] == ts;
    if Spells(target, prefix + PROBE) {
      assert (prefix + PROBE)[|prefix|..|prefix| + 5] == PROBE;
      ConstantHolds(target, |ts|, PROBE, |prefix|);
    }
  }

  /** A rule that spells the probe's path is refused although no other path loops. */
  lemma SpelledProbeIsRefused(prefix: string)
    requires StartsWith(prefix, "/") && PathOnly(prefix) && '$' !in prefix
    ensures LoopsForever(prefix + PROBE, prefix + PROBE, PROBE) && !AllLoop(prefix + PROBE, prefix)
  {
    var target := prefix + PROBE;
    NoDollar(target, target, PROBE);
    NoDollar(target, prefix + "", "");
    CutKeepsPath(target, "");
    assert target + "" == target && target[0] == '/';
    assert PathOnly("");
    assert |prefix + ""| < |target|;
  }

  /**
   The catch-all rule: its probe stands for path and capture alike. The check refuses exactly
   the rules that send every path back to itself, and the one whose target is `/probe`.
   */
  lemma ProbeDecidesCatchAll(target: string)
    requires !IsAbsolute(target)
    ensures LoopsForever(target, "/probe", "/probe") <==>
            (forall path :: PathOnly(path) ==> Cut(Expand(target, path, path)) == path) || Spells(target, "/probe")
  {
    var ts := CutTokens(Tokens(target));
    assert PathOnly("/probe");
    CutFill(Tokens(target), "/probe", "/probe");
    if IsConstant(ts) {
      ConstantFill(ts, "/probe", "/probe");
    } else if LoopsForever(target, "/probe", "/probe") {
      FillLength(ts, "/probe", "/probe");
      assert Literals(ts) == 0 && Paths(ts) + Captures(ts) == 1;
      forall path | PathOnly(path) ensures Cut(Expand(target, path, path)) == path {
        CutFill(Tokens(target), path, path);
        OneTokenFills(ts, path, path);
      }
    }
  }
}
