/**
 One site's rule set: what `push` accepts, how `finish` orders it, and what `resolve` answers.

 The class holds the fields the server updates in place; `Rules` is their value. The laws say
 that resolution is "exact, else longest matching prefix, else catch-all", whatever the order
 in which the rules were pushed.
 */
module RedirectRules {
  import opened Bytes
  import opened PercentCoding
  import opened Redirects

  datatype RuleError =
    | ControlInTarget | EmptyTarget | NotRooted | UnknownCapture
    | LoopsBack | DuplicatePattern | BadPattern | MisplacedStar | CaptureInExact

  datatype Rules = Rules(exact: map<string, string>, prefix: seq<(string, string)>, all: Option<string>)

  const NO_RULES := Rules(map[], [], None)

  /** What a well-formed pattern matches: the host, the paths under a prefix, or one path. */
  datatype Kind = CatchAll | Prefix(p: string) | Exact(path: string)

  // ---------------------------------------------------------------- push

  /** `$` must be followed by 0, 1 or `$` whenever a digit follows it. */
  predicate CapturesOk(t: string)
    decreases |t|
  {
    if t == "" then true
    else if t[0] != '$' || |t| == 1 then CapturesOk(t[1..])
    else if t[1] in "$01" then CapturesOk(t[2..])
    else if '0' <= t[1] <= '9' then false
    else CapturesOk(t[1..])
  }

  function TargetError(target: string): Option<RuleError> {
    if !ControlFree(target) then Some(ControlInTarget)
    else if target == "" then Some(EmptyTarget)
    else if !IsAbsolute(target) && target[0] != '/' && !StartsWith(target, "$0") then Some(NotRooted)
    else if !CapturesOk(target) then Some(UnknownCapture)
    else None
  }

  /** Pattern and target checks that do not depend on the rules already pushed. */
  function Classify(pattern: string, target: string): (r: (Option<RuleError>, Kind))
  {
    if TargetError(target).Some? then (TargetError(target), CatchAll)
    else if pattern == "*" then
      (if LoopsForever(target, "/probe", "/probe") then Some(LoopsBack) else None, CatchAll)
    else if !StartsWith(pattern, "/") then (Some(BadPattern), CatchAll)
    else if pattern[|pattern| - 1] == '*' then
      var p := pattern[..|pattern| - 1];
      (if '*' in p || p[|p| - 1] != '/' then Some(MisplacedStar)
       else if LoopsForever(target, p + PROBE, PROBE) then Some(LoopsBack)
       else None, Prefix(p))
    else
      (if '*' in pattern then Some(MisplacedStar)
       else if LoopsForever(target, pattern, "") then Some(LoopsBack)
       else if HasCapture(target) then Some(CaptureInExact)
       else None, Exact(pattern))
  }

  /** The text "$1" occurs in the target, as a capture or not. */
  predicate HasCapture(target: string) {
    Find(target, "$1").Some?
  }

  /** This rule set already has a rule of this kind. */
  predicate Taken(r: Rules, k: Kind) {
    match k
    case CatchAll => r.all.Some?
    case Prefix(p) => exists i | 0 <= i < |r.prefix| :: r.prefix[i].0 == p
    case Exact(path) => path in r.exact
  }

  function Add(r: Rules, k: Kind, target: string): Rules {
    match k
    case CatchAll => r.(all := Some(target))
    case Prefix(p) => r.(prefix := r.prefix + [(p, target)])
    case Exact(path) => r.(exact := r.exact[path := target])
  }

  function PushError(r: Rules, pattern: string, target: string): Option<RuleError> {
    var (error, kind) := Classify(pattern, target);
    if error.Some? then error
    else if Taken(r, kind) then Some(DuplicatePattern)
    else None
  }

  // ---------------------------------------------------------------- finish and resolve

  /** Insert before the first rule whose prefix is not longer: equal lengths keep their order. */
  function Insert(x: (string, string), sorted: seq<(string, string)>): seq<(string, string)> {
    if sorted == [] || |x.0| >= |sorted[0].0| then [x] + sorted else [sorted[0]] + Insert(x, sorted[1..])
  }

  function LongestFirst(xs: seq<(string, string)>): seq<(string, string)> {
    if xs == [] then [] else Insert(xs[0], LongestFirst(xs[1..]))
  }

  function ResolvePrefix(prefix: seq<(string, string)>, path: string): Option<string> {
    if prefix == [] then None
    else if StartsWith(path, prefix[0].0) then Some(Expand(prefix[0].1, path, path[|prefix[0].0|..]))
    else ResolvePrefix(prefix[1..], path)
  }

  function Resolve(r: Rules, path: string): Option<string> {
    if path in r.exact then Some(Expand(r.exact[path], path, ""))
    else if ResolvePrefix(r.prefix, path).Some? then ResolvePrefix(r.prefix, path)
    else match r.all
      case None => None
      case Some(t) => Some(Expand(t, path, path))
  }

  class RuleSet {
    var exact: map<string, string>
    var prefix: seq<(string, string)>
    var all: Option<string>

    function Value(): Rules
      reads this
    {
      Rules(exact, prefix, all)
    }

    constructor ()
      ensures Value() == NO_RULES
    {
      exact, prefix, all := map[], [], None;
    }

    /** A refused push leaves the rules alone, but a duplicate exact rule has already replaced the target. */
    method Push(pattern: string, target: string) returns (error: Option<RuleError>)
      modifies this
      ensures error == PushError(old(Value()), pattern, target)
      ensures error.None? ==> Value() == Add(old(Value()), Classify(pattern, target).1, target)
      ensures error.Some? ==>
                var (invalid, kind) := Classify(pattern, target);
                Value() == if invalid.None? && kind.Exact? then Add(old(Value()), kind, target) else old(Value())
    {
      var (invalid, kind) := Classify(pattern, target);
      if invalid.Some? {
        return invalid;
      }
      match kind {
        case CatchAll =>
          if all.Some? {
            return Some(DuplicatePattern);
          }
          all := Some(target);
        case Prefix(p) =>
          for i := 0 to |prefix|
            invariant forall j :: 0 <= j < i ==> prefix[j].0 != p
          {
            if prefix[i].0 == p {
              return Some(DuplicatePattern);
            }
          }
          prefix := prefix + [(p, target)];
        case Exact(path) =>
          var replaced := path in exact;
          exact := exact[path := target];
          if replaced {
            return Some(DuplicatePattern);
          }
      }
      return None;
    }

    method Finish()
      modifies this
      ensures Value() == old(Value()).(prefix := LongestFirst(old(prefix)))
      ensures Descending(prefix) && multiset(prefix) == multiset(old(prefix))
    {
      LongestFirstSorts(prefix);
      prefix := LongestFirst(prefix);
    }

    method ResolvePath(path: string) returns (r: Option<string>)
      ensures r == Resolve(Value(), path)
    {
      if path in exact {
        return Some(Expand(exact[path], path, ""));
      }
      assert prefix[0..] == prefix;
      for i := 0 to |prefix|
        invariant ResolvePrefix(prefix, path) == ResolvePrefix(prefix[i..], path)
      {
        assert prefix[i..][0] == prefix[i] && prefix[i..][1..] == prefix[i + 1..];
        if StartsWith(path, prefix[i].0) {
          return Some(Expand(prefix[i].1, path, path[|prefix[i].0|..]));
        }
      }
      match all {
        case None => return None;
        case Some(t) => return Some(Expand(t, path, path));
      }
    }
  }

  // ---------------------------------------------------------------- resolution is order-free

  /** The rule that a rule set must answer a path with, out of a set of rules given by kind. */
  ghost predicate Answers(rules: set<(Kind, string)>, path: string, k: Kind, t: string) {
    && (k, t) in rules
    && match k
       case Exact(p) => p == path
       case Prefix(p) =>
         && StartsWith(path, p) && !Known(rules, Exact(path))
         && forall q :: Known(rules, Prefix(q)) && StartsWith(path, q) ==> |q| <= |p|
       case CatchAll => !Known(rules, Exact(path)) && forall q :: Known(rules, Prefix(q)) ==> !StartsWith(path, q)
  }

  ghost predicate Known(rules: set<(Kind, string)>, k: Kind) {
    exists t :: (k, t) in rules
  }

  function CaptureOf(k: Kind, path: string): string
    requires k.Prefix? ==> |k.p| <= |path|
  {
    match k
    case Exact(_) => ""
    case Prefix(p) => path[|p|..]
    case CatchAll => path
  }

  /** No two rules of the set have the same pattern. */
  ghost predicate OneTargetEach(rules: set<(Kind, string)>) {
    forall k, t, u :: (k, t) in rules && (k, u) in rules ==> t == u
  }

  /** At most one rule can answer a path. */
  lemma AnswerIsUnique(rules: set<(Kind, string)>, path: string, k: Kind, t: string, j: Kind, u: string)
    requires OneTargetEach(rules) && Answers(rules, path, k, t) && Answers(rules, path, j, u)
    ensures k == j && t == u
  {
    assert Known(rules, k) && Known(rules, j);
    if k.Prefix? && j.Prefix? {
      assert |k.p| == |j.p|;
      assert k.p == path[..|k.p|] == j.p;
    }
  }

  /** The field values `r` hold exactly the rules in `rules`. */
  ghost predicate Holds(r: Rules, rules: set<(Kind, string)>) {
    && (forall p, t :: (Exact(p), t) in rules <==> p in r.exact && r.exact[p] == t)
    && (forall p, t :: (Prefix(p), t) in rules <==> (p, t) in r.prefix)
    && (forall t :: (CatchAll, t) in rules <==> r.all == Some(t))
  }

  ghost predicate Descending(xs: seq<(string, string)>) {
    forall i, j :: 0 <= i < j < |xs| ==> |xs[i].0| >= |xs[j].0|
  }

  lemma {:induction false} InsertKeeps(x: (string, string), sorted: seq<(string, string)>)
    requires Descending(sorted)
    ensures Descending(Insert(x, sorted))
    ensures multiset(Insert(x, sorted)) == multiset{x} + multiset(sorted)
  {
    if !(sorted == [] || |x.0| >= |sorted[0].0|) {
      InsertKeeps(x, sorted[1..]);
      var rest := Insert(x, sorted[1..]);
      assert sorted == [sorted[0]] + sorted[1..];
      forall i | 0 <= i < |rest| ensures |rest[i].0| <= |sorted[0].0| {
        assert rest[i] in multiset(rest);
        assert rest[i] == x || rest[i] in sorted[1..];
      }
    }
  }

  lemma {:induction false} LongestFirstSorts(xs: seq<(string, string)>)
    ensures Descending(LongestFirst(xs)) && multiset(LongestFirst(xs)) == multiset(xs)
  {
    if xs != [] {
      LongestFirstSorts(xs[1..]);
      InsertKeeps(xs[0], LongestFirst(xs[1..]));
      assert xs == [xs[0]] + xs[1..];
    }
  }

  lemma {:induction false} FirstMatch(prefix: seq<(string, string)>, path: string) returns (i: nat)
    ensures i <= |prefix| && forall j :: 0 <= j < i ==> !StartsWith(path, prefix[j].0)
    ensures i < |prefix| ==> StartsWith(path, prefix[i].0)
    ensures ResolvePrefix(prefix, path)
            == if i == |prefix| then None else Some(Expand(prefix[i].1, path, path[|prefix[i].0|..]))
  {
    if prefix == [] || StartsWith(path, prefix[0].0) {
      i := 0;
    } else {
      var k := FirstMatch(prefix[1..], path);
      i := k + 1;
      assert forall j :: 0 < j < i ==> prefix[j] == prefix[1..][j - 1];
    }
  }

  function Finished(r: Rules): Rules {
    r.(prefix := LongestFirst(r.prefix))
  }

  lemma SortedHolds(r: Rules, rules: set<(Kind, string)>, q: string, u: string)
    requires Holds(r, rules)
    ensures (Prefix(q), u) in rules <==> (q, u) in LongestFirst(r.prefix)
  {
    LongestFirstSorts(r.prefix);
    assert (q, u) in LongestFirst(r.prefix) <==> (q, u) in multiset(LongestFirst(r.prefix));
    assert (q, u) in r.prefix <==> (q, u) in multiset(r.prefix);
  }

  lemma FirstIsLongest(r: Rules, rules: set<(Kind, string)>, path: string, i: nat)
    requires Holds(r, rules) && path !in r.exact && i < |LongestFirst(r.prefix)|
    requires StartsWith(path, LongestFirst(r.prefix)[i].0)
    requires forall j :: 0 <= j < i ==> !StartsWith(path, LongestFirst(r.prefix)[j].0)
    ensures var (p, t) := LongestFirst(r.prefix)[i]; Answers(rules, path, Prefix(p), t)
  {
    var sorted := LongestFirst(r.prefix);
    var (p, t) := sorted[i];
    LongestFirstSorts(r.prefix);
    assert (p, t) in sorted;
    SortedHolds(r, rules, p, t);
    assert !Known(rules, Exact(path));
    forall q | Known(rules, Prefix(q)) && StartsWith(path, q) ensures |q| <= |p| {
      var u :| (Prefix(q), u) in rules;
      SortedHolds(r, rules, q, u);
      var j :| 0 <= j < |sorted| && sorted[j] == (q, u);
    }
  }

  lemma NoPrefix(r: Rules, rules: set<(Kind, string)>, path: string, q: string)
    requires Holds(r, rules)
    requires forall j :: 0 <= j < |LongestFirst(r.prefix)| ==> !StartsWith(path, LongestFirst(r.prefix)[j].0)
    ensures Known(rules, Prefix(q)) ==> !StartsWith(path, q)
  {
    if Known(rules, Prefix(q)) {
      var u :| (Prefix(q), u) in rules;
      SortedHolds(r, rules, q, u);
      var j :| 0 <= j < |LongestFirst(r.prefix)| && LongestFirst(r.prefix)[j] == (q, u);
    }
  }

  /** `to` is what the rules answer for the path: the expansion of the one rule that applies. */
  ghost predicate AnsweredBy(rules: set<(Kind, string)>, path: string, to: Option<string>) {
    match to
    case None => forall k, t :: !Answers(rules, path, k, t)
    case Some(to) => exists k, t :: Answers(rules, path, k, t) && to == Expand(t, path, CaptureOf(k, path))
  }

  /** A finished rule set answers exact, else longest matching prefix, else catch-all. */
  lemma ResolveAnswers(r: Rules, rules: set<(Kind, string)>, path: string)
    requires Holds(r, rules)
    ensures AnsweredBy(rules, path, Resolve(Finished(r), path))
  {
    if path in r.exact {
      assert Answers(rules, path, Exact(path), r.exact[path]);
      return;
    }
    var sorted := LongestFirst(r.prefix);
    var i := FirstMatch(sorted, path);
    if i < |sorted| {
      FirstIsLongest(r, rules, path, i);
    } else {
      NoExactNoPrefix(r, rules, path);
    }
  }

  lemma NoExactNoPrefix(r: Rules, rules: set<(Kind, string)>, path: string)
    requires Holds(r, rules) && path !in r.exact
    requires forall j :: 0 <= j < |LongestFirst(r.prefix)| ==> !StartsWith(path, LongestFirst(r.prefix)[j].0)
    ensures AnsweredBy(rules, path, match r.all case None => None case Some(t) => Some(Expand(t, path, path)))
  {
    assert !Known(rules, Exact(path));
    forall q ensures Known(rules, Prefix(q)) ==> !StartsWith(path, q) {
      NoPrefix(r, rules, path, q);
    }
    if r.all.Some? {
      assert Answers(rules, path, CatchAll, r.all.value);
    } else {
      forall k, t ensures !Answers(rules, path, k, t) {
        assert k.Prefix? && (k, t) in rules ==> Known(rules, Prefix(k.p));
        assert k.Exact? && (k, t) in rules ==> Known(rules, Exact(k.path));
      }
    }
  }

  // ---------------------------------------------------------------- whole files of rules

  type Line = (string, string)

  function PushAll(lines: seq<Line>): Option<Rules> {
    if lines == [] then Some(NO_RULES)
    else
      var (pattern, target) := lines[|lines| - 1];
      match PushAll(lines[..|lines| - 1])
      case None => None
      case Some(r) =>
        if PushError(r, pattern, target).Some? then None
        else Some(Add(r, Classify(pattern, target).1, target))
  }

  ghost function RuleOf(line: Line): (Kind, string) {
    (Classify(line.0, line.1).1, line.1)
  }

  ghost function RuleSetOf(lines: seq<Line>): set<(Kind, string)> {
    set i | 0 <= i < |lines| :: RuleOf(lines[i])
  }

  ghost predicate Acceptable(lines: seq<Line>) {
    && (forall i :: 0 <= i < |lines| ==> Classify(lines[i].0, lines[i].1).0.None?)
    && (forall i, j :: 0 <= i < j < |lines| ==> lines[i].0 != lines[j].0)
  }

  /** The pattern text of a kind. */
  function PatternOf(k: Kind): string {
    match k
    case CatchAll => "*"
    case Prefix(p) => p + "*"
    case Exact(path) => path
  }

  lemma KindIsPattern(line1: Line, line2: Line)
    requires Classify(line1.0, line1.1).0.None? && Classify(line2.0, line2.1).0.None?
    ensures line1.0 == line2.0 <==> RuleOf(line1).0 == RuleOf(line2).0
  {
    PatternText(line1);
    PatternText(line2);
  }

  lemma PatternText(line: Line)
    requires Classify(line.0, line.1).0.None?
    ensures PatternOf(RuleOf(line).0) == line.0
    ensures forall t :: Classify(line.0, t).0.None? ==> Classify(line.0, t).1 == RuleOf(line).0
  {
    if line.0 != "*" && line.0[|line.0| - 1] == '*' {
      assert line.0[..|line.0| - 1] + "*" == line.0;
    }
  }

  lemma HoldsAdd(r: Rules, rules: set<(Kind, string)>, k: Kind, target: string)
    requires Holds(r, rules) && !Taken(r, k)
    ensures Holds(Add(r, k, target), rules + {(k, target)})
  {
    var r', rules' := Add(r, k, target), rules + {(k, target)};
    forall p, t ensures (Prefix(p), t) in rules' <==> (p, t) in r'.prefix {
      assert k.Prefix? ==> r'.prefix[|r.prefix|] == (k.p, target);
    }
    forall p, t ensures (Exact(p), t) in rules' <==> p in r'.exact && r'.exact[p] == t {
    }
    forall t ensures (CatchAll, t) in rules' <==> r'.all == Some(t) {
      assert k.CatchAll? ==> !((CatchAll, t) in rules);
    }
  }

  lemma TakenIsKnown(r: Rules, rules: set<(Kind, string)>, k: Kind)
    requires Holds(r, rules)
    ensures Taken(r, k) <==> Known(rules, k)
  {
    match k {
      case CatchAll =>
        assert r.all.Some? ==> (CatchAll, r.all.value) in rules;
      case Prefix(p) =>
        if Taken(r, k) {
          var i :| 0 <= i < |r.prefix| && r.prefix[i].0 == p;
          assert (p, r.prefix[i].1) in r.prefix;
        }
        if Known(rules, k) {
          var t :| (k, t) in rules;
          assert (p, t) in r.prefix;
        }
      case Exact(path) =>
        assert path in r.exact ==> (Exact(path), r.exact[path]) in rules;
    }
  }

  /** A list of rules is accepted exactly when each is valid by itself and no pattern is repeated. */
  lemma {:induction false} PushAllAccepts(lines: seq<Line>)
    ensures PushAll(lines).Some? <==> Acceptable(lines)
    ensures PushAll(lines).Some? ==> Holds(PushAll(lines).value, RuleSetOf(lines))
    decreases |lines|
  {
    if lines == [] {
      return;
    }
    var n := |lines| - 1;
    var init, last := lines[..n], lines[n];
    PushAllAccepts(init);
    assert RuleSetOf(lines) == RuleSetOf(init) + {RuleOf(last)} by {
      RuleSetSnoc(lines);
    }
    if PushAll(init).Some? {
      var r := PushAll(init).value;
      var (error, kind) := Classify(last.0, last.1);
      if error.None? {
        TakenIsKnown(r, RuleSetOf(init), kind);
        KnownIsRepeated(init, last);
        if !Taken(r, kind) {
          HoldsAdd(r, RuleSetOf(init), kind, last.1);
        }
      }
    }
    AcceptableSnoc(lines);
  }

  lemma RuleSetSnoc(lines: seq<Line>)
    requires lines != []
    ensures RuleSetOf(lines) == RuleSetOf(lines[..|lines| - 1]) + {RuleOf(lines[|lines| - 1])}
  {
    var n := |lines| - 1;
    var init := lines[..n];
    forall x | x in RuleSetOf(lines) ensures x in RuleSetOf(init) + {RuleOf(lines[n])} {
      var i :| 0 <= i < |lines| && x == RuleOf(lines[i]);
      assert i < n ==> init[i] == lines[i];
    }
    forall x | x in RuleSetOf(init) ensures x in RuleSetOf(lines) {
      var i :| 0 <= i < |init| && x == RuleOf(init[i]);
      assert init[i] == lines[i];
    }
  }

  ghost predicate Repeats(init: seq<Line>, pattern: string) {
    exists i :: 0 <= i < |init| && init[i].0 == pattern
  }

  lemma KnownIsRepeated(init: seq<Line>, last: Line)
    requires Acceptable(init) && Classify(last.0, last.1).0.None?
    ensures Known(RuleSetOf(init), RuleOf(last).0) <==> Repeats(init, last.0)
  {
    if Known(RuleSetOf(init), RuleOf(last).0) {
      var t :| (RuleOf(last).0, t) in RuleSetOf(init);
      var i :| 0 <= i < |init| && RuleOf(init[i]) == (RuleOf(last).0, t);
      KindIsPattern(init[i], last);
    }
    if Repeats(init, last.0) {
      var i :| 0 <= i < |init| && init[i].0 == last.0;
      KindIsPattern(init[i], last);
      assert RuleOf(init[i]) in RuleSetOf(init);
    }
  }

  lemma AcceptableSnoc(lines: seq<Line>)
    requires lines != []
    ensures var n := |lines| - 1;
            Acceptable(lines) <==>
            Acceptable(lines[..n]) && Classify(lines[n].0, lines[n].1).0.None? && !Repeats(lines[..n], lines[n].0)
  {
    var n := |lines| - 1;
    var init := lines[..n];
    assert forall i :: 0 <= i < n ==> init[i] == lines[i];
    if Acceptable(init) && Classify(lines[n].0, lines[n].1).0.None? && !Repeats(init, lines[n].0) {
      forall i, j | 0 <= i < j < |lines| ensures lines[i].0 != lines[j].0 {
        assert init[i] == lines[i];
        assert j < n ==> init[j] == lines[j];
      }
    }
  }

  lemma RuleSetIsFunctional(lines: seq<Line>)
    requires Acceptable(lines)
    ensures OneTargetEach(RuleSetOf(lines))
  {
    forall k, t, u | (k, t) in RuleSetOf(lines) && (k, u) in RuleSetOf(lines) ensures t == u {
      var i :| 0 <= i < |lines| && RuleOf(lines[i]) == (k, t);
      var j :| 0 <= j < |lines| && RuleOf(lines[j]) == (k, u);
      KindIsPattern(lines[i], lines[j]);
      assert i == j;
    }
  }

  lemma TwoOfTheSame(lines: seq<Line>, x: Line)
    requires multiset(lines)[x] >= 2
    ensures exists i, j :: 0 <= i < j < |lines| && lines[i] == x == lines[j]
  {
    assert x in lines;
    var i :| 0 <= i < |lines| && lines[i] == x;
    var others := lines[..i] + lines[i + 1..];
    assert lines == lines[..i] + [x] + lines[i + 1..];
    assert multiset(others) + multiset{x} == multiset(lines);
    assert x in others;
    var k :| 0 <= k < |others| && others[k] == x;
    if k < i {
      assert lines[k] == x == lines[i];
    } else {
      assert lines[i] == x == lines[k + 1];
    }
  }

  lemma SameLinesMember(lines1: seq<Line>, lines2: seq<Line>, i: nat)
    requires multiset(lines1) == multiset(lines2) && i < |lines2|
    ensures lines2[i] in lines1
  {
    assert lines2[i] in multiset(lines2);
  }

  lemma SameLinesDistinct(lines1: seq<Line>, lines2: seq<Line>, i: nat, j: nat)
    requires multiset(lines1) == multiset(lines2) && Acceptable(lines1) && i < j < |lines2|
    ensures lines2[i].0 != lines2[j].0
  {
    SameLinesMember(lines1, lines2, i);
    SameLinesMember(lines1, lines2, j);
    if lines2[i] == lines2[j] {
      assert lines2 == lines2[..i] + [lines2[i]] + lines2[i + 1..];
      assert lines2[j] == lines2[i + 1..][j - i - 1];
      assert lines2[j] in multiset(lines2[i + 1..]);
      TwoOfTheSame(lines1, lines2[i]);
    }
  }

  lemma SameLinesAcceptable(lines1: seq<Line>, lines2: seq<Line>)
    requires multiset(lines1) == multiset(lines2) && Acceptable(lines1)
    ensures Acceptable(lines2)
  {
    forall i | 0 <= i < |lines2| ensures Classify(lines2[i].0, lines2[i].1).0.None? {
      SameLinesMember(lines1, lines2, i);
    }
    forall i, j | 0 <= i < j < |lines2| ensures lines2[i].0 != lines2[j].0 {
      SameLinesDistinct(lines1, lines2, i, j);
    }
  }

  lemma SameLinesSameRules(lines1: seq<Line>, lines2: seq<Line>)
    requires multiset(lines1) == multiset(lines2)
    ensures RuleSetOf(lines1) <= RuleSetOf(lines2)
  {
    forall x | x in RuleSetOf(lines1) ensures x in RuleSetOf(lines2) {
      var i :| 0 <= i < |lines1| && x == RuleOf(lines1[i]);
      assert lines1[i] in multiset(lines1);
      assert lines1[i] in lines2;
      var j :| 0 <= j < |lines2| && lines2[j] == lines1[i];
    }
  }

  lemma AnswersAgree(rules: set<(Kind, string)>, path: string, a: Option<string>, b: Option<string>)
    requires OneTargetEach(rules) && AnsweredBy(rules, path, a) && AnsweredBy(rules, path, b)
    ensures a == b
  {
    if a.Some? && b.Some? {
      var k, t :| Answers(rules, path, k, t) && a.value == Expand(t, path, CaptureOf(k, path));
      var j, u :| Answers(rules, path, j, u) && b.value == Expand(u, path, CaptureOf(j, path));
      AnswerIsUnique(rules, path, k, t, j, u);
    }
  }

  lemma AcceptedAlike(lines1: seq<Line>, lines2: seq<Line>)
    requires multiset(lines1) == multiset(lines2)
    ensures PushAll(lines1).Some? <==> PushAll(lines2).Some?
  {
    PushAllAccepts(lines1);
    PushAllAccepts(lines2);
    if Acceptable(lines1) {
      SameLinesAcceptable(lines1, lines2);
    } else if Acceptable(lines2) {
      SameLinesAcceptable(lines2, lines1);
    }
  }

  lemma AcceptedAnswers(lines: seq<Line>, rules: set<(Kind, string)>, path: string)
    requires PushAll(lines).Some? && rules == RuleSetOf(lines)
    ensures OneTargetEach(rules) && AnsweredBy(rules, path, Resolve(Finished(PushAll(lines).value), path))
  {
    PushAllAccepts(lines);
    RuleSetIsFunctional(lines);
    ResolveAnswers(PushAll(lines).value, rules, path);
  }

  /** The same rules in any order are accepted alike, and resolve every path alike. */
  lemma OrderDoesNotMatter(lines1: seq<Line>, lines2: seq<Line>, path: string)
    requires multiset(lines1) == multiset(lines2)
    ensures PushAll(lines1).Some? <==> PushAll(lines2).Some?
    ensures PushAll(lines1).Some? ==>
              Resolve(Finished(PushAll(lines1).value), path) == Resolve(Finished(PushAll(lines2).value), path)
  {
    AcceptedAlike(lines1, lines2);
    if PushAll(lines1).Some? {
      SameLinesSameRules(lines1, lines2);
      SameLinesSameRules(lines2, lines1);
      var rules := RuleSetOf(lines1);
      AcceptedAnswers(lines1, rules, path);
      AcceptedAnswers(lines2, rules, path);
      AnswersAgree(rules, path, Resolve(Finished(PushAll(lines1).value), path), Resolve(Finished(PushAll(lines2).value), path));
    }
  }

  // ---------------------------------------------------------------- the shape of a Location

  /** A request path as `resolve` sees it: rooted, free of controls, with the query stripped. */
  ghost predicate RequestPath(path: string) {
    StartsWith(path, "/") && ControlFree(path) && '?' !in path
  }

  lemma {:induction false} FillIsClean(ts: seq<Token>, path: string, cap: string)
    requires ControlFree(path) && ControlFree(cap) && '?' !in path && '?' !in cap
    requires forall i :: 0 <= i < |ts| && ts[i].Literal? ==> !IsControl(ts[i].c)
    ensures ControlFree(Fill(ts, path, cap))
    ensures '?' in Fill(ts, path, cap) <==> Literal('?') in ts
  {
    if ts != [] {
      FillIsClean(ts[1..], path, cap);
      assert Literal('?') in ts <==> ts[0] == Literal('?') || Literal('?') in ts[1..];
    }
  }

  lemma {:induction false} TokensOfTemplate(t: string)
    requires ControlFree(t)
    ensures forall i :: 0 <= i < |Tokens(t)| && Tokens(t)[i].Literal? ==> !IsControl(Tokens(t)[i].c)
    ensures Literal('?') in Tokens(t) <==> '?' in t
    decreases |t|
  {
    if t != "" {
      var (token, n) := FirstToken(t);
      TokensOfTemplate(t[n..]);
      assert Tokens(t) == [token] + Tokens(t[n..]);
      assert t == t[..n] + t[n..];
      assert '?' in t <==> '?' in t[..n] || '?' in t[n..];
      assert n == 2 ==> t[..2] == [t[0], t[1]];
      assert n == 1 ==> t[..1] == [t[0]];
    }
  }

  lemma LiteralStart(t: string, w: string, path: string, cap: string)
    requires w <= t && '$' !in w
    ensures w <= Expand(t, path, cap)
    decreases w
  {
    if w != "" {
      LiteralStart(t[1..], w[1..], path, cap);
      assert Tokens(t)[1..] == Tokens(t[1..]);
      assert w == [w[0]] + w[1..];
    }
  }

  lemma AbsoluteStart(target: string, path: string, cap: string)
    requires IsAbsolute(target)
    ensures IsAbsolute(Expand(target, path, cap))
  {
    if StartsWith(target, "http://") {
      LiteralStart(target, "http://", path, cap);
    } else {
      LiteralStart(target, "https://", path, cap);
    }
  }

  lemma RootedStart(target: string, path: string, cap: string)
    requires target != "" && (target[0] == '/' || StartsWith(target, "$0")) && StartsWith(path, "/")
    ensures StartsWith(Expand(target, path, cap), "/") && !IsAbsolute(Expand(target, path, cap))
  {
    assert Tokens(target)[0] == FirstToken(target).0;
    var to := Expand(target, path, cap);
    assert target[0] == '$' ==> target[..2] == "$0" && target[1] == '0';
    assert to[0] == '/';
    assert to[..1] == "/";
    assert "http://"[0] == 'h' && "https://"[0] == 'h';
  }

  /**
   What a rule answers is safe to put in a header: control-free, an absolute URL exactly when
   its template is one and rooted otherwise, and with a query exactly when its template has one.
   */
  lemma ExpansionShape(target: string, path: string, cap: string)
    requires TargetError(target).None? && RequestPath(path)
    requires ControlFree(cap) && '?' !in cap
    ensures var to := Expand(target, path, cap);
            && ControlFree(to)
            && (IsAbsolute(to) <==> IsAbsolute(target))
            && (!IsAbsolute(to) ==> StartsWith(to, "/"))
            && ('?' in to <==> '?' in target)
  {
    TokensOfTemplate(target);
    FillIsClean(Tokens(target), path, cap);
    if IsAbsolute(target) {
      AbsoluteStart(target, path, cap);
    } else {
      RootedStart(target, path, cap);
    }
  }

  /** Every rule of a rule set has a target that `push` lets through. */
  ghost predicate TargetsOk(r: Rules) {
    && (forall p :: p in r.exact ==> TargetError(r.exact[p]).None?)
    && (forall i :: 0 <= i < |r.prefix| ==> TargetError(r.prefix[i].1).None?)
    && (r.all.Some? ==> TargetError(r.all.value).None?)
  }

  lemma AddKeepsTargets(r: Rules, k: Kind, target: string)
    requires TargetsOk(r) && TargetError(target).None?
    ensures TargetsOk(Add(r, k, target))
  {
  }

  lemma FinishKeepsTargets(r: Rules)
    requires TargetsOk(r)
    ensures TargetsOk(Finished(r))
  {
    LongestFirstSorts(r.prefix);
    forall i | 0 <= i < |LongestFirst(r.prefix)| ensures TargetError(LongestFirst(r.prefix)[i].1).None? {
      assert LongestFirst(r.prefix)[i] in multiset(LongestFirst(r.prefix));
      assert LongestFirst(r.prefix)[i] in r.prefix;
    }
  }

  lemma PushedTarget(r: Rules, pattern: string, target: string)
    requires PushError(r, pattern, target).None?
    ensures TargetError(target).None?
  {
  }

  lemma {:induction false} PushedTargetsOk(lines: seq<Line>)
    requires PushAll(lines).Some?
    ensures TargetsOk(PushAll(lines).value)
    decreases |lines|
  {
    if lines != [] {
      var init := lines[..|lines| - 1];
      var (pattern, target) := lines[|lines| - 1];
      PushedTargetsOk(init);
      var before := PushAll(init).value;
      PushedTarget(before, pattern, target);
      AddKeepsTargets(before, Classify(pattern, target).1, target);
    }
  }

  /** Every Location that rule resolution produces for a request path has that shape. */
  lemma ResolvedShape(r: Rules, path: string)
    requires TargetsOk(r) && RequestPath(path) && Resolve(r, path).Some?
    ensures ControlFree(Resolve(r, path).value)
    ensures IsAbsolute(Resolve(r, path).value) || StartsWith(Resolve(r, path).value, "/")
  {
    if path in r.exact {
      ExpansionShape(r.exact[path], path, "");
    } else {
      var i := FirstMatch(r.prefix, path);
      if i < |r.prefix| {
        ExpansionShape(r.prefix[i].1, path, path[|r.prefix[i].0|..]);
      } else {
        ExpansionShape(r.all.value, path, path);
      }
    }
  }
}
