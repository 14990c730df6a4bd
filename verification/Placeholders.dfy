// The pattern checks of internal/config/validate.go: what they accept, and why one placeholder makes
// subjects and keys tell targets apart. Subjects is about two placeholders.

module Placeholders {
  import opened Wrappers
  import opened Text

  /** Nil, or the check that refused the pattern. */
  datatype Verdict = Accepted | Required | Padded | Spaced | Wildcard | BadDirective | WrongCount

  predicate Literal(s: string) {
    '%' !in s
  }

  ghost function Join(parts: seq<string>): string
    requires parts != []
  {
    var n := |parts| - 1;
    if n == 0 then parts[0] else Join(parts[..n]) + "%s" + parts[n]
  }

  /** The pattern is these percent-free literals with one %s between each two. */
  ghost predicate Decomposes(pattern: string, parts: seq<string>) {
    && parts != []
    && (forall i | 0 <= i < |parts| :: Literal(parts[i]))
    && pattern == Join(parts)
  }

  ghost predicate WellFormed(pattern: string) {
    exists parts :: Decomposes(pattern, parts)
  }

  ghost predicate HasPlaceholders(pattern: string, n: int) {
    exists parts :: Decomposes(pattern, parts) && |parts| == n + 1
  }

  /** Every percent sign begins a %s. */
  ghost predicate Clean(s: string) {
    forall i | 0 <= i < |s| && s[i] == '%' :: i + 1 < |s| && s[i + 1] == 's'
  }

  lemma {:induction false} JoinsAreClean(parts: seq<string>)
    requires parts != [] && Decomposes(Join(parts), parts)
    ensures Clean(Join(parts))
  {
    var n := |parts| - 1;
    if n > 0 {
      var front := Join(parts[..n]);
      JoinsAreClean(parts[..n]);
      var s := front + "%s" + parts[n];
      assert forall j | 0 <= j < |front| :: s[j] == front[j];
      LastPercent(front, parts[n], s);
      assert s[|front| + 1] == 's';
    }
  }

  /** The literals between the placeholders are determined by the pattern. */
  lemma {:induction false} DecompositionIsUnique(pattern: string, p: seq<string>, q: seq<string>)
    requires Decomposes(pattern, p) && Decomposes(pattern, q)
    ensures p == q
    decreases |p|
  {
    var m, n := |p| - 1, |q| - 1;
    PercentIffMany(p);
    PercentIffMany(q);
    if m == 0 {
      assert p == [pattern] && q == [pattern];
    } else {
      LastLiteral(Join(p[..m]), p[m], Join(q[..n]), q[n]);
      DecompositionIsUnique(Join(p[..m]), p[..m], q[..n]);
      assert p == p[..m] + [p[m]] && q == q[..n] + [q[n]];
    }
  }

  lemma PercentIffMany(parts: seq<string>)
    requires parts != [] && Decomposes(Join(parts), parts)
    ensures '%' in Join(parts) <==> |parts| > 1
  {
    var n := |parts| - 1;
    if n > 0 {
      LastPercent(Join(parts[..n]), parts[n], Join(parts));
    }
  }

  lemma LastLiteral(a: string, l: string, b: string, k: string)
    requires Literal(l) && Literal(k) && a + "%s" + l == b + "%s" + k
    ensures a == b && l == k
  {
    var s := a + "%s" + l;
    LastPercent(a, l, s);
    LastPercent(b, k, s);
    assert s[..|a|] == a && s[..|b|] == b;
    assert s[|a| + 2..] == l && s[|b| + 2..] == k;
  }

  lemma LastPercent(a: string, l: string, s: string)
    requires Literal(l) && s == a + "%s" + l
    ensures s[|a|] == '%' && forall i | |a| < i < |s| :: s[i] != '%'
  {
    assert s[|a| + 1] == 's';
    assert forall j | 0 <= j < |l| :: s[|a| + 2 + j] == l[j];
    forall i | |a| < i < |s| ensures s[i] != '%' {
      assert i == |a| + 1 || s[i] == l[i - |a| - 2];
    }
  }

  /** The scan: accepts exactly the patterns with this many placeholders, and tells a malformed
      pattern from a miscounted one. */
  method ValidateFormatPlaceholders(value: string, placeholders: int) returns (r: Verdict)
    ensures r in {Accepted, BadDirective, WrongCount}
    ensures r.Accepted? <==> HasPlaceholders(value, placeholders)
    ensures r.BadDirective? <==> !WellFormed(value)
  {
    var count := 0;
    var i := 0;
    ghost var parts := [""];
    while i < |value|
      invariant 0 <= i <= |value|
      invariant Decomposes(value[..i], parts) && |parts| == count + 1
    {
      if value[i] != '%' {
        parts := Extend(value, i, parts);
        i := i + 1;
        continue;
      }
      if i + 1 >= |value| || value[i + 1] != 's' {
        DirtyIsMalformed(value, i);
        return BadDirective;
      }
      parts := Cut(value, i, parts);
      count := count + 1;
      i := i + 2;
    }
    assert value[..i] == value;
    MiscountedIffOtherLength(value, parts, placeholders);
    return if count != placeholders then WrongCount else Accepted;
  }

  lemma Extend(value: string, i: nat, parts: seq<string>) returns (longer: seq<string>)
    requires i < |value| && value[i] != '%' && Decomposes(value[..i], parts)
    ensures |longer| == |parts| && Decomposes(value[..i + 1], longer)
  {
    var n := |parts| - 1;
    longer := parts[n := parts[n] + [value[i]]];
    assert longer[..n] == parts[..n];
    assert value[..i + 1] == value[..i] + [value[i]];
  }

  lemma Cut(value: string, i: nat, parts: seq<string>) returns (more: seq<string>)
    requires i + 1 < |value| && value[i] == '%' && value[i + 1] == 's' && Decomposes(value[..i], parts)
    ensures |more| == |parts| + 1 && Decomposes(value[..i + 2], more)
  {
    more := parts + [""];
    assert more[..|parts|] == parts;
    assert value[..i + 2] == value[..i] + "%s" + "";
  }

  lemma DirtyIsMalformed(value: string, i: nat)
    requires i < |value| && value[i] == '%' && (i + 1 >= |value| || value[i + 1] != 's')
    ensures !WellFormed(value)
  {
    if parts :| Decomposes(value, parts) {
      JoinsAreClean(parts);
    }
  }

  lemma MiscountedIffOtherLength(value: string, parts: seq<string>, n: int)
    requires Decomposes(value, parts)
    ensures WellFormed(value)
    ensures HasPlaceholders(value, n) <==> |parts| == n + 1
  {
    if other :| Decomposes(value, other) && |other| == n + 1 {
      DecompositionIsUnique(value, parts, other);
    }
  }

  ghost predicate HasSpace(s: string) {
    exists i | 0 <= i < |s| :: IsSpace(s[i])
  }

  lemma TrimKeepsStripped(s: string)
    ensures Trim(s) == s <==> Stripped(s)
  {
    var left, right := TrimIsTheMiddle(s);
    assert left != "" ==> IsSpace(left[0]) && s[0] == left[0];
    assert right != "" ==> IsSpace(right[|right| - 1]) && s[|s| - 1] == right[|right| - 1];
  }

  method ValidateNoWhitespace(value: string) returns (r: Verdict)
    ensures r == if HasSpace(value) then Spaced else Accepted
  {
    for i := 0 to |value|
      invariant forall j | 0 <= j < i :: !IsSpace(value[j])
    {
      if IsSpace(value[i]) {
        return Spaced;
      }
    }
    return Accepted;
  }

  /** A subject pattern: one non-empty run of non-space characters, no NATS wildcard, and exactly the
      wanted placeholders. */
  method ValidateSubjectPattern(pattern: string, placeholders: int) returns (r: Verdict)
    ensures r.Accepted? <==>
              pattern != "" && !HasSpace(pattern) && '*' !in pattern && '>' !in pattern && HasPlaceholders(pattern, placeholders)
    ensures r.Required? <==> pattern == ""
    ensures r.Padded? <==> !Stripped(pattern)
    ensures r.Spaced? <==> HasSpace(pattern) && Stripped(pattern)
    ensures r.Wildcard? <==> pattern != "" && !HasSpace(pattern) && ('*' in pattern || '>' in pattern)
  {
    if pattern == "" {
      return Required;
    }
    TrimKeepsStripped(pattern);
    if Trim(pattern) != pattern {
      return Padded;
    }
    r := ValidateNoWhitespace(pattern);
    if r != Accepted {
      return;
    }
    if '*' in pattern || '>' in pattern {
      return Wildcard;
    }
    r := ValidateFormatPlaceholders(pattern, placeholders);
  }

  /** A key pattern: as a subject pattern with one placeholder, but wildcards pass. */
  method ValidateKeyPattern(pattern: string) returns (r: Verdict)
    ensures r.Accepted? <==> pattern != "" && !HasSpace(pattern) && HasPlaceholders(pattern, 1)
    ensures r.Required? <==> pattern == ""
    ensures r.Padded? <==> !Stripped(pattern)
    ensures r.Spaced? <==> HasSpace(pattern) && Stripped(pattern)
  {
    if pattern == "" {
      return Required;
    }
    TrimKeepsStripped(pattern);
    if Trim(pattern) != pattern {
      return Padded;
    }
    r := ValidateNoWhitespace(pattern);
    if r != Accepted {
      return;
    }
    r := ValidateFormatPlaceholders(pattern, 1);
  }

  /** What fmt.Sprintf makes of a checked pattern: each %s takes the next argument. */
  function Substitute(pattern: string, args: seq<string>): string {
    if pattern == "" then ""
    else if pattern[0] == '%' && |pattern| > 1 && args != [] then args[0] + Substitute(pattern[2..], args[1..])
    else [pattern[0]] + Substitute(pattern[1..], args)
  }

  lemma {:induction false} LiteralsAreCopied(l: string, rest: string, args: seq<string>)
    requires Literal(l)
    ensures Substitute(l + rest, args) == l + Substitute(rest, args)
  {
    if l == "" {
      assert l + rest == rest;
    } else {
      var tail := l[1..] + rest;
      assert l + rest == [l[0]] + tail;
      assert (l + rest)[1..] == tail;
      LiteralsAreCopied(l[1..], rest, args);
      assert l == [l[0]] + l[1..];
    }
  }

  lemma PlaceholderTakesArgument(rest: string, arg: string, args: seq<string>)
    ensures Substitute("%s" + rest, [arg] + args) == arg + Substitute(rest, args)
  {
    assert ("%s" + rest)[2..] == rest;
    assert ([arg] + args)[1..] == args;
  }

  /** The arguments laid between the literals. */
  ghost function Fill(parts: seq<string>, args: seq<string>): string
    requires |parts| == |args| + 1
  {
    var n := |args|;
    if n == 0 then parts[0] else Fill(parts[..n], args[..n - 1]) + args[n - 1] + parts[n]
  }

  /** Substitution fills the gaps, in order and untouched. */
  lemma {:induction false} SubstituteFills(parts: seq<string>, rest: string, args: seq<string>, more: seq<string>)
    requires |parts| == |args| + 1 && Decomposes(Join(parts), parts)
    ensures Substitute(Join(parts) + rest, args + more) == Fill(parts, args) + Substitute(rest, more)
  {
    var n := |args|;
    if n == 0 {
      LiteralsAreCopied(parts[0], rest, more);
      assert args + more == more;
    } else {
      var tail := parts[n] + rest;
      SubstituteFills(parts[..n], "%s" + tail, args[..n - 1], [args[n - 1]] + more);
      assert Join(parts) + rest == Join(parts[..n]) + ("%s" + tail);
      assert args + more == args[..n - 1] + ([args[n - 1]] + more);
      PlaceholderTakesArgument(tail, args[n - 1], more);
      LiteralsAreCopied(parts[n], rest, more);
    }
  }

  lemma SubstituteIsFill(parts: seq<string>, args: seq<string>)
    requires |parts| == |args| + 1 && Decomposes(Join(parts), parts)
    ensures Substitute(Join(parts), args) == Fill(parts, args)
  {
    SubstituteFills(parts, "", args, []);
    assert Join(parts) + "" == Join(parts) && args + [] == args;
  }

  function PercentAt(pattern: string): nat {
    if pattern == "" || pattern[0] == '%' then 0 else 1 + PercentAt(pattern[1..])
  }

  /** The target named by a subject or key, if it was made from the pattern. */
  function Extract(pattern: string, subject: string): Option<string> {
    var p := PercentAt(pattern);
    if p + 2 > |pattern| then None
    else
      var suffix := pattern[p + 2..];
      if p + |suffix| <= |subject| && subject[..p] == pattern[..p] && subject[|subject| - |suffix|..] == suffix
      then Some(subject[p..|subject| - |suffix|])
      else None
  }

  lemma {:induction false} PercentAfterLiteral(l: string, rest: string)
    requires Literal(l)
    ensures PercentAt(l + "%s" + rest) == |l|
  {
    if l != "" {
      PercentAfterLiteral(l[1..], rest);
      assert (l + "%s" + rest)[1..] == l[1..] + "%s" + rest;
    }
  }

  /** With one placeholder, Extract inverts substitution on both sides; so distinct targets have
      distinct subjects and distinct keys. */
  lemma OnePlaceholderRoundTrip(pattern: string, target: string, subject: string)
    requires HasPlaceholders(pattern, 1)
    ensures Extract(pattern, Substitute(pattern, [target])) == Some(target)
    ensures Extract(pattern, subject) == Some(target) <==> Substitute(pattern, [target]) == subject
  {
    var parts :| Decomposes(pattern, parts) && |parts| == 2;
    OnePlaceholder(parts, target);
    ExtractBetween(parts[0], parts[1], Substitute(pattern, [target]));
    ExtractBetween(parts[0], parts[1], subject);
  }

  lemma OnePlaceholder(parts: seq<string>, target: string)
    requires |parts| == 2 && Decomposes(Join(parts), parts)
    ensures Join(parts) == parts[0] + "%s" + parts[1]
    ensures Substitute(Join(parts), [target]) == parts[0] + target + parts[1]
  {
    assert parts[..1] == [parts[0]];
    SubstituteIsFill(parts, [target]);
  }

  lemma ExtractBetween(left: string, right: string, subject: string)
    requires Literal(left)
    ensures var r := Extract(left + "%s" + right, subject);
            && (r.Some? ==> subject == left + r.value + right)
            && forall t | subject == left + t + right :: r == Some(t)
  {
    var pattern := left + "%s" + right;
    PercentAfterLiteral(left, right);
    assert pattern[..|left|] == left && pattern[|left| + 2..] == right;
    forall t | subject == left + t + right
      ensures Extract(pattern, subject) == Some(t)
    {
      assert subject[..|left|] == left && subject[|subject| - |right|..] == right;
      assert subject[|left|..|subject| - |right|] == t;
    }
  }

  lemma DistinctTargetsHaveDistinctKeys(pattern: string, a: string, b: string)
    requires HasPlaceholders(pattern, 1)
    ensures Substitute(pattern, [a]) == Substitute(pattern, [b]) <==> a == b
  {
    OnePlaceholderRoundTrip(pattern, a, "");
    OnePlaceholderRoundTrip(pattern, b, "");
  }

  lemma TwoPlaceholders(parts: seq<string>, args: seq<string>)
    requires |parts| == 3 && |args| == 2 && Decomposes(Join(parts), parts)
    ensures Substitute(Join(parts), args) == parts[0] + args[0] + parts[1] + args[1] + parts[2]
  {
    SubstituteIsFill(parts, args);
    assert Fill(parts[..2], args[..1]) == Fill(parts[..2][..1], args[..1][..0]) + args[0] + parts[1];
  }

  /** A target and an action; the target is a non-empty word over the alphabet. */
  ghost predicate Arguments(args: seq<string>, alphabet: set<char>) {
    |args| == 2 && args[0] != "" && forall c | c in args[0] :: c in alphabet
  }

  /** Whether subjects with two placeholders tell targets over this alphabet, and any actions, apart. */
  ghost predicate Tells(pattern: string, alphabet: set<char>) {
    forall a, b | Arguments(a, alphabet) && Arguments(b, alphabet) && Substitute(pattern, a) == Substitute(pattern, b) :: a == b
  }

  /** If an action could be any string, two placeholders would tell exactly the targets that some
      character of the literal in between never occurs in, as the dot of "%s.%s". The agent has two
      actions only; Subjects.AgentActionsAreTold is about those. */
  lemma TellsIffSeparated(parts: seq<string>, alphabet: set<char>)
    requires |parts| == 3 && Decomposes(Join(parts), parts) && alphabet != {}
    ensures Tells(Join(parts), alphabet) <==> exists c :: c in parts[1] && c !in alphabet
  {
    if dot :| dot in parts[1] && dot !in alphabet {
      forall a, b | Arguments(a, alphabet) && Arguments(b, alphabet) && Substitute(Join(parts), a) == Substitute(Join(parts), b)
        ensures a == b
      {
        TwoPlaceholders(parts, a);
        TwoPlaceholders(parts, b);
        SeparatedInFrame(parts[0], parts[1], parts[2], a, b, dot);
      }
    } else {
      var a, b := ClashAround(parts[0], parts[1], parts[2], alphabet);
      TwoPlaceholders(parts, a);
      TwoPlaceholders(parts, b);
    }
  }

  lemma ClashAround(left: string, m: string, right: string, alphabet: set<char>) returns (a: seq<string>, b: seq<string>)
    requires alphabet != {} && forall c | c in m :: c in alphabet
    ensures Arguments(a, alphabet) && Arguments(b, alphabet) && a != b
    ensures left + a[0] + m + a[1] + right == left + b[0] + m + b[1] + right
  {
    var c :| c in alphabet;
    var w := if m == "" then [c] else m;
    a, b := [w, w], [w + w, ""];
    assert |a[0]| != |b[0]|;
    assert w + m + w == w + w + m;
    assert left + w + m + w == left + (w + m + w);
    assert left + (w + w) + m + "" == left + (w + w + m);
  }

  lemma SeparatedInFrame(left: string, m: string, right: string, a: seq<string>, b: seq<string>, dot: char)
    requires |a| == |b| == 2 && dot in m && dot !in a[0] && dot !in b[0]
    requires left + a[0] + m + a[1] + right == left + b[0] + m + b[1] + right
    ensures a == b
  {
    var x, y := a[0] + (m + a[1]), b[0] + (m + b[1]);
    assert left + x + right == left + y + right by {
      assert left + x + right == left + a[0] + m + a[1] + right;
      assert left + y + right == left + b[0] + m + b[1] + right;
    }
    SameMiddle(left, x, y, right);
    SplitAtSeparator(a[0], b[0], m, a[1], b[1], dot);
  }

  lemma SameMiddle(left: string, x: string, y: string, right: string)
    requires left + x + right == left + y + right
    ensures x == y
  {
    var s := left + x + right;
    assert s[|left|..|s| - |right|] == x;
    assert s[|left|..|s| - |right|] == y;
  }

  lemma SplitAtSeparator(t: string, u: string, m: string, x: string, y: string, dot: char)
    requires dot in m && dot !in t && dot !in u && t + (m + x) == u + (m + y)
    ensures t == u && x == y
  {
    var k := FirstAt(m, dot);
    var s := t + (m + x);
    FirstDot(t, m, x, dot, k);
    FirstDot(u, m, y, dot, k);
    assert |t| == |u|;
    assert s[..|t|] == t && s[..|u|] == u;
    assert s[|t| + |m|..] == x && s[|t| + |m|..] == y;
  }

  lemma FirstDot(t: string, m: string, x: string, dot: char, k: nat)
    requires k < |m| && m[k] == dot && dot !in m[..k] && dot !in t
    ensures var s := t + (m + x); s[|t| + k] == dot && forall i | 0 <= i < |t| + k :: s[i] != dot
  {
    var s := t + (m + x);
    assert s[..|t| + k] == t + m[..k];
    forall i | 0 <= i < |t| + k ensures s[i] != dot {
      assert s[i] == s[..|t| + k][i];
    }
  }

  lemma FirstAt(m: string, dot: char) returns (k: nat)
    requires dot in m
    ensures k < |m| && m[k] == dot && dot !in m[..k]
  {
    k := 0;
    while m[k] != dot
      invariant k < |m| && dot in m[k..] && dot !in m[..k]
      decreases |m| - k
    {
      k := k + 1;
    }
  }
}
