// Action subjects: when a pattern with two placeholders tells target and action apart.

module Subjects {
  import opened Placeholders

  /** Whether no two commands for these actions share a subject. Targets are not empty. */
  ghost predicate TellsActions(pattern: string, actions: set<string>) {
    forall t, u, a, b |
      t != "" && u != "" && a in actions && b in actions && Substitute(pattern, [t, a]) == Substitute(pattern, [u, b]) ::
      t == u && a == b
  }

  predicate EndsWith(s: string, tail: string) {
    |tail| <= |s| && s[|s| - |tail|..] == tail
  }

  /** Action b is action a with something in front that the literal before the action can hide. */
  ghost predicate Confusable(literal: string, a: string, b: string) {
    |a| < |b| && EndsWith(b, a) && EndsWith(literal + b[..|b| - |a|], literal)
  }

  lemma Regroup(left: string, t: string, m: string, a: string, right: string)
    ensures left + t + m + a + right == left + (t + m + a) + right
  {
  }

  lemma Filled(parts: seq<string>, target: string, action: string)
    requires |parts| == 3 && Decomposes(Join(parts), parts)
    ensures Substitute(Join(parts), [target, action]) == parts[0] + (target + parts[1] + action) + parts[2]
  {
    TwoPlaceholders(parts, [target, action]);
    Regroup(parts[0], target, parts[1], action, parts[2]);
  }

  /** A longer action that makes the same subject ends in the shorter one, and the literal has given
      way to what it has more. */
  lemma ClashMeansConfusable(m: string, t: string, a: string, u: string, b: string)
    requires t + m + a == u + m + b && |a| < |b|
    ensures Confusable(m, a, b)
  {
    var s, x := t + m + a, b[..|b| - |a|];
    assert s[|s| - |a|..] == a && (u + m + b)[|s| - |a|..] == b[|b| - |a|..];
    assert s[..|s| - |a|] == t + m && (u + m + b)[..|s| - |a|] == u + (m + x);
    var front := t + m;
    assert front[|front| - |m|..] == m;
    assert (u + (m + x))[|front| - |m|..] == (m + x)[|x|..];
  }

  lemma SameActionMeansSameTarget(m: string, t: string, a: string, u: string, b: string)
    requires t + m + a == u + m + b && |a| == |b|
    ensures t == u && a == b
  {
    var s := t + m + a;
    assert s[..|t|] == t && (u + m + b)[..|u|] == u;
    assert s[|s| - |a|..] == a && (u + m + b)[|s| - |b|..] == b;
  }

  /** A confusable pair does clash, for some pair of targets. */
  lemma ConfusableClash(m: string, a: string, b: string) returns (t: string, u: string)
    requires Confusable(m, a, b)
    ensures t != "" && u != "" && t != u && t + m + a == u + m + b
  {
    var x := b[..|b| - |a|];
    var y := (m + x)[..|x|];
    u, t := "t", "t" + y;
    assert m + x == y + m;
    assert b == x + a;
    assert |t| != |u|;
    assert t + m + a == u + (y + m) + a == u + (m + x) + a == u + m + (x + a);
  }

  /** Two placeholders tell target and action apart if and only if no action is another one with
      something in front that the literal before the action can hide. */
  lemma TellsActionsIff(parts: seq<string>, actions: set<string>)
    requires |parts| == 3 && Decomposes(Join(parts), parts)
    ensures TellsActions(Join(parts), actions) <==>
            forall a, b | a in actions && b in actions :: !Confusable(parts[1], a, b)
  {
    var m := parts[1];
    if a, b :| a in actions && b in actions && Confusable(m, a, b) {
      var t, u := ConfusableClash(m, a, b);
      Filled(parts, t, a);
      Filled(parts, u, b);
    } else {
      forall t, u, a, b |
        t != "" && u != "" && a in actions && b in actions && Substitute(Join(parts), [t, a]) == Substitute(Join(parts), [u, b])
        ensures t == u && a == b
      {
        Filled(parts, t, a);
        Filled(parts, u, b);
        SameMiddle(parts[0], t + m + a, u + m + b, parts[2]);
        if |a| < |b| {
          ClashMeansConfusable(m, t, a, u, b);
        } else if |b| < |a| {
          ClashMeansConfusable(m, u, b, t, a);
        } else {
          SameActionMeansSameTarget(m, t, a, u, b);
        }
      }
    }
  }

  /** The actions that can be enabled. */
  const AGENT_ACTIONS: set<string> := {"trace", "rtty"}

  /** Every accepted action pattern tells apart every target and action, whatever its literals. */
  lemma AgentActionsAreTold(pattern: string)
    requires HasPlaceholders(pattern, 2)
    ensures TellsActions(pattern, AGENT_ACTIONS)
  {
    var parts :| Decomposes(pattern, parts) && |parts| == 3;
    TellsActionsIff(parts, AGENT_ACTIONS);
    assert "trace"[1..] == "race";
  }
}
