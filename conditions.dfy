/**
 * Conditional visibility (`evaluateDependsOn`): a field is shown when every
 * one of its `{field, condition}` rules holds. A condition is a regular
 * expression, written either as a `/body/flags` literal or as a bare
 * pattern; it is tested against the text of the value found at the rule's
 * dotted field path.
 */
module Conditions {
  import opened Wrappers
  import opened Text
  import opened Values
  import opened Foreign
  import opened Nested

  /** One entry of `data-depends-on`. */
  datatype Rule = Rule(field: string, condition: string)

  predicate NoLineTerminator(s: string)
  {
    forall i :: 0 <= i < |s| ==> !IsLineTerminator(s[i])
  }

  /** The position of the last '/' in `s`, if there is one. */
  function LastSlash(s: string): (r: Option<nat>)
    ensures r.Some? ==> r.value < |s| && s[r.value] == '/' &&
                        forall k :: r.value < k < |s| ==> s[k] != '/'
    ensures r.None? ==> forall k :: 0 <= k < |s| ==> s[k] != '/'
  {
    if s == [] then None
    else if s[|s| - 1] == '/' then Some(|s| - 1)
    else LastSlash(s[..|s| - 1])
  }

  /**
   * `condition.match(/^\/(.*)\/(\w*)$/)`: the body and the flags of a
   * regular-expression literal. The greedy `(.*)` runs up to the last '/',
   * and `.` does not cross a line terminator.
   */
  function SplitLiteral(c: string): Option<(string, string)>
  {
    if c != [] && c[0] == '/' then
      match LastSlash(c)
      case Some(j) =>
        if j >= 1 && IsWord(c[j + 1..]) && NoLineTerminator(c[1..j]) then Some((c[1..j], c[j + 1..]))
        else None
      case None => None
    else None
  }

  /** The literal split recognises exactly the texts `"/" + body + "/" + flags` with word-character flags. */
  lemma LiteralSplitIff(c: string, body: string, flags: string)
    ensures SplitLiteral(c) == Some((body, flags)) <==>
              c == "/" + body + "/" + flags && IsWord(flags) && NoLineTerminator(body)
  {
    if c == "/" + body + "/" + flags && IsWord(flags) && NoLineTerminator(body) {
      LiteralRecognised(body, flags);
    }
    if SplitLiteral(c) == Some((body, flags)) {
      LiteralRebuilt(c);
    }
  }

  lemma LiteralRecognised(body: string, flags: string)
    requires IsWord(flags) && NoLineTerminator(body)
    ensures SplitLiteral("/" + body + "/" + flags) == Some((body, flags))
  {
    var c := "/" + body + "/" + flags;
    var j := |body| + 1;
    assert c[j] == '/';
    assert forall k :: j < k < |c| ==> c[k] == flags[k - j - 1];
    assert !IsWordChar('/');
    assert LastSlash(c) == Some(j);
    assert c[1..j] == body && c[j + 1..] == flags;
  }

  lemma LiteralRebuilt(c: string)
    requires SplitLiteral(c).Some?
    ensures var (body, flags) := SplitLiteral(c).value;
            c == "/" + body + "/" + flags && IsWord(flags) && NoLineTerminator(body)
  {
    var j := LastSlash(c).value;
    assert c == [c[0]] + c[1..j] + [c[j]] + c[j + 1..];
  }

  /** A text that does not start with '/' is never read as a literal. */
  lemma BarePatternIsWhole(c: string)
    requires c == [] || c[0] != '/'
    ensures SplitLiteral(c) == None
  {
  }

  /**
   * `toRegex(condition)`: the literal's body and flags, or the whole text
   * with no flags; `None` when `new RegExp` would throw.
   */
  function ToRegex(c: string, host: Host): (r: Option<Matcher>)
    ensures r.Some? ==> host.compiles(r.value.source, r.value.flags)
    ensures SplitLiteral(c).Some? ==>
              (r.Some? <==> host.compiles(SplitLiteral(c).value.0, SplitLiteral(c).value.1)) &&
              (r.Some? ==> r.value == Matcher(SplitLiteral(c).value.0, SplitLiteral(c).value.1))
    ensures SplitLiteral(c).None? ==>
              (r.Some? <==> host.compiles(c, "")) && (r.Some? ==> r.value == Matcher(c, ""))
  {
    match SplitLiteral(c)
    case Some((body, flags)) => if host.compiles(body, flags) then Some(Matcher(body, flags)) else None
    case None => if host.compiles(c, "") then Some(Matcher(c, "")) else None
  }

  /** One rule: the value at `field` (from the root of the values), coerced to text, matches the condition. */
  predicate RuleHolds(rule: Rule, values: Value, host: Host)
  {
    match ToRegex(rule.condition, host)
    case None => false
    case Some(m) => host.test(m, CoercedText(GetNestedValue(values, rule.field), host))
  }

  /** A condition that does not compile makes its rule false instead of throwing. */
  lemma UncompilableRuleFails(rule: Rule, values: Value, host: Host)
    requires ToRegex(rule.condition, host).None?
    ensures !RuleHolds(rule, values, host)
  {
  }

  /** An absent or null field is tested as the empty text. */
  lemma AbsentFieldTestedAsEmpty(rule: Rule, values: Value, host: Host)
    requires GetNestedValue(values, rule.field).Undef? || GetNestedValue(values, rule.field).Null?
    ensures RuleHolds(rule, values, host) <==>
              ToRegex(rule.condition, host).Some? && host.test(ToRegex(rule.condition, host).value, "")
  {
  }

  /**
   * A rule on `key.length` of an array is tested against the decimal text
   * of its length: "0" for an empty array, never the empty text.
   */
  lemma ArrayLengthRule(es: Entries, key: string, xs: seq<Value>, condition: string, host: Host)
    requires '.' !in key && Lookup(es, key) == Arr(xs)
    ensures RuleHolds(Rule(key + ".length", condition), Obj(es), host) <==>
              ToRegex(condition, host).Some? && host.test(ToRegex(condition, host).value, NatToString(|xs|))
  {
    ArrayLengthIsRead(es, key, xs);
  }

  /** A rule reads the values only at its own field path. */
  lemma RuleReadsOnlyItsField(rule: Rule, a: Value, b: Value, host: Host)
    requires GetNestedValue(a, rule.field) == GetNestedValue(b, rule.field)
    ensures RuleHolds(rule, a, host) == RuleHolds(rule, b, host)
  {
  }

  /** `evaluateDependsOn(rules, values)`: an absent or empty list is true; otherwise every rule must hold. */
  function Active(rules: seq<Rule>, values: Value, host: Host): (r: bool)
    ensures r <==> forall i :: 0 <= i < |rules| ==> RuleHolds(rules[i], values, host)
  {
    if rules == [] then true
    else RuleHolds(rules[0], values, host) && Active(rules[1..], values, host)
  }

  /** Visibility of a concatenation of rule lists is the conjunction of the two. */
  lemma {:induction false} ActiveAppend(a: seq<Rule>, b: seq<Rule>, values: Value, host: Host)
    ensures Active(a + b, values, host) <==> Active(a, values, host) && Active(b, values, host)
  {
    var ab := a + b;
    assert forall i :: 0 <= i < |a| ==> ab[i] == a[i];
    assert forall i :: 0 <= i < |b| ==> ab[|a| + i] == b[i];
  }
}
