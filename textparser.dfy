/**
 * The text template mini-language. Four stages run in a fixed order:
 * conditional text `{$cond:yes|no}`, random choice `{a|b|c}`, variable
 * references `{var.key}` / `{var.key:default}`, and escape sequences.
 *
 * Each stage is a global regular-expression replacement in the original; here
 * each is a hand-written left-to-right scanner: at every position the scanner
 * either recognises a match (and continues after it) or copies one character.
 * The patterns involved never match the empty string, and their quantifiers
 * are all deterministic: each capture is the longest run of characters
 * outside a stop set, checked for the delimiter that must follow.
 */
module TextParser {
  import opened Common
  import opened Content
  import opened PlayerStore

  /** The `{ player }` context of a parse: None when no player is passed. */
  type Context = Option<PlayerState>

  /** The length of the longest prefix of s none of whose characters is in stops. */
  function Span(s: string, stops: set<char>): (n: nat)
    ensures n <= |s| && (n == |s| || s[n] in stops)
    ensures forall k :: 0 <= k < n ==> s[k] !in stops
  {
    if s == [] || s[0] in stops then 0 else 1 + Span(s[1..], stops)
  }

  predicate NoLineTerminator(s: string) {
    forall k :: 0 <= k < |s| ==> !IsLineTerminator(s[k])
  }

  /** Trims every piece: `.map(s => s.trim())`. */
  function TrimAll(parts: seq<string>): (r: seq<string>)
    ensures |r| == |parts|
    ensures forall k :: 0 <= k < |r| ==> r[k] == [] || (!IsSpace(r[k][0]) && !IsSpace(r[k][|r[k]| - 1]))
    ensures forall k :: 0 <= k < |r| ==> |r[k]| <= |parts[k]|
  {
    seq(|parts|, k requires 0 <= k < |parts| => Trim(parts[k]))
  }

  /** The trimmed `|`-separated options of a brace group's content. */
  function Options(content: string): (r: seq<string>)
    ensures |r| >= 1
    ensures |r| == 1 <==> '|' !in content
  {
    SplitSingleIffNoSeparator(content, '|');
    TrimAll(Split(content, '|'))
  }

  // ---------------------------------------------------------------------------
  // Stage 1: conditional text `\{\$([^:}]+):([^}|]+)\|([^}]+)\}`

  datatype ConditionalGroup = ConditionalGroup(condition: string, whenTrue: string, whenFalse: string, length: nat)

  /** The conditional group at the start of s, if one starts there. */
  function ConditionalAt(s: string): (m: Option<ConditionalGroup>)
    ensures m.Some? ==> 0 < m.value.length <= |s|
  {
    if StartsWith(s, "{$") then ConditionAfterOpening(s[2..]) else None
  }

  /** After `{$`: the condition up to the first `:`. */
  function ConditionAfterOpening(a: string): (m: Option<ConditionalGroup>)
    ensures m.Some? ==> 0 < m.value.length <= |a| + 2
  {
    var c := Span(a, {':', '}'});
    if c == 0 || c == |a| || a[c] != ':' then None
    else BranchesAfterCondition(a[..c], a[c + 1..])
  }

  /** After `{$cond:`: the true branch up to the first `|`. */
  function BranchesAfterCondition(cond: string, b: string): (m: Option<ConditionalGroup>)
    ensures m.Some? ==> 0 < m.value.length <= |cond| + 1 + |b| + 2
  {
    var t := Span(b, {'}', '|'});
    if t == 0 || t == |b| || b[t] != '|' then None
    else FalseBranch(cond, b[..t], b[t + 1..])
  }

  /** After `{$cond:yes|`: the false branch up to the first `}`. */
  function FalseBranch(cond: string, yes: string, d: string): (m: Option<ConditionalGroup>)
    ensures m.Some? ==> 0 < m.value.length <= |cond| + 1 + |yes| + 1 + |d| + 2
  {
    var f := Span(d, {'}'});
    if f == 0 || f == |d| then None
    else Some(ConditionalGroup(cond, yes, d[..f], 2 + |cond| + 1 + |yes| + 1 + f + 1))
  }

  /** `parseConditionalText`: each group becomes its trimmed true or false branch. */
  function ConditionalText(s: string, ctx: Context): (r: string)
    decreases |s|
  {
    if s == [] then []
    else
      match ConditionalAt(s)
      case Some(g) =>
        assert s[0] == '{';
        (if CheckSimpleCondition(Trim(g.condition), ctx) then Trim(g.whenTrue) else Trim(g.whenFalse))
        + ConditionalText(s[g.length..], ctx)
      case None => [s[0]] + ConditionalText(s[1..], ctx)
  }

  // ---------------------------------------------------------------------------
  // The comparison of `checkSimpleCondition`: `^(.+?)\s*(>=|<=|==|!=|>|<)\s*(.+)$`

  /** The operator alternatives, in the order they are tried. */
  const OPERATORS: seq<string> := [">=", "<=", "==", "!=", ">", "<"]

  datatype Comparison = Comparison(left: string, op: string, right: string)

  /**
   * `\s*(.+)$` on u: the greedy white space gives back characters until the
   * rest is non-empty; the capture must reach the end without a line terminator.
   */
  function RightOperand(u: string): (r: Option<string>)
    ensures r.Some? ==> r.value != [] && NoLineTerminator(r.value)
  {
    if u == [] then None
    else
      var n := if LeadingSpaces(u) < |u| then LeadingSpaces(u) else |u| - 1;
      if NoLineTerminator(u[n..]) then Some(u[n..]) else None
  }

  /** The first operator alternative that starts v and is followed by a right operand. */
  function OperatorFrom(v: string, ops: seq<string>): (r: Option<(string, string)>)
    ensures r.Some? ==> r.value.0 in ops && StartsWith(v, r.value.0)
  {
    if ops == [] then None
    else if StartsWith(v, ops[0]) && RightOperand(v[|ops[0]|..]).Some? then
      Some((ops[0], RightOperand(v[|ops[0]|..]).value))
    else OperatorFrom(v, ops[1..])
  }

  /** The lazy left operand: the shortest left part, of L or more characters, after which the rest matches. */
  function ComparisonFrom(s: string, len: nat): (r: Option<Comparison>)
    requires 1 <= len
    ensures r.Some? ==> r.value.op in OPERATORS && 1 <= |r.value.left| <= |s| && r.value.left == s[..|r.value.left|]
    decreases |s| + 1 - len
  {
    if len > |s| || IsLineTerminator(s[len - 1]) then None
    else
      var t := s[len..];
      var v := t[LeadingSpaces(t)..];
      match OperatorFrom(v, OPERATORS)
      case Some(found) => Some(Comparison(s[..len], found.0, found.1))
      case None => ComparisonFrom(s, len + 1)
  }

  function ComparisonOf(s: string): Option<Comparison> {
    ComparisonFrom(s, 1)
  }

  /** `parseStatValue`: a variable first, then a field of the store (`isAlive` or a stat), then 0. */
  function StatValue(name: string, st: PlayerState): (v: real)
    ensures st.variables.Some? && name in st.variables.value ==> v == OrZero(ToNumber(st.variables.value[name]))
    ensures (st.variables.None? || name !in st.variables.value) && name == "isAlive" ==> (v == 1.0 <==> st.isAlive) && (v == 0.0 || v == 1.0)
    ensures (st.variables.None? || name !in st.variables.value) && name != "isAlive" && name in st.stats ==> v == st.stats[name]
    ensures (st.variables.None? || name !in st.variables.value) && name != "isAlive" && name !in st.stats ==> v == 0.0
  {
    if st.variables.Some? && name in st.variables.value then OrZero(ToNumber(st.variables.value[name]))
    else if name == "isAlive" then (if st.isAlive then 1.0 else 0.0)
    else if name in st.stats then st.stats[name]
    else 0.0
  }

  /** `parseValue`: `tag:x` and `status:x` test the player, anything else is `Number(x) || 0`. */
  function OperandValue(text: string, st: PlayerState): (v: real)
    ensures StartsWith(Trim(text), "tag:") ==> (v == 1.0 <==> st.tags.Some? && Trim(text)[4..] in st.tags.value)
    ensures StartsWith(Trim(text), "tag:") ==> (v == 0.0 || v == 1.0)
    ensures !StartsWith(Trim(text), "tag:") && StartsWith(Trim(text), "status:") ==>
      (v == 1.0 <==> HasEffect(st.statusEffects, Trim(text)[7..])) && (v == 0.0 || v == 1.0)
  {
    var trimmed := Trim(text);
    if StartsWith(trimmed, "tag:") then
      (if st.tags.Some? && trimmed[4..] in st.tags.value then 1.0 else 0.0)
    else if StartsWith(trimmed, "status:") then
      (if HasEffect(st.statusEffects, trimmed[7..]) then 1.0 else 0.0)
    else OrZero(ParseNumber(trimmed))
  }

  function Compare(left: real, op: string, right: real): bool {
    if op == ">=" then left >= right
    else if op == "<=" then left <= right
    else if op == "==" then left == right
    else if op == "!=" then left != right
    else if op == ">" then left > right
    else if op == "<" then left < right
    else false
  }

  /** `checkSimpleCondition`: false without a player or without a recognised comparison. */
  function CheckSimpleCondition(condition: string, ctx: Context): (b: bool)
    ensures ctx.None? ==> !b
    ensures ComparisonOf(condition).None? ==> !b
  {
    match ctx
    case None => false
    case Some(st) =>
      match ComparisonOf(condition)
      case None => false
      case Some(cmp) => Compare(StatValue(Trim(cmp.left), st), cmp.op, OperandValue(Trim(cmp.right), st))
  }

  // ---------------------------------------------------------------------------
  // Stage 2: random choice `\{(?!\$)([^}]+)\}`

  /** The index of the first `}` at or after i, if any. */
  function CloseFrom(s: string, i: nat): (j: Option<nat>)
    requires i <= |s|
    ensures j.Some? ==> i <= j.value < |s| && s[j.value] == '}'
    decreases |s| - i
  {
    if i == |s| then None else if s[i] == '}' then Some(i) else CloseFrom(s, i + 1)
  }

  /** The scan stops at the first `}`: none lies between i and the result, or after i when there is none. */
  lemma {:induction false} CloseFromIsFirst(s: string, i: nat)
    requires i <= |s|
    ensures var j := CloseFrom(s, i);
      forall k :: i <= k < (if j.Some? then j.value else |s|) ==> s[k] != '}'
    decreases |s| - i
  {
    if i < |s| && s[i] != '}' {
      CloseFromIsFirst(s, i + 1);
    }
  }

  /** The length of the content of the brace group at the start of s (`\{([^}]+)\}`), if any. */
  function BraceAt(s: string): (n: Option<nat>)
    ensures n.Some? ==> 0 < n.value && n.value + 2 <= |s| && s[0] == '{' && s[n.value + 1] == '}'
  {
    if s == [] || s[0] != '{' then None
    else
      match CloseFrom(s, 1)
      case Some(j) => if j == 1 then None else Some(j - 1)
      case None => None
  }

  /**
   * A recognised group is exactly `\{([^}]+)\}`: its content is non-empty and
   * holds no `}`, and a text starting with `{` is a group whenever a `}`
   * follows the first content character.
   */
  lemma BraceAtContent(s: string)
    ensures BraceAt(s).Some? ==> '}' !in s[1..BraceAt(s).value + 1]
    ensures s != [] && s[0] == '{' && (exists k :: 1 < k < |s| && s[k] == '}') && s[1] != '}' ==> BraceAt(s).Some?
  {
    if |s| >= 1 {
      CloseFromIsFirst(s, 1);
    }
    if BraceAt(s).Some? {
      var n := BraceAt(s).value;
      var c := s[1..n + 1];
      assert forall k :: 0 <= k < n ==> c[k] == s[k + 1];
    }
  }

  /** A random group: a brace group whose content does not start with `$`. */
  function RandomGroupAt(s: string): (n: Option<nat>)
    ensures n.Some? ==> 0 < n.value && n.value + 2 <= |s|
  {
    if |s| >= 2 && s[1] == '$' then None else BraceAt(s)
  }

  /**
   * `parseRandomText`: a group with two or more options becomes the option a
   * draw picks (`Math.floor(Math.random() * n)`); a single-option group is
   * left as it is. Draw k of the stream serves the k-th group that consumes one.
   */
  function RandomText(s: string, draws: nat -> Unit, k: nat): (r: string)
    decreases |s|
  {
    if s == [] then []
    else
      match RandomGroupAt(s)
      case Some(n) =>
        var options := Options(s[1..n + 1]);
        if |options| <= 1 then s[..n + 2] + RandomText(s[n + 2..], draws, k)
        else options[RandomIndex(draws(k), |options|)] + RandomText(s[n + 2..], draws, k + 1)
      case None => [s[0]] + RandomText(s[1..], draws, k)
  }

  // ---------------------------------------------------------------------------
  // Stage 3: variable references `\{var\.([\w一-龥]+)(?::([^}]*))?\}`

  /** `[\w一-龥]`. */
  predicate IsKeyChar(c: char) {
    ('a' <= c <= 'z') || ('A' <= c <= 'Z') || ('0' <= c <= '9') || c == '_' || ('一' <= c <= '龥')
  }

  /** The length of the longest prefix of key characters. */
  function KeySpan(s: string): (n: nat)
    ensures n <= |s| && (n == |s| || !IsKeyChar(s[n]))
    ensures forall k :: 0 <= k < n ==> IsKeyChar(s[k])
  {
    if s == [] || !IsKeyChar(s[0]) then 0 else 1 + KeySpan(s[1..])
  }

  datatype Reference = Reference(key: string, default: Option<string>, length: nat)

  /** The variable reference at the start of s, if one starts there. */
  function ReferenceAt(s: string): (m: Option<Reference>)
    ensures m.Some? ==> 0 < m.value.length <= |s|
  {
    if !StartsWith(s, "{var.") then None
    else
      var a := s[5..];
      var n := KeySpan(a);
      if n == 0 || n == |a| then None
      else if a[n] == '}' then Some(Reference(a[..n], None, 5 + n + 1))
      else if a[n] != ':' then None
      else
        var b := a[n + 1..];
        var d := Span(b, {'}'});
        if d == |b| then None
        else Some(Reference(a[..n], Some(b[..d]), 5 + n + 1 + d + 1))
  }

  /** A present variable prints as `String(value)`; an absent one as the default, else "0". */
  function Substitute(vars: map<string, Value>, ref: Reference): string {
    if ref.key in vars then ToText(vars[ref.key]) else ref.default.GetOr("0")
  }

  function ReferenceScan(s: string, vars: map<string, Value>): (r: string)
    decreases |s|
  {
    if s == [] then []
    else
      match ReferenceAt(s)
      case Some(ref) =>
        assert s[0] == '{';
        Substitute(vars, ref) + ReferenceScan(s[ref.length..], vars)
      case None => [s[0]] + ReferenceScan(s[1..], vars)
  }

  /** `parseVariableText`: without a player or a variables map, the text is returned unchanged. */
  function VariableText(s: string, ctx: Context): (r: string)
    ensures ctx.None? || ctx.value.variables.None? ==> r == s
  {
    if ctx.None? || ctx.value.variables.None? then s
    else ReferenceScan(s, ctx.value.variables.value)
  }

  // ---------------------------------------------------------------------------
  // Stage 4: escape sequences

  /** One global replacement of the two-character sequence `a b` by c, left to right. */
  function ReplacePair(s: string, a: char, b: char, c: char): (r: string)
    decreases |s|
  {
    if |s| < 2 then s
    else if s[0] == a && s[1] == b then [c] + ReplacePair(s[2..], a, b, c)
    else [s[0]] + ReplacePair(s[1..], a, b, c)
  }

  /** Left to right: the first occurrence of the pair is replaced and the scan goes on after it. */
  lemma {:induction false} ReplacePairStep(x: string, y: string, a: char, b: char, c: char)
    requires a !in x
    ensures ReplacePair(x + [a, b] + y, a, b, c) == x + [c] + ReplacePair(y, a, b, c)
    decreases |x|
  {
    var s := x + [a, b] + y;
    if x == [] {
      assert s == [a, b] + y && s[2..] == y;
    } else {
      assert s[0] == x[0] && s[1..] == x[1..] + [a, b] + y;
      ReplacePairStep(x[1..], y, a, b, c);
      assert x + [c] + ReplacePair(y, a, b, c) == [x[0]] + (x[1..] + [c] + ReplacePair(y, a, b, c));
    }
  }

  /** Text without the first character of the pair is left as it is. */
  lemma {:induction false} ReplacePairAbsent(s: string, a: char, b: char, c: char)
    ensures a !in s ==> ReplacePair(s, a, b, c) == s
    decreases |s|
  {
    if a !in s && |s| >= 2 {
      assert s[0] != a;
      Unfolded(s, a);
      ReplacePairAbsent(s[1..], a, b, c);
    }
  }

  /** `parseEscapeChars`: `\n`, `\t`, `\{`, `\}`, `\\`, one replacement pass after another, in that order. */
  function EscapeChars(s: string): (r: string)
    ensures '\\' !in s ==> r == s
  {
    ReplacePairAbsent(s, '\\', 'n', '\n');
    var s1 := ReplacePair(s, '\\', 'n', '\n');
    ReplacePairAbsent(s1, '\\', 't', '\t');
    var s2 := ReplacePair(s1, '\\', 't', '\t');
    ReplacePairAbsent(s2, '\\', '{', '{');
    var s3 := ReplacePair(s2, '\\', '{', '{');
    ReplacePairAbsent(s3, '\\', '}', '}');
    var s4 := ReplacePair(s3, '\\', '}', '}');
    ReplacePairAbsent(s4, '\\', '\\', '\\');
    ReplacePair(s4, '\\', '\\', '\\')
  }

  // ---------------------------------------------------------------------------
  // parseText: the four stages in order

  /** `parseText`: conditional, then random, then variable, then escape stage. */
  function ParseText(text: string, ctx: Context, draws: nat -> Unit): (r: string)
    ensures text == [] ==> r == []
  {
    if text == [] then text
    else EscapeChars(VariableText(RandomText(ConditionalText(text, ctx), draws, 0), ctx))
  }

  /** Text without braces and backslashes passes through every stage unchanged. */
  lemma PlainTextFixed(text: string, ctx: Context, draws: nat -> Unit)
    requires '{' !in text && '\\' !in text
    ensures ParseText(text, ctx, draws) == text
  {
    if text != [] {
      ConditionalTextAbsent(text, ctx);
      RandomTextCopies(text, [], draws, 0);
      assert text + [] == text;
      if ctx.Some? && ctx.value.variables.Some? {
        ReferenceScanAbsent(text, ctx.value.variables.value);
      }
    }
  }

  /** Removing the first character keeps a character out. */
  lemma Unfolded(s: string, a: char)
    requires s != [] && a !in s
    ensures a !in s[1..] && s == [s[0]] + s[1..]
  {
    assert forall k :: 0 <= k < |s[1..]| ==> s[1..][k] == s[k + 1];
  }

  /** Text without an opening brace has no conditional group. */
  lemma {:induction false} ConditionalTextAbsent(s: string, ctx: Context)
    requires '{' !in s
    ensures ConditionalText(s, ctx) == s
    decreases |s|
  {
    if s != [] {
      assert !StartsWith(s, "{$") by {
        assert s[0] != '{';
        if |s| >= 2 {
          assert s[..2][0] == s[0];
        }
      }
      Unfolded(s, '{');
      ConditionalTextAbsent(s[1..], ctx);
    }
  }

  /** Text without an opening brace has no variable reference. */
  lemma {:induction false} ReferenceScanAbsent(s: string, vars: map<string, Value>)
    requires '{' !in s
    ensures ReferenceScan(s, vars) == s
    decreases |s|
  {
    if s != [] {
      assert !StartsWith(s, "{var.") by {
        assert s[0] != '{';
        if |s| >= 5 {
          assert s[..5][0] == s[0];
        }
      }
      Unfolded(s, '{');
      ReferenceScanAbsent(s[1..], vars);
    }
  }

  // ---------------------------------------------------------------------------
  // Recognising a group built from its parts

  lemma {:induction false} SpanOfPrefix(x: string, y: string, stops: set<char>)
    requires forall k :: 0 <= k < |x| ==> x[k] !in stops
    requires y != [] && y[0] in stops
    ensures Span(x + y, stops) == |x|
  {
    if x == [] {
      assert x + y == y;
    } else {
      assert (x + y)[1..] == x[1..] + y;
      SpanOfPrefix(x[1..], y, stops);
    }
  }

  lemma {:induction false} KeySpanOfPrefix(x: string, y: string)
    requires forall k :: 0 <= k < |x| ==> IsKeyChar(x[k])
    requires y != [] && !IsKeyChar(y[0])
    ensures KeySpan(x + y) == |x|
  {
    if x == [] {
      assert x + y == y;
    } else {
      assert (x + y)[1..] == x[1..] + y;
      KeySpanOfPrefix(x[1..], y);
    }
  }

  /** The characters of a capture that stops at any of the given characters. */
  predicate Avoids(x: string, stops: set<char>) {
    forall k :: 0 <= k < |x| ==> x[k] !in stops
  }

  lemma FalseBranchParts(cond: string, yes: string, no: string, rest: string)
    requires no != [] && Avoids(no, {'}'})
    ensures FalseBranch(cond, yes, no + "}" + rest)
      == Some(ConditionalGroup(cond, yes, no, |cond| + |yes| + |no| + 5))
  {
    assert no + "}" + rest == no + ("}" + rest);
    SpanOfPrefix(no, "}" + rest, {'}'});
    assert (no + "}" + rest)[..|no|] == no;
  }

  lemma BranchesParts(cond: string, yes: string, no: string, rest: string)
    requires yes != [] && Avoids(yes, {'}', '|'})
    requires no != [] && Avoids(no, {'}'})
    ensures BranchesAfterCondition(cond, yes + "|" + no + "}" + rest)
      == Some(ConditionalGroup(cond, yes, no, |cond| + |yes| + |no| + 5))
  {
    var b := yes + "|" + no + "}" + rest;
    assert b == yes + ("|" + no + "}" + rest);
    SpanOfPrefix(yes, "|" + no + "}" + rest, {'}', '|'});
    assert b[..|yes|] == yes && b[|yes| + 1..] == no + "}" + rest;
    FalseBranchParts(cond, yes, no, rest);
  }

  lemma ConditionParts(cond: string, yes: string, no: string, rest: string)
    requires cond != [] && Avoids(cond, {':', '}'})
    requires yes != [] && Avoids(yes, {'}', '|'})
    requires no != [] && Avoids(no, {'}'})
    ensures ConditionAfterOpening(cond + ":" + yes + "|" + no + "}" + rest)
      == Some(ConditionalGroup(cond, yes, no, |cond| + |yes| + |no| + 5))
  {
    var a := cond + ":" + yes + "|" + no + "}" + rest;
    assert a == cond + (":" + yes + "|" + no + "}" + rest);
    SpanOfPrefix(cond, ":" + yes + "|" + no + "}" + rest, {':', '}'});
    assert a[..|cond|] == cond && a[|cond| + 1..] == yes + "|" + no + "}" + rest;
    BranchesParts(cond, yes, no, rest);
  }

  /** The group `{$cond:yes|no}` is recognised with exactly those three parts. */
  lemma ConditionalGroupParts(cond: string, yes: string, no: string, rest: string)
    requires cond != [] && Avoids(cond, {':', '}'})
    requires yes != [] && Avoids(yes, {'}', '|'})
    requires no != [] && Avoids(no, {'}'})
    ensures ConditionalAt("{$" + cond + ":" + yes + "|" + no + "}" + rest)
      == Some(ConditionalGroup(cond, yes, no, |cond| + |yes| + |no| + 5))
  {
    var s := "{$" + cond + ":" + yes + "|" + no + "}" + rest;
    assert s[..2] == "{$";
    assert s[2..] == cond + ":" + yes + "|" + no + "}" + rest;
    ConditionParts(cond, yes, no, rest);
  }

  /**
   * A conditional group yields its trimmed true branch when the trimmed
   * condition holds and its trimmed false branch otherwise; scanning goes on
   * after the group.
   */
  lemma ConditionalGroupChosen(cond: string, yes: string, no: string, rest: string, ctx: Context)
    requires cond != [] && Avoids(cond, {':', '}'})
    requires yes != [] && Avoids(yes, {'}', '|'})
    requires no != [] && Avoids(no, {'}'})
    ensures ConditionalText("{$" + cond + ":" + yes + "|" + no + "}" + rest, ctx)
      == (if CheckSimpleCondition(Trim(cond), ctx) then Trim(yes) else Trim(no)) + ConditionalText(rest, ctx)
  {
    var s := "{$" + cond + ":" + yes + "|" + no + "}" + rest;
    ConditionalGroupParts(cond, yes, no, rest);
    assert s[|cond| + |yes| + |no| + 5..] == rest;
  }

  /** A brace group `{c}` whose content has no closing brace is recognised with content c. */
  lemma BraceGroupParts(c: string, rest: string)
    requires c != [] && Avoids(c, {'}'})
    ensures BraceAt("{" + c + "}" + rest) == Some(|c|)
  {
    var s := "{" + c + "}" + rest;
    assert forall k :: 1 <= k < |c| + 1 ==> s[k] == c[k - 1];
    CloseFromFirst(s, 1, |c| + 1);
  }

  /** The scan for `}` stops at the first one. */
  lemma {:induction false} CloseFromFirst(s: string, i: nat, j: nat)
    requires i <= j < |s| && s[j] == '}'
    requires forall k :: i <= k < j ==> s[k] != '}'
    ensures CloseFrom(s, i) == Some(j)
    decreases j - i
  {
    if i < j {
      CloseFromFirst(s, i + 1, j);
    }
  }

  /** A character other than an opening brace is copied by the random stage. */
  lemma RandomTextStep(s: string, draws: nat -> Unit, k: nat)
    requires s != [] && s[0] != '{'
    ensures RandomText(s, draws, k) == [s[0]] + RandomText(s[1..], draws, k)
  {
    assert RandomGroupAt(s) == None;
    RandomTextSkip(s, draws, k);
  }

  /** Where no random group starts, the random stage copies one character. */
  lemma RandomTextSkip(s: string, draws: nat -> Unit, k: nat)
    requires s != [] && RandomGroupAt(s) == None
    ensures RandomText(s, draws, k) == [s[0]] + RandomText(s[1..], draws, k)
  {
  }

  /** Text without an opening brace is copied by the random stage. */
  lemma {:induction false} RandomTextCopies(x: string, y: string, draws: nat -> Unit, k: nat)
    requires '{' !in x
    ensures RandomText(x + y, draws, k) == x + RandomText(y, draws, k)
  {
    if x == [] {
      assert x + y == y;
    } else {
      var tail := x[1..];
      assert '{' !in tail by {
        assert forall i :: 0 <= i < |tail| ==> tail[i] == x[i + 1];
      }
      CopyFirst(x, y, draws, k);
      RandomTextCopies(tail, y, draws, k);
      ConsAppend(x, RandomText(y, draws, k));
    }
  }

  lemma ConsAppend(x: string, r: string)
    requires x != []
    ensures [x[0]] + (x[1..] + r) == x + r
  {
    assert x == [x[0]] + x[1..];
  }

  /** The random stage copies the first character of text not starting with `{`. */
  lemma CopyFirst(x: string, y: string, draws: nat -> Unit, k: nat)
    requires x != [] && x[0] != '{'
    ensures RandomText(x + y, draws, k) == [x[0]] + RandomText(x[1..] + y, draws, k)
  {
    var s := x + y;
    assert s[0] == x[0];
    assert s[1..] == x[1..] + y;
    RandomTextStep(s, draws, k);
  }

  /** A `{$...}` group is not a random group: it stays as it is. */
  lemma DollarGroupKept(c: string, rest: string, draws: nat -> Unit, k: nat)
    requires '{' !in c && '}' !in c
    ensures RandomText("{$" + c + "}" + rest, draws, k) == "{$" + c + "}" + RandomText(rest, draws, k)
  {
    var s := "{$" + c + "}" + rest;
    var t := "$" + c + "}";
    assert s[1..] == t + rest && s == "{" + t + rest;
    assert RandomGroupAt(s).None?;
    RandomTextCopies(t, rest, draws, k);
    KeptBrace(s, t, rest, draws, k);
  }

  lemma KeptBrace(s: string, t: string, rest: string, draws: nat -> Unit, k: nat)
    requires s != [] && s[0] == '{' && s[1..] == t + rest && RandomGroupAt(s).None?
    requires RandomText(t + rest, draws, k) == t + RandomText(rest, draws, k)
    ensures RandomText(s, draws, k) == "{" + t + RandomText(rest, draws, k)
  {
    RandomTextSkip(s, draws, k);
  }

  /** A group with a single option is left as it is, `match` included. */
  lemma SingleOptionKept(c: string, rest: string, draws: nat -> Unit, k: nat)
    requires c != [] && c[0] != '$' && Avoids(c, {'}'}) && '|' !in c
    ensures RandomText("{" + c + "}" + rest, draws, k) == "{" + c + "}" + RandomText(rest, draws, k)
  {
    var s := "{" + c + "}" + rest;
    BraceGroupParts(c, rest);
    assert s[1] == c[0];
    assert s[1..|c| + 1] == c && s[..|c| + 2] == "{" + c + "}" && s[|c| + 2..] == rest;
  }

  /**
   * A group with two or more options becomes one of its trimmed options,
   * the one draw k picks, and the next group gets the next draw.
   */
  lemma MultiOptionPicked(c: string, rest: string, draws: nat -> Unit, k: nat)
    requires c != [] && c[0] != '$' && Avoids(c, {'}'}) && '|' in c
    ensures var options := Options(c);
      |options| >= 2 &&
      RandomText("{" + c + "}" + rest, draws, k)
        == options[RandomIndex(draws(k), |options|)] + RandomText(rest, draws, k + 1)
  {
    var s := "{" + c + "}" + rest;
    BraceGroupParts(c, rest);
    assert s[1] == c[0];
    assert s[1..|c| + 1] == c && s[|c| + 2..] == rest;
    PickedParts(s, c, rest, draws, k);
  }

  lemma PickedParts(s: string, c: string, rest: string, draws: nat -> Unit, k: nat)
    requires RandomGroupAt(s) == Some(|c|) && s[1..|c| + 1] == c && s[|c| + 2..] == rest && |Options(c)| > 1
    ensures RandomText(s, draws, k) == Options(c)[RandomIndex(draws(k), |Options(c)|)] + RandomText(rest, draws, k + 1)
  {
    RandomTextPicks(s, |c|, draws, k);
  }

  /** A random group with several options at the start of the text becomes the option draw k picks. */
  lemma RandomTextPicks(s: string, n: nat, draws: nat -> Unit, k: nat)
    requires RandomGroupAt(s) == Some(n) && |Options(s[1..n + 1])| > 1
    ensures RandomText(s, draws, k) ==
      Options(s[1..n + 1])[RandomIndex(draws(k), |Options(s[1..n + 1])|)] + RandomText(s[n + 2..], draws, k + 1)
  {
  }

  /** A reference `{var.key}` or `{var.key:default}` is recognised with exactly those parts. */
  lemma ReferenceParts(key: string, default: Option<string>, rest: string)
    requires key != [] && forall k :: 0 <= k < |key| ==> IsKeyChar(key[k])
    requires default.Some? ==> Avoids(default.value, {'}'})
    ensures var tail := if default.Some? then ":" + default.value + "}" else "}";
      ReferenceAt("{var." + key + tail + rest)
        == Some(Reference(key, default, 5 + |key| + |tail|))
  {
    if default.Some? {
      var d := default.value;
      DefaultReferenceParts(key, d, rest);
      var x := "{var." + key;
      ConcatAssociates(x, ":" + d, "}");
      ConcatAssociates(x, ":", d);
    } else {
      PlainReferenceParts(key, rest);
    }
  }

  lemma PlainReferenceParts(key: string, rest: string)
    requires key != [] && forall k :: 0 <= k < |key| ==> IsKeyChar(key[k])
    ensures ReferenceAt("{var." + key + "}" + rest) == Some(Reference(key, None, 5 + |key| + 1))
  {
    var s := "{var." + key + "}" + rest;
    assert StartsWith(s, "{var.") by {
      assert s[..5] == "{var.";
    }
    var a := s[5..];
    assert a == key + ("}" + rest);
    KeySpanOfPrefix(key, "}" + rest);
    assert a[..|key|] == key;
    PlainReference(s, a, key);
  }

  lemma DefaultReferenceParts(key: string, d: string, rest: string)
    requires key != [] && forall k :: 0 <= k < |key| ==> IsKeyChar(key[k])
    requires Avoids(d, {'}'})
    ensures ReferenceAt("{var." + key + ":" + d + "}" + rest) == Some(Reference(key, Some(d), 5 + |key| + 1 + |d| + 1))
  {
    var s := "{var." + key + ":" + d + "}" + rest;
    var t3 := "}" + rest;
    var b := d + t3;
    var a := key + (":" + b);
    ConcatAssociates("{var." + key + ":" + d, "}", rest);
    ConcatAssociates("{var." + key + ":", d, t3);
    ConcatAssociates("{var." + key, ":", b);
    ConcatAssociates("{var.", key, ":" + b);
    assert s == "{var." + a;
    DropPrefix("{var.", a);
    KeySpanOfPrefix(key, ":" + b);
    DropPrefix(key, ":" + b);
    ConcatAssociates(key, ":", b);
    DropPrefix(key + ":", b);
    SpanOfPrefix(d, t3, {'}'});
    DropPrefix(d, t3);
    DefaultReference(s, a, b, key, d);
  }

  /** The parts of `{var.key}` as the recogniser sees them. */
  lemma PlainReference(s: string, a: string, key: string)
    requires StartsWith(s, "{var.") && a == s[5..]
    requires KeySpan(a) == |key| && 0 < |key| < |a| && a[|key|] == '}' && a[..|key|] == key
    ensures ReferenceAt(s) == Some(Reference(key, None, 5 + |key| + 1))
  {
  }

  /** The parts of `{var.key:default}` as the recogniser sees them. */
  lemma DefaultReference(s: string, a: string, b: string, key: string, d: string)
    requires StartsWith(s, "{var.") && a == s[5..]
    requires KeySpan(a) == |key| && 0 < |key| < |a| && a[|key|] == ':' && a[..|key|] == key
    requires b == a[|key| + 1..] && Span(b, {'}'}) == |d| < |b| && b[..|d|] == d
    ensures ReferenceAt(s) == Some(Reference(key, Some(d), 5 + |key| + 1 + |d| + 1))
  {
  }

  /**
   * A reference to a present variable becomes `String(value)`; to an absent
   * one, the default when given, else "0".
   */
  lemma ReferenceReplaced(key: string, default: Option<string>, rest: string, vars: map<string, Value>)
    requires key != [] && forall k :: 0 <= k < |key| ==> IsKeyChar(key[k])
    requires default.Some? ==> Avoids(default.value, {'}'})
    ensures var tail := if default.Some? then ":" + default.value + "}" else "}";
      ReferenceScan("{var." + key + tail + rest, vars)
        == (if key in vars then ToText(vars[key]) else if default.Some? then default.value else "0")
           + ReferenceScan(rest, vars)
  {
    var tail := if default.Some? then ":" + default.value + "}" else "}";
    var s := "{var." + key + tail + rest;
    ReferenceParts(key, default, rest);
    assert s[5 + |key| + |tail|..] == rest;
  }

  /** Each escape sequence on its own. */
  lemma EscapeSequences()
    ensures EscapeChars("\\n") == "\n"
    ensures EscapeChars("\\t") == "\t"
    ensures EscapeChars("\\{") == "{"
    ensures EscapeChars("\\}") == "}"
    ensures EscapeChars("\\\\") == "\\"
  {
  }

  /**
   * The passes are sequential, so an escaped backslash does not protect a
   * following `n`: the first pass already turns the second backslash and the
   * `n` into a line break.
   */
  lemma EscapePassesInOrder()
    ensures EscapeChars("\\\\n") == "\\\n"
  {
  }

  /** What follows a left operand of len characters once the white space after it is skipped. */
  function AfterLeft(s: string, len: nat): string
    requires len <= |s|
  {
    var t := s[len..];
    t[LeadingSpaces(t)..]
  }

  /** The operator op starts v and a right operand follows it. */
  predicate OperatorFits(v: string, op: string) {
    StartsWith(v, op) && RightOperand(v[|op|..]).Some?
  }

  /** The pattern matches s with a left operand of len characters and the operator op. */
  predicate SplitsAt(s: string, len: nat, op: string) {
    1 <= len <= |s| && NoLineTerminator(s[..len]) && OperatorFits(AfterLeft(s, len), op)
  }

  /** No alternative is taken exactly when none fits. */
  lemma {:induction false} OperatorFromNone(v: string, ops: seq<string>)
    ensures OperatorFrom(v, ops).None? <==> forall i :: 0 <= i < |ops| ==> !OperatorFits(v, ops[i])
    decreases |ops|
  {
    if ops != [] {
      OperatorFromNone(v, ops[1..]);
      forall i | 1 <= i < |ops|
        ensures ops[i] == ops[1..][i - 1]
      {
      }
    }
  }

  /** The alternative taken fits, and the right operand is the one that follows it. */
  lemma {:induction false} OperatorFromFound(v: string, ops: seq<string>)
    requires OperatorFrom(v, ops).Some?
    ensures OperatorFits(v, OperatorFrom(v, ops).value.0)
    ensures OperatorFrom(v, ops).value.1 == RightOperand(v[|OperatorFrom(v, ops).value.0|..]).value
    decreases |ops|
  {
    if !OperatorFits(v, ops[0]) {
      OperatorFromFound(v, ops[1..]);
    }
  }

  /** The alternatives are tried in order: when the i-th fits, the one taken is among the first i + 1. */
  lemma {:induction false} OperatorFromEarliest(v: string, ops: seq<string>, i: nat)
    requires i < |ops| && OperatorFits(v, ops[i])
    ensures OperatorFrom(v, ops).Some? && OperatorFrom(v, ops).value.0 in ops[..i + 1]
    decreases i
  {
    if OperatorFits(v, ops[0]) {
      assert ops[..i + 1][0] == ops[0];
    } else {
      assert ops[1..][i - 1] == ops[i];
      OperatorFromEarliest(v, ops[1..], i - 1);
      assert ops[..i + 1] == [ops[0]] + ops[1..][..i];
    }
  }

  /** No operator fits after a left operand of len characters. */
  predicate NoSplitAt(s: string, len: nat) {
    forall i :: 0 <= i < |OPERATORS| ==> !SplitsAt(s, len, OPERATORS[i])
  }

  /**
   * c is the split the pattern makes of s: a left operand that is a prefix of
   * s and as short as any that admits an operator, the first alternative
   * that fits after it, and the right operand that follows that operator.
   */
  predicate IsFirstSplit(s: string, c: Comparison) {
    1 <= |c.left| <= |s| && c.left == s[..|c.left|] && SplitsAt(s, |c.left|, c.op)
    && c.right == RightOperand(AfterLeft(s, |c.left|)[|c.op|..]).value
    && (forall l :: 0 <= l < |c.left| ==> NoSplitAt(s, l))
    && forall i :: 0 <= i < |OPERATORS| && OperatorFits(AfterLeft(s, |c.left|), OPERATORS[i]) ==>
         c.op in OPERATORS[..i + 1]
  }

  /** When an operator fits after the first len characters and none fits earlier, that split is the first. */
  lemma SplitFoundAt(s: string, len: nat)
    requires 1 <= len <= |s| && NoLineTerminator(s[..len])
    requires forall l: nat :: l < len ==> NoSplitAt(s, l)
    requires OperatorFrom(AfterLeft(s, len), OPERATORS).Some?
    ensures var found := OperatorFrom(AfterLeft(s, len), OPERATORS).value;
      IsFirstSplit(s, Comparison(s[..len], found.0, found.1))
  {
    var v := AfterLeft(s, len);
    OperatorFromFound(v, OPERATORS);
    forall i | 0 <= i < |OPERATORS| && OperatorFits(v, OPERATORS[i])
      ensures OperatorFrom(v, OPERATORS).value.0 in OPERATORS[..i + 1]
    {
      OperatorFromEarliest(v, OPERATORS, i);
    }
  }

  lemma NoSplitBelowNext(s: string, len: nat)
    requires forall l: nat :: l < len ==> NoSplitAt(s, l)
    requires NoSplitAt(s, len)
    ensures forall l: nat :: l < len + 1 ==> NoSplitAt(s, l)
  {
    forall l: nat | l < len + 1
      ensures NoSplitAt(s, l)
    {
      if l == len {
        assert NoSplitAt(s, len);
      } else {
        assert l < len;
      }
    }
  }

  /** `.` does not match a line terminator: no left operand reaches past one. */
  lemma NoSplitPastTerminator(s: string, len: nat)
    requires 1 <= len <= |s| && IsLineTerminator(s[len - 1])
    ensures forall l: nat :: len <= l ==> NoSplitAt(s, l)
  {
    forall l: nat | len <= l
      ensures NoSplitAt(s, l)
    {
      if l <= |s| {
        assert s[..l][len - 1] == s[len - 1];
      }
    }
  }

  /** Given no split below len, ComparisonFrom finds the first split, or there is none at all. */
  lemma {:induction false} ComparisonFromShortest(s: string, len: nat)
    requires 1 <= len <= |s| + 1 && NoLineTerminator(s[..len - 1])
    requires forall l: nat :: l < len ==> NoSplitAt(s, l)
    ensures ComparisonFrom(s, len).Some? ==> IsFirstSplit(s, ComparisonFrom(s, len).value)
    ensures ComparisonFrom(s, len).None? ==> forall l: nat :: NoSplitAt(s, l)
    decreases |s| + 1 - len
  {
    if len > |s| {
    } else if IsLineTerminator(s[len - 1]) {
      NoSplitPastTerminator(s, len);
    } else {
      var v := AfterLeft(s, len);
      assert NoLineTerminator(s[..len]) by {
        forall k | 0 <= k < len - 1
          ensures s[..len][k] == s[..len - 1][k]
        {
        }
      }
      match OperatorFrom(v, OPERATORS)
      case Some(found) =>
        SplitFoundAt(s, len);
        OperatorAfterLeft(s, len, found.0, found.1);
      case None =>
        OperatorFromNone(v, OPERATORS);
        assert NoSplitAt(s, len);
        NoSplitBelowNext(s, len);
        assert ComparisonFrom(s, len) == ComparisonFrom(s, len + 1);
        ComparisonFromShortest(s, len + 1);
    }
  }

  /**
   * `^(.+?)\s*(>=|<=|==|!=|>|<)\s*(.+)$` on every input: the comparison
   * found is the first split of s, and there is none exactly when no
   * operator fits after any left operand.
   */
  lemma ComparisonIsFirstSplit(s: string)
    ensures ComparisonOf(s).Some? ==> IsFirstSplit(s, ComparisonOf(s).value)
    ensures ComparisonOf(s).None? <==> forall l: nat :: NoSplitAt(s, l)
  {
    assert s[..0] == [];
    ComparisonFromShortest(s, 1);
    if ComparisonOf(s).Some? {
      var c := ComparisonOf(s).value;
      var i :| 0 <= i < |OPERATORS| && OPERATORS[i] == c.op;
      assert !NoSplitAt(s, |c.left|);
    }
  }

  /**
   * How the comparison splits: the left operand is as short as possible, and
   * an operator alternative is given up when nothing follows it, so `a>=`
   * compares `a` against `=` with `>`.
   */
  lemma ComparisonSplitsPlain()
    ensures ComparisonOf("a>=1") == Some(Comparison("a", ">=", "1"))
  {
    var s := "a>=1";
    assert s[1..] == ">=1" && s[..1] == "a";
    assert LeadingSpaces(">=1") == 0;
    assert ">=1"[0..] == ">=1";
    assert LeadingSpaces("1") == 0 && "1"[0..] == "1";
    assert RightOperand("1") == Some("1");
    assert StartsWith(">=1", ">=") && ">=1"[2..] == "1";
    assert OperatorFrom(">=1", OPERATORS) == Some((">=", "1"));
    OperatorAfterLeft(s, 1, ">=", "1");
  }

  /** The lazy left operand stops at the first length after which an operator and a right operand follow. */
  lemma OperatorAfterLeft(s: string, len: nat, op: string, right: string)
    requires 1 <= len <= |s| && !IsLineTerminator(s[len - 1])
    requires var t := s[len..]; OperatorFrom(t[LeadingSpaces(t)..], OPERATORS) == Some((op, right))
    ensures ComparisonFrom(s, len) == Some(Comparison(s[..len], op, right))
  {
  }

  lemma ComparisonSplitsSpaced()
    ensures ComparisonOf("a >= 1") == Some(Comparison("a", ">=", "1"))
  {
    var s := "a >= 1";
    assert s[1..] == " >= 1" && s[..1] == "a";
    assert LeadingSpaces(">= 1") == 0;
    assert LeadingSpaces(" >= 1") == 1;
    assert " >= 1"[1..] == ">= 1";
    SpacedOperator();
    OperatorAfterLeft(s, 1, ">=", "1");
  }

  lemma SpacedOperator()
    ensures OperatorFrom(">= 1", OPERATORS) == Some((">=", "1"))
  {
    assert LeadingSpaces("1") == 0;
    assert LeadingSpaces(" 1") == 1 && " 1"[1..] == "1";
    assert RightOperand(" 1") == Some("1");
    assert StartsWith(">= 1", ">=") && ">= 1"[2..] == " 1";
  }

  /** `(.+?)` is lazy and the operator alternatives are tried in order: `a>=` splits as `a`, `>`, `=`. */
  lemma ComparisonSplitsBacktracking()
    ensures ComparisonOf("a>=") == Some(Comparison("a", ">", "="))
  {
    BacktrackingRest();
    OperatorAfterLeft("a>=", 1, ">", "=");
    assert "a>="[..1] == "a";
  }

  lemma BacktrackingRest()
    ensures var t := "a>="[1..]; OperatorFrom(t[LeadingSpaces(t)..], OPERATORS) == Some((">", "="))
  {
    var t := "a>="[1..];
    assert t == ">=";
    assert LeadingSpaces(t) == 0 && t[0..] == t;
    BacktrackingOperator();
  }

  /** `>=` followed by nothing is given up; `>` followed by `=` is taken. */
  lemma BacktrackingOperator()
    ensures OperatorFrom(">=", OPERATORS) == Some((">", "="))
  {
    assert ">="[2..] == [] && RightOperand([]) == None;
    assert StartsWith(">=", ">=");
    assert !StartsWith(">=", "<=") && !StartsWith(">=", "==") && !StartsWith(">=", "!=");
    LaterOperator();
    assert OPERATORS[4..] == [">", "<"];
  }

  lemma LaterOperator()
    ensures OperatorFrom(">=", [">", "<"]) == Some((">", "="))
  {
    assert StartsWith(">=", ">") && ">="[1..] == "=";
    assert LeadingSpaces("=") == 0 && "="[0..] == "=";
    assert RightOperand("=") == Some("=");
  }

  lemma ComparisonNeedsOperator()
    ensures ComparisonOf("a") == None
  {
  }

  // ---------------------------------------------------------------------------
  // extractRandomOptions

  /** The `__random_i__` key of the i-th group with several options. */
  function GroupKey(i: nat): string {
    "__random_" + NatToString(i) + "__"
  }

  lemma GroupKeyInjective(i: nat, j: nat)
    requires GroupKey(i) == GroupKey(j)
    ensures i == j
  {
    var a, b := NatToString(i), NatToString(j);
    assert |a| == |b|;
    assert a == GroupKey(i)[9..9 + |a|];
    assert b == GroupKey(j)[9..9 + |b|];
    DigitsValueOfNatToString(i);
    DigitsValueOfNatToString(j);
  }

  /**
   * The options of every brace group (`/\{([^}]+)\}/g`) at or after `pos` that
   * has more than one, in order; the scan resumes after each matched group.
   */
  function GroupsFrom(text: string, pos: nat): seq<seq<string>>
    requires pos <= |text|
    decreases |text| - pos
  {
    if pos == |text| then []
    else
      match BraceAt(text[pos..])
      case Some(n) =>
        var options := Options(text[pos + 1..pos + n + 1]);
        (if |options| > 1 then [options] else []) + GroupsFrom(text, pos + n + 2)
      case None => GroupsFrom(text, pos + 1)
  }

  /** The multi-option groups of the whole text. */
  function MultiOptionGroups(text: string): seq<seq<string>> {
    GroupsFrom(text, 0)
  }

  lemma GroupsAtBrace(text: string, pos: nat, n: nat)
    requires pos < |text| && BraceAt(text[pos..]) == Some(n)
    ensures var options := Options(text[pos + 1..pos + n + 1]);
      GroupsFrom(text, pos) == (if |options| > 1 then [options] else []) + GroupsFrom(text, pos + n + 2)
  {
  }

  lemma GroupsElsewhere(text: string, pos: nat)
    requires pos < |text| && BraceAt(text[pos..]) == None
    ensures GroupsFrom(text, pos) == [] + GroupsFrom(text, pos + 1)
  {
    assert [] + GroupsFrom(text, pos + 1) == GroupsFrom(text, pos + 1);
  }

  /** Moving one group from the pending part to the found part. */
  lemma AppendGroup(found: seq<seq<string>>, g: seq<string>, next: seq<seq<string>>)
    ensures (found + [g]) + next == found + ([g] + next)
    ensures (found + [g])[..|found|] == found
  {
  }

  /** The concatenation of the groups, in order. */
  function Flatten(groups: seq<seq<string>>): seq<string> {
    if groups == [] then [] else Flatten(groups[..|groups| - 1]) + groups[|groups| - 1]
  }

  /** The table from `__random_i__` to the i-th group. */
  function GroupTable(groups: seq<seq<string>>): map<string, seq<string>> {
    if groups == [] then map[]
    else GroupTable(groups[..|groups| - 1])[GroupKey(|groups| - 1) := groups[|groups| - 1]]
  }

  /** The table has exactly the keys `__random_0__` ... and maps the i-th key to the i-th group. */
  lemma {:induction false} GroupTableLookup(groups: seq<seq<string>>)
    ensures forall i :: 0 <= i < |groups| ==> GroupKey(i) in GroupTable(groups) && GroupTable(groups)[GroupKey(i)] == groups[i]
    ensures forall key :: key in GroupTable(groups) ==> exists i :: 0 <= i < |groups| && key == GroupKey(i)
  {
    if groups != [] {
      var last := |groups| - 1;
      var init := groups[..last];
      GroupTableLookup(init);
      forall i | 0 <= i < last
        ensures GroupKey(i) in GroupTable(groups) && GroupTable(groups)[GroupKey(i)] == groups[i]
      {
        if GroupKey(i) == GroupKey(last) {
          GroupKeyInjective(i, last);
        }
        assert init[i] == groups[i];
      }
    }
  }

  /** Every option of every multi-option group, in order. */
  lemma {:induction false} FlattenMembers(groups: seq<seq<string>>, o: string)
    ensures o in Flatten(groups) <==> exists i :: 0 <= i < |groups| && o in groups[i]
  {
    if groups != [] {
      var last := |groups| - 1;
      var init := groups[..last];
      FlattenMembers(init, o);
      if o in Flatten(groups) && o !in groups[last] {
        var i :| 0 <= i < |init| && o in init[i];
        assert init[i] == groups[i];
      }
      if exists i :: 0 <= i < |groups| && o in groups[i] {
        var i :| 0 <= i < |groups| && o in groups[i];
        if i < last {
          assert init[i] == groups[i];
        }
      }
    }
  }

  /**
   * One step of the `regex.exec` scan at `pos`: a brace group there yields its
   * options and the scan resumes after it; otherwise the scan moves on by one.
   */
  method ScanAt(text: string, pos: nat) returns (next: nat, options: seq<string>)
    requires pos < |text|
    ensures pos < next <= |text|
    ensures GroupsFrom(text, pos) == (if |options| > 1 then [options] else []) + GroupsFrom(text, next)
  {
    match BraceAt(text[pos..]) {
      case Some(n) =>
        options := Options(text[pos + 1..pos + n + 1]);
        next := pos + n + 2;
        GroupsAtBrace(text, pos, n);
      case None =>
        options := [];
        next := pos + 1;
        GroupsElsewhere(text, pos);
    }
  }

  /**
   * `extractRandomOptions`: the `regex.exec` loop collects every group with
   * more than one option, appending its options to `allOptions` and storing
   * it under `__random_i__`, i counting those groups.
   */
  method ExtractRandomOptions(text: string) returns (allOptions: seq<string>, optionsPerGroup: map<string, seq<string>>)
    ensures allOptions == Flatten(MultiOptionGroups(text))
    ensures optionsPerGroup == GroupTable(MultiOptionGroups(text))
  {
    allOptions := [];
    optionsPerGroup := map[];
    var groupIndex := 0;
    ghost var found: seq<seq<string>> := [];
    var pos := 0;
    while pos < |text|
      invariant 0 <= pos <= |text|
      invariant found + GroupsFrom(text, pos) == MultiOptionGroups(text)
      invariant groupIndex == |found|
      invariant allOptions == Flatten(found)
      invariant optionsPerGroup == GroupTable(found)
      decreases |text| - pos
    {
      var next, options := ScanAt(text, pos);
      if |options| > 1 {
        AppendGroup(found, options, GroupsFrom(text, next));
        optionsPerGroup := optionsPerGroup[GroupKey(groupIndex) := options];
        allOptions := allOptions + options;
        groupIndex := groupIndex + 1;
        found := found + [options];
      } else {
        assert [] + GroupsFrom(text, next) == GroupsFrom(text, next);
      }
      pos := next;
    }
    assert found + [] == found;
  }
}
