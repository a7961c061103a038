/** Expansion of `${VAR}` placeholders in target commands, arguments and values. */
module EnvSubst {

  type Env = map<string, string>

  /** Index of the first `c` in `s`, or |s|. */
  function IndexOf(s: string, c: char): (i: nat)
    ensures i <= |s|
    ensures i < |s| ==> s[i] == c
    ensures forall k :: 0 <= k < i ==> s[k] != c
  {
    if s == "" || s[0] == c then 0 else 1 + IndexOf(s[1..], c)
  }

  lemma FirstIndex(s: string, i: nat, c: char)
    requires i < |s| && s[i] == c && forall k :: 0 <= k < i ==> s[k] != c
    ensures IndexOf(s, c) == i
  {
  }

  // ---- the grammar, independent of any environment ----

  /** `$${name}` is an escape, `${name}` a placeholder, anything else one character. */
  datatype Token = Literal(c: char) | Escape(name: string) | Placeholder(name: string)

  predicate Closed(after: string) { '}' in after }

  predicate EscapedAt(s: string) {
    |s| >= 3 && s[0] == '$' && s[1] == '$' && s[2] == '{' && Closed(s[3..])
  }

  predicate PlaceholderAt(s: string) {
    |s| >= 2 && s[0] == '$' && s[1] == '{' && Closed(s[2..])
  }

  /** Up to the first `}`, and behind it. */
  function Name(after: string): string { after[..IndexOf(after, '}')] }

  function Behind(after: string): string
    requires Closed(after)
  {
    after[IndexOf(after, '}') + 1..]
  }

  function First(s: string): Token
    requires s != ""
  {
    if EscapedAt(s) then Escape(Name(s[3..]))
    else if PlaceholderAt(s) then Placeholder(Name(s[2..]))
    else Literal(s[0])
  }

  function Rest(s: string): (rest: string)
    requires s != ""
    ensures |rest| < |s|
  {
    if EscapedAt(s) then Behind(s[3..])
    else if PlaceholderAt(s) then Behind(s[2..])
    else s[1..]
  }

  function Tokens(s: string): seq<Token>
    decreases |s|
  {
    if s == "" then [] else [First(s)] + Tokens(Rest(s))
  }

  function Source(t: Token): string {
    match t
    case Literal(c) => [c]
    case Escape(name) => "$${" + name + "}"
    case Placeholder(name) => "${" + name + "}"
  }

  function Meaning(t: Token, env: Env): string {
    match t
    case Literal(c) => [c]
    case Escape(name) => "${" + name + "}"
    case Placeholder(name) => if name in env then env[name] else "${" + name + "}"
  }

  function SourceOf(ts: seq<Token>): string {
    if ts == [] then "" else Source(ts[0]) + SourceOf(ts[1..])
  }

  function MeaningOf(ts: seq<Token>, env: Env): string {
    if ts == [] then "" else Meaning(ts[0], env) + MeaningOf(ts[1..], env)
  }

  function Expand(s: string, env: Env): string { MeaningOf(Tokens(s), env) }

  lemma ExpandStep(s: string, env: Env)
    requires s != ""
    ensures Expand(s, env) == Meaning(First(s), env) + Expand(Rest(s), env)
  {
    assert Tokens(s)[1..] == Tokens(Rest(s));
  }

  lemma CutAtBrace(after: string)
    requires Closed(after)
    ensures after == Name(after) + "}" + Behind(after)
  {
  }

  lemma Regroup(open: string, name: string, close: string, rest: string)
    ensures open + (name + close + rest) == (open + name + close) + rest
  {
  }

  lemma FirstAndRest(s: string)
    requires s != ""
    ensures s == Source(First(s)) + Rest(s)
  {
    if EscapedAt(s) {
      CutAtBrace(s[3..]);
      Regroup("$${", Name(s[3..]), "}", Behind(s[3..]));
      assert s == "$${" + s[3..];
    } else if PlaceholderAt(s) {
      CutAtBrace(s[2..]);
      Regroup("${", Name(s[2..]), "}", Behind(s[2..]));
      assert s == "${" + s[2..];
    } else {
      assert s == [s[0]] + s[1..];
    }
  }

  /** The tokens are a reading of the whole input: nothing is lost or invented. */
  lemma {:induction false} TokensCoverInput(s: string)
    ensures SourceOf(Tokens(s)) == s
    decreases |s|
  {
    if s != "" {
      TokensCoverInput(Rest(s));
      FirstAndRest(s);
      assert Tokens(s)[1..] == Tokens(Rest(s));
    }
  }

  /** Text without a `$` stands for itself. */
  lemma {:induction false} PlainPrefix(s: string, k: nat, env: Env)
    requires k <= |s| && forall i :: 0 <= i < k ==> s[i] != '$'
    ensures Expand(s, env) == s[..k] + Expand(s[k..], env)
  {
    if k > 0 {
      ExpandStep(s, env);
      PlainPrefix(s[1..], k - 1, env);
      SkipOne(s, k, Expand(s[k..], env));
    } else {
      assert s[0..] == s && s[..0] == "";
      Append("", "", Expand(s, env));
    }
  }

  lemma SkipOne(s: string, k: nat, more: string)
    requires 0 < k <= |s|
    ensures s[1..][k - 1..] == s[k..]
    ensures [s[0]] + (s[1..][..k - 1] + more) == s[..k] + more
  {
  }

  lemma Append(result: string, step: string, more: string)
    ensures result + (step + more) == (result + step) + more
  {
  }

  /** The scanner: jump to the next `$`, decide, continue behind what was read. */
  method SubstituteEnvVars(input: string, env: Env) returns (result: string)
    ensures result == Expand(input, env)
  {
    result := "";
    var rest := input;
    var idx := IndexOf(rest, '$');
    while idx < |rest|
      invariant idx == IndexOf(rest, '$')
      invariant result + Expand(rest, env) == Expand(input, env)
      decreases |rest|
    {
      var tail := rest[idx..];
      PlainPrefix(rest, idx, env);
      Append(result, rest[..idx], Expand(tail, env));
      result := result + rest[..idx];
      ExpandStep(tail, env);
      Append(result, Meaning(First(tail), env), Expand(Rest(tail), env));
      var step: string;
      step, rest := ReadToken(tail, env);
      result := result + step;
      idx := IndexOf(rest, '$');
    }
    PlainPrefix(rest, |rest|, env);
    assert rest[|rest|..] == "" && rest[..|rest|] == rest;
    result := result + rest;
  }

  /** One turn of the scanner at a `$`: what is appended and what remains. */
  method ReadToken(tail: string, env: Env) returns (step: string, rest: string)
    requires tail != "" && tail[0] == '$'
    ensures step == Meaning(First(tail), env)
    ensures rest == Rest(tail)
  {
    if |tail| >= 3 && tail[1] == '$' && tail[2] == '{' && IndexOf(tail[3..], '}') < |tail[3..]| {
      step, rest := "${" + Name(tail[3..]) + "}", Behind(tail[3..]);
    } else if |tail| >= 2 && tail[1] == '{' && IndexOf(tail[2..], '}') < |tail[2..]| {
      var name := Name(tail[2..]);
      if name in env {
        step := env[name];
      } else {
        step := "${" + name + "}";
      }
      rest := Behind(tail[2..]);
    } else {
      step, rest := "$", tail[1..];
    }
  }

  /** Inserted values are never scanned again: the reading of the input, and so
      the positions where values go, is the same under every environment. */
  lemma ReadingIsFixed(s: string)
    ensures exists ts: seq<Token> ::
              SourceOf(ts) == s && forall env: Env :: Expand(s, env) == MeaningOf(ts, env)
  {
    TokensCoverInput(s);
    assert forall env: Env :: Expand(s, env) == MeaningOf(Tokens(s), env);
  }

  // ---- the four cases of an expansion, which determine it ----

  lemma NameBeforeBrace(name: string, rest: string)
    requires '}' !in name
    ensures Closed(name + "}" + rest) && Name(name + "}" + rest) == name && Behind(name + "}" + rest) == rest
  {
    var after := name + "}" + rest;
    assert after[|name|] == '}' && forall k :: 0 <= k < |name| ==> after[k] == name[k];
    FirstIndex(after, |name|, '}');
  }

  /** A placeholder becomes the value of its variable, and stays as it is if there is none. */
  lemma PlaceholderExpands(name: string, rest: string, env: Env)
    requires '}' !in name
    ensures name in env ==> Expand("${" + name + "}" + rest, env) == env[name] + Expand(rest, env)
    ensures name !in env ==> Expand("${" + name + "}" + rest, env) == "${" + name + "}" + Expand(rest, env)
  {
    var s := "${" + name + "}" + rest;
    NameBeforeBrace(name, rest);
    assert s[2..] == name + "}" + rest && s[1] == '{';
    ExpandStep(s, env);
  }

  lemma EscapeText(after: string, s: string)
    requires s == "$${" + after
    ensures |s| >= 3 && s[3..] == after && s[0] == '$' && s[1] == '$' && s[2] == '{'
  {
  }

  lemma EscapeMeans(name: string, env: Env)
    ensures Meaning(Escape(name), env) == "${" + name + "}"
  {
  }

  /** An escaped placeholder loses one `$`, whatever the environment. */
  lemma EscapeExpands(name: string, rest: string, env: Env)
    requires '}' !in name
    ensures Expand("$${" + name + "}" + rest, env) == "${" + name + "}" + Expand(rest, env)
  {
    var s := "$${" + name + "}" + rest;
    NameBeforeBrace(name, rest);
    EscapeText(name + "}" + rest, s);
    assert First(s) == Escape(name) && Rest(s) == rest;
    hide *;
    ExpandStep(s, env);
    EscapeMeans(name, env);
  }

  /** Any other character stands for itself: one that is no `$`, or one before something
      else than a braced name. */
  lemma CharacterExpands(c: char, rest: string, env: Env)
    requires c == '$' && rest != "" && rest[0] == '{' ==> '}' !in rest[1..]
    requires c == '$' && |rest| >= 2 && rest[..2] == "${" ==> '}' !in rest[2..]
    ensures Expand([c] + rest, env) == [c] + Expand(rest, env)
    ensures Expand("", env) == ""
  {
    var s := [c] + rest;
    StandsAlone(c, rest);
    hide EscapedAt, PlaceholderAt, Tokens, Expand, MeaningOf;
    ExpandStep(s, env);
    NothingExpands(env);
  }

  lemma NothingExpands(env: Env)
    ensures Expand("", env) == ""
  {
  }

  lemma StandsAlone(c: char, rest: string)
    requires c == '$' && rest != "" && rest[0] == '{' ==> '}' !in rest[1..]
    requires c == '$' && |rest| >= 2 && rest[..2] == "${" ==> '}' !in rest[2..]
    ensures var s := [c] + rest; !EscapedAt(s) && !PlaceholderAt(s) && s[1..] == rest && s[0] == c
  {
    var s := [c] + rest;
    assert s[1..] == rest && (|rest| >= 1 ==> s[2..] == rest[1..]);
    if |rest| >= 2 {
      assert s[3..] == rest[2..];
      assert rest[0] == '$' && rest[1] == '{' ==> rest[..2] == "${";
    }
  }

  // ---- what stays untouched ----

  /** Some `${` in `s` has a `}` behind it. */
  ghost predicate HasClosedBrace(s: string) {
    exists i :: 0 <= i <= |s| && PlaceholderAt(s[i..])
  }

  lemma NoneInRest(s: string)
    requires s != "" && !HasClosedBrace(s)
    ensures !HasClosedBrace(s[1..])
  {
    forall i | 0 <= i <= |s[1..]| ensures !PlaceholderAt(s[1..][i..]) {
      assert s[1..][i..] == s[i + 1..];
    }
  }

  lemma NoneHere(s: string)
    requires s != "" && !HasClosedBrace(s)
    ensures !EscapedAt(s) && !PlaceholderAt(s)
  {
    assert s[0..] == s;
    if |s| >= 3 {
      assert s[1..][2..] == s[3..];
    }
    assert !PlaceholderAt(s[1..]);
  }

  /** Without a closed `${...}` every string is left alone: `$$`, `$x`, `${` and all. */
  lemma {:induction false} NoPlaceholderUnchanged(s: string, env: Env)
    requires !HasClosedBrace(s)
    ensures Expand(s, env) == s
    decreases |s|
  {
    if s != "" {
      NoneHere(s);
      NoneInRest(s);
      NoPlaceholderUnchanged(s[1..], env);
      ExpandStep(s, env);
      assert s == [s[0]] + s[1..];
    }
  }

  // ---- an escaping that protects every string ----

  /** Doubles the `$` of every closed `${...}`. */
  function Quote(s: string): string
    decreases |s|
  {
    if s == "" then ""
    else if PlaceholderAt(s) then "$${" + (Name(s[2..]) + "}" + Quote(Behind(s[2..])))
    else [s[0]] + Quote(s[1..])
  }

  lemma {:induction false} QuoteKeepsBraces(s: string)
    ensures Closed(Quote(s)) ==> Closed(s)
    ensures s != "" ==> Quote(s) != "" && Quote(s)[0] == s[0]
    ensures PlaceholderAt(s) ==> |Quote(s)| >= 3 && Quote(s)[1] == '$'
    decreases |s|
  {
    if s != "" && !PlaceholderAt(s) {
      QuoteKeepsBraces(s[1..]);
    } else if s != "" {
      assert s[2..][IndexOf(s[2..], '}')] == '}';
    }
  }

  /** A character that starts no closed `${...}` starts none after quoting. */
  lemma NoNewPlaceholder(s: string)
    requires s != "" && !PlaceholderAt(s)
    ensures !PlaceholderAt(Quote(s))
  {
    var q, t := Quote(s), s[1..];
    QuoteKeepsBraces(t);
    assert q[1..] == Quote(t);
    if |q| >= 2 && q[0] == '$' && q[1] == '{' {
      assert t != "" && t[0] == '{';
      assert Quote(t) == "{" + Quote(t[1..]) && t[1..] == s[2..];
      QuoteKeepsBraces(s[2..]);
      assert q[2..] == Quote(s[2..]);
    }
  }

  lemma NoNewEscape(s: string)
    requires s != "" && !PlaceholderAt(s)
    ensures !EscapedAt(Quote(s))
  {
    var q, t := Quote(s), s[1..];
    QuoteKeepsBraces(t);
    assert q[1..] == Quote(t);
    assert |q| >= 3 ==> q[3..] == Quote(t)[2..];
    if EscapedAt(q) {
      if PlaceholderAt(t) {
        assert false;
      } else {
        NoNewPlaceholder(t);
        assert false;
      }
    }
  }

  lemma QuotedPlaceholder(s: string)
    requires PlaceholderAt(s)
    ensures Quote(s) != ""
    ensures First(Quote(s)) == Escape(Name(s[2..]))
    ensures Rest(Quote(s)) == Quote(Behind(s[2..]))
  {
    var name, rest := Name(s[2..]), Quote(Behind(s[2..]));
    var after := name + "}" + rest;
    assert Quote(s)[3..] == after;
    assert after[|name|] == '}';
    FirstIndex(after, |name|, '}');
    assert after[..|name|] == name && after[|name| + 1..] == rest;
  }

  lemma QuotedLiteral(s: string)
    requires s != "" && !PlaceholderAt(s)
    ensures Quote(s) != ""
    ensures First(Quote(s)) == Literal(s[0])
    ensures Rest(Quote(s)) == Quote(s[1..])
  {
    NoNewPlaceholder(s);
    NoNewEscape(s);
    assert Quote(s)[1..] == Quote(s[1..]);
  }

  lemma PlaceholderText(s: string)
    requires PlaceholderAt(s)
    ensures s == "${" + Name(s[2..]) + "}" + Behind(s[2..])
  {
    CutAtBrace(s[2..]);
    Regroup("${", Name(s[2..]), "}", Behind(s[2..]));
    assert s == "${" + s[2..];
  }

  /** Every string has a spelling that expands to it under every environment. */
  lemma {:induction false} QuoteExpands(s: string, env: Env)
    ensures Expand(Quote(s), env) == s
    decreases |s|
  {
    if s == "" {
    } else {
      if PlaceholderAt(s) {
        QuotedPlaceholder(s);
        PlaceholderText(s);
        QuoteExpands(Behind(s[2..]), env);
      } else {
        QuotedLiteral(s);
        assert s == [s[0]] + s[1..];
        QuoteExpands(s[1..], env);
      }
      ExpandStep(Quote(s), env);
    }
  }
}
