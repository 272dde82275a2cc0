/** Environment placeholders in configuration strings: two separate scanning passes and the grammar they share. */
module Placeholders {
  import opened Prelude

  const PREFIX: string := "{env:"

  datatype ConfigError = Malformed(snippet: string) | Missing(name: string)

  predicate Alphabetic(c: char) {
    'a' <= c <= 'z' || 'A' <= c <= 'Z'
  }

  predicate NameChar(c: char) {
    Alphabetic(c) || '0' <= c <= '9' || c == '_'
  }

  /** `is_valid_env_var_name`. */
  predicate ValidName(name: string) {
    && name != [] && (Alphabetic(name[0]) || name[0] == '_')
    && forall i :: 0 <= i < |name| ==> NameChar(name[i])
  }

  // --------------------------------------------------------------- scanning

  predicate StartsHere(s: string) {
    PREFIX <= s
  }

  /** `rest.find(PREFIX)`. */
  function FindPrefix(s: string): (r: Option<nat>)
    ensures r.Some? ==> r.value + |PREFIX| <= |s| && StartsHere(s[r.value..])
  {
    if StartsHere(s) then Some(0)
    else if s == [] then None
    else
      var later := FindPrefix(s[1..]);
      assert later.Some? ==> s[1..][later.value..] == s[later.value + 1..];
      if later.Some? then Some(later.value + 1) else None
  }

  /** `after_prefix.find('}')`. */
  function FindClose(s: string): (r: Option<nat>)
    ensures r.Some? ==> r.value < |s| && s[r.value] == '}' && '}' !in s[..r.value]
    ensures r.None? ==> '}' !in s
  {
    if s == [] then None
    else if s[0] == '}' then Some(0)
    else
      var later := FindClose(s[1..]);
      assert later.Some? ==> s[..later.value + 1] == [s[0]] + s[1..][..later.value];
      if later.Some? then Some(later.value + 1) else None
  }

  lemma Cuts(s: string, i: nat, j: nat, k: nat)
    requires i <= j <= k < |s|
    ensures s == s[..i] + s[i..j] + s[j..k] + [s[k]] + s[k + 1..]
  {
  }

  /** A placeholder's text is its literal, the marker, the name, the closing brace and the rest. */
  lemma Reassemble(s: string, start: nat, end: nat)
    requires start + |PREFIX| <= |s| && StartsHere(s[start..]) && end < |s[start + |PREFIX|..]| && s[start + |PREFIX|..][end] == '}'
    ensures var after := s[start + |PREFIX|..]; s == s[..start] + PREFIX + after[..end] + "}" + after[end + 1..]
  {
    hide PREFIX;
    var j := start + |PREFIX|;
    Cuts(s, start, j, j + end);
    assert s[start..j] == s[start..][..|PREFIX|] == PREFIX;
    assert s[j..][..end] == s[j..j + end] && s[j..][end + 1..] == s[j + end + 1..];
  }

  /** What one turn of either loop sees: the literal before a placeholder, its name, and what follows it. */
  datatype Cut = NoPlaceholder | Unclosed(after: string) | Placeholder(literal: string, name: string, rest: string)

  function CutFirst(s: string): (c: Cut)
    ensures c.Placeholder? ==> |c.rest| < |s| && s == c.literal + PREFIX + c.name + "}" + c.rest && '}' !in c.name
  {
    var start := FindPrefix(s);
    if start.None? then NoPlaceholder
    else
      var after := s[start.value + |PREFIX|..];
      var end := FindClose(after);
      if end.None? then Unclosed(after)
      else
        Reassemble(s, start.value, end.value);
        Placeholder(s[..start.value], after[..end.value], after[end.value + 1..])
  }

  function Snippet(text: string, redact: bool): string {
    if redact then "<redacted>" else text
  }

  /** `check_placeholders_well_formed`. */
  function Check(s: string, redact: bool): Result<(), ConfigError>
    decreases |s|
  {
    match CutFirst(s)
    case NoPlaceholder => Ok(())
    case Unclosed(after) => Err(Malformed(Snippet(PREFIX + after, redact)))
    case Placeholder(_, name, rest) =>
      if !ValidName(name) then Err(Malformed(Snippet(PREFIX + name + "}", redact))) else Check(rest, redact)
  }

  /** `substitute_string`. */
  function Substitute(s: string, env: map<string, string>): Result<string, ConfigError>
    decreases |s|
  {
    match CutFirst(s)
    case NoPlaceholder => Ok(s)
    case Unclosed(after) => Err(Malformed(PREFIX + after))
    case Placeholder(literal, name, rest) =>
      if !ValidName(name) then Err(Malformed(PREFIX + name + "}"))
      else if name !in env then Err(Missing(name))
      else
        var tail :- Substitute(rest, env);
        Ok(literal + env[name] + tail)
  }

  /** `is_whole_env_reference`. */
  predicate WholeReference(s: string) {
    var inner := if PREFIX <= s && s[|PREFIX|..] != [] && s[|s| - 1] == '}' then s[|PREFIX|..|s| - 1] else "";
    ValidName(inner)
  }

  // -------------------------------------------------------- the loops

  method CheckLoop(s: string, redact: bool) returns (r: Result<(), ConfigError>)
    ensures r == Check(s, redact)
  {
    var rest := s;
    while true
      invariant Check(s, redact) == Check(rest, redact)
      decreases |rest|
    {
      var cut := CutFirst(rest);
      match cut
      case NoPlaceholder => return Ok(());
      case Unclosed(after) => return Err(Malformed(Snippet(PREFIX + after, redact)));
      case Placeholder(_, name, next) =>
        if !ValidName(name) {
          return Err(Malformed(Snippet(PREFIX + name + "}", redact)));
        }
        rest := next;
    }
  }

  ghost function After(done: string, rest: Result<string, ConfigError>): Result<string, ConfigError> {
    if rest.Ok? then Ok(done + rest.value) else rest
  }

  method SubstituteLoop(s: string, env: map<string, string>) returns (r: Result<string, ConfigError>)
    ensures r == Substitute(s, env)
  {
    hide ValidName, CutFirst;
    var result, rest := "", s;
    assert Substitute(s, env).Ok? ==> result + Substitute(s, env).value == Substitute(s, env).value;
    while true
      invariant Substitute(s, env) == After(result, Substitute(rest, env))
      decreases |rest|
    {
      var cut := CutFirst(rest);
      match cut
      case NoPlaceholder => return Ok(result + rest);
      case Unclosed(after) => return Err(Malformed(PREFIX + after));
      case Placeholder(literal, name, next) =>
        if !ValidName(name) {
          return Err(Malformed(PREFIX + name + "}"));
        }
        if name !in env {
          return Err(Missing(name));
        }
        ghost var tail := Substitute(next, env);
        assert tail.Ok? ==> result + (literal + env[name] + tail.value) == result + literal + env[name] + tail.value;
        result := result + literal + env[name];
        rest := next;
    }
  }

  // ---------------------------------------------------------------- grammar

  /** A literal, then a reference, any number of times; then a last literal. */
  datatype Template = Last(text: string) | Then(literal: string, name: string, rest: Template)

  predicate PrefixFree(s: string) {
    FindPrefix(s).None?
  }

  predicate Tidy(t: Template) {
    match t
    case Last(text) => PrefixFree(text)
    case Then(literal, name, rest) => PrefixFree(literal) && ValidName(name) && Tidy(rest)
  }

  /** The configuration text a template stands for. */
  function Text(t: Template): string {
    match t
    case Last(text) => text
    case Then(literal, name, rest) => literal + PREFIX + name + "}" + Text(rest)
  }

  /** Its value: literals and variable values joined; a value is never scanned again. */
  function Value(t: Template, env: map<string, string>): string
    requires NamesOf(t) <= env.Keys
  {
    match t
    case Last(text) => text
    case Then(literal, name, rest) => literal + env[name] + Value(rest, env)
  }

  function NamesOf(t: Template): set<string> {
    match t
    case Last(_) => {}
    case Then(_, name, rest) => {name} + NamesOf(rest)
  }

  lemma {:induction false} PrefixAfter(literal: string, x: string)
    requires PrefixFree(literal)
    ensures FindPrefix(literal + PREFIX + x) == Some(|literal|)
    decreases literal
  {
    var s := literal + PREFIX + x;
    if literal == [] {
      assert s == PREFIX + x;
      assert s[..|PREFIX|] == PREFIX;
    } else {
      NoStraddle(literal, x);
      assert s[1..] == literal[1..] + PREFIX + x;
      PrefixAfter(literal[1..], x);
    }
  }

  /** The marker cannot begin in a marker-free literal and end inside the marker that follows. */
  lemma NoStraddle(literal: string, x: string)
    requires literal != [] && !StartsHere(literal)
    ensures !StartsHere(literal + PREFIX + x)
  {
    var s := literal + PREFIX + x;
    assert |literal| >= |PREFIX| ==> s[..|PREFIX|] == literal[..|PREFIX|];
    assert |literal| < |PREFIX| ==> s[|literal|] == PREFIX[0];
  }

  lemma {:induction false} CloseAfter(name: string, x: string)
    requires '}' !in name
    ensures FindClose(name + "}" + x) == Some(|name|)
    decreases name
  {
    if name != [] {
      assert (name + "}" + x)[1..] == name[1..] + "}" + x;
      CloseAfter(name[1..], x);
    }
  }

  lemma Pieces(a: string, b: string, c: string, d: string, e: string)
    ensures var s := a + b + c + d + e;
      && s == a + b + (c + d + e) && s[..|a|] == a && s[|a| + |b|..] == c + d + e
      && (c + d + e)[..|c|] == c && (c + d + e)[|c| + |d|..] == e
  {
  }

  lemma CutTemplate(literal: string, name: string, x: string)
    requires PrefixFree(literal) && '}' !in name
    ensures CutFirst(literal + PREFIX + name + "}" + x) == Placeholder(literal, name, x)
  {
    Pieces(literal, PREFIX, name, "}", x);
    PrefixAfter(literal, name + "}" + x);
    CloseAfter(name, x);
    hide PREFIX, FindPrefix, FindClose;
  }

  /** Both passes on the text of a tidy template. */
  lemma {:induction false} PassesOnTemplate(t: Template, redact: bool, env: map<string, string>)
    requires Tidy(t)
    ensures Check(Text(t), redact) == Ok(())
    ensures Substitute(Text(t), env).Ok? <==> NamesOf(t) <= env.Keys
    ensures NamesOf(t) <= env.Keys ==> Substitute(Text(t), env) == Ok(Value(t, env))
    ensures Substitute(Text(t), env).Err? ==> Substitute(Text(t), env).error.Missing? && Substitute(Text(t), env).error.name in NamesOf(t) - env.Keys
  {
    match t
    case Last(text) => CutLast(text);
    case Then(literal, name, rest) =>
      ValidHasNoClose(name);
      CutTemplate(literal, name, Text(rest));
      PassesOnTemplate(rest, redact, env);
      hide CutFirst, ValidName, PREFIX, FindPrefix;
  }

  lemma CutLast(text: string)
    requires PrefixFree(text)
    ensures CutFirst(text) == NoPlaceholder
  {
  }

  /** A text that passes the check is the text of a tidy template. */
  lemma {:induction false} CheckedHasTemplate(s: string, redact: bool) returns (t: Template)
    requires Check(s, redact).Ok?
    ensures Tidy(t) && Text(t) == s
    decreases |s|
  {
    match CutFirst(s)
    case NoPlaceholder => t := Last(s);
    case Placeholder(literal, name, rest) =>
      var u := CheckedHasTemplate(rest, redact);
      t := Then(literal, name, u);
      LiteralIsFree(s);
  }

  lemma {:induction false} LiteralIsFree(s: string)
    ensures FindPrefix(s).Some? ==> PrefixFree(s[..FindPrefix(s).value])
  {
    if !StartsHere(s) && FindPrefix(s).Some? {
      var k := FindPrefix(s).value;
      LiteralIsFree(s[1..]);
      assert s[..k][1..] == s[1..][..k - 1];
      assert |PREFIX| <= k ==> s[..k][..|PREFIX|] == s[..|PREFIX|];
    }
  }

  // --------------------------------------------------------------- theorems

  /** A text has at most one tidy reading. */
  lemma {:induction false} OneReading(t: Template, u: Template)
    requires Tidy(t) && Tidy(u) && Text(t) == Text(u)
    ensures t == u
  {
    match t
    case Last(text) =>
      if u.Then? {
        CutTemplate(u.literal, u.name, Text(u.rest));
        assert false;
      }
    case Then(literal, name, rest) =>
      CutTemplate(literal, name, Text(rest));
      if u.Then? {
        CutTemplate(u.literal, u.name, Text(u.rest));
        OneReading(rest, u.rest);
      } else {
        assert false;
      }
  }

  /**
   * The passes agree. A string passes the check exactly when it reads as a tidy template, and then substitution
   * succeeds exactly when every variable named in it is set; the result is that template's value.
   */
  lemma PassesAgree(s: string, redact: bool, env: map<string, string>)
    ensures Check(s, redact).Ok? <==> exists t :: Tidy(t) && Text(t) == s
    ensures Substitute(s, env).Ok? <==> exists t :: Tidy(t) && Text(t) == s && NamesOf(t) <= env.Keys
    ensures forall t :: Tidy(t) && Text(t) == s && NamesOf(t) <= env.Keys ==> Substitute(s, env) == Ok(Value(t, env))
    ensures Check(s, redact).Ok? && Substitute(s, env).Err? ==> Substitute(s, env).error.Missing?
  {
    if Check(s, redact).Ok? {
      var t := CheckedHasTemplate(s, redact);
      PassesOnTemplate(t, redact, env);
    }
    if Substitute(s, env).Ok? {
      SubstitutedIsChecked(s, redact, env);
      var t := CheckedHasTemplate(s, redact);
      PassesOnTemplate(t, redact, env);
    }
    forall t | Tidy(t) && Text(t) == s
      ensures Check(s, redact).Ok?
      ensures NamesOf(t) <= env.Keys ==> Substitute(s, env) == Ok(Value(t, env))
    {
      PassesOnTemplate(t, redact, env);
    }
  }

  lemma {:induction false} SubstitutedIsChecked(s: string, redact: bool, env: map<string, string>)
    requires Substitute(s, env).Ok?
    ensures Check(s, redact).Ok?
    decreases |s|
  {
    match CutFirst(s)
    case NoPlaceholder =>
    case Placeholder(_, _, rest) => SubstitutedIsChecked(rest, redact, env);
  }

  lemma WholeText(name: string)
    ensures Text(Then("", name, Last(""))) == PREFIX + name + "}"
  {
  }

  /** A whole-value reference is one reference and nothing else, and its value is exactly the variable's. */
  lemma WholeReferenceExactly(s: string, env: map<string, string>)
    ensures WholeReference(s) <==> exists name :: ValidName(name) && s == Text(Then("", name, Last("")))
    ensures forall name :: ValidName(name) && s == Text(Then("", name, Last(""))) ==>
      Substitute(s, env) == if name in env then Ok(env[name]) else Err(Missing(name))
  {
    if WholeReference(s) {
      var name := s[|PREFIX|..|s| - 1];
      assert s == Text(Then("", name, Last("")));
    }
    forall name | ValidName(name) && s == Text(Then("", name, Last("")))
      ensures WholeReference(s)
      ensures Substitute(s, env) == if name in env then Ok(env[name]) else Err(Missing(name))
    {
      WholeText(name);
      assert s[|PREFIX|..|s| - 1] == name && s[..|PREFIX|] == PREFIX;
      PassesOnTemplate(Then("", name, Last("")), false, env);
      if name in env {
        assert Value(Then("", name, Last("")), env) == env[name];
      }
    }
  }

  // ----------------------------------------------------------------- errors

  /** The marker, and the names by code point: an ASCII letter or underscore, then letters, underscores and digits. */
  lemma NamesAre(name: string)
    ensures PREFIX == ['{', 'e', 'n', 'v', ':']
    ensures ValidName(name) <==>
      && |name| > 0 && !(48 <= name[0] as int <= 57)
      && forall i :: 0 <= i < |name| ==>
           65 <= name[i] as int <= 90 || 97 <= name[i] as int <= 122 || name[i] as int == 95 || 48 <= name[i] as int <= 57
  {
  }

  ghost predicate MarkerAt(s: string, i: nat) {
    i + 5 <= |s| && s[i..i + 5] == "{env:"
  }

  /** A literal holds the marker nowhere. */
  lemma {:induction false} PrefixFreeExactly(s: string)
    ensures PrefixFree(s) <==> forall i: nat :: !MarkerAt(s, i)
    decreases |s|
  {
    if StartsHere(s) {
      assert MarkerAt(s, 0);
    } else if s != [] {
      var later := s[1..];
      PrefixFreeExactly(later);
      forall i: nat
        ensures MarkerAt(later, i) <==> MarkerAt(s, i + 1)
      {
        if i + 5 <= |later| { assert later[i..i + 5] == s[i + 1..i + 6]; }
      }
      assert !MarkerAt(s, 0) by {
        if |s| >= 5 { assert s[0..5] == s[..5]; }
      }
      forall i: nat | MarkerAt(s, i)
        ensures i > 0 && MarkerAt(later, i - 1)
      {
      }
    }
  }

  datatype Reference = Reference(literal: string, name: string)

  /** Well-formed references in front of the rest of a text. */
  ghost function Before(refs: seq<Reference>, tail: string): string {
    if refs == [] then tail else refs[0].literal + "{env:" + refs[0].name + "}" + Before(refs[1..], tail)
  }

  ghost predicate TidyRefs(refs: seq<Reference>) {
    forall i :: 0 <= i < |refs| ==> PrefixFree(refs[i].literal) && ValidName(refs[i].name)
  }

  /** What ends a scan: a marker that is never closed, a reference that is no name, or a name that is not set. */
  datatype Fault = NeverClosed(after: string) | NoName(name: string, rest: string) | NotSet(name: string, rest: string)

  ghost function FaultText(f: Fault): string {
    match f
    case NeverClosed(after) => "{env:" + after
    case NoName(name, rest) => "{env:" + name + "}" + rest
    case NotSet(name, rest) => "{env:" + name + "}" + rest
  }

  ghost predicate IsFault(f: Fault, env: map<string, string>) {
    match f
    case NeverClosed(after) => '}' !in after
    case NoName(name, _) => '}' !in name && !ValidName(name)
    case NotSet(name, _) => ValidName(name) && name !in env
  }

  /** The error that shows the offending text, and only that. */
  ghost function FaultError(f: Fault): ConfigError {
    match f
    case NeverClosed(after) => Malformed("{env:" + after)
    case NoName(name, _) => Malformed("{env:" + name + "}")
    case NotSet(name, _) => Missing(name)
  }

  /** `s` reads as well-formed references to set variables up to the fault `f`. */
  ghost predicate FaultyAt(s: string, env: map<string, string>, refs: seq<Reference>, literal: string, f: Fault) {
    && s == Before(refs, literal + FaultText(f)) && TidyRefs(refs) && PrefixFree(literal) && IsFault(f, env)
    && forall i :: 0 <= i < |refs| ==> refs[i].name in env
  }

  lemma CutFault(literal: string, f: Fault, env: map<string, string>)
    requires PrefixFree(literal) && IsFault(f, env)
    ensures CutFirst(literal + FaultText(f)) == if f.NeverClosed? then Unclosed(f.after) else Placeholder(literal, f.name, f.rest)
  {
    match f
    case NeverClosed(after) =>
      var s := literal + PREFIX + after;
      assert s == literal + FaultText(f);
      PrefixAfter(literal, after);
      assert s[|literal| + |PREFIX|..] == after;
    case NoName(name, rest) =>
      assert literal + FaultText(f) == literal + PREFIX + name + "}" + rest;
      CutTemplate(literal, name, rest);
    case NotSet(name, rest) =>
      assert literal + FaultText(f) == literal + PREFIX + name + "}" + rest;
      CutTemplate(literal, name, rest);
  }

  /** Both passes stop at the first fault in scan order; the check is the pass that does not look at the variables. */
  lemma {:induction false} FaultIsReported(s: string, env: map<string, string>, refs: seq<Reference>, literal: string, f: Fault)
    requires FaultyAt(s, env, refs, literal, f)
    ensures Substitute(s, env) == Err(FaultError(f))
    ensures !f.NotSet? ==> Check(s, false) == Err(FaultError(f)) && Check(s, true) == Err(Malformed("<redacted>"))
    decreases |refs|
  {
    CutHere(s, env, refs, literal, f);
    hide CutFirst, FaultText, Before, ValidName;
    if refs != [] {
      var tail := CutFirst(s).rest;
      FaultIsReported(tail, env, refs[1..], literal, f);
    }
  }

  /** What the first cut of a faulty text is. */
  lemma CutHere(s: string, env: map<string, string>, refs: seq<Reference>, literal: string, f: Fault)
    requires FaultyAt(s, env, refs, literal, f)
    ensures refs == [] ==> CutFirst(s) == if f.NeverClosed? then Unclosed(f.after) else Placeholder(literal, f.name, f.rest)
    ensures refs != [] ==>
      && CutFirst(s) == Placeholder(refs[0].literal, refs[0].name, Before(refs[1..], literal + FaultText(f)))
      && ValidName(refs[0].name) && refs[0].name in env
      && FaultyAt(Before(refs[1..], literal + FaultText(f)), env, refs[1..], literal, f)
  {
    hide FaultText, IsFault, CutFirst, FindPrefix, ValidName;
    if refs == [] {
      CutFault(literal, f, env);
    } else {
      BeforeUnfolds(refs, literal + FaultText(f));
      hide PREFIX, Before;
      ValidHasNoClose(refs[0].name);
      CutTemplate(refs[0].literal, refs[0].name, Before(refs[1..], literal + FaultText(f)));
    }
  }

  lemma BeforeUnfolds(refs: seq<Reference>, tail: string)
    requires refs != []
    ensures Before(refs, tail) == refs[0].literal + PREFIX + refs[0].name + "}" + Before(refs[1..], tail)
  {
  }

  lemma ValidHasNoClose(name: string)
    requires ValidName(name)
    ensures '}' !in name
  {
  }

  lemma UnclosedFault(s: string, env: map<string, string>)
    requires CutFirst(s).Unclosed?
    ensures FindPrefix(s).Some? && FaultyAt(s, env, [], s[..FindPrefix(s).value], NeverClosed(CutFirst(s).after))
  {
    LiteralIsFree(s);
    UnclosedText(s);
    hide FindPrefix, CutFirst, PREFIX;
  }

  lemma UnclosedText(s: string)
    requires CutFirst(s).Unclosed?
    ensures FindPrefix(s).Some? && '}' !in CutFirst(s).after && s == s[..FindPrefix(s).value] + FaultText(NeverClosed(CutFirst(s).after))
  {
    var k := FindPrefix(s).value;
    assert CutFirst(s).after == s[k + |PREFIX|..];
    assert FaultText(NeverClosed(CutFirst(s).after)) == PREFIX + CutFirst(s).after;
    hide PREFIX, FindPrefix, CutFirst, FindClose;
    assert s[k..k + |PREFIX|] == s[k..][..|PREFIX|] == PREFIX;
    assert s == s[..k] + (s[k..k + |PREFIX|] + s[k + |PREFIX|..]);
  }

  lemma CutLiteral(s: string)
    requires CutFirst(s).Placeholder?
    ensures PrefixFree(CutFirst(s).literal)
  {
    LiteralIsFree(s);
  }

  lemma NameFault(s: string, env: map<string, string>, f: Fault)
    requires CutFirst(s).Placeholder? && !f.NeverClosed? && f.name == CutFirst(s).name && f.rest == CutFirst(s).rest && IsFault(f, env)
    ensures FaultyAt(s, env, [], CutFirst(s).literal, f)
  {
    CutLiteral(s);
    var c := CutFirst(s);
    hide CutFirst, ValidName, IsFault;
    Regroup(c.literal, PREFIX, c.name, "}", c.rest);
    assert FaultText(f) == PREFIX + c.name + "}" + c.rest;
    assert Before([], c.literal + FaultText(f)) == s;
  }

  lemma Regroup(a: string, b: string, c: string, d: string, e: string)
    ensures a + b + c + d + e == a + (b + c + d + e)
  {
    assert a + b + c + d + e == a + b + c + (d + e) == a + b + (c + (d + e)) == a + (b + (c + (d + e)));
    assert b + c + d + e == b + c + (d + e) == b + (c + (d + e));
  }

  lemma LaterFault(s: string, env: map<string, string>, refs: seq<Reference>, literal: string, f: Fault)
    requires CutFirst(s).Placeholder? && ValidName(CutFirst(s).name) && CutFirst(s).name in env && FaultyAt(CutFirst(s).rest, env, refs, literal, f)
    ensures FaultyAt(s, env, [Reference(CutFirst(s).literal, CutFirst(s).name)] + refs, literal, f)
  {
    CutLiteral(s);
    var c := CutFirst(s);
    hide CutFirst, ValidName;
    assert s == c.literal + PREFIX + c.name + "}" + c.rest;
    assert ([Reference(c.literal, c.name)] + refs)[1..] == refs;
  }

  /** And a substitution that fails has such a fault. */
  lemma {:induction false} FailureHasFault(s: string, env: map<string, string>) returns (refs: seq<Reference>, literal: string, f: Fault)
    requires Substitute(s, env).Err?
    ensures FaultyAt(s, env, refs, literal, f)
    decreases |s|
  {
    hide CutFirst, FaultyAt, ValidName;
    match CutFirst(s)
    case Unclosed(after) =>
      UnclosedFault(s, env);
      refs, literal, f := [], s[..FindPrefix(s).value], NeverClosed(after);
    case Placeholder(before, name, rest) =>
      refs, literal := [], before;
      if !ValidName(name) {
        f := NoName(name, rest);
        NameFault(s, env, f);
      } else if name !in env {
        f := NotSet(name, rest);
        NameFault(s, env, f);
      } else {
        refs, literal, f := FailureHasFault(rest, env);
        LaterFault(s, env, refs, literal, f);
        refs := [Reference(before, name)] + refs;
      }
  }

  /** `check_placeholders_well_formed` fails exactly where substitution into an environment that sets every name would. */
  lemma {:induction false} CheckIsSubstitution(s: string, env: map<string, string>)
    requires Substitute(s, env).Err? ==> Substitute(s, env).error.Malformed?
    ensures Check(s, false) == if Substitute(s, env).Ok? then Ok(()) else Err(Substitute(s, env).error)
    ensures Check(s, true) == if Substitute(s, env).Ok? then Ok(()) else Err(Malformed("<redacted>"))
    decreases |s|
  {
    match CutFirst(s)
    case NoPlaceholder =>
    case Unclosed(_) =>
    case Placeholder(_, name, rest) => if ValidName(name) { CheckIsSubstitution(rest, env); }
  }
}
