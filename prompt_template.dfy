/**
  The prompt template engine of `PromptObject`: a prompt text holds
  placeholders written `{{name}}`. Variables are discovered by the regular
  expression `\{\{(.*?)\}\}`, modelled here by a direct scan, and `Compile`
  checks the supplied keyword arguments against them before substituting.
 */
module PromptTemplate {
  import opened Wrappers
  import opened PyStr
  import Seqs

  /** The characters `str.strip()` removes when called without arguments (`str.isspace`). */
  const Whitespace: set<char> := {
    '\t', '\n', '\U{0B}', '\U{0C}', '\r', '\U{1C}', '\U{1D}', '\U{1E}', '\U{1F}', ' ',
    '\U{85}', '\U{A0}', '\U{1680}', '\U{2000}', '\U{2001}', '\U{2002}', '\U{2003}',
    '\U{2004}', '\U{2005}', '\U{2006}', '\U{2007}', '\U{2008}', '\U{2009}', '\U{200A}',
    '\U{2028}', '\U{2029}', '\U{202F}', '\U{205F}', '\U{3000}'
  }

  /** The characters `_extract_variables` strips from each piece. */
  const Braces: set<char> := {'{', '}'}

  // ----- Variable discovery: re.findall(r'\{\{(.*?)\}\}', text) -----

  /**
    What the lazy group `(.*?)` can capture: no newline (`.` does not match one),
    and no `}}` inside or straddling its end, so the first `}}` after it is the one
    that closes the match.
   */
  predicate IsInner(m: string) {
    '\n' !in m && forall k :: 0 <= k < |m| && m[k] == '}' ==> k + 1 < |m| && m[k + 1] != '}'
  }

  /**
    Given the text `u` right after an opening `{{`, the length of the shortest
    inner text that a `}}` closes, if there is one before a newline.
   */
  function Close(u: string): (c: Option<nat>)
    ensures c.Some? ==> c.value + 2 <= |u| && u[c.value] == '}' && u[c.value + 1] == '}'
                        && IsInner(u[..c.value])
    ensures c.None? ==> forall k :: 0 <= k && k + 2 <= |u| && u[k] == '}' && u[k + 1] == '}'
                                    ==> !IsInner(u[..k])
    decreases |u|
  {
    if |u| < 2 then None
    else if u[0] == '}' && u[1] == '}' then Some(0)
    else if u[0] == '\n' then None
    else
      match Close(u[1..])
      case Some(k) =>
        assert u[..k + 1] == [u[0]] + u[1..][..k];
        InnerCons(u[0], u[1..][..k]);
        Some(k + 1)
      case None =>
        assert forall k :: 1 <= k && k + 2 <= |u| && u[k] == '}' && u[k + 1] == '}' ==> !IsInner(u[..k]) by {
          forall k | 1 <= k && k + 2 <= |u| && u[k] == '}' && u[k + 1] == '}' ensures !IsInner(u[..k]) {
            assert u[1..][k - 1] == '}' && u[1..][k] == '}';
            assert u[..k][1..] == u[1..][..k - 1];
            InnerNotAfterFirst(u[..k]);
          }
        }
        None
  }

  /** Putting one more character in front keeps an inner text inner, unless it makes a newline or `}}`. */
  lemma InnerCons(c: char, m: string)
    requires c != '\n' && IsInner(m)
    requires c == '}' ==> m != [] && m[0] != '}'
    ensures IsInner([c] + m)
  {
    var cm := [c] + m;
    forall k | 0 <= k < |cm| && cm[k] == '}' ensures k + 1 < |cm| && cm[k + 1] != '}' {
      if k > 0 { assert cm[k] == m[k - 1]; }
    }
  }

  /** If the text behind the first character is not inner, neither is the whole. */
  lemma InnerNotAfterFirst(m: string)
    requires m != [] && !IsInner(m[1..])
    ensures !IsInner(m)
  {
    if '\n' in m[1..] {
      var k :| 0 <= k < |m[1..]| && m[1..][k] == '\n';
      assert m[k + 1] == '\n';
    } else {
      var k :| 0 <= k < |m[1..]| && m[1..][k] == '}' && !(k + 1 < |m[1..]| && m[1..][k + 1] != '}');
      assert m[k + 1] == '}';
    }
  }

  /**
    The groups `re.findall` returns, left to right: at each position try to match
    `{{`, then the shortest inner text, then `}}`; after a match go on behind it,
    otherwise one character further.
   */
  function FindAll(s: string): (ms: seq<string>)
    ensures forall m :: m in ms ==> IsInner(m)
    decreases |s|
  {
    if |s| < 2 then []
    else if s[0] == '{' && s[1] == '{' then
      match Close(s[2..])
      case Some(k) =>
        assert s[2..][..k] == s[2..2 + k];
        [s[2..2 + k]] + FindAll(s[2 + k + 2..])
      case None => FindAll(s[1..])
    else FindAll(s[1..])
  }

  /** A match of `\{\{(.*?)\}\}` can start at index `i` of `s`. */
  predicate StartsMatch(s: string, i: nat) {
    i + 2 <= |s| && s[i] == '{' && s[i + 1] == '{' && Close(s[i + 2..]).Some?
  }

  /** No match can start before index `n`. */
  predicate NoStart(s: string, n: nat) {
    forall i: nat :: i < n ==> !StartsMatch(s, i)
  }

  /** Dropping the first character shifts every start one place to the left. */
  lemma StartsShift(s: string, i: nat)
    requires |s| >= 1
    ensures StartsMatch(s, i + 1) <==> StartsMatch(s[1..], i)
  {
    if i + 3 <= |s| {
      assert s[i + 3..] == s[1..][i + 2..];
    }
  }

  lemma NoStartShift(s: string, n: nat)
    requires |s| >= 1
    ensures NoStart(s, n + 1) <==> !StartsMatch(s, 0) && NoStart(s[1..], n)
  {
    forall i: nat | i < n { StartsShift(s, i); }
    if !StartsMatch(s, 0) && NoStart(s[1..], n) {
      forall i: nat | i < n + 1 ensures !StartsMatch(s, i) {
        if i > 0 { StartsShift(s, i - 1); }
      }
    }
  }

  /** Where no match can start, the scan moves one character on. */
  lemma FindAllSkip(s: string)
    requires |s| >= 1 && !StartsMatch(s, 0)
    ensures FindAll(s) == FindAll(s[1..])
  {
    if |s| >= 2 && s[0] == '{' && s[1] == '{' {
      assert Close(s[2..]).None?;
    }
  }

  /** The scan finds nothing exactly when no match can start anywhere in the text. */
  lemma {:induction false} FindAllEmptyIff(s: string)
    ensures FindAll(s) == [] <==> NoStart(s, |s|)
    decreases |s|
  {
    if |s| >= 2 {
      if StartsMatch(s, 0) {
        assert s[0 + 2..] == s[2..];
      } else {
        FindAllSkip(s);
        FindAllEmptyIff(s[1..]);
        NoStartShift(s, |s| - 1);
      }
    }
  }

  /**
    The scan's first match starts at the leftmost index where one can start; it
    is the shortest inner text there, and the scan goes on behind its `}}`.
   */
  lemma FindAllFirst(s: string, i: nat, k: nat)
    requires StartsMatch(s, i) && NoStart(s, i) && Close(s[i + 2..]) == Some(k)
    ensures i + 2 + k + 2 <= |s| && FindAll(s) == [s[i + 2..i + 2 + k]] + FindAll(s[i + 2 + k + 2..])
  {
    var u := s[i..];
    FindAllSkipMany(s, i);
    assert u[2..] == s[i + 2..];
    assert i + 2 + k + 2 <= |s| && u[0] == '{' && u[1] == '{';
    FindAllAtStart(u, k);
    var m, rest := u[2..2 + k], u[2 + k + 2..];
    assert m == s[i + 2..i + 2 + k] && rest == s[i + 2 + k + 2..];
  }

  /** The scan skips a prefix in which no match can start. */
  lemma {:induction false} FindAllSkipMany(s: string, i: nat)
    requires i <= |s| && NoStart(s, i)
    ensures FindAll(s) == FindAll(s[i..])
    decreases i
  {
    if i == 0 {
      assert s[0..] == s;
    } else {
      assert !StartsMatch(s, 0);
      FindAllSkip(s);
      NoStartShift(s, i - 1);
      FindAllSkipMany(s[1..], i - 1);
      assert s[1..][i - 1..] == s[i..];
    }
  }

  lemma FindAllAtStart(s: string, k: nat)
    requires |s| >= 2 && s[0] == '{' && s[1] == '{' && Close(s[2..]) == Some(k)
    ensures 2 + k + 2 <= |s| && FindAll(s) == [s[2..2 + k]] + FindAll(s[2 + k + 2..])
  {
    var u := s[2..];
    assert k + 2 <= |u|;
    var m, rest := u[..k], s[2 + k + 2..];
    assert m == s[2..2 + k];
    assert FindAll(s) == [m] + FindAll(rest);
  }

  /** The names `get_variables` keeps: matches without a double quote, whitespace-stripped. */
  function Qualifying(ms: seq<string>): (vs: seq<string>)
    ensures |vs| <= |ms|
    ensures forall v :: v in vs ==> '"' !in v && (v != [] ==> v[0] !in Whitespace && v[|v| - 1] !in Whitespace)
    ensures (forall m :: m in ms ==> '\n' !in m) ==> forall v :: v in vs ==> '\n' !in v
    decreases |ms|
  {
    if ms == [] then []
    else if '"' in ms[0] then Qualifying(ms[1..])
    else
      StripWithin(ms[0], Whitespace);
      [Strip(ms[0], Whitespace)] + Qualifying(ms[1..])
  }

  /**
    A name is kept exactly when it is the whitespace-stripped form of a match
    that has no double quote.
   */
  lemma {:induction false} QualifyingMembers(ms: seq<string>)
    ensures forall v :: v in Qualifying(ms) <==> exists m :: m in ms && '"' !in m && v == Strip(m, Whitespace)
    decreases |ms|
  {
    if ms != [] {
      QualifyingMembers(ms[1..]);
      assert ms == [ms[0]] + ms[1..];
      forall v | v in Qualifying(ms) ensures exists m :: m in ms && '"' !in m && v == Strip(m, Whitespace) {
        if '"' !in ms[0] && v == Strip(ms[0], Whitespace) {
        } else {
          assert v in Qualifying(ms[1..]);
          var m :| m in ms[1..] && '"' !in m && v == Strip(m, Whitespace);
          assert m in ms;
        }
      }
    }
  }

  /** Filtering keeps order: the names from two runs of matches are those of each, one after the other. */
  lemma {:induction false} QualifyingAppend(a: seq<string>, b: seq<string>)
    ensures Qualifying(a + b) == Qualifying(a) + Qualifying(b)
    decreases |a|
  {
    if a == [] {
      assert a + b == b;
    } else {
      var m, rest := a[0], a[1..];
      assert a == [m] + rest;
      assert a + b == [m] + (rest + b);
      QualifyingAppend(rest, b);
      QualifyingCons(m, rest);
      QualifyingCons(m, rest + b);
      Seqs.ConcatAssoc(Kept(m), Qualifying(rest), Qualifying(b));
    }
  }

  /** What one match contributes to the names: its stripped form, unless it has a double quote. */
  function Kept(m: string): seq<string> {
    if '"' in m then [] else [Strip(m, Whitespace)]
  }

  lemma QualifyingCons(m: string, ms: seq<string>)
    ensures Qualifying([m] + ms) == Kept(m) + Qualifying(ms)
  {
    assert ([m] + ms)[1..] == ms;
  }

  /** `get_variables`: the names of the placeholders, in order of appearance. */
  function GetVariables(text: string): (vars: seq<string>)
    ensures forall v :: v in vars ==> '"' !in v && '\n' !in v
    ensures forall v :: v in vars && v != [] ==> v[0] !in Whitespace && v[|v| - 1] !in Whitespace
  {
    Qualifying(FindAll(text))
  }

  /** What `get_variables` returns, by the matches it comes from. */
  lemma GetVariablesMembers(text: string)
    ensures forall v :: v in GetVariables(text) <==>
              exists m :: m in FindAll(text) && '"' !in m && v == Strip(m, Whitespace)
  {
    QualifyingMembers(FindAll(text));
  }

  /** `_extract_variables`: every piece after the first of `text.split('{{')`, braces stripped from both ends. */
  function ExtractVariables(text: string): (vars: seq<string>)
    ensures |vars| == |Split(text, "{{")| - 1
    ensures forall i :: 0 <= i < |vars| ==> vars[i] == Strip(Split(text, "{{")[i + 1], Braces)
    ensures forall i :: 0 <= i < |vars| && vars[i] != [] ==>
              vars[i][0] !in Braces && vars[i][|vars[i]| - 1] !in Braces
  {
    var pieces := Split(text, "{{");
    var vars := seq(|pieces| - 1, i requires 0 <= i < |pieces| - 1 => Strip(pieces[i + 1], Braces));
    assert forall i :: 0 <= i < |vars| ==> vars[i] == Strip(pieces[i + 1], Braces);
    vars
  }

  // ----- Compilation -----

  /** The literal placeholder `compile` looks for: `f"{{{{{key}}}}}"`, i.e. `{{key}}` with no spaces. */
  function Placeholder(key: string): (p: string)
    ensures |p| == |key| + 4
  {
    "{{" + key + "}}"
  }

  /** The set of names `get_variables` discovers. */
  function Required(text: string): set<string> {
    set v | v in GetVariables(text)
  }

  /** The keyword-argument names. */
  function Keys(kwargs: seq<(string, string)>): set<string> {
    set i | 0 <= i < |kwargs| :: kwargs[i].0
  }

  /** Each keyword argument's placeholder replaced by its value, one after another, in argument order. */
  function ApplyReplacements(s: string, kwargs: seq<(string, string)>): (r: string)
    ensures kwargs == [] ==> r == s
    ensures (forall i :: 0 <= i < |kwargs| ==> kwargs[i].1 == Placeholder(kwargs[i].0)) ==> r == s
    decreases |kwargs|
  {
    if kwargs == [] then s
    else ApplyReplacements(ReplaceAll(s, Placeholder(kwargs[0].0), kwargs[0].1), kwargs[1..])
  }

  /**
    What `compile` raises: the `TypeError` of Python's argument binding when a
    keyword argument is named `self` (it clashes with the method's own
    parameter), or a `ValueError` with the offending names.
   */
  datatype CompileError =
    | SelfKeyword
    | MissingVariables(missing: set<string>)
    | ExtraVariables(extra: set<string>)

  /** A prompt text together with the variables `_extract_variables` found in it at construction. */
  class PromptObject {
    const text: string
    const variables: seq<string>

    constructor (text: string)
      ensures this.text == text && variables == ExtractVariables(text)
    {
      this.text := text;
      this.variables := ExtractVariables(text);
    }

    /**
      `compile(**kwargs)`, with the values already converted by `str`. A keyword
      named `self` is refused before the body runs. Missing names
      are reported before extra ones, validation uses `GetVariables` (not
      `variables`), and on success the placeholders are replaced in argument order.
     */
    method Compile(kwargs: seq<(string, string)>) returns (r: Result<string, CompileError>)
      ensures "self" in Keys(kwargs) ==> r == Failure(SelfKeyword)
      ensures "self" !in Keys(kwargs) && Required(text) - Keys(kwargs) != {} ==>
                r == Failure(MissingVariables(Required(text) - Keys(kwargs)))
      ensures "self" !in Keys(kwargs) && Required(text) < Keys(kwargs) ==>
                r == Failure(ExtraVariables(Keys(kwargs) - Required(text)))
      ensures "self" !in Keys(kwargs) && Required(text) == Keys(kwargs) ==>
                r == Success(ApplyReplacements(text, kwargs))
      ensures r.Success? <==> "self" !in Keys(kwargs) && Required(text) == Keys(kwargs)
      ensures GetVariables(text) == [] && kwargs == [] ==> r == Success(text)
    {
      if "self" in Keys(kwargs) {
        return Failure(SelfKeyword);
      }
      var required := Required(text);
      var provided := Keys(kwargs);
      var missing := required - provided;
      var extra := provided - required;
      if missing != {} {
        return Failure(MissingVariables(missing));
      }
      assert required <= provided by {
        forall v | v in required ensures v in provided { assert v !in missing; }
      }
      if extra != {} {
        return Failure(ExtraVariables(extra));
      }
      assert required == provided by {
        forall v | v in provided ensures v in required { assert v !in extra; }
      }
      var compiled := text;
      var i := 0;
      while i < |kwargs|
        invariant 0 <= i <= |kwargs|
        invariant ApplyReplacements(compiled, kwargs[i..]) == ApplyReplacements(text, kwargs)
      {
        assert kwargs[i..][1..] == kwargs[i + 1..];
        compiled := ReplaceAll(compiled, Placeholder(kwargs[i].0), kwargs[i].1);
        i := i + 1;
      }
      return Success(compiled);
    }
  }

  // ----- Templates built from literal text and placeholders -----

  /** A prompt text as a sequence of pieces: literal text, or a `{{inner}}` placeholder. */
  datatype Piece = Literal(chars: string) | Hole(inner: string)

  function Render(ps: seq<Piece>): string
    decreases |ps|
  {
    if ps == [] then ""
    else
      match ps[0]
      case Literal(t) => t + Render(ps[1..])
      case Hole(m) => "{{" + m + "}}" + Render(ps[1..])
  }

  /** The inner texts of the placeholders, in order. */
  function Inners(ps: seq<Piece>): seq<string>
    decreases |ps|
  {
    if ps == [] then []
    else if ps[0].Hole? then [ps[0].inner] + Inners(ps[1..])
    else Inners(ps[1..])
  }

  /** Literal text without `{`, placeholders whose inner text the lazy group can capture. */
  predicate WellFormed(ps: seq<Piece>) {
    forall i :: 0 <= i < |ps| ==>
      match ps[i]
      case Literal(t) => '{' !in t
      case Hole(m) => IsInner(m)
  }

  /** The first `}}` after an inner text closes it. */
  lemma CloseAfterInner(m: string, rest: string)
    requires IsInner(m)
    ensures Close(m + "}}" + rest) == Some(|m|)
  {
    var u := m + "}}" + rest;
    assert u[..|m|] == m;
    assert u[|m|] == '}' && u[|m| + 1] == '}';
    forall c | 0 <= c < |m| ensures !(u[c] == '}' && u[c + 1] == '}') {
      assert u[c] == m[c];
      if c + 1 < |m| { assert u[c + 1] == m[c + 1]; }
    }
    forall c | |m| < c <= |u| ensures !IsInner(u[..c]) {
      assert u[..c][|m|] == '}';
      if |m| + 1 < c { assert u[..c][|m| + 1] == '}'; }
    }
  }

  /** Literal text without `{` contributes no match. */
  lemma {:induction false} FindAllSkipsLiteral(t: string, rest: string)
    requires '{' !in t
    ensures FindAll(t + rest) == FindAll(rest)
    decreases |t|
  {
    if t != [] {
      var u := t + rest;
      assert t[0] in t;
      assert u[0] == t[0] && u[1..] == t[1..] + rest;
      FindAllSkipsLiteral(t[1..], rest);
      if |u| >= 2 {
        assert FindAll(u) == FindAll(u[1..]);
      } else {
        assert rest == [] && FindAll(u) == [];
      }
    } else {
      assert t + rest == rest;
    }
  }

  /** A placeholder contributes exactly its inner text, and the scan resumes behind it. */
  lemma FindAllOverHole(m: string, rest: string)
    requires IsInner(m)
    ensures FindAll("{{" + m + "}}" + rest) == [m] + FindAll(rest)
  {
    var s := "{{" + m + "}}" + rest;
    assert s[2..] == m + "}}" + rest;
    CloseAfterInner(m, rest);
    assert s[2..2 + |m|] == m;
    assert s[2 + |m| + 2..] == rest;
  }

  /**
    Scanning a rendered template finds exactly its placeholders' inner texts,
    in order, and `get_variables` is their quote-free, stripped versions.
   */
  lemma {:induction false} FindAllRender(ps: seq<Piece>)
    requires WellFormed(ps)
    ensures FindAll(Render(ps)) == Inners(ps)
    ensures GetVariables(Render(ps)) == Qualifying(Inners(ps))
    decreases |ps|
  {
    if ps != [] {
      assert WellFormed(ps[1..]) by {
        forall i | 0 <= i < |ps| - 1 ensures ps[1..][i] == ps[i + 1] { }
      }
      FindAllRender(ps[1..]);
      assert match ps[0] case Literal(t) => '{' !in t case Hole(m) => IsInner(m);
      match ps[0]
      case Literal(t) => FindAllSkipsLiteral(t, Render(ps[1..]));
      case Hole(m) => FindAllOverHole(m, Render(ps[1..]));
    }
  }

  /** `_extract_variables` returns nothing exactly when the text has no `{{`. */
  lemma ExtractVariablesEmptyIff(text: string)
    ensures ExtractVariables(text) == [] <==> !Contains(text, "{{")
  {
    SplitSingleIff(text, "{{");
  }

  /** Applying a list of replacements is applying its first part, then its second. */
  lemma {:induction false} ApplyReplacementsAppend(s: string, kw1: seq<(string, string)>, kw2: seq<(string, string)>)
    ensures ApplyReplacements(s, kw1 + kw2) == ApplyReplacements(ApplyReplacements(s, kw1), kw2)
    decreases |kw1|
  {
    if kw1 == [] {
      assert kw1 + kw2 == kw2;
    } else {
      assert (kw1 + kw2)[0] == kw1[0];
      assert (kw1 + kw2)[1..] == kw1[1..] + kw2;
      ApplyReplacementsAppend(ReplaceAll(s, Placeholder(kw1[0].0), kw1[0].1), kw1[1..], kw2);
    }
  }

  /** Each step of the compilation is `value.join(text.split('{{key}}'))`. */
  lemma ReplacementStepIsJoinSplit(s: string, key: string, value: string)
    ensures ApplyReplacements(s, [(key, value)]) == Join(Split(s, Placeholder(key)), value)
  {
    ReplaceAllIsJoinSplit(s, Placeholder(key), value);
  }

  /** The spaced placeholder `{{ name }}` as a template piece. */
  function Spaced(name: string): string {
    "{{ " + name + " }}"
  }

  /** A name `get_variables` can report back unchanged: no braces, quote or newline, no outer whitespace. */
  predicate PlainName(name: string) {
    name != [] && '{' !in name && '}' !in name && '"' !in name && '\n' !in name
    && name[0] !in Whitespace && name[|name| - 1] !in Whitespace
  }

  /** `{{ name }}` is the template made of one placeholder whose inner text is ` name `. */
  lemma SpacedIsRendered(name: string)
    ensures Render([Hole(" " + name + " ")]) == Spaced(name)
    ensures Inners([Hole(" " + name + " ")]) == [" " + name + " "]
  {
    var ps := [Hole(" " + name + " ")];
    assert Render(ps[1..]) == "" && Inners(ps[1..]) == [];
  }

  /** Stripping whitespace from ` name ` gives `name`. */
  lemma StripSpaces(name: string)
    requires PlainName(name)
    ensures Strip(" " + name + " ", Whitespace) == name
  {
    var inner := " " + name + " ";
    assert LStrip(inner, Whitespace) == name + " " by {
      assert inner[1..] == name + " ";
    }
    assert RStrip(name + " ", Whitespace) == name by {
      assert (name + " ")[..|name|] == name;
    }
  }

  /** A single quote-free match is reported stripped. */
  lemma QualifyingSingle(m: string)
    requires '"' !in m
    ensures Qualifying([m]) == [Strip(m, Whitespace)]
  {
    var ms: seq<string> := [m];
    assert ms[1..] == [];
  }

  /** `get_variables` strips the spaces of `{{ name }}` and reports `name`. */
  lemma SpacedPlaceholderDiscovered(name: string)
    requires PlainName(name)
    ensures GetVariables(Spaced(name)) == [name]
  {
    var inner := " " + name + " ";
    var ps := [Hole(inner)];
    assert IsInner(inner);
    assert WellFormed(ps);
    SpacedIsRendered(name);
    FindAllRender(ps);
    assert GetVariables(Spaced(name)) == Qualifying([inner]);
    assert '"' !in inner;
    QualifyingSingle(inner);
    StripSpaces(name);
  }

  /** The exact placeholder `{{name}}` does not occur in `{{ name }}`, so compiling leaves it as it is. */
  lemma SpacedPlaceholderUnreplaced(name: string, value: string)
    requires PlainName(name)
    ensures ApplyReplacements(Spaced(name), [(name, value)]) == Spaced(name)
  {
    var t := Spaced(name);
    var pat := Placeholder(name);
    var tail := name + " }}";
    assert t[2] == ' ' && t[3..] == tail;
    assert '{' !in tail;
    forall i: nat | i <= |t| ensures !OccursAt(t, pat, i) {
      if i + |pat| <= |t| {
        assert t[i..i + |pat|][0] == t[i] && t[i..i + |pat|][1] == t[i + 1];
        if i == 0 {
          assert t[i..i + |pat|][2] == ' ' != name[0] == pat[2];
        } else if i >= 2 {
          assert t[i + 1] == tail[i - 2];
        }
      }
    }
    ReplaceAllAbsent(t, pat, value);
    var kw: seq<(string, string)> := [(name, value)];
    assert kw[1..] == [];
  }

  /** `{{ name }}` splits on `{{` into an empty piece and ` name }}`. */
  lemma SplitSpaced(name: string)
    requires PlainName(name)
    ensures Split(Spaced(name), "{{") == ["", " " + name + " }}"]
  {
    var t := Spaced(name);
    var piece := " " + name + " }}";
    assert t[..2] == "{{" && t[2..] == piece;
    assert '{' !in piece;
    AbsentFirstChar(piece, "{{");
    SplitAbsent(piece, "{{");
  }

  /** Stripping braces from ` name }}` gives ` name `. */
  lemma StripBracesSpaced(name: string)
    requires PlainName(name)
    ensures Strip(" " + name + " }}", Braces) == " " + name + " "
  {
    var inner := " " + name + " ";
    var piece := " " + name + " }}";
    assert piece == inner + "}}";
    assert LStrip(piece, Braces) == piece;
    assert piece[..|piece| - 1] == inner + "}";
    assert RStrip(piece, Braces) == RStrip(inner + "}", Braces);
    assert (inner + "}")[..|inner|] == inner;
    assert RStrip(inner + "}", Braces) == RStrip(inner, Braces);
  }

  /** `_extract_variables` keeps the inner spaces of `{{ name }}`. */
  lemma SpacedPlaceholderExtracted(name: string)
    requires PlainName(name)
    ensures ExtractVariables(Spaced(name)) == [" " + name + " "]
  {
    var pieces := Split(Spaced(name), "{{");
    SplitSpaced(name);
    StripBracesSpaced(name);
    assert |pieces| - 1 == 1;
    assert ExtractVariables(Spaced(name))[0] == Strip(pieces[1], Braces);
  }

  /**
    A placeholder written with inner spaces passes validation for its stripped
    name, yet compiling with that key returns the text unchanged.
   */
  lemma SpacedPlaceholderStaysUnreplaced(name: string, value: string)
    requires PlainName(name)
    ensures Required(Spaced(name)) == Keys([(name, value)])
    ensures ApplyReplacements(Spaced(name), [(name, value)]) == Spaced(name)
  {
    SpacedPlaceholderDiscovered(name);
    var kw: seq<(string, string)> := [(name, value)];
    assert name in Keys(kw) by { assert kw[0].0 == name; }
    assert Keys(kw) == {name};
    SpacedPlaceholderUnreplaced(name, value);
  }

  /** Stripping whitespace from a plain name leaves it as it is. */
  lemma StripPlain(name: string)
    requires PlainName(name)
    ensures Strip(name, Whitespace) == name
  {
    assert LStrip(name, Whitespace) == name;
    assert RStrip(name, Whitespace) == name;
  }

  /** `get_variables` reports the name of an exact placeholder `{{name}}`. */
  lemma ExactPlaceholderDiscovered(name: string)
    requires PlainName(name)
    ensures GetVariables(Placeholder(name)) == [name]
  {
    var ps := [Hole(name)];
    assert Render(ps[1..]) == "" && Inners(ps[1..]) == [];
    assert Render(ps) == Placeholder(name) && Inners(ps) == [name];
    assert IsInner(name);
    assert WellFormed(ps);
    FindAllRender(ps);
    QualifyingSingle(name);
    StripPlain(name);
  }

  /** `{{name}}` splits on `{{` into an empty piece and `name}}`. */
  lemma SplitExact(name: string)
    requires PlainName(name)
    ensures Split(Placeholder(name), "{{") == ["", name + "}}"]
  {
    var t := Placeholder(name);
    var piece := name + "}}";
    assert t[..2] == "{{" && t[2..] == piece;
    assert '{' !in piece;
    AbsentFirstChar(piece, "{{");
    SplitAbsent(piece, "{{");
  }

  /** Stripping braces from `name}}` gives `name`. */
  lemma StripBracesExact(name: string)
    requires PlainName(name)
    ensures Strip(name + "}}", Braces) == name
  {
    var piece := name + "}}";
    assert LStrip(piece, Braces) == piece;
    assert piece == (name + "}") + "}";
    RStripBrace(name + "}");
    RStripBrace(name);
    assert RStrip(name, Braces) == name;
  }

  /** A closing brace at the end is stripped by `rstrip`. */
  lemma RStripBrace(x: string)
    ensures RStrip(x + "}", Braces) == RStrip(x, Braces)
  {
    assert (x + "}")[..|x|] == x;
  }

  /** `_extract_variables` agrees with `get_variables` on an exact placeholder `{{name}}`. */
  lemma ExactPlaceholderExtracted(name: string)
    requires PlainName(name)
    ensures ExtractVariables(Placeholder(name)) == [name]
  {
    var vars := ExtractVariables(Placeholder(name));
    SplitExact(name);
    StripBracesExact(name);
    assert |vars| == 1 && vars[0] == Strip(name + "}}", Braces);
  }

  /**
    Compiling the exact placeholder `{{name}}` with that one key passes
    validation and yields the value.
   */
  lemma ExactPlaceholderCompiled(name: string, value: string)
    requires PlainName(name)
    ensures Required(Placeholder(name)) == Keys([(name, value)])
    ensures ApplyReplacements(Placeholder(name), [(name, value)]) == value
  {
    ExactPlaceholderDiscovered(name);
    var kw: seq<(string, string)> := [(name, value)];
    assert name in Keys(kw) by { assert kw[0].0 == name; }
    assert Keys(kw) == {name};
    var p := Placeholder(name);
    assert p[..|p|] == p && p[|p|..] == "";
    assert ReplaceAll(p, p, value) == value + ReplaceAll("", p, value);
    assert kw[1..] == [];
  }
}
