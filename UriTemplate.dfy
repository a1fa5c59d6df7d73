/**
 * URI templates such as "/redirect/{foo}": literal text interleaved with
 * `{name}` placeholders. A template is parsed into segments, and expanding
 * it substitutes a value for each placeholder.
 */
module UriTemplate {
  import opened Wrappers
  import opened Strings

  datatype Segment = Lit(text: string) | Var(name: string)

  type Template = seq<Segment>

  /** Add one literal character in front of a template, merging with a leading literal. */
  function ConsChar(c: char, t: Template): Template {
    if t != [] && t[0].Lit? then [Lit([c] + t[0].text)] + t[1..] else [Lit([c])] + t
  }

  /**
   * Split template text into segments. A `{` that has a later `}` opens a
   * placeholder up to the first `}`; a `{` with no `}` after it is literal.
   */
  function Parse(s: string): Template
    decreases |s|
  {
    if s == [] then []
    else if s[0] == '{' && '}' in s[1..] then
      var k := FirstIndex(s[1..], '}');
      [Var(s[1..k + 1])] + Parse(s[k + 2..])
    else ConsChar(s[0], Parse(s[1..]))
  }

  /** The text of one segment. */
  function SegmentText(g: Segment): string {
    match g
    case Lit(x) => x
    case Var(n) => "{" + n + "}"
  }

  /** Print a template back as text. */
  function Show(t: Template): string
    decreases |t|
  {
    if t == [] then [] else SegmentText(t[0]) + Show(t[1..])
  }

  /** The placeholder names of a template, in order of appearance. */
  function Names(t: Template): seq<string>
    decreases |t|
  {
    if t == [] then []
    else if t[0].Var? then [t[0].name] + Names(t[1..])
    else Names(t[1..])
  }

  /**
   * Substitute `vars[n]` for every placeholder `{n}`. A placeholder with no
   * value fails with its name: a path value may never be silently dropped.
   */
  function Expand(t: Template, vars: map<string, string>): (r: Result<string, string>)
    ensures r.Err? ==> r.error in Names(t) && r.error !in vars
    decreases |t|
  {
    if t == [] then Ok([])
    else
      var rest := Expand(t[1..], vars);
      match t[0]
      case Lit(x) => if rest.Err? then rest else Ok(x + rest.value)
      case Var(n) =>
        if n !in vars then Err(n)
        else if rest.Err? then rest
        else Ok(vars[n] + rest.value)
  }

  // ---- Properties ----

  /** The names are exactly the placeholders of the template. */
  lemma {:induction false} NamesArePlaceholders(t: Template, n: string)
    ensures n in Names(t) <==> Var(n) in t
    decreases |t|
  {
    if t != [] {
      NamesArePlaceholders(t[1..], n);
      assert t == [t[0]] + t[1..];
    }
  }

  /** Expansion fails exactly when some placeholder has no value. */
    lemma {:induction false} ExpandFails(t: Template, vars: map<string, string>)
    ensures Expand(t, vars).Err? <==> exists n :: n in Names(t) && n !in vars
    decreases |t|
  {
    if t != [] {
      ExpandFails(t[1..], vars);
      if Expand(t, vars).Err? && t[0].Var? && t[0].name !in vars {
        assert t[0].name in Names(t);
      }
    }
  }

  /** Prepending a character to a template prepends it to the text. */
  lemma ShowConsChar(c: char, t: Template)
    ensures Show(ConsChar(c, t)) == [c] + Show(t)
  {
    if t != [] && t[0].Lit? {
      assert ConsChar(c, t)[1..] == t[1..];
    }
  }

  /** A placeholder at the very start of the text. */
  lemma ParseOpening(name: string, rest: string)
    requires '}' !in name
    ensures Parse("{" + name + "}" + rest) == [Var(name)] + Parse(rest)
  {
    var s := "{" + name + "}" + rest;
    assert s[1..] == name + "}" + rest;
    assert s[1..][|name|] == '}';
    var k := FirstIndex(s[1..], '}');
    assert k == |name|;
    assert s[1..k + 1] == name;
    assert s[k + 2..] == rest;
  }

  /** A text that opens a placeholder is `{`, a name without `}`, `}` and the rest. */
  lemma OpeningParts(s: string)
    requires s != [] && s[0] == '{' && '}' in s[1..]
    ensures '}' !in s[1..FirstIndex(s[1..], '}') + 1]
    ensures s == "{" + s[1..FirstIndex(s[1..], '}') + 1] + "}" + ParseRest(s)
  {
    var k := FirstIndex(s[1..], '}');
    var name := s[1..k + 1];
    forall i | 0 <= i < |name| ensures name[i] != '}' {
      assert name[i] == s[1..][i];
    }
    assert s[k + 1] == '}';
    assert s == [s[0]] + name + [s[k + 1]] + s[k + 2..];
  }

  /** A text that opens a placeholder prints back as that placeholder and the rest. */
  lemma ShowParseOpen(s: string)
    requires s != [] && s[0] == '{' && '}' in s[1..]
    requires Show(Parse(ParseRest(s))) == ParseRest(s)
    ensures Show(Parse(s)) == s
  {
    var name := s[1..FirstIndex(s[1..], '}') + 1];
    var rest := ParseRest(s);
    OpeningParts(s);
    ParseOpening(name, rest);
    ShowVar(name, Parse(rest));
  }

  /** Printing a template that starts with a placeholder. */
  lemma ShowVar(name: string, t: Template)
    ensures Show([Var(name)] + t) == "{" + name + "}" + Show(t)
  {
    assert ([Var(name)] + t)[1..] == t;
  }

  /** A text that starts with a literal character prints back the same way. */
  lemma ShowParseLiteral(s: string)
    requires s != [] && !(s[0] == '{' && '}' in s[1..])
    requires Show(Parse(ParseRest(s))) == ParseRest(s)
    ensures Show(Parse(s)) == s
  {
    assert ParseRest(s) == s[1..];
    assert Parse(s) == ConsChar(s[0], Parse(s[1..]));
    ShowConsChar(s[0], Parse(s[1..]));
    assert s == [s[0]] + s[1..];
  }

  /** The text `Parse` continues with after the first segment it reads. */
  function ParseRest(s: string): (r: string)
    requires s != []
    ensures |r| < |s|
  {
    if s[0] == '{' && '}' in s[1..] then s[FirstIndex(s[1..], '}') + 2..] else s[1..]
  }

  /** Printing back is exact for a text if it is for the text's remainder. */
  lemma ShowParseStep(s: string)
    requires s != []
    requires Show(Parse(ParseRest(s))) == ParseRest(s)
    ensures Show(Parse(s)) == s
  {
    if s[0] == '{' && '}' in s[1..] {
      ShowParseOpen(s);
    } else {
      ShowParseLiteral(s);
    }
  }

  /** Parsing loses nothing: printing a parsed template gives back the text. */
  lemma {:induction false} ShowParse(s: string)
    ensures Show(Parse(s)) == s
    decreases |s|
  {
    if s != [] {
      ShowParse(ParseRest(s));
      ShowParseStep(s);
    }
  }

  /** A leading character other than `{` is literal. */
  lemma ParseHead(c: char, t: string)
    requires c != '{'
    ensures Parse([c] + t) == ConsChar(c, Parse(t))
  {
    assert ([c] + t)[1..] == t;
  }

  /** Text with no `{` is one literal segment (or nothing, when empty). */
  lemma {:induction false} ParseLiteral(s: string)
    requires '{' !in s
    ensures Parse(s) == if s == [] then [] else [Lit(s)]
    decreases |s|
  {
    if s != [] {
      assert s[0] != '{' by { assert s[0] in s; }
      assert '{' !in s[1..] by {
        forall x | x in s[1..] ensures x in s { }
      }
      ParseLiteral(s[1..]);
      ParseHead(s[0], s[1..]);
      assert s == [s[0]] + s[1..];
      if s[1..] == [] {
        assert ConsChar(s[0], []) == [Lit([s[0]])];
        assert [s[0]] == s;
      } else {
        assert ConsChar(s[0], [Lit(s[1..])]) == [Lit([s[0]] + s[1..])];
      }
    }
  }

  /** Prepending a character only touches the leading segment. */
  lemma ConsCharAppend(c: char, a: Template, b: Template)
    requires a == [] ==> b == [] || b[0].Var?
    ensures ConsChar(c, a + b) == ConsChar(c, a) + b
  {
    if a == [] {
      ConsCharAppendEmpty(c, a, b);
    } else if a[0].Lit? {
      ConsCharAppendLit(c, a, b);
    } else {
      ConsCharAppendVar(c, a, b);
    }
  }

  lemma ConsCharAppendEmpty(c: char, a: Template, b: Template)
    requires a == [] && (b == [] || b[0].Var?)
    ensures ConsChar(c, a + b) == ConsChar(c, a) + b
  {
    assert a + b == b;
    assert ConsChar(c, b) == [Lit([c])] + b;
  }

  lemma ConsCharAppendLit(c: char, a: Template, b: Template)
    requires a != [] && a[0].Lit?
    ensures ConsChar(c, a + b) == ConsChar(c, a) + b
  {
    var x := Lit([c] + a[0].text);
    assert (a + b)[0] == a[0];
    assert (a + b)[1..] == a[1..] + b;
    assert ConsChar(c, a + b) == [x] + (a[1..] + b);
    assert ConsChar(c, a) == [x] + a[1..];
  }

  lemma ConsCharAppendVar(c: char, a: Template, b: Template)
    requires a != [] && a[0].Var?
    ensures ConsChar(c, a + b) == ConsChar(c, a) + b
  {
    assert (a + b)[0] == a[0];
    assert ConsChar(c, a + b) == [Lit([c])] + (a + b);
    assert ConsChar(c, a) == [Lit([c])] + a;
  }

  /** Literal text followed by one placeholder and more template text. */
  lemma {:induction false} ParsePlaceholder(lit: string, name: string, rest: string)
    requires '{' !in lit && '}' !in name
    ensures Parse(lit + "{" + name + "}" + rest) == Parse(lit) + [Var(name)] + Parse(rest)
    decreases |lit|
  {
    if lit == [] {
      assert lit + "{" + name + "}" + rest == "{" + name + "}" + rest;
      ParseOpening(name, rest);
    } else {
      var c, more := lit[0], lit[1..];
      assert c != '{' by { assert lit[0] in lit; }
      assert '{' !in more by {
        forall x | x in more ensures x in lit { }
      }
      calc {
        Parse(lit + "{" + name + "}" + rest);
        { assert lit + "{" + name + "}" + rest == [c] + (more + "{" + name + "}" + rest); }
        Parse([c] + (more + "{" + name + "}" + rest));
        { ParseHead(c, more + "{" + name + "}" + rest); }
        ConsChar(c, Parse(more + "{" + name + "}" + rest));
        { ParsePlaceholder(more, name, rest); }
        ConsChar(c, Parse(more) + [Var(name)] + Parse(rest));
        { assert Parse(more) + [Var(name)] + Parse(rest) == Parse(more) + ([Var(name)] + Parse(rest));
          ConsCharAppend(c, Parse(more), [Var(name)] + Parse(rest)); }
        ConsChar(c, Parse(more)) + ([Var(name)] + Parse(rest));
        { ParseHead(c, more); assert lit == [c] + more; }
        Parse(lit) + [Var(name)] + Parse(rest);
      }
    }
  }

  /** A template with no placeholders expands to its own text, whatever the values. */
  lemma {:induction false} ExpandNoPlaceholders(t: Template, vars: map<string, string>)
    requires Names(t) == []
    ensures Expand(t, vars) == Ok(Show(t))
    decreases |t|
  {
    if t != [] {
      ExpandNoPlaceholders(t[1..], vars);
    }
  }

  /** Literal text followed by one placeholder with a value. */
  lemma ExpandLitVar(lit: string, name: string, vars: map<string, string>)
    requires name in vars
    ensures Expand([Var(name)], vars) == Ok(vars[name])
    ensures Expand([Lit(lit), Var(name)], vars) == Ok(lit + vars[name])
  {
    assert [Var(name)][1..] == [];
    assert vars[name] + [] == vars[name];
    assert [Lit(lit), Var(name)][1..] == [Var(name)];
  }

  /** Expansion works segment by segment: it distributes over concatenation. */
  lemma {:induction false} ExpandAppend(a: Template, b: Template, vars: map<string, string>)
    requires Expand(a, vars).Ok? && Expand(b, vars).Ok?
    ensures Expand(a + b, vars) == Ok(Expand(a, vars).value + Expand(b, vars).value)
    decreases |a|
  {
    if a == [] {
      assert a + b == b;
      assert [] + Expand(b, vars).value == Expand(b, vars).value;
    } else {
      assert (a + b)[0] == a[0];
      assert (a + b)[1..] == a[1..] + b;
      assert Expand(a[1..], vars).Ok?;
      ExpandAppend(a[1..], b, vars);
      var x := Expand(a[1..], vars).value;
      var y := Expand(b, vars).value;
      match a[0]
      case Lit(l) =>
        assert l + (x + y) == (l + x) + y;
      case Var(n) =>
        assert vars[n] + (x + y) == (vars[n] + x) + y;
    }
  }
}
