/**
 * The value codec: turns each recorded argument, given its parameter
 * descriptor, into a path substitution or into query entries, and writes
 * the query entries as a query string.
 */
module Codec {
  import opened Wrappers
  import opened Decimal
  import opened Strings
  import opened Bindings

  /** A scalar argument: text, or a boxed integer. */
  datatype Scalar = Text(text: string) | Number(number: int)

  /** A recorded argument value, by its runtime shape. */
  datatype Arg =
    | Null
    | Value(value: Scalar)
    | Optional(option: Option<Scalar>)
    | OneOf(either: Either<Scalar, Scalar>)
    | Many(items: seq<Scalar>)
      /** A QueryParameters value: name/value pairs in insertion order. */
    | Pairs(pairs: Query)

  /** Query entries, in order, repeats allowed. */
  type Query = seq<(string, string)>

  datatype Error =
    | UnregisteredMethod(resource: MethodId)
    | ArityMismatch(expected: nat, actual: nat)
    | MissingPathValue(name: string)
    | UnsupportedValue(name: string)

  /** The text of a scalar; a number in Java's decimal form. */
  function StringForm(v: Scalar): string {
    match v
    case Text(s) => s
    case Number(n) => IntToString(n)
  }

  /** One `name` entry per element, in iteration order. */
  function Repeated(name: string, items: seq<Scalar>): Query
    decreases |items|
  {
    if items == [] then [] else [(name, StringForm(items[0]))] + Repeated(name, items[1..])
  }

  /** The query entries of a `@QueryParam(name)` argument with an optional default. */
  function QueryValues(name: string, default: Option<string>, a: Arg): (r: Result<Query, Error>)
    ensures r.Err? <==> a.Pairs?
    ensures r.Ok? ==> forall i :: 0 <= i < |r.value| ==> r.value[i].0 == name
    ensures a.Value? ==> r == Ok([(name, StringForm(a.value))])
    ensures a.OneOf? ==> r == Ok([(name, StringForm(if a.either.Left? then a.either.left else a.either.right))])
  {
    match a
    case Null => Ok(if default.Some? then [(name, default.value)] else [])
    case Value(v) => Ok([(name, StringForm(v))])
    case Optional(o) => Ok(if o.Some? then [(name, StringForm(o.value))] else [])
    case OneOf(e) => Ok([(name, StringForm(if e.Left? then e.left else e.right))])
    case Many(items) =>
      RepeatedEntries(name, items);
      Ok(Repeated(name, items))
    case Pairs(_) => Err(UnsupportedValue(name))
  }

  /** The substitution text of a `@PathParam(name)` argument. */
  function PathValue(name: string, a: Arg): (r: Result<string, Error>)
    ensures r.Ok? <==> a.Value?
    ensures a.Null? ==> r == Err(MissingPathValue(name))
    ensures a.Value? ==> r == Ok(StringForm(a.value))
  {
    match a
    case Null => Err(MissingPathValue(name))
    case Value(v) => Ok(StringForm(v))
    case _ => Err(UnsupportedValue(name))
  }

  /** The entries of a QueryParameters argument: its own pairs. */
  function BagValues(a: Arg): (r: Result<Query, Error>)
    ensures r.Ok? <==> a.Null? || a.Pairs?
    ensures a.Pairs? ==> r == Ok(a.pairs)
  {
    match a
    case Null => Ok([])
    case Pairs(ps) => Ok(ps)
    case _ => Err(UnsupportedValue("QueryParameters"))
  }

  /** What the arguments contribute: path substitutions and query entries. */
  datatype Encoded = Encoded(vars: map<string, string>, query: Query)

  /** The contribution of one argument. */
  function EncodeOne(p: Param, a: Arg): (r: Result<Encoded, Error>)
    ensures r.Ok? && p.PathParam? ==> r.value.vars.Keys == {p.name} && r.value.query == []
    ensures r.Ok? && !p.PathParam? ==> r.value.vars == map[]
    ensures r.Ok? && p.QueryParam? ==> forall i :: 0 <= i < |r.value.query| ==> r.value.query[i].0 == p.name
  {
    match p
    case PathParam(n) =>
      var v := PathValue(n, a);
      if v.Err? then Err(v.error) else Ok(Encoded(map[n := v.value], []))
    case QueryParam(n, d) =>
      var q := QueryValues(n, d, a);
      if q.Err? then Err(q.error) else Ok(Encoded(map[], q.value))
    case QueryParameters =>
      var q := BagValues(a);
      if q.Err? then Err(q.error) else Ok(Encoded(map[], q.value))
  }

  /**
   * Encode every argument against its descriptor, in declaration order. The
   * first argument that cannot be encoded decides the error.
   */
  function Encode(params: seq<Param>, args: seq<Arg>): Result<Encoded, Error>
    requires |params| == |args|
    decreases |params|
  {
    if params == [] then Ok(Encoded(map[], []))
    else
      var head := EncodeOne(params[0], args[0]);
      if head.Err? then head
      else
        var rest := Encode(params[1..], args[1..]);
        if rest.Err? then rest
        else Ok(Encoded(rest.value.vars + head.value.vars, head.value.query + rest.value.query))
  }

  // ---- The query string ----

  function EntryString(e: (string, string)): string {
    e.0 + "=" + e.1
  }

  function EntryStrings(q: Query): seq<string>
    decreases |q|
  {
    if q == [] then [] else [EntryString(q[0])] + EntryStrings(q[1..])
  }

  /** `k=v&k=v...` in entry order; empty exactly when there are no entries, so there is never a bare `?`. */
  function QueryString(q: Query): (r: string)
    ensures r == [] <==> q == []
  {
    if q == [] then []
    else
      EntryStringsAt(q);
      JoinStartsWith(EntryStrings(q), '&');
      assert EntryStrings(q)[0] == q[0].0 + "=" + q[0].1;
      Join(EntryStrings(q), '&')
  }

  /** Split one `k=v` entry at its first `=`. */
  function ParseEntry(e: string): (string, string) {
    if '=' in e then
      var k := FirstIndex(e, '=');
      (e[..k], e[k + 1..])
    else (e, "")
  }

  function ParseEntries(es: seq<string>): Query
    decreases |es|
  {
    if es == [] then [] else [ParseEntry(es[0])] + ParseEntries(es[1..])
  }

  /** Read a query string back into its entries. */
  function ParseQuery(s: string): Query {
    if s == [] then [] else ParseEntries(Split(s, '&'))
  }

  /** Keys and values that need no escaping inside a query string. */
  predicate Plain(q: Query) {
    forall i :: 0 <= i < |q| ==> '&' !in q[i].0 && '=' !in q[i].0 && '&' !in q[i].1
  }

  lemma {:induction false} EntryStringsAt(q: Query)
    ensures |EntryStrings(q)| == |q|
    ensures forall i :: 0 <= i < |q| ==> EntryStrings(q)[i] == EntryString(q[i])
    decreases |q|
  {
    if q != [] {
      EntryStringsAt(q[1..]);
    }
  }

  lemma {:induction false} ParseEntriesAt(es: seq<string>)
    ensures |ParseEntries(es)| == |es|
    ensures forall i :: 0 <= i < |es| ==> ParseEntries(es)[i] == ParseEntry(es[i])
    decreases |es|
  {
    if es != [] {
      ParseEntriesAt(es[1..]);
    }
  }

  /** One entry is written as `k=v`. */
  lemma QueryStringOne(e: (string, string))
    ensures QueryString([e]) == e.0 + "=" + e.1
  {
    assert [e][1..] == [];
    assert EntryStrings([e]) == [EntryString(e)] + EntryStrings([]);
    assert EntryStrings([e]) == [EntryString(e)];
  }

  /** Entries are written in order, separated by `&`. */
  lemma QueryStringCons(e: (string, string), q: Query)
    requires q != []
    ensures QueryString([e] + q) == e.0 + "=" + e.1 + "&" + QueryString(q)
  {
    assert ([e] + q)[1..] == q;
    var parts := EntryStrings([e] + q);
    assert parts == [EntryString(e)] + EntryStrings(q);
    EntryStringsAt(q);
    assert parts[1..] == EntryStrings(q);
  }

  /** An entry reads back as itself when its key has no `=`. */
  lemma ParseEntryString(e: (string, string))
    requires '=' !in e.0
    ensures ParseEntry(EntryString(e)) == e
  {
    var s := EntryString(e);
    assert s[|e.0|] == '=';
    var k := FirstIndex(s, '=');
    assert k == |e.0|;
    assert s[..k] == e.0;
    assert s[k + 1..] == e.1;
  }

  /** The query string keeps every entry, in order, repeats included. */
  lemma ParseQueryString(q: Query)
    requires Plain(q)
    ensures ParseQuery(QueryString(q)) == q
  {
    if q != [] {
      var es := EntryStrings(q);
      EntryStringsAt(q);
      forall i | 0 <= i < |es| ensures '&' !in es[i] {
        assert es[i] == q[i].0 + "=" + q[i].1;
      }
      SplitJoin(es, '&');
      ParseEntriesAt(es);
      forall i | 0 <= i < |q| ensures ParseEntry(es[i]) == q[i] {
        ParseEntryString(q[i]);
      }
    }
  }

  // ---- Properties of the codec ----

  /** An iterable emits one entry per element, in iteration order, each under the parameter's name. */
  lemma {:induction false} RepeatedEntries(name: string, items: seq<Scalar>)
    ensures |Repeated(name, items)| == |items|
    ensures forall i :: 0 <= i < |items| ==> Repeated(name, items)[i] == (name, StringForm(items[i]))
    decreases |items|
  {
    if items != [] {
      RepeatedEntries(name, items[1..]);
    }
  }

  /** Encoding succeeds exactly when every argument encodes. */
  lemma {:induction false} EncodeOk(params: seq<Param>, args: seq<Arg>)
    requires |params| == |args|
    ensures Encode(params, args).Ok? <==> forall i :: 0 <= i < |params| ==> EncodeOne(params[i], args[i]).Ok?
    decreases |params|
  {
    if params != [] {
      EncodeOk(params[1..], args[1..]);
      if Encode(params, args).Ok? {
        forall i | 0 <= i < |params| ensures EncodeOne(params[i], args[i]).Ok? {
          if i > 0 {
            assert params[i] == params[1..][i - 1] && args[i] == args[1..][i - 1];
          }
        }
      } else if EncodeOne(params[0], args[0]).Ok? {
        var i :| 0 <= i < |params| - 1 && !EncodeOne(params[1..][i], args[1..][i]).Ok?;
        assert params[1..][i] == params[i + 1] && args[1..][i] == args[i + 1];
      }
    }
  }

  /** A failed encoding reports the error of the first argument that fails. */
  lemma {:induction false} EncodeFirstError(params: seq<Param>, args: seq<Arg>)
    requires |params| == |args| && Encode(params, args).Err?
    ensures exists i :: 0 <= i < |params| && EncodeOne(params[i], args[i]) == Err(Encode(params, args).error)
                        && forall j :: 0 <= j < i ==> EncodeOne(params[j], args[j]).Ok?
    decreases |params|
  {
    if EncodeOne(params[0], args[0]).Ok? {
      EncodeFirstError(params[1..], args[1..]);
      var i :| 0 <= i < |params| - 1 && EncodeOne(params[1..][i], args[1..][i]) == Err(Encode(params[1..], args[1..]).error)
               && forall j :: 0 <= j < i ==> EncodeOne(params[1..][j], args[1..][j]).Ok?;
      assert EncodeOne(params[i + 1], args[i + 1]) == Err(Encode(params, args).error);
      forall j | 0 <= j < i + 1 ensures EncodeOne(params[j], args[j]).Ok? {
        if j > 0 {
          assert params[j] == params[1..][j - 1] && args[j] == args[1..][j - 1];
        }
      }
    }
  }

  /** A single argument encodes on its own. */
  lemma EncodeSingle(p: Param, a: Arg)
    ensures Encode([p], [a]) == EncodeOne(p, a)
  {
    assert [p][1..] == [] && [a][1..] == [];
    if EncodeOne(p, a).Ok? {
      var e := EncodeOne(p, a).value;
      assert map[] + e.vars == e.vars;
      assert e.query + [] == e.query;
    }
  }

  /** The path substitutions are keyed by exactly the path parameters' names. */
  lemma {:induction false} EncodeVars(params: seq<Param>, args: seq<Arg>, n: string)
    requires |params| == |args| && Encode(params, args).Ok?
    ensures n in Encode(params, args).value.vars <==> n in PathNames(params)
    decreases |params|
  {
    if params != [] {
      EncodeVars(params[1..], args[1..], n);
    }
  }

  /**
   * The substitution for a path parameter is the text of the argument in its
   * position, provided no earlier path parameter has the same name.
   */
  lemma {:induction false} EncodeVarValue(params: seq<Param>, args: seq<Arg>, i: nat)
    requires |params| == |args| && i < |params| && Encode(params, args).Ok? && params[i].PathParam?
    requires forall j :: 0 <= j < i ==> !(params[j].PathParam? && params[j].name == params[i].name)
    ensures params[i].name in Encode(params, args).value.vars
    ensures Ok(Encode(params, args).value.vars[params[i].name]) == PathValue(params[i].name, args[i])
    ensures args[i].Value? && Encode(params, args).value.vars[params[i].name] == StringForm(args[i].value)
    decreases i
  {
    if i > 0 {
      EncodeVarValue(params[1..], args[1..], i - 1);
    }
  }

  /** Query entries follow declaration order: encoding distributes over concatenation. */
  lemma {:induction false} EncodeAppend(p1: seq<Param>, a1: seq<Arg>, p2: seq<Param>, a2: seq<Arg>)
    requires |p1| == |a1| && |p2| == |a2|
    requires Encode(p1, a1).Ok? && Encode(p2, a2).Ok?
    ensures Encode(p1 + p2, a1 + a2).Ok?
    ensures Encode(p1 + p2, a1 + a2).value.query == Encode(p1, a1).value.query + Encode(p2, a2).value.query
    decreases |p1|
  {
    if p1 == [] {
      assert p1 + p2 == p2 && a1 + a2 == a2;
    } else {
      EncodeUncons(p1, a1);
      EncodeAppend(p1[1..], a1[1..], p2, a2);
      assert p1 == [p1[0]] + p1[1..] && a1 == [a1[0]] + a1[1..];
      EncodeAppendStep(p1[0], a1[0], p1[1..], a1[1..], p2, a2);
    }
  }

  /** One step of `EncodeAppend`: from a list's tail to the list, with the tail's case given. */
  lemma EncodeAppendStep(h: Param, ha: Arg, t: seq<Param>, ta: seq<Arg>, p2: seq<Param>, a2: seq<Arg>)
    requires |t| == |ta| && |p2| == |a2|
    requires EncodeOne(h, ha).Ok? && Encode(t, ta).Ok? && Encode(p2, a2).Ok?
    requires Encode(t + p2, ta + a2).Ok?
    requires Encode(t + p2, ta + a2).value.query == Encode(t, ta).value.query + Encode(p2, a2).value.query
    ensures Encode([h] + t + p2, [ha] + ta + a2).Ok?
    ensures Encode([h] + t + p2, [ha] + ta + a2).value.query == Encode([h] + t, [ha] + ta).value.query + Encode(p2, a2).value.query
  {
    EncodeConsAppend(h, ha, t, ta, p2, a2);
    EncodeConsOne(h, ha, t, ta);
    AppendAssoc(EncodeOne(h, ha).value.query, Encode(t, ta).value.query, Encode(p2, a2).value.query);
  }

  /** An argument put before a concatenation that encodes adds its own entries first. */
  lemma EncodeConsAppend(h: Param, ha: Arg, t: seq<Param>, ta: seq<Arg>, u: seq<Param>, ua: seq<Arg>)
    requires |t| == |ta| && |u| == |ua|
    requires EncodeOne(h, ha).Ok? && Encode(t + u, ta + ua).Ok?
    ensures Encode([h] + t + u, [ha] + ta + ua).Ok?
    ensures Encode([h] + t + u, [ha] + ta + ua).value.query ==
              EncodeOne(h, ha).value.query + Encode(t + u, ta + ua).value.query
  {
    ConsAppend(h, t, u);
    ConsAppend(ha, ta, ua);
    EncodeCons([h] + t + u, [ha] + ta + ua);
  }

  /** The same for an argument put before a single list: `[h] + t` encodes to h's entries, then t's. */
  lemma EncodeConsOne(h: Param, ha: Arg, t: seq<Param>, ta: seq<Arg>)
    requires |t| == |ta|
    requires EncodeOne(h, ha).Ok? && Encode(t, ta).Ok?
    ensures Encode([h] + t, [ha] + ta).Ok?
    ensures Encode([h] + t, [ha] + ta).value.query == EncodeOne(h, ha).value.query + Encode(t, ta).value.query
  {
    assert ([h] + t)[0] == h && ([h] + t)[1..] == t;
    assert ([ha] + ta)[0] == ha && ([ha] + ta)[1..] == ta;
    EncodeCons([h] + t, [ha] + ta);
  }

  /** The head and tail of `[h] + t + u`; kept apart from the codec so the solver sees only sequences. */
  lemma ConsAppend<T>(h: T, t: seq<T>, u: seq<T>)
    ensures ([h] + t + u)[0] == h && ([h] + t + u)[1..] == t + u
  {
  }

  /** Sequence concatenation is associative. */
  lemma AppendAssoc<T>(x: seq<T>, y: seq<T>, z: seq<T>)
    ensures x + (y + z) == (x + y) + z
  {
  }

  /** Reading an encoding apart: a non-empty list that encodes has a head and a tail that encode, entries in turn. */
  lemma EncodeUncons(p: seq<Param>, a: seq<Arg>)
    requires |p| == |a| && p != [] && Encode(p, a).Ok?
    ensures EncodeOne(p[0], a[0]).Ok? && Encode(p[1..], a[1..]).Ok?
    ensures Encode(p, a).value.query == EncodeOne(p[0], a[0]).value.query + Encode(p[1..], a[1..]).value.query
  {
  }

  /** Putting an encoding together: a head and a tail that encode make a list that encodes, entries in turn. */
  lemma EncodeCons(p: seq<Param>, a: seq<Arg>)
    requires |p| == |a| && p != [] && EncodeOne(p[0], a[0]).Ok? && Encode(p[1..], a[1..]).Ok?
    ensures Encode(p, a).Ok?
    ensures Encode(p, a).value.query == EncodeOne(p[0], a[0]).value.query + Encode(p[1..], a[1..]).value.query
  {
  }

  /** An absent optional emits nothing, whatever default was declared; a present one emits its value. */
  lemma OptionalPresence(name: string, default: Option<string>, o: Option<Scalar>)
    ensures o.None? ==> QueryValues(name, default, Optional(o)) == Ok([])
    ensures o.Some? ==> QueryValues(name, default, Optional(o)) == Ok([(name, StringForm(o.value))])
  {
  }

  /** An either emits only its populated side's text: nothing tells left from right. */
  lemma EitherIsLossy(name: string, default: Option<string>, l: Scalar, r: Scalar)
    requires StringForm(l) == StringForm(r)
    ensures QueryValues(name, default, OneOf(Left(l))) == QueryValues(name, default, OneOf(Right(r)))
  {
  }

  /** A null scalar falls back to its default, and emits nothing without one. */
  lemma NullUsesDefault(name: string, default: Option<string>)
    ensures default.Some? ==> QueryValues(name, default, Null) == Ok([(name, default.value)])
    ensures default.None? ==> QueryValues(name, default, Null) == Ok([])
  {
  }

  /** A value equal to the default is still emitted: defaults never suppress a given value. */
  lemma DefaultNotSuppressed(name: string, d: string)
    ensures QueryValues(name, Some(d), Value(Text(d))) == Ok([(name, d)])
  {
  }

  /** A query-parameter bag passes through exactly, duplicate names kept in order. */
  lemma BagPassesThrough(q: Query)
    ensures EncodeOne(QueryParameters, Pairs(q)) == Ok(Encoded(map[], q))
  {
  }

  /** An absent path value is an error, never an empty substitution. */
  lemma MissingPathIsError(name: string)
    ensures EncodeOne(PathParam(name), Null) == Err(MissingPathValue(name))
  {
  }
}
