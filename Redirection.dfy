/**
 * `BaseUriRedirector`: reverse resolution of a resource-method call to the URI
 * that invokes it, relative to the application's base URI, and "see other"
 * redirect responses to such URIs.
 */
module Redirection {
  import opened Wrappers
  import opened UriTemplate
  import opened Bindings
  import opened Codec
  import opened HttpMessage

  /** A URI split into its parts; an empty part is absent. The query is kept as written. */
  datatype Uri = Uri(scheme: string, authority: string, path: string, query: string)

  /** A URI that carries a scheme is absolute; any other URI is relative. */
  predicate IsAbsolute(u: Uri) {
    u.scheme != []
  }

  /** The text of a URI: `scheme:` `//authority` path `?query`, leaving out absent parts. */
  function UriString(u: Uri): string {
    (if u.scheme == [] then [] else u.scheme + ":")
    + (if u.authority == [] then [] else "//" + u.authority)
    + u.path
    + (if u.query == [] then [] else "?" + u.query)
  }

  /** The server's externally visible root. */
  datatype BaseUri = BaseUri(scheme: string, authority: string, path: string)

  /** The base path, ending in exactly the one `/` it needs. */
  function Directory(path: string): (d: string)
    ensures d != [] && d[|d| - 1] == '/'
  {
    if path != [] && path[|path| - 1] == '/' then path else path + "/"
  }

  /** A relative path without the `/` it may start with. */
  function DropLeadingSlash(path: string): string {
    if path != [] && path[0] == '/' then path[1..] else path
  }

  /** A relative path placed below the base path. */
  function JoinPath(base: string, relative: string): (r: string)
    ensures Directory(base) <= r
  {
    Directory(base) + DropLeadingSlash(relative)
  }

  /** A redirect is sent with "303 See Other". */
  datatype Status = Status(code: nat, description: string)

  const SeeOtherStatus := Status(303, "See Other")

  const Location := "Location"

  /** A response: a status and a message. */
  datatype Response = Response(status: Status, message: HttpMessage.Message)

  /** `response.header(name)`: the first value of a response header. */
  function ResponseHeader(r: Response, name: string): Option<string> {
    HttpMessage.Header(r.message.headers, name)
  }

  /** The recorded invocation: a resource method and its argument values, in order. */
  datatype Call = Call(resource: MethodId, args: seq<Arg>)

  datatype BaseUriRedirector = BaseUriRedirector(base: BaseUri, bindings: map<MethodId, Binding>) {

    /**
     * `absoluteUriOf(uri)`: a relative URI placed below the base path, keeping
     * its query. The result is path-only (no scheme or host); an absolute URI
     * comes back unchanged.
     */
    function AbsoluteUriOf(u: Uri): (r: Uri)
      ensures IsAbsolute(u) ==> r == u
      ensures !IsAbsolute(u) ==> !IsAbsolute(r) && r.authority == [] && r.query == u.query
      ensures !IsAbsolute(u) ==> r.path == JoinPath(base.path, u.path)
    {
      if IsAbsolute(u) then u else Uri([], [], JoinPath(base.path, u.path), u.query)
    }

    /** The full URL of a URI: relative ones gain the base URI's scheme and host. */
    function Url(u: Uri): (r: string)
      ensures IsAbsolute(u) ==> r == UriString(u)
      ensures !IsAbsolute(u) && base.scheme != [] && base.authority != [] ==>
                r == base.scheme + "://" + base.authority + u.path + (if u.query == [] then [] else "?" + u.query)
    {
      if IsAbsolute(u) then UriString(u)
      else
        assert base.scheme != [] && base.authority != [] ==>
          base.scheme + ":" + ("//" + base.authority) == base.scheme + "://" + base.authority;
        UriString(Uri(base.scheme, base.authority, u.path, u.query))
    }

    /**
     * The relative URI that invokes the recorded call: its binding's template
     * with the path arguments substituted, and its query arguments appended in
     * declaration order.
     */
    function Resolve(c: Call): (r: Result<Uri, Error>)
      ensures c.resource !in bindings ==> r == Err(UnregisteredMethod(c.resource))
      ensures c.resource in bindings && |c.args| != |bindings[c.resource].params| ==>
                r == Err(ArityMismatch(|bindings[c.resource].params|, |c.args|))
      ensures r.Ok? ==> !IsAbsolute(r.value) && r.value.authority == []
    {
      var found := Lookup(bindings, c.resource);
      if found.None? then Err(UnregisteredMethod(c.resource))
      else
        var b := found.value;
        if |c.args| != |b.params| then Err(ArityMismatch(|b.params|, |c.args|))
        else
          var enc := Encode(b.params, c.args);
          if enc.Err? then Err(enc.error)
          else
            var path := Expand(Parse(b.template), enc.value.vars);
            if path.Err? then Err(MissingPathValue(path.error))
            else Ok(Uri([], [], path.value, QueryString(enc.value.query)))
    }

    /** `absoluteUriOf(invocation)`: the call's URI placed below the base path. */
    function AbsoluteUriOfCall(c: Call): (r: Result<Uri, Error>)
      ensures r.Ok? <==> Resolve(c).Ok?
      ensures r.Ok? ==> r.value == AbsoluteUriOf(Resolve(c).value)
    {
      if Resolve(c).Err? then Err(Resolve(c).error) else Ok(AbsoluteUriOf(Resolve(c).value))
    }

    /** `seeOther(uri)`: "303 See Other" with the full URL as its Location and no entity. */
    function SeeOther(u: Uri): (r: Response)
      ensures r.status == SeeOtherStatus
      ensures r.message.entity == HttpMessage.EmptyEntity
    {
      var message := HttpMessage.Create([], HttpMessage.EmptyEntity);
      HttpMessage.HeaderNamedLaw(Location, Url(AbsoluteUriOf(u)), message);
      Response(SeeOtherStatus, HttpMessage.HeaderNamed(Location, Url(AbsoluteUriOf(u)))(message))
    }

    /** `seeOther(invocation)`: a redirect to the URI of the recorded call. */
    function SeeOtherCall(c: Call): (r: Result<Response, Error>)
      ensures r.Ok? <==> Resolve(c).Ok?
      ensures r.Ok? ==> r.value == SeeOther(Resolve(c).value)
    {
      if Resolve(c).Err? then Err(Resolve(c).error) else Ok(SeeOther(Resolve(c).value))
    }
  }

  /** A redirector over a registry holding exactly the given bindings. */
  function Redirector(base: BaseUri, values: seq<Binding>): BaseUriRedirector {
    BaseUriRedirector(base, Register(map[], values))
  }

  /**
   * The `redirector(bindings...)` helper: fill a fresh `RegisteredResources`
   * with the bindings and hand its contents to a new redirector.
   */
  method NewRedirector(base: BaseUri, values: seq<Binding>) returns (r: BaseUriRedirector)
    ensures r == Redirector(base, values)
    ensures forall k :: 0 <= k < |values| && (forall j :: k < j < |values| ==> values[j].resource != values[k].resource)
              ==> values[k].resource in r.bindings && r.bindings[values[k].resource] == values[k]
  {
    var registry := NewBindings(values);
    r := BaseUriRedirector(base, registry.entries);
    forall k | 0 <= k < |values| && (forall j :: k < j < |values| ==> values[j].resource != values[k].resource)
      ensures values[k].resource in r.bindings && r.bindings[values[k].resource] == values[k]
    {
      RegisterLastWins(map[], values, k);
    }
  }

  // ---- Properties ----

  /** A redirect's Location header holds the full URL of the target and nothing else. */
  lemma SeeOtherLocation(r: BaseUriRedirector, u: Uri)
    ensures r.SeeOther(u).status == SeeOtherStatus
    ensures ResponseHeader(r.SeeOther(u), Location) == Some(r.Url(r.AbsoluteUriOf(u)))
    ensures r.SeeOther(u).message.headers == [(Location, r.Url(r.AbsoluteUriOf(u)))]
  {
    HttpMessage.HeaderNamedLaw(Location, r.Url(r.AbsoluteUriOf(u)), HttpMessage.Create([], HttpMessage.EmptyEntity));
    HttpMessage.ReplaceEmpty(Location, r.Url(r.AbsoluteUriOf(u)));
  }

  /**
   * Redirecting to a relative URI sends the base URI's scheme and host, the
   * base path and then the relative path and query.
   */
  lemma SeeOtherRelative(r: BaseUriRedirector, u: Uri)
    requires !IsAbsolute(u) && r.base.scheme != [] && r.base.authority != []
    ensures ResponseHeader(r.SeeOther(u), Location) ==
              Some(r.base.scheme + "://" + r.base.authority + JoinPath(r.base.path, u.path)
                   + (if u.query == [] then [] else "?" + u.query))
  {
    SeeOtherLocation(r, u);
  }

  /** Redirecting to an absolute URI sends it as it is. */
  lemma SeeOtherAbsolute(r: BaseUriRedirector, u: Uri)
    requires IsAbsolute(u)
    ensures ResponseHeader(r.SeeOther(u), Location) == Some(UriString(u))
  {
    SeeOtherLocation(r, u);
  }

  /** A leading `/` on a relative path makes no difference to where it lands. */
  lemma JoinPathLeadingSlash(base: string, path: string)
    requires path == [] || path[0] != '/'
    ensures JoinPath(base, "/" + path) == JoinPath(base, path)
    ensures JoinPath(base, path) == Directory(base) + path
  {
    assert ("/" + path)[1..] == path;
  }

  /** A URI has a `?` exactly when it has a query (given no `?` in its other parts). */
  lemma QuestionMarkIffQuery(u: Uri)
    requires '?' !in u.scheme && '?' !in u.authority && '?' !in u.path
    ensures '?' in UriString(u) <==> u.query != []
  {
    var head := (if u.scheme == [] then [] else u.scheme + ":")
                + (if u.authority == [] then [] else "//" + u.authority)
                + u.path;
    assert '?' !in head by {
      forall i | 0 <= i < |head| ensures head[i] != '?' {
        if i < |head| - |u.path| {
          var j := i;
          if u.scheme != [] && j < |u.scheme| + 1 {
            assert head[i] == (u.scheme + ":")[j];
            if j < |u.scheme| { assert u.scheme[j] in u.scheme; }
          } else {
            var p := if u.scheme == [] then 0 else |u.scheme| + 1;
            assert head[i] == ("//" + u.authority)[i - p];
            if i - p >= 2 { assert u.authority[i - p - 2] in u.authority; }
          }
        } else {
          assert head[i] == u.path[i - (|head| - |u.path|)];
          assert u.path[i - (|head| - |u.path|)] in u.path;
        }
      }
    }
    assert UriString(u) == head + (if u.query == [] then [] else "?" + u.query);
    if u.query != [] {
      assert UriString(u)[|head|] == '?';
    }
  }

  /**
   * A binding whose template has no placeholders resolves to the template's
   * own path, with the encoded query appended.
   */
  lemma ResolveLiteralTemplate(r: BaseUriRedirector, c: Call)
    requires c.resource in r.bindings
    requires Names(Parse(r.bindings[c.resource].template)) == []
    requires |c.args| == |r.bindings[c.resource].params|
    requires Encode(r.bindings[c.resource].params, c.args).Ok?
    ensures r.Resolve(c) ==
              Ok(Uri([], [], r.bindings[c.resource].template,
                     QueryString(Encode(r.bindings[c.resource].params, c.args).value.query)))
  {
    var b := r.bindings[c.resource];
    var enc := Encode(b.params, c.args).value;
    ExpandNoPlaceholders(Parse(b.template), enc.vars);
    ShowParse(b.template);
  }

  /**
   * For a well-formed binding, a call whose arguments all encode never misses
   * a path value: every placeholder has a path parameter to fill it.
   */
  lemma WellFormedResolves(r: BaseUriRedirector, c: Call)
    requires c.resource in r.bindings && WellFormed(r.bindings[c.resource])
    requires |c.args| == |r.bindings[c.resource].params|
    requires Encode(r.bindings[c.resource].params, c.args).Ok?
    ensures r.Resolve(c).Ok?
    ensures Encode(r.bindings[c.resource].params, c.args).value.vars.Keys ==
              set n | n in Names(Parse(r.bindings[c.resource].template))
    ensures r.Resolve(c).value ==
              Uri([], [], Expand(Parse(r.bindings[c.resource].template), Encode(r.bindings[c.resource].params, c.args).value.vars).value,
                  QueryString(Encode(r.bindings[c.resource].params, c.args).value.query))
    ensures forall i :: 0 <= i < |c.args| && r.bindings[c.resource].params[i].PathParam? ==>
              var n := r.bindings[c.resource].params[i].name;
              n in Encode(r.bindings[c.resource].params, c.args).value.vars &&
              Ok(Encode(r.bindings[c.resource].params, c.args).value.vars[n]) == PathValue(n, c.args[i]) &&
              c.args[i].Value? && Encode(r.bindings[c.resource].params, c.args).value.vars[n] == StringForm(c.args[i].value)
  {
    var b := r.bindings[c.resource];
    var enc := Encode(b.params, c.args).value;
    var t := Parse(b.template);
    forall n ensures n in enc.vars <==> n in Names(t) {
      EncodeVars(b.params, c.args, n);
    }
    ExpandFails(t, enc.vars);
    forall i | 0 <= i < |c.args| && b.params[i].PathParam?
      ensures b.params[i].name in enc.vars && Ok(enc.vars[b.params[i].name]) == PathValue(b.params[i].name, c.args[i])
      ensures c.args[i].Value? && enc.vars[b.params[i].name] == StringForm(c.args[i].value)
    {
      forall j | 0 <= j < i && b.params[j].PathParam? ensures b.params[j].name != b.params[i].name {
        DistinctPathParams(b.params, j, i);
      }
      EncodeVarValue(b.params, c.args, i);
    }
  }

  /** Encoding failures surface as the call's error, unchanged. */
  lemma ResolveReportsEncodeError(r: BaseUriRedirector, c: Call)
    requires c.resource in r.bindings
    requires |c.args| == |r.bindings[c.resource].params|
    requires Encode(r.bindings[c.resource].params, c.args).Err?
    ensures r.Resolve(c) == Err(Encode(r.bindings[c.resource].params, c.args).error)
    ensures r.SeeOtherCall(c).Err? && r.AbsoluteUriOfCall(c).Err?
  {
  }

  /**
   * A binding whose template is literal text and one placeholder, for its
   * only (path) parameter, resolves to the text followed by the argument.
   */
  lemma ResolveOnePathParam(r: BaseUriRedirector, c: Call, lit: string, name: string, v: Scalar)
    requires c.resource in r.bindings
    requires r.bindings[c.resource].template == lit + "{" + name + "}"
    requires '{' !in lit && '}' !in name
    requires r.bindings[c.resource].params == [PathParam(name)] && c.args == [Value(v)]
    ensures r.Resolve(c) == Ok(Uri([], [], lit + StringForm(v), []))
  {
    var b := r.bindings[c.resource];
    assert b.template == lit + "{" + name + "}" + "";
    ParsePlaceholder(lit, name, "");
    ParseLiteral(lit);
    var t := Parse(b.template);
    var vars := map[name := StringForm(v)];
    EncodeSingle(PathParam(name), Value(v));
    ExpandLitVar(lit, name, vars);
    if lit == [] {
      assert t == [Var(name)];
      assert lit + StringForm(v) == StringForm(v);
    } else {
      assert t == [Lit(lit), Var(name)];
    }
    assert QueryString([]) == [];
  }

  /** A redirect to a call's relative URI carries the full URL of its place below the base path. */
  lemma SeeOtherCallLocation(r: BaseUriRedirector, c: Call, path: string, query: string)
    requires r.base.scheme != [] && r.base.authority != []
    requires r.Resolve(c) == Ok(Uri([], [], path, query))
    ensures r.SeeOtherCall(c).Ok? && r.SeeOtherCall(c).value.status == SeeOtherStatus
    ensures ResponseHeader(r.SeeOtherCall(c).value, Location) ==
              Some(r.base.scheme + "://" + r.base.authority + JoinPath(r.base.path, path)
                   + (if query == [] then [] else "?" + query))
  {
    SeeOtherRelative(r, Uri([], [], path, query));
  }
}
