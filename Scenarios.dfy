/**
 * The cases of BaseUriRedirectorTest: a base URI of http://server/base/ and one
 * binding per case, each with the Location the redirect must carry.
 *
 * Each case is proved from general lemmas about the redirector; the facts
 * about the case's literal text are proved on their own in a "Facts" lemma.
 */
module Scenarios {
  import opened Wrappers
  import opened Decimal
  import opened UriTemplate
  import opened Bindings
  import opened Codec
  import opened Redirection

  const Server := BaseUri("http", "server", "/base/")

  /** `assertLocation`: a "303 See Other" whose Location is the given URL. */
  predicate HasLocation(r: Result<Response, Error>, location: string) {
    r.Ok? && r.value.status == SeeOtherStatus && ResponseHeader(r.value, Location) == Some(location)
  }

  /** A registry of one binding maps its method to it. */
  lemma RegisterOne(b: Binding)
    ensures Register(map[], [b]) == map[b.resource := b]
  {
    assert [b][..0] == [];
  }

  /** A relative URI `path?query` is redirected to that place below http://server/base/. */
  lemma ServerSeeOther(r: BaseUriRedirector, u: Uri, location: string)
    requires r.base == Server && !IsAbsolute(u) && u.authority == []
    requires u.path == [] || u.path[0] != '/'
    requires location == "http://server/base/" + u.path + (if u.query == [] then [] else "?" + u.query)
    ensures HasLocation(Ok(r.SeeOther(u)), location)
    ensures r.AbsoluteUriOf(u) == Uri([], [], "/base/" + u.path, u.query)
  {
    SeeOtherRelative(r, u);
    JoinPathLeadingSlash("/base/", u.path);
    assert Directory("/base/") == "/base/";
    ServerUrl(u.path, if u.query == [] then [] else "?" + u.query);
  }

  lemma ServerUrl(path: string, tail: string)
    ensures "http" + "://" + "server" + ("/base/" + path) + tail == "http://server/base/" + path + tail
  {
    assert "http" + "://" + "server" + "/base/" == "http://server/base/";
  }

  /** A template without `{` has no placeholders. */
  lemma NoPlaceholders(t: string)
    requires '{' !in t
    ensures Names(Parse(t)) == []
  {
    ParseLiteral(t);
    if t != [] {
      NamesArePlaceholders([Lit(t)], t);
      assert Names([Lit(t)]) == [];
    }
  }

  /** One query argument encodes to its entries alone. */
  lemma EncodeQueryArg(p: Param, a: Arg, q: Query)
    requires p.QueryParam? || p.QueryParameters?
    requires (if p.QueryParam? then QueryValues(p.name, p.default, a) else BagValues(a)) == Ok(q)
    ensures Encode([p], [a]) == Ok(Encoded(map[], q))
  {
    EncodeSingle(p, a);
  }

  /** A call that resolves to `/path?query` redirects to that place below http://server/base/. */
  lemma ServerLocation(r: BaseUriRedirector, c: Call, path: string, query: string, location: string)
    requires r.base == Server
    requires path == [] || path[0] != '/'
    requires r.Resolve(c) == Ok(Uri([], [], "/" + path, query))
    requires location == "http://server/base/" + path + (if query == [] then [] else "?" + query)
    ensures HasLocation(r.SeeOtherCall(c), location)
  {
    var u := Uri([], [], "/" + path, query);
    SeeOtherLocation(r, u);
    SeeOtherLocation(r, Uri([], [], path, query));
    JoinPathLeadingSlash(r.base.path, path);
    assert r.AbsoluteUriOf(u) == r.AbsoluteUriOf(Uri([], [], path, query));
    ServerSeeOther(r, Uri([], [], path, query), location);
  }

  /** With one binding for a literal template, a call resolves to the template path and its encoded query. */
  lemma OneLiteralBinding(b: Binding, args: seq<Arg>)
    requires '{' !in b.template && b.template != []
    requires |args| == |b.params| && Encode(b.params, args).Ok?
    ensures Redirector(Server, [b]).Resolve(Call(b.resource, args)) ==
              Ok(Uri([], [], b.template, QueryString(Encode(b.params, args).value.query)))
  {
    RegisterOne(b);
    NoPlaceholders(b.template);
    ResolveLiteralTemplate(Redirector(Server, [b]), Call(b.resource, args));
  }

  /** Text facts for the URI text of `canRedirectToRelativeUri` */
  lemma RelativeFacts()
    ensures "relative"[0] != '/'
    ensures "http://server/base/relative" == "http://server/base/" + "relative" + []
  {
  }

  /** A redirect to a relative URI; `absoluteUriOf` of it stays path-only. */
  lemma RelativeUri()
    ensures HasLocation(Ok(Redirector(Server, []).SeeOther(Uri([], [], "relative", []))), "http://server/base/relative")
    ensures Redirector(Server, []).AbsoluteUriOf(Uri([], [], "relative", [])) == Uri([], [], "/base/relative", [])
  {
    RelativeFacts();
    ServerSeeOther(Redirector(Server, []), Uri([], [], "relative", []), "http://server/base/relative");
  }

  /** A binding for `GET /redirect` with the given parameters. */
  function RedirectBinding(resource: MethodId, params: seq<Param>): Binding {
    Binding(resource, "GET", "/redirect", params)
  }

  /** Text facts for the `/redirect` template and its Location */
  lemma RedirectFacts()
    ensures '{' !in "/redirect" && "/redirect" == "/" + "redirect" && "redirect"[0] != '/'
    ensures "http://server/base/" + "redirect" == "http://server/base/redirect"
  {
  }

  /** The redirect for arguments that encode to the given query on a `/redirect` binding. */
  lemma RedirectTo(resource: MethodId, params: seq<Param>, args: seq<Arg>, query: Query, location: string)
    requires |params| == |args| && Encode(params, args) == Ok(Encoded(map[], query))
    requires location == "http://server/base/redirect" + (if query == [] then [] else "?" + QueryString(query))
    ensures HasLocation(Redirector(Server, [RedirectBinding(resource, params)]).SeeOtherCall(Call(resource, args)), location)
  {
    var b := RedirectBinding(resource, params);
    RedirectFacts();
    OneLiteralBinding(b, args);
    ServerLocation(Redirector(Server, [b]), Call(resource, args), "redirect", QueryString(query), location);
  }

  /** The redirect for one query argument on a `/redirect` binding. */
  lemma QueryRedirect(resource: MethodId, name: string, default: Option<string>, a: Arg, query: Query, location: string)
    requires QueryValues(name, default, a) == Ok(query)
    requires location == "http://server/base/redirect" + (if query == [] then [] else "?" + QueryString(query))
    ensures HasLocation(Redirector(Server, [RedirectBinding(resource, [QueryParam(name, default)])])
                          .SeeOtherCall(Call(resource, [a])), location)
  {
    EncodeQueryArg(QueryParam(name, default), a, query);
    RedirectTo(resource, [QueryParam(name, default)], [a], query, location);
  }

  /** One entry `name=value` on a `/redirect` binding. */
  lemma OneEntryLocation(name: string, value: string, location: string)
    requires location == "http://server/base/redirect?" + name + "=" + value
    ensures location == "http://server/base/redirect" + "?" + QueryString([(name, value)])
  {
    QueryStringOne((name, value));
  }

  const NoParams := RedirectBinding("Redirect.redirect()", [])

  /** A binding without parameters: the template path and no query. */
  lemma BindingWithoutParameters()
    ensures HasLocation(Redirector(Server, [NoParams]).SeeOtherCall(Call(NoParams.resource, [])),
                        "http://server/base/redirect")
  {
    assert "http://server/base/redirect" == "http://server/base/redirect" + [];
    RedirectTo(NoParams.resource, [], [], [], "http://server/base/redirect");
  }

  const PathBinding := Binding("Redirect.redirect(String)", "GET", "/redirect/{foo}", [PathParam("foo")])

  /** Text facts for the `/redirect/{foo}` template and its Location */
  lemma PathFacts()
    ensures '{' !in "/redirect/" && '}' !in "foo"
    ensures "/redirect/{foo}" == "/redirect/" + "{" + "foo" + "}"
    ensures "/redirect/" + "bar" == "/" + "redirect/bar"
    ensures "redirect/bar"[0] != '/'
    ensures "http://server/base/redirect/bar" == "http://server/base/" + "redirect/bar" + []
  {
  }

  /** A `{foo}` placeholder takes the aligned path argument. */
  lemma PathParameter()
    ensures HasLocation(Redirector(Server, [PathBinding]).SeeOtherCall(Call(PathBinding.resource, [Value(Text("bar"))])),
                        "http://server/base/redirect/bar")
  {
    var r := Redirector(Server, [PathBinding]);
    var c := Call(PathBinding.resource, [Value(Text("bar"))]);
    RegisterOne(PathBinding);
    PathFacts();
    ResolveOnePathParam(r, c, "/redirect/", "foo", Text("bar"));
    ServerLocation(r, c, "redirect/bar", [], "http://server/base/redirect/bar");
  }

  const StringMethod := "Redirect.redirect(String)"

  /** A scalar query argument is emitted as it is. */
  lemma QueryParameter()
    ensures HasLocation(Redirector(Server, [RedirectBinding(StringMethod, [QueryParam("foo", None)])])
                          .SeeOtherCall(Call(StringMethod, [Value(Text("bar"))])),
                        "http://server/base/redirect?foo=bar")
  {
    OneEntryLocation("foo", "bar", "http://server/base/redirect?foo=bar");
    QueryRedirect(StringMethod, "foo", None, Value(Text("bar")), [("foo", "bar")], "http://server/base/redirect?foo=bar");
  }

  /** A null argument falls back to its declared default. */
  lemma DefaultValue()
    ensures HasLocation(Redirector(Server, [RedirectBinding(StringMethod, [QueryParam("foo", Some("Dan"))])])
                          .SeeOtherCall(Call(StringMethod, [Null])),
                        "http://server/base/redirect?foo=Dan")
  {
    OneEntryLocation("foo", "Dan", "http://server/base/redirect?foo=Dan");
    QueryRedirect(StringMethod, "foo", Some("Dan"), Null, [("foo", "Dan")], "http://server/base/redirect?foo=Dan");
  }

  const OptionMethod := "RedirectWithFunctionalTypes.optional(Option)"

  /** An empty option leaves no query at all. */
  lemma OptionNone()
    ensures HasLocation(Redirector(Server, [RedirectBinding(OptionMethod, [QueryParam("optional", None)])])
                          .SeeOtherCall(Call(OptionMethod, [Optional(None)])),
                        "http://server/base/redirect")
  {
    assert "http://server/base/redirect" == "http://server/base/redirect" + [];
    QueryRedirect(OptionMethod, "optional", None, Optional(None), [], "http://server/base/redirect");
  }

  /** A present option emits its value. */
  lemma OptionSome()
    ensures HasLocation(Redirector(Server, [RedirectBinding(OptionMethod, [QueryParam("optional", None)])])
                          .SeeOtherCall(Call(OptionMethod, [Optional(Some(Text("baz")))])),
                        "http://server/base/redirect?optional=baz")
  {
    OneEntryLocation("optional", "baz", "http://server/base/redirect?optional=baz");
    QueryRedirect(OptionMethod, "optional", None, Optional(Some(Text("baz"))), [("optional", "baz")],
                  "http://server/base/redirect?optional=baz");
  }

  const EitherMethod := "RedirectWithFunctionalTypes.either(Either)"

  /** Text facts for `right(100)`: the integer 100 is written "100" */
  lemma HundredFacts()
    ensures StringForm(Number(100)) == "100"
  {
    assert NatToString(100) == NatToString(10) + [DigitChar(0)];
    assert NatToString(10) == NatToString(1) + [DigitChar(0)];
  }

  /** An either holding a left value emits that text. */
  lemma EitherLeft()
    ensures HasLocation(Redirector(Server, [RedirectBinding(EitherMethod, [QueryParam("either", None)])])
                          .SeeOtherCall(Call(EitherMethod, [OneOf(Left(Text("left")))])),
                        "http://server/base/redirect?either=left")
  {
    OneEntryLocation("either", "left", "http://server/base/redirect?either=left");
    QueryRedirect(EitherMethod, "either", None, OneOf(Left(Text("left"))), [("either", "left")],
                  "http://server/base/redirect?either=left");
  }

  /** An either holding a right value emits that number in decimal. */
  lemma EitherRight()
    ensures HasLocation(Redirector(Server, [RedirectBinding(EitherMethod, [QueryParam("either", None)])])
                          .SeeOtherCall(Call(EitherMethod, [OneOf(Right(Number(100)))])),
                        "http://server/base/redirect?either=100")
  {
    HundredFacts();
    OneEntryLocation("either", "100", "http://server/base/redirect?either=100");
    QueryRedirect(EitherMethod, "either", None, OneOf(Right(Number(100))), [("either", "100")],
                  "http://server/base/redirect?either=100");
  }

  const IterableBinding := Binding("IterableParameterResource.dosomething(Iterable)", "GET", "/path", [QueryParam("id", None)])

  /** Text facts for the `/path` template of the iterable case */
  lemma IterableFacts()
    ensures Repeated("id", [Text("1234"), Text("5678")]) == [("id", "1234"), ("id", "5678")]
    ensures '{' !in "/path" && "path"[0] != '/'
    ensures JoinPath("/base/", "/path") == "/base/path"
  {
    assert [Text("1234"), Text("5678")][1..] == [Text("5678")];
    assert [Text("5678")][1..] == [];
    JoinPathLeadingSlash("/base/", "path");
  }

  /** Text facts for the query string of `id=1234&id=5678` */
  lemma IterableQuery()
    ensures QueryString([("id", "1234"), ("id", "5678")]) == "id=1234&id=5678"
  {
    QueryStringOne(("id", "5678"));
    QueryStringCons(("id", "1234"), [("id", "5678")]);
    assert [("id", "1234")] + [("id", "5678")] == [("id", "1234"), ("id", "5678")];
  }

  /** An iterable emits one entry per element, in order, repeating the name. */
  lemma IterableParameter()
    ensures Redirector(Server, [IterableBinding]).AbsoluteUriOfCall(Call(IterableBinding.resource, [Many([Text("1234"), Text("5678")])]))
              == Ok(Uri([], [], "/base/path", "id=1234&id=5678"))
  {
    var a := Many([Text("1234"), Text("5678")]);
    IterableFacts();
    IterableQuery();
    EncodeQueryArg(QueryParam("id", None), a, [("id", "1234"), ("id", "5678")]);
    OneLiteralBinding(IterableBinding, [a]);
  }

  const StreamingWriter := Binding("SomeResource.getStreamingWriter(String)", "GET", "/path/{id}", [PathParam("id")])

  const WithQueryParameters := Binding("SomeResource.getWithQueryParameters(QueryParameters)", "GET", "/path/", [QueryParameters])

  /** Both bindings of `SomeResource`, each under its own method. */
  lemma SomeResourceRegistry()
    ensures Register(map[], [StreamingWriter, WithQueryParameters]) ==
              map[StreamingWriter.resource := StreamingWriter, WithQueryParameters.resource := WithQueryParameters]
  {
    assert [StreamingWriter, WithQueryParameters][..1] == [StreamingWriter];
    RegisterOne(StreamingWriter);
  }

  /** Text facts for the `/path/{id}` template and its Location */
  lemma StreamingFacts()
    ensures '{' !in "/path/" && '}' !in "id"
    ensures "/path/{id}" == "/path/" + "{" + "id" + "}"
    ensures "/path/" + "foo" == "/" + "path/foo"
    ensures "path/foo"[0] != '/'
    ensures "http://server/base/path/foo" == "http://server/base/" + "path/foo" + []
  {
  }

  /** A path argument of a resource with several bindings. */
  lemma StreamingWriterPath()
    ensures HasLocation(Redirector(Server, [StreamingWriter, WithQueryParameters])
                          .SeeOtherCall(Call(StreamingWriter.resource, [Value(Text("foo"))])),
                        "http://server/base/path/foo")
  {
    var r := Redirector(Server, [StreamingWriter, WithQueryParameters]);
    var c := Call(StreamingWriter.resource, [Value(Text("foo"))]);
    SomeResourceRegistry();
    StreamingFacts();
    ResolveOnePathParam(r, c, "/path/", "id", Text("foo"));
    ServerLocation(r, c, "path/foo", [], "http://server/base/path/foo");
  }

  /** Text facts for the `/path/` template and the Location of the bag case */
  lemma BagFacts()
    ensures '{' !in "/path/" && "/path/" == "/" + "path/" && "path/"[0] != '/'
    ensures QueryString([("name", "name1"), ("name", "name2")]) == "name=name1&name=name2"
    ensures "http://server/base/path/?name=name1&name=name2" == "http://server/base/" + "path/" + ("?" + "name=name1&name=name2")
  {
    BagQuery();
  }

  /** Text facts for the query string of `name=name1&name=name2` */
  lemma BagQuery()
    ensures QueryString([("name", "name1"), ("name", "name2")]) == "name=name1&name=name2"
  {
    QueryStringOne(("name", "name2"));
    QueryStringCons(("name", "name1"), [("name", "name2")]);
    assert [("name", "name1")] + [("name", "name2")] == [("name", "name1"), ("name", "name2")];
  }

  /** Repeated names in a query-parameter bag are kept, in order. */
  lemma MultipleParametersWithTheSameName()
    ensures HasLocation(Redirector(Server, [StreamingWriter, WithQueryParameters])
                          .SeeOtherCall(Call(WithQueryParameters.resource, [Pairs([("name", "name1"), ("name", "name2")])])),
                        "http://server/base/path/?name=name1&name=name2")
  {
    var r := Redirector(Server, [StreamingWriter, WithQueryParameters]);
    var q := [("name", "name1"), ("name", "name2")];
    var c := Call(WithQueryParameters.resource, [Pairs(q)]);
    SomeResourceRegistry();
    BagFacts();
    NoPlaceholders("/path/");
    EncodeQueryArg(QueryParameters, Pairs(q), q);
    ResolveLiteralTemplate(r, c);
    ServerLocation(r, c, "path/", "name=name1&name=name2", "http://server/base/path/?name=name1&name=name2");
  }
}
