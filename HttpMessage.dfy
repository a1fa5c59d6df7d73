/**
 * An immutable HTTP message: headers plus an entity. Every update builds a new
 * message through `create`, so each update changes one field and keeps the
 * other. Builders are functions from message to message.
 */
module HttpMessage {
  import opened Wrappers

  /** Header parameters: name/value pairs in insertion order, repeats allowed. */
  type Headers = seq<(string, string)>

  /** A message body, held as the string form of the wrapped object. */
  datatype Entity = Entity(value: string)

  const EmptyEntity := Entity("")

  /** `create(headers, entity)` is the constructor. */
  datatype Message = Create(headers: Headers, entity: Entity) {

    /** `headers(value)`: the same message with its headers replaced. */
    function WithHeaders(value: Headers): (r: Message)
      ensures r.headers == value && r.entity == entity
    {
      Create(value, entity)
    }

    /** `entity(value)`: the same message with its entity replaced. */
    function WithEntity(value: Entity): (r: Message)
      ensures r.entity == value && r.headers == headers
    {
      Create(headers, value)
    }
  }

  /** `headers.getValue(name)`: the first value of the header called `name`, if there is one. */
  function Header(h: Headers, name: string): (r: Option<string>)
    ensures r.None? <==> forall i :: 0 <= i < |h| ==> h[i].0 != name
    ensures r.Some? ==> (name, r.value) in h
    decreases |h|
  {
    if h == [] then None
    else if h[0].0 == name then Some(h[0].1)
    else
      assert forall i :: 1 <= i < |h| ==> h[i] == h[1..][i - 1];
      Header(h[1..], name)
  }

  /** The values of the headers called `name`, in order. */
  function Named(h: Headers, name: string): seq<string>
    decreases |h|
  {
    if h == [] then []
    else if h[0].0 == name then [h[0].1] + Named(h[1..], name)
    else Named(h[1..], name)
  }

  /** Every header except those called `name`, in their original order. */
  function Remove(h: Headers, name: string): Headers
    decreases |h|
  {
    if h == [] then []
    else if h[0].0 == name then Remove(h[1..], name)
    else [h[0]] + Remove(h[1..], name)
  }

  /**
   * `Parameters.Builder.replace(name, value)` applied to `h`: drop every
   * `name` header, then add one. `name` then reads back as `value` and is
   * the only `name` header; every other header keeps its values in order.
   */
  function Replace(h: Headers, name: string, value: string): (r: Headers)
    ensures Header(r, name) == Some(value)
    ensures Named(r, name) == [value]
    ensures forall other :: other != name ==> Header(r, other) == Header(h, other)
    ensures forall other :: other != name ==> Named(r, other) == Named(h, other)
  {
    var kept := Remove(h, name);
    RemoveDropsName(h, name);
    RemovedThenAdded(kept, name, value);
    NamedAppend(kept, [(name, value)], name);
    assert Named([(name, value)], name) == [value] + Named([], name);
    assert forall other :: other != name ==> Header(kept + [(name, value)], other) == Header(h, other) by {
      forall other | other != name
        ensures Header(kept + [(name, value)], other) == Header(h, other)
      {
        AppendedKeepsOthers(h, name, value, other);
      }
    }
    assert forall other :: other != name ==> Named(kept + [(name, value)], other) == Named(h, other) by {
      forall other | other != name
        ensures Named(kept + [(name, value)], other) == Named(h, other)
      {
        NamedAppend(kept, [(name, value)], other);
        assert Named([(name, value)], other) == Named([], other);
        RemoveKeepsOthers(h, name, other);
      }
    }
    kept + [(name, value)]
  }

  /** `Functions.modify(value, builders...)`: apply the builders in order. */
  function Modify<T>(value: T, builders: seq<T -> T>): (r: T)
    ensures builders == [] ==> r == value
    ensures |builders| == 1 ==> r == builders[0](value)
    decreases |builders|
  {
    if builders == [] then value else Modify(builders[0](value), builders[1..])
  }

  /** `Builder.header(Iterable<Pair>)`: make the given pairs the whole header set, keeping the entity. */
  function HeaderPairs(parameters: Headers): (f: Message -> Message)
    ensures forall m :: f(m).headers == parameters && f(m).entity == m.entity
  {
    (message: Message) => message.WithHeaders(parameters)
  }

  /**
   * `Builder.header(builders...)`: run the header builders over the current
   * headers and write their result back; the entity is kept.
   */
  function HeaderBuilders(builders: seq<Headers -> Headers>): Message -> Message
  {
    (request: Message) => Modify(request, [HeaderPairs(Modify(request.headers, builders))])
  }

  /** `Builder.header(name, value)`: the header builder for `replace(name, value)`. */
  function HeaderNamed(name: string, value: string): Message -> Message
  {
    HeaderBuilders([(h: Headers) => Replace(h, name, value)])
  }

  /** `Builder.entity(value)`: wrap the value as the entity, keeping the headers. */
  function EntityOf(value: string): (f: Message -> Message)
    ensures forall m :: f(m).entity == Entity(value) && f(m).headers == m.headers
  {
    (message: Message) => message.WithEntity(Entity(value))
  }

  // ---- Laws of the functional update ----

  /** Setting the headers twice keeps only the second value. */
  lemma WithHeadersOverwrites(m: Message, v: Headers, w: Headers)
    ensures m.WithHeaders(v).WithHeaders(w) == m.WithHeaders(w)
  {
  }

  /** Setting the entity twice keeps only the second value. */
  lemma WithEntityOverwrites(m: Message, v: Entity, w: Entity)
    ensures m.WithEntity(v).WithEntity(w) == m.WithEntity(w)
  {
  }

  /** Writing back a message's own field changes nothing. */
  lemma WithOwnFieldsIsIdentity(m: Message)
    ensures m.WithHeaders(m.headers) == m
    ensures m.WithEntity(m.entity) == m
  {
  }

  /** The two updates touch disjoint fields, so their order does not matter. */
  lemma UpdatesCommute(m: Message, v: Headers, e: Entity)
    ensures m.WithHeaders(v).WithEntity(e) == m.WithEntity(e).WithHeaders(v)
    ensures m.WithHeaders(v).WithEntity(e) == Create(v, e)
  {
  }

  /** Applying `a` and then `b` is applying their concatenation. */
  lemma {:induction false} ModifyAppend<T>(value: T, a: seq<T -> T>, b: seq<T -> T>)
    ensures Modify(value, a + b) == Modify(Modify(value, a), b)
    decreases |a|
  {
    if a == [] {
      assert a + b == b;
    } else {
      assert (a + b)[1..] == a[1..] + b;
      ModifyAppend(a[0](value), a[1..], b);
    }
  }

  /** `header(builders...)` writes back the builders' result on the current headers; the entity is unchanged. */
  lemma HeaderBuildersLaw(builders: seq<Headers -> Headers>, m: Message)
    ensures HeaderBuilders(builders)(m) == m.WithHeaders(Modify(m.headers, builders))
    ensures HeaderBuilders(builders)(m).entity == m.entity
  {
  }

  /** `header(name, value)` only changes the headers, by `replace(name, value)`. */
  lemma HeaderNamedLaw(name: string, value: string, m: Message)
    ensures HeaderNamed(name, value)(m) == m.WithHeaders(Replace(m.headers, name, value))
    ensures HeaderNamed(name, value)(m).entity == m.entity
  {
    HeaderBuildersLaw([(h: Headers) => Replace(h, name, value)], m);
  }

  /** A header lookup finds the first pair with that name. */
  lemma {:induction false} HeaderIsFirst(h: Headers, name: string)
    ensures Header(h, name).Some? ==>
              exists i :: 0 <= i < |h| && h[i] == (name, Header(h, name).value) && forall j :: 0 <= j < i ==> h[j].0 != name
    decreases |h|
  {
    if h != [] && h[0].0 != name {
      HeaderIsFirst(h[1..], name);
      if Header(h, name).Some? {
        var i :| 0 <= i < |h| - 1 && h[1..][i] == (name, Header(h, name).value) && forall j :: 0 <= j < i ==> h[1..][j].0 != name;
        assert h[i + 1] == (name, Header(h, name).value);
        forall j | 0 <= j < i + 1 ensures h[j].0 != name {
          if j > 0 { assert h[j] == h[1..][j - 1]; }
        }
      }
    }
  }

  /** The values of a name in two header lists one after the other. */
  lemma {:induction false} NamedAppend(a: Headers, b: Headers, name: string)
    ensures Named(a + b, name) == Named(a, name) + Named(b, name)
    decreases |a|
  {
    if a == [] {
      assert a + b == b;
    } else {
      assert (a + b)[0] == a[0] && (a + b)[1..] == a[1..] + b;
      NamedAppend(a[1..], b, name);
    }
  }

  /** Removing a name drops every pair with it, and the list does not grow. */
  lemma {:induction false} RemoveDropsName(h: Headers, name: string)
    ensures forall i :: 0 <= i < |Remove(h, name)| ==> Remove(h, name)[i].0 != name
    ensures Named(Remove(h, name), name) == []
    ensures |Remove(h, name)| <= |h|
    decreases |h|
  {
    if h != [] {
      RemoveDropsName(h[1..], name);
    }
  }

  /** Removing a name keeps the pairs of every other name, in order. */
  lemma {:induction false} RemoveKeepsOthers(h: Headers, name: string, other: string)
    requires other != name
    ensures Named(Remove(h, name), other) == Named(h, other)
    decreases |h|
  {
    if h != [] {
      RemoveKeepsOthers(h[1..], name, other);
      if h[0].0 != name {
        assert ([h[0]] + Remove(h[1..], name))[1..] == Remove(h[1..], name);
      }
    }
  }

  /** Replacing a name in an empty header list gives just the one new pair. */
  lemma ReplaceEmpty(name: string, value: string)
    ensures Replace([], name, value) == [(name, value)]
  {
    assert Remove([], name) == [];
  }

  /** Looking a name up past a prefix that lacks it finds the suffix's entry. */
  lemma {:induction false} RemovedThenAdded(r: Headers, name: string, value: string)
    requires forall i :: 0 <= i < |r| ==> r[i].0 != name
    ensures Header(r + [(name, value)], name) == Some(value)
    decreases |r|
  {
    if r != [] {
      assert (r + [(name, value)])[1..] == r[1..] + [(name, value)];
      RemovedThenAdded(r[1..], name, value);
    }
  }

  /** Removing `name` and appending a `name` pair leaves every other header's lookup unchanged. */
  lemma {:induction false} AppendedKeepsOthers(h: Headers, name: string, value: string, other: string)
    requires other != name
    ensures Header(Remove(h, name) + [(name, value)], other) == Header(h, other)
    decreases |h|
  {
    if h == [] {
      assert Remove(h, name) + [(name, value)] == [(name, value)];
    } else if h[0].0 == name {
      AppendedKeepsOthers(h[1..], name, value, other);
    } else {
      assert Remove(h, name) + [(name, value)] == [h[0]] + (Remove(h[1..], name) + [(name, value)]);
      AppendedKeepsOthers(h[1..], name, value, other);
    }
  }
}
