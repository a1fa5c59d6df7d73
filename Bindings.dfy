/**
 * Bindings: an HTTP method and URI template tied to a resource method and its
 * ordered parameter descriptors, and the registry that maps each resource
 * method to its binding.
 */
module Bindings {
  import opened Wrappers
  import UriTemplate

  /** A stable name for one resource method, such as "Redirect.redirect(String)". */
  type MethodId = string

  /** One formal parameter of a resource method. */
  datatype Param =
    | PathParam(name: string)
    | QueryParam(name: string, default: Option<string>)
      /** A parameter of type QueryParameters: the whole query-parameter bag. */
    | QueryParameters

  datatype Binding = Binding(resource: MethodId, httpMethod: string, template: string, params: seq<Param>)

  /** The names of the path parameters, in declaration order. */
  function PathNames(params: seq<Param>): seq<string>
    decreases |params|
  {
    if params == [] then []
    else if params[0].PathParam? then [params[0].name] + PathNames(params[1..])
    else PathNames(params[1..])
  }

  /**
   * The registration-time invariant: the template's placeholders are exactly
   * the path parameters, and no two path parameters share a name.
   */
  predicate WellFormed(b: Binding) {
    var names := PathNames(b.params);
    var placeholders := UriTemplate.Names(UriTemplate.Parse(b.template));
    (forall n :: n in placeholders ==> n in names) &&
    (forall n :: n in names ==> n in placeholders) &&
    (forall i, j :: 0 <= i < j < |names| ==> names[i] != names[j])
  }

  /** The registry after adding `values` to `entries` one by one: a later binding for a method replaces an earlier one. */
  function Register(entries: map<MethodId, Binding>, values: seq<Binding>): (r: map<MethodId, Binding>)
    ensures values != [] ==> values[|values| - 1].resource in r && r[values[|values| - 1].resource] == values[|values| - 1]
    ensures values == [] ==> r == entries
    decreases |values|
  {
    if values == [] then entries
    else
      var last := values[|values| - 1];
      Register(entries, values[..|values| - 1])[last.resource := last]
  }

  /** Exact lookup of a resource method's binding. */
  function Lookup(entries: map<MethodId, Binding>, id: MethodId): (r: Option<Binding>)
    ensures r.Some? <==> id in entries
    ensures r.Some? ==> r.value == entries[id]
  {
    if id in entries then Some(entries[id]) else None
  }

  /** The path names are exactly the names of the path parameters. */
  lemma {:induction false} PathNamesArePathParams(params: seq<Param>, n: string)
    ensures n in PathNames(params) <==> PathParam(n) in params
    decreases |params|
  {
    if params != [] {
      PathNamesArePathParams(params[1..], n);
      assert params == [params[0]] + params[1..];
    }
  }

  /** When the path names are distinct, no two path parameters share a name. */
  lemma {:induction false} DistinctPathParams(params: seq<Param>, j: nat, i: nat)
    requires forall a, b :: 0 <= a < b < |PathNames(params)| ==> PathNames(params)[a] != PathNames(params)[b]
    requires j < i < |params| && params[j].PathParam? && params[i].PathParam?
    ensures params[j].name != params[i].name
    decreases j
  {
    var rest := params[1..];
    var names := PathNames(params);
    assert names == if params[0].PathParam? then [params[0].name] + PathNames(rest) else PathNames(rest);
    if j == 0 {
      assert params[i] == rest[i - 1];
      PathNamesArePathParams(rest, params[i].name);
      var k :| 0 <= k < |PathNames(rest)| && PathNames(rest)[k] == params[i].name;
      assert names[0] == params[0].name && names[k + 1] == params[i].name;
    } else {
      forall a, b | 0 <= a < b < |PathNames(rest)| ensures PathNames(rest)[a] != PathNames(rest)[b] {
        if params[0].PathParam? {
          assert names[a + 1] == PathNames(rest)[a] && names[b + 1] == PathNames(rest)[b];
        }
      }
      DistinctPathParams(rest, j - 1, i - 1);
    }
  }

  /** The registry holds the methods it started with and every method added. */
  lemma {:induction false} RegisterKeys(entries: map<MethodId, Binding>, values: seq<Binding>, id: MethodId)
    ensures id in Register(entries, values) <==>
              id in entries || exists k :: 0 <= k < |values| && values[k].resource == id
    decreases |values|
  {
    if values != [] {
      var init := values[..|values| - 1];
      RegisterKeys(entries, init, id);
      if exists k :: 0 <= k < |init| && init[k].resource == id {
        var k :| 0 <= k < |init| && init[k].resource == id;
        assert values[k].resource == id;
      }
      if exists k :: 0 <= k < |values| && values[k].resource == id {
        var k :| 0 <= k < |values| && values[k].resource == id;
        if k < |init| {
          assert init[k].resource == id;
        }
      }
    }
  }

  /** The binding registered for a method is the last one added for it. */
  lemma {:induction false} RegisterLastWins(entries: map<MethodId, Binding>, values: seq<Binding>, k: nat)
    requires k < |values|
    requires forall j :: k < j < |values| ==> values[j].resource != values[k].resource
    ensures values[k].resource in Register(entries, values)
    ensures Register(entries, values)[values[k].resource] == values[k]
    decreases |values|
  {
    if k < |values| - 1 {
      RegisterLastWins(entries, values[..|values| - 1], k);
    }
  }

  /** Adding bindings for other methods leaves a method's entry as it was. */
  lemma {:induction false} RegisterKeepsOthers(entries: map<MethodId, Binding>, values: seq<Binding>, id: MethodId)
    requires forall k :: 0 <= k < |values| ==> values[k].resource != id
    requires id in entries
    ensures id in Register(entries, values) && Register(entries, values)[id] == entries[id]
    decreases |values|
  {
    if values != [] {
      RegisterKeepsOthers(entries, values[..|values| - 1], id);
    }
  }

  /** `RegisteredResources`: a registry that bindings are added to in place. */
  class RegisteredResources {
    var entries: map<MethodId, Binding>

    constructor ()
      ensures entries == map[]
    {
      entries := map[];
    }

    /** `add(values...)`: register each binding in turn. */
    method Add(values: seq<Binding>)
      modifies this
      ensures entries == Register(old(entries), values)
    {
      var i := 0;
      while i < |values|
        invariant 0 <= i <= |values|
        invariant entries == Register(old(entries), values[..i])
      {
        assert values[..i + 1][..i] == values[..i];
        entries := entries[values[i].resource := values[i]];
        i := i + 1;
      }
      assert values[..i] == values;
    }
  }

  /** The `bindings(values...)` helper: a fresh registry holding exactly the given bindings. */
  method NewBindings(values: seq<Binding>) returns (r: RegisteredResources)
    ensures fresh(r)
    ensures r.entries == Register(map[], values)
  {
    r := new RegisteredResources();
    r.Add(values);
  }
}
