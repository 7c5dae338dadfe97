/** The uniform-location cache of `ShaderProgram`.

    `getUniformLocation` looks a uniform's name up in a per-program map and
    asks the driver only on a miss, storing the answer. The driver query is
    a parameter: a function from the program's name and the uniform's name
    to a location.
 */
module Uniforms {

  /** A linked program: its driver name and its location cache. */
  datatype Program = Program(id: nat, uniforms: map<string, int>)

  /** The driver's answer for a uniform of a program (-1 when absent). */
  type Query = (nat, string) -> int

  /** The result of a lookup, with whether the driver was asked. */
  datatype Lookup = Lookup(program: Program, location: int, queried: bool)

  /** A fresh program: nothing cached yet. */
  function NewProgram(id: nat): (p: Program)
    ensures p.id == id && p.uniforms == map[]
  {
    Program(id, map[])
  }

  /** `getUniformLocation`. */
  function GetUniformLocation(p: Program, name: string, query: Query): (r: Lookup)
    ensures name in p.uniforms ==> r.program == p && r.location == p.uniforms[name] && !r.queried
    ensures name !in p.uniforms ==>
              && r.queried
              && r.location == query(p.id, name)
              && r.program == p.(uniforms := p.uniforms[name := r.location])
    ensures r.program.id == p.id && r.program.uniforms.Keys == p.uniforms.Keys + {name}
    ensures forall n :: n in p.uniforms ==> r.program.uniforms[n] == p.uniforms[n]
  {
    if name in p.uniforms then
      Lookup(p, p.uniforms[name], false)
    else
      var loc := query(p.id, name);
      Lookup(p.(uniforms := p.uniforms[name := loc]), loc, true)
  }

  /** Every cached location is what the driver would answer. */
  ghost predicate Coherent(p: Program, query: Query) {
    forall n :: n in p.uniforms ==> p.uniforms[n] == query(p.id, n)
  }

  /** The cache is transparent: with a coherent cache, a lookup returns what
      the driver would have said, and the cache stays coherent. */
  lemma LookupMatchesDriver(p: Program, name: string, query: Query)
    requires Coherent(p, query)
    ensures GetUniformLocation(p, name, query).location == query(p.id, name)
    ensures Coherent(GetUniformLocation(p, name, query).program, query)
  {
  }

  /** A second lookup of the same name answers the same without asking the
      driver and without changing the cache. */
  lemma LookupTwice(p: Program, name: string, query: Query)
    ensures var first := GetUniformLocation(p, name, query);
            var second := GetUniformLocation(first.program, name, query);
            second.location == first.location && second.program == first.program && !second.queried
  {
  }

  /** The outcome of a run of lookups: the final program, the location
      returned for each name, and the names the driver was asked about, in
      order. */
  datatype Lookups = Lookups(program: Program, locations: seq<int>, queried: seq<string>)

  /** Looks up each name in turn. */
  function LookupAll(p: Program, names: seq<string>, query: Query): (r: Lookups)
    ensures |r.locations| == |names|
    decreases |names|
  {
    if |names| == 0 then Lookups(p, [], [])
    else
      var first := GetUniformLocation(p, names[0], query);
      var rest := LookupAll(first.program, names[1..], query);
      Lookups(rest.program, [first.location] + rest.locations,
              (if first.queried then [names[0]] else []) + rest.queried)
  }

  /** Over any run of lookups the driver is asked about each name at most
      once, never about a name that was already cached, and afterwards every
      looked-up name is cached. */
  lemma {:induction false} EachNameQueriedOnce(p: Program, names: seq<string>, query: Query)
    ensures var r := LookupAll(p, names, query);
      && (forall i, j :: 0 <= i < j < |r.queried| ==> r.queried[i] != r.queried[j])
      && (forall i :: 0 <= i < |r.queried| ==> r.queried[i] !in p.uniforms && r.queried[i] in names)
      && r.program.uniforms.Keys == p.uniforms.Keys + set n | n in names
    decreases |names|
  {
    if |names| > 0 {
      var first := GetUniformLocation(p, names[0], query);
      EachNameQueriedOnce(first.program, names[1..], query);
      var r := LookupAll(p, names, query);
      var rest := LookupAll(first.program, names[1..], query);
      assert forall n :: n in names[1..] ==> n in names;
      assert (set n | n in names) == {names[0]} + set n | n in names[1..];
      if first.queried {
        assert r.queried == [names[0]] + rest.queried;
        assert forall i :: 0 <= i < |rest.queried| ==> rest.queried[i] != names[0];
      } else {
        assert r.queried == rest.queried;
      }
    }
  }

  /** Starting from a coherent cache, every location a run of lookups
      returns is the driver's answer. */
  lemma {:induction false} LookupAllMatchesDriver(p: Program, names: seq<string>, query: Query)
    requires Coherent(p, query)
    ensures var r := LookupAll(p, names, query);
      Coherent(r.program, query) && forall i :: 0 <= i < |names| ==> r.locations[i] == query(p.id, names[i])
    decreases |names|
  {
    if |names| > 0 {
      var first := GetUniformLocation(p, names[0], query);
      LookupMatchesDriver(p, names[0], query);
      LookupAllMatchesDriver(first.program, names[1..], query);
    }
  }

  /** A freshly linked program's cache is coherent from the start, so every
      location any run of lookups on it returns is the driver's answer. */
  lemma FreshProgramMatchesDriver(id: nat, names: seq<string>, query: Query)
    ensures Coherent(NewProgram(id), query)
    ensures var r := LookupAll(NewProgram(id), names, query);
      Coherent(r.program, query) && forall i :: 0 <= i < |names| ==> r.locations[i] == query(id, names[i])
  {
    LookupAllMatchesDriver(NewProgram(id), names, query);
  }
}
