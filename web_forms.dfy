/**
 * The request values the web handlers work with: the values submitted in
 * the query string and the posted form (webserver/server.go, web/server.go,
 * server.go), the merge of two maps in web/server.go, and the validation
 * flags webserver/server.go adds to the values it renders. Parsing the
 * request is not modelled: the query and the posted form are parameters
 * holding every value given for each key. Go fills these maps in place;
 * here the map each loop builds is returned.
 */
module WebForms {
  import opened Results
  import opened GoStd

  /** `url.Values`: every value given for each key, in order. */
  type Values = map<string, seq<string>>

  /** `Get` on every key: its first value, or "" when it has none. */
  function FirstValues(v: Values): (m: map<string, string>)
    ensures m.Keys == v.Keys
    ensures forall k :: k in m ==> m[k] == FirstValue(v[k])
  {
    map k | k in v :: FirstValue(v[k])
  }

  /** The union of two maps where the first map's value wins for a key both hold. */
  function PreferFirst(p: map<string, string>, s: map<string, string>): (m: map<string, string>)
    ensures m.Keys == p.Keys + s.Keys
  {
    map k | k in p.Keys + s.Keys :: if k in p then p[k] else s[k]
  }

  /** PreferFirst is Dafny's map union with the arguments swapped: the right-hand map wins there. */
  lemma PreferFirstIsUnion(p: map<string, string>, s: map<string, string>)
    ensures PreferFirst(p, s) == s + p
  {
  }

  /** Keys of the first map keep their value; keys only in the second bring theirs. */
  lemma PreferFirstValues(p: map<string, string>, s: map<string, string>, k: string)
    ensures k in p ==> PreferFirst(p, s)[k] == p[k]
    ensures k !in p && k in s ==> PreferFirst(p, s)[k] == s[k]
    ensures k !in p && k !in s ==> k !in PreferFirst(p, s)
  {
  }

  /** A map with the keys of both maps and, for each key, the first map's value if it has one, is their merge. */
  lemma PreferFirstByKeys(m: map<string, string>, p: map<string, string>, s: map<string, string>)
    requires forall k :: k in m <==> k in p || k in s
    requires forall k :: k in m ==> m[k] == if k in p then p[k] else s[k]
    ensures m == PreferFirst(p, s)
  {
    assert m.Keys == PreferFirst(p, s).Keys;
  }

  /** Merging the second map in again changes nothing, and an empty second map changes nothing. */
  lemma PreferFirstIdempotent(p: map<string, string>, s: map<string, string>)
    ensures PreferFirst(PreferFirst(p, s), s) == PreferFirst(p, s)
    ensures PreferFirst(p, map[]) == p
  {
  }

  /**
   * submittedFormValues of webserver/server.go and web/server.go: the query
   * parameters first, then the posted form fields, so a form value
   * replaces a query value of the same key.
   */
  method SubmittedFormValues(query: Values, form: Values) returns (values: map<string, string>)
    ensures values == PreferFirst(FirstValues(form), FirstValues(query))
  {
    values := FormValues(query);
    var rest := form.Keys;
    ghost var done: set<string> := {};
    while rest != {}
      invariant done + rest == form.Keys && done !! rest
      invariant forall k :: k in values <==> k in query || k in done
      invariant forall k :: k in values ==>
                  values[k] == if k in done then FirstValue(form[k]) else FirstValue(query[k])
      decreases |rest|
    {
      var field :| field in rest;
      values := values[field := FirstValue(form[field])];
      rest := rest - {field};
      done := done + {field};
    }
    PreferFirstByKeys(values, FirstValues(form), FirstValues(query));
  }

  /** submittedFormValues of server.go: the posted form fields only; the query string is ignored. */
  method FormValues(form: Values) returns (values: map<string, string>)
    ensures values.Keys == form.Keys
    ensures forall k :: k in values ==> values[k] == FirstValue(form[k])
  {
    values := map[];
    var rest := form.Keys;
    while rest != {}
      invariant rest <= form.Keys
      invariant forall k :: k in values <==> k in form && k !in rest
      invariant forall k :: k in values ==> values[k] == FirstValue(form[k])
      decreases |rest|
    {
      var field :| field in rest;
      values := values[field := FirstValue(form[field])];
      rest := rest - {field};
    }
  }

  /** With no query string, both versions of submittedFormValues give the form's values. */
  lemma FormValuesIgnoreQuery(form: Values)
    ensures PreferFirst(FirstValues(form), FirstValues(map[])) == FirstValues(form)
  {
    assert FirstValues(map[]) == map[];
  }

  /**
   * add of web/server.go: every key of `s` that `p` does not hold is added
   * to `p` with its value; the keys `p` holds keep their values.
   */
  method Add(p: map<string, string>, s: map<string, string>) returns (t: map<string, string>)
    ensures t == PreferFirst(p, s)
  {
    t := p;
    var rest := s.Keys;
    while rest != {}
      invariant rest <= s.Keys
      invariant forall k :: k in t <==> k in p || (k in s && k !in rest)
      invariant forall k :: k in p ==> t[k] == p[k]
      invariant forall k :: k in t && k !in p ==> k in s && t[k] == s[k]
      decreases |rest|
    {
      var key :| key in rest;
      if key !in t {
        t := t[key := s[key]];
      }
      rest := rest - {key};
    }
    PreferFirstByKeys(t, p, s);
  }

  /** The fail keys of the failed fields. */
  function FailKeys(failed: map<string, string>): set<string>
  {
    set f | f in failed :: FailKey(f)
  }

  /**
   * addValidationFails: each failed field `f` puts its reason under
   * "_<f>_fail"; every other key keeps its value.
   */
  method AddValidationFails(params: map<string, string>, failed: map<string, string>)
    returns (r: map<string, string>)
    ensures r.Keys == params.Keys + FailKeys(failed)
    ensures forall f :: f in failed ==> r[FailKey(f)] == failed[f]
    ensures forall k :: k in params && k !in FailKeys(failed) ==> r[k] == params[k]
  {
    r := params;
    var rest := failed.Keys;
    while rest != {}
      invariant rest <= failed.Keys
      invariant r.Keys == params.Keys + FailKeys(map f | f in failed && f !in rest :: failed[f])
      invariant forall f :: f in failed && f !in rest ==> r[FailKey(f)] == failed[f]
      invariant forall k :: k in params && k !in FailKeys(failed) ==> r[k] == params[k]
      decreases |rest|
    {
      var field :| field in rest;
      r := r[FailKey(field) := failed[field]];
      forall f | f in failed && f !in rest - {field}
        ensures r[FailKey(f)] == failed[f]
      {
        FailKeyInjective(f, field);
      }
      rest := rest - {field};
    }
    assert (map f | f in failed && f !in rest :: failed[f]) == failed;
  }
}
