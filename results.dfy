/** Option and Result wrappers, and the record shape shared by every version of the system. */
module Results {

  datatype Option<+T> = None | Some(value: T)

  /** A Go `(value, error)` pair where exactly one side is meaningful. */
  datatype Result<+T, +E> = Ok(value: T) | Err(error: E)

  /** A record is a Go `map[string]string`; the reserved key "id" holds its identifier. */
  type Record = map<string, string>

  const IdKey: string := "id"

  /** Go's `m[k]` on a `map[string]string`: the zero value "" when the key is absent. */
  function Lookup(m: map<string, string>, k: string): (v: string)
    ensures k in m ==> v == m[k]
    ensures k !in m ==> v == ""
  {
    if k in m then m[k] else ""
  }

  /**
   * The template key that flags a failed field: `"_" + name + "_fail"`.
   * Both formats/formats.go and webserver/server.go use this convention.
   */
  function FailKey(name: string): string
  {
    "_" + name + "_fail"
  }

  /** Different field names never share a fail key, so one field's flag cannot hide another's. */
  lemma FailKeyInjective(a: string, b: string)
    ensures FailKey(a) == FailKey(b) ==> a == b
  {
    if FailKey(a) == FailKey(b) {
      var k := FailKey(a);
      assert |a| == |b|;
      assert a == k[1..|k| - 5];
      assert b == FailKey(b)[1..|k| - 5];
    }
  }

  /** A subset as large as its superset is the whole superset. */
  lemma SubsetOfSameSize<T>(a: set<T>, b: set<T>)
    requires a <= b && |a| == |b|
    ensures a == b
  {
    if a != b {
      var x :| x in b && x !in a;
      assert a <= b - {x};
      assert |b - {x}| == |b| - 1;
      SubsetSize(a, b - {x});
    }
  }

  lemma SubsetSize<T>(a: set<T>, b: set<T>)
    requires a <= b
    ensures |a| <= |b|
  {
    assert b == a + (b - a);
  }
}
