/**
 * Completeness check and merge of the server package's formats
 * (server/formats/formats.go). Both look only at the names of the declared
 * fields, so they are stated over that set; formats/formats.go has the same
 * two methods, line for line, and uses these definitions too.
 *
 * `Validate` and `SearchableAre` in server/formats/formats.go are the same
 * code as in boocat/formats.go and are modelled once, in BoocatFormats.
 */
module ServerFormats {
  import opened Results

  /** Format.IncompleteRecord: the record misses some declared field. */
  predicate IncompleteRecord(declared: set<string>, record: Record)
  {
    !(declared <= record.Keys)
  }

  /** IncompleteRecord holds exactly when some declared field is absent from the record. */
  lemma IncompleteRecordIffMissing(declared: set<string>, record: Record)
    ensures IncompleteRecord(declared, record) <==> exists name :: name in declared && name !in record
  {
  }

  /**
   * Format.Merge: for each declared field and for "id", the value of `p` if
   * it has one, else the value of `s` if it has one, else nothing.
   */
  function Merge(declared: set<string>, p: Record, s: Record): (m: Record)
    ensures m.Keys == (declared + {IdKey}) * (p.Keys + s.Keys)
  {
    map name | name in declared + {IdKey} && (name in p || name in s)
      :: if name in p then p[name] else s[name]
  }

  /** `s + p` kept to the given keys: the reference for Merge. */
  function Restrict(m: Record, keys: set<string>): (r: Record)
    ensures r.Keys == m.Keys * keys
    ensures forall k :: k in r ==> r[k] == m[k]
  {
    map k | k in m && k in keys :: m[k]
  }

  /** Merge is the union of both records, `p` winning, restricted to the declared fields and "id". */
  lemma MergeIsRestrictedUnion(declared: set<string>, p: Record, s: Record)
    ensures Merge(declared, p, s) == Restrict(s + p, declared + {IdKey})
  {
    var m := Merge(declared, p, s);
    var r := Restrict(s + p, declared + {IdKey});
    assert m.Keys == r.Keys;
    forall k | k in m
      ensures m[k] == r[k]
    {
    }
  }

  /** Undeclared keys other than "id" are dropped. */
  lemma MergeDropsUndeclared(declared: set<string>, p: Record, s: Record, name: string)
    requires name !in declared && name != IdKey
    ensures name !in Merge(declared, p, s)
  {
  }

  /** A declared field (or "id") takes `p`'s value if present, else `s`'s, else is omitted. */
  lemma MergeValue(declared: set<string>, p: Record, s: Record, name: string)
    requires name in declared || name == IdKey
    ensures name in p ==> name in Merge(declared, p, s) && Merge(declared, p, s)[name] == p[name]
    ensures name !in p && name in s ==> name in Merge(declared, p, s) && Merge(declared, p, s)[name] == s[name]
    ensures name !in p && name !in s ==> name !in Merge(declared, p, s)
  {
  }

  /** Merging with a complete stored record gives a complete record. */
  lemma MergeComplete(declared: set<string>, p: Record, s: Record)
    requires !IncompleteRecord(declared, s)
    ensures !IncompleteRecord(declared, Merge(declared, p, s))
  {
    var m := Merge(declared, p, s);
    forall name | name in declared
      ensures name in m
    {
      assert name in s;
    }
  }

  /** Merging the result again with the same stored record changes nothing. */
  lemma MergeIdempotent(declared: set<string>, p: Record, s: Record)
    ensures Merge(declared, Merge(declared, p, s), s) == Merge(declared, p, s)
  {
    var m := Merge(declared, p, s);
    var mm := Merge(declared, m, s);
    assert mm.Keys == m.Keys;
    forall k | k in mm
      ensures mm[k] == m[k]
    {
    }
  }

  /** A record that already holds exactly the declared fields and "id" merges to itself. */
  lemma MergeKeepsFullRecord(declared: set<string>, p: Record, s: Record)
    requires p.Keys == declared + {IdKey}
    ensures Merge(declared, p, s) == p
  {
    var m := Merge(declared, p, s);
    assert m.Keys == p.Keys;
    forall k | k in m
      ensures m[k] == p[k]
    {
    }
  }
}
