/**
 * The formats package (formats/formats.go): a registry of formats rebuilt by
 * `Initialize`, lookups by name and by template-name suffix, and a
 * validation that flags failed fields with template keys.
 *
 * Here a validator answers true (valid) or false; the regular-expression,
 * reference and nil validators the registry is built from are parameters.
 * `IncompleteRecord` and `Merge` are the same code as in
 * server/formats/formats.go and are the ServerFormats definitions applied to
 * the format's field names.
 */
module Formats {
  import opened Results
  import opened GoStd
  import ServerFormats

  type Validator = string -> bool

  datatype Format = Format(name: string, fields: map<string, Validator>, searchable: string)

  const ZeroFormat: Format := Format("", map[], "")

  function AuthorFormat(nameValidator: Validator, yearValidator: Validator, nilValidator: Validator): Format
  {
    Format("author", map["name" := nameValidator, "birthdate" := yearValidator, "biography" := nilValidator], "name")
  }

  function BookFormat(nameValidator: Validator, yearValidator: Validator, authorValidator: Validator,
                      nilValidator: Validator): Format
  {
    Format("book", map["name" := nameValidator, "year" := yearValidator, "author" := authorValidator,
                       "synopsis" := nilValidator], "name")
  }

  /** The package-level map of formats. */
  class Registry {
    var formats: map<string, Format>

    /** Before `Initialize` the package-level map is nil: it holds nothing. */
    constructor ()
      ensures formats == map[]
    {
      formats := map[];
    }

    /** Initialize: replace the registry with the author and book formats. */
    method Initialize(nameValidator: Validator, yearValidator: Validator, authorValidator: Validator,
                      nilValidator: Validator)
      modifies this
      ensures formats.Keys == {"author", "book"}
      ensures formats["author"] == AuthorFormat(nameValidator, yearValidator, nilValidator)
      ensures formats["book"] == BookFormat(nameValidator, yearValidator, authorValidator, nilValidator)
    {
      formats := map[];
      formats := formats["author" := AuthorFormat(nameValidator, yearValidator, nilValidator)];
      formats := formats["book" := BookFormat(nameValidator, yearValidator, authorValidator, nilValidator)];
    }

    /** Get: the registered format and true, or the zero format and false. */
    function Get(name: string): (r: (Format, bool))
      reads this
      ensures r.1 <==> name in formats
      ensures r.1 ==> r.0 == formats[name]
      ensures !r.1 ==> r.0 == ZeroFormat
    {
      if name in formats then (formats[name], true) else (ZeroFormat, false)
    }

    /**
     * FormatForTemplate: some registered format whose name ends the template
     * name. Go visits the map in no fixed order, so when several names are
     * suffixes any of their formats may be returned.
     */
    method FormatForTemplate(templateName: string) returns (format: Format, found: bool)
      ensures found ==> exists name :: name in formats && HasSuffix(templateName, name) && formats[name] == format
      ensures !found ==> forall name :: name in formats ==> !HasSuffix(templateName, name)
      ensures !found ==> format == ZeroFormat
    {
      var rest := formats.Keys;
      while rest != {}
        invariant rest <= formats.Keys
        invariant forall name :: name in formats && name !in rest ==> !HasSuffix(templateName, name)
        decreases |rest|
      {
        var name :| name in rest;
        if HasSuffix(templateName, name) {
          return formats[name], true;
        }
        rest := rest - {name};
      }
      return ZeroFormat, false;
    }
  }

  /** Format.IncompleteRecord, on the format's field names. */
  predicate IncompleteRecord(f: Format, record: Record)
  {
    ServerFormats.IncompleteRecord(f.fields.Keys, record)
  }

  /** Format.Merge, on the format's field names. */
  function Merge(f: Format, p: Record, s: Record): (m: Record)
    ensures m.Keys <= f.fields.Keys + {IdKey}
    ensures forall name :: name in p && (name in f.fields || name == IdKey) ==> name in m && m[name] == p[name]
    ensures forall name :: name !in p && name in s && (name in f.fields || name == IdKey) ==> name in m && m[name] == s[name]
  {
    ServerFormats.Merge(f.fields.Keys, p, s)
  }

  /** A field of the record that the format does not accept. */
  predicate Rejected(f: Format, record: Record, name: string)
  {
    name in record && name != IdKey && (name !in f.fields || !f.fields[name](record[name]))
  }

  /**
   * Format.Validate: every rejected field `name` is flagged by the key
   * "_" + name + "_fail" with the value "_".
   */
  function Validate(f: Format, record: Record): (failed: map<string, string>)
  {
    map name | name in record && Rejected(f, record, name) :: FailKey(name) := "_"
  }

  /** A fail key is present exactly for the rejected fields, always with value "_". */
  lemma ValidateFlagsExactlyRejected(f: Format, record: Record, name: string)
    ensures FailKey(name) in Validate(f, record) <==> Rejected(f, record, name)
    ensures FailKey(name) in Validate(f, record) ==> Validate(f, record)[FailKey(name)] == "_"
  {
    var failed := Validate(f, record);
    if FailKey(name) in failed {
      var other :| other in record && Rejected(f, record, other) && FailKey(other) == FailKey(name);
      FailKeyInjective(other, name);
    }
  }

  /** Every key of the result is the fail key of some rejected field. */
  lemma ValidateKeysAreFailKeys(f: Format, record: Record)
    ensures forall k :: k in Validate(f, record) ==> exists name :: Rejected(f, record, name) && k == FailKey(name)
  {
  }

  /** "id" is never validated, so it is never flagged. */
  lemma ValidateNeverFlagsId(f: Format, record: Record)
    ensures FailKey(IdKey) !in Validate(f, record)
  {
    ValidateFlagsExactlyRejected(f, record, IdKey);
  }

  /** A record is flagged nowhere exactly when every non-id field is declared and accepted. */
  lemma ValidateEmptyIffAccepted(f: Format, record: Record)
    ensures |Validate(f, record)| == 0 <==>
            forall name :: name in record && name != IdKey ==> name in f.fields && f.fields[name](record[name])
  {
    var failed := Validate(f, record);
    if |failed| == 0 {
      forall name | name in record && name != IdKey
        ensures name in f.fields && f.fields[name](record[name])
      {
        ValidateFlagsExactlyRejected(f, record, name);
      }
    } else {
      var k :| k in failed;
    }
  }
}
