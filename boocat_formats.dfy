/**
 * Formats of the boocat package (boocat/formats.go): a format names its
 * fields, gives each an optional validator, and says which fields are
 * searchable. A validator returns "" when the value is valid and a
 * human-readable reason otherwise; the request context it also receives is
 * not modelled.
 */
module BoocatFormats {
  import opened Results

  /** A field validator: "" means valid, anything else is the reason it failed. */
  type Validator = string -> string

  /** `Fields` maps each declared field to its validator; `None` is a nil validator. */
  datatype Format = Format(name: string, fields: map<string, Option<Validator>>, searchable: set<string>)

  /** The zero `Format`, which Go yields for a name missing from a map of formats. */
  const ZeroFormat: Format := Format("", map[], {})

  /** The reason recorded for a field the format does not declare. */
  function NotAField(formatName: string): string
  {
    "not a field of format '" + formatName + "'"
  }

  /** Whether one non-id field value fails, and why. */
  predicate FieldFails(f: Format, name: string, value: string)
  {
    name !in f.fields || (f.fields[name].Some? && f.fields[name].value(value) != "")
  }

  function FieldReason(f: Format, name: string, value: string): string
  {
    if name in f.fields && f.fields[name].Some? then f.fields[name].value(value) else NotAField(f.name)
  }

  /**
   * Format.Validate: the map from every failing field of `record` to its
   * reason. The "id" field is never validated.
   */
  function Validate(f: Format, record: Record): (failed: map<string, string>)
  {
    map name | name in record && name != IdKey && FieldFails(f, name, record[name])
      :: FieldReason(f, name, record[name])
  }

  /** The failure map only names fields of the record, and never "id". */
  lemma ValidateKeys(f: Format, record: Record)
    ensures Validate(f, record).Keys <= record.Keys - {IdKey}
    ensures IdKey !in Validate(f, record)
  {
  }

  /** A field the format does not declare fails with "not a field of format '<Name>'". */
  lemma ValidateUndeclared(f: Format, record: Record, name: string)
    requires name in record && name != IdKey && name !in f.fields
    ensures name in Validate(f, record) && Validate(f, record)[name] == NotAField(f.name)
  {
  }

  /** A declared field with a nil validator never fails. */
  lemma ValidateNilValidator(f: Format, record: Record, name: string)
    requires name in f.fields && f.fields[name].None?
    ensures name !in Validate(f, record)
  {
  }

  /**
   * A declared field with a validator fails exactly when the validator
   * returns a non-empty string, and that string is the recorded reason.
   */
  lemma ValidateWithValidator(f: Format, record: Record, name: string)
    requires name in record && name != IdKey && name in f.fields && f.fields[name].Some?
    ensures name in Validate(f, record) <==> f.fields[name].value(record[name]) != ""
    ensures name in Validate(f, record) ==> Validate(f, record)[name] == f.fields[name].value(record[name])
  {
  }

  /** A record a format accepts: every non-id field is declared and passes its validator. */
  predicate Accepts(f: Format, record: Record)
  {
    forall name :: name in record && name != IdKey ==>
      name in f.fields && (f.fields[name].None? || f.fields[name].value(record[name]) == "")
  }

  /** Validation finds no failure exactly when the format accepts the record. */
  lemma ValidateEmptyIffAccepts(f: Format, record: Record)
    ensures |Validate(f, record)| == 0 <==> Accepts(f, record)
  {
    var failed := Validate(f, record);
    if |failed| == 0 {
      forall name | name in record && name != IdKey
        ensures name in f.fields && (f.fields[name].None? || f.fields[name].value(record[name]) == "")
      {
        assert name !in failed;
      }
    } else {
      var name :| name in failed;
      assert name in record && name != IdKey && FieldFails(f, name, record[name]);
    }
  }

  /**
   * With the zero format, which the service falls back to for an unknown
   * format name, every field but "id" fails as not a field of format ''.
   */
  lemma ZeroFormatRejectsEveryField(record: Record)
    ensures Validate(ZeroFormat, record).Keys == record.Keys - {IdKey}
    ensures forall name :: name in Validate(ZeroFormat, record) ==>
              Validate(ZeroFormat, record)[name] == "not a field of format ''"
  {
  }

  /**
   * Format.SearchableAre: a length comparison, then every given field must
   * be searchable.
   */
  predicate SearchableAre(f: Format, fields: set<string>)
  {
    |f.searchable| == |fields| && forall field :: field in fields ==> field in f.searchable
  }

  /** SearchableAre holds exactly when both sets hold the same names. */
  lemma SearchableAreIffEqual(f: Format, fields: set<string>)
    ensures SearchableAre(f, fields) <==> fields == f.searchable
  {
    if SearchableAre(f, fields) {
      SubsetOfSameSize(fields, f.searchable);
    }
  }
}
